/** A monitor from its construction on: the theorems about runs, for the class itself. */
module NetlinkSessions {
  import opened Base
  import opened NetlinkSpec
  import opened NetlinkMonitors
  import opened NetlinkMirror
  import opened NetlinkQueries

  /** Init, and then one read from the socket after the other. */
  function SessionOps(batches: seq<seq<seq<Message>>>): seq<Op> {
    INIT_OPS + seq(|batches|, i requires 0 <= i < |batches| => Read(batches[i]))
  }

  lemma {:induction false} RunSnoc(s: State, ops: seq<Op>, op: Op)
    ensures RunOps(s, ops + [op]) == ApplyOp(RunOps(s, ops), op)
    decreases |ops|
  {
    if ops == [] {
      assert [] + [op] == [op] && [op][1..] == [];
    } else {
      assert (ops + [op])[1..] == ops[1..] + [op];
      RunSnoc(ApplyOp(s, ops[0]), ops[1..], op);
    }
  }

  lemma {:induction false} ReadsAreNotBegun(ops: seq<Op>, n: int)
    requires forall op | op in ops :: op.Read?
    ensures Queries(ops, n) == []
    decreases |ops|
  {
    if ops != [] {
      assert ops[0] in ops;
      ReadsAreNotBegun(ops[1..], n);
    }
  }

  lemma SessionQueries(batches: seq<seq<seq<Message>>>)
    ensures |Queries(SessionOps(batches), FIRST_SEQUENCE)| == 3
  {
    var tail: seq<Op> := seq(|batches|, i requires 0 <= i < |batches| => Read(batches[i]));
    var ops := SessionOps(batches);
    assert ops[0] == INIT_OPS[0] && ops[1..][0] == INIT_OPS[1] && ops[1..][1..][0] == INIT_OPS[2];
    assert ops[1..][1..][1..] == tail;
    ReadsAreNotBegun(tail, FIRST_SEQUENCE + 3);
    assert |Queries(ops[1..][1..], FIRST_SEQUENCE + 2)| == 1;
    assert |Queries(ops[1..], FIRST_SEQUENCE + 1)| == 2;
  }

  /** Starts a monitor and lets it read whatever arrives. Listeners mirror its public interfaces;
      and of its three queries it has sent one more than were answered, as far as there are any,
      if the kernel answers only what is outstanding. */
  method Session(batches: seq<seq<seq<Message>>>) returns (monitor: NetlinkMonitor)
    ensures monitor.Valid() && monitor.State() == RunOps(Initial(), SessionOps(batches))
    ensures Mirror(monitor.log) == Public(monitor.Table()) && Disciplined(monitor.log)
    ensures ObedientRun(Initial(), SessionOps(batches)) ==>
      |monitor.sent| == Min(3, AnswersInRun(SessionOps(batches)) + 1)
  {
    monitor := new NetlinkMonitor();
    monitor.Init();
    var i := 0;
    assert SessionOps(batches[..0]) == INIT_OPS;
    while i < |batches|
      invariant i <= |batches| && monitor.Valid() && fresh(monitor) && fresh(monitor.interfacesByIndex.Values)
      invariant monitor.State() == RunOps(Initial(), SessionOps(batches[..i]))
    {
      monitor.HandleRead(batches[i]);
      assert SessionOps(batches[..i + 1]) == SessionOps(batches[..i]) + [Read(batches[i])];
      RunSnoc(Initial(), SessionOps(batches[..i]), Read(batches[i]));
      i := i + 1;
    }
    assert batches[..i] == batches;
    MirrorAgreement(SessionOps(batches), []);
    SessionQueries(batches);
    if ObedientRun(Initial(), SessionOps(batches)) {
      StopAndWait(SessionOps(batches));
    }
  }
}
