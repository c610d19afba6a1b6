/** Stop-and-wait: with a kernel that only answers what it was asked, queries go out one at a
    time and in order. */
module NetlinkQueries {
  import opened Base
  import opened NetlinkSpec

  /** The queries a run begins, numbered from `n + 1` on. */
  function Queries(ops: seq<Op>, n: int): seq<Query>
    decreases |ops|
  {
    if ops == [] then []
    else
      match ops[0]
      case Begin(kind) => [Query(kind, n + 1)] + Queries(ops[1..], n + 1)
      case Read(_) => Queries(ops[1..], n)
  }

  function AnswersIn(ms: seq<Message>): nat {
    if ms == [] then 0 else (if Answers(ms[0]) then 1 else 0) + AnswersIn(ms[1..])
  }

  function AnswersInAll(ds: seq<seq<Message>>): nat {
    if ds == [] then 0 else AnswersIn(ds[0]) + AnswersInAll(ds[1..])
  }

  function AnswersInRun(ops: seq<Op>): nat {
    if ops == [] then 0
    else (if ops[0].Read? then AnswersInAll(ops[0].datagrams) else 0) + AnswersInRun(ops[1..])
  }

  /** The number of the query sent last, if it has not been answered. */
  function Outstanding(s: State): Option<int> {
    if s.sent != [] && s.sent[|s.sent| - 1].number > s.lastReceived then Some(s.sent[|s.sent| - 1].number) else None
  }

  // ---------- a kernel that answers only the outstanding query ----------

  predicate Obedient(s: State, ms: seq<Message>)
    decreases |ms|
  {
    ms != [] ==>
      && (Answers(ms[0]) ==> Outstanding(s) == Some(AsInt32(ms[0].number)))
      && Obedient(ApplyMessage(s, ms[0]), ms[1..])
  }

  predicate ObedientRead(s: State, ds: seq<seq<Message>>)
    decreases |ds|
  {
    ds != [] ==> Obedient(s, ds[0]) && ObedientRead(ReadDatagram(s, ds[0]), ds[1..])
  }

  predicate ObedientRun(s: State, ops: seq<Op>)
    decreases |ops|
  {
    ops != [] ==>
      && (ops[0].Read? ==> ObedientRead(s, ops[0].datagrams))
      && ObedientRun(ApplyOp(s, ops[0]), ops[1..])
  }

  // ---------- the invariant ----------

  /** `k` answers have arrived, and `begun` are the queries begun so far. */
  predicate InStep(s: State, begun: seq<Query>, k: nat) {
    && s.sent + s.unsent == begun
    && (forall i :: 0 <= i < |begun| ==> begun[i].number == FIRST_SEQUENCE + 1 + i)
    && s.sequence == FIRST_SEQUENCE + |begun|
    && s.lastReceived == FIRST_SEQUENCE + k
    && k <= |s.sent| <= k + 1
  }

  /** Between datagrams no query waits without one being outstanding. */
  predicate Idle(s: State, begun: seq<Query>, k: nat) {
    InStep(s, begun, k) && |s.sent| == Min(|begun|, k + 1)
  }

  lemma LastSent(s: State, begun: seq<Query>, k: nat)
    requires InStep(s, begun, k)
    ensures s.sent != [] ==> s.sent[|s.sent| - 1].number == FIRST_SEQUENCE + |s.sent|
    ensures Outstanding(s) == if |s.sent| == k + 1 then Some(FIRST_SEQUENCE + k + 1) else None
  {
    if s.sent != [] {
      assert s.sent[|s.sent| - 1] == begun[|s.sent| - 1];
    }
  }

  lemma {:induction false} DeliverInStep(s: State, begun: seq<Query>, k: nat, ms: seq<Message>)
    requires InStep(s, begun, k) && Obedient(s, ms)
    ensures InStep(Deliver(s, ms), begun, k + AnswersIn(ms))
    ensures Deliver(s, ms).sent == s.sent
    decreases |ms|
  {
    if ms != [] {
      LastSent(s, begun, k);
      var next := k + if Answers(ms[0]) then 1 else 0;
      var t := ApplyMessage(s, ms[0]);
      assert InStep(t, begun, next);
      DeliverInStep(t, begun, next, ms[1..]);
    }
  }

  lemma {:induction false} DatagramInStep(s: State, begun: seq<Query>, k: nat, ms: seq<Message>)
    requires Idle(s, begun, k) && Obedient(s, ms)
    ensures Idle(ReadDatagram(s, ms), begun, k + AnswersIn(ms))
  {
    DeliverInStep(s, begun, k, ms);
    var t := Deliver(s, ms);
    var j := k + AnswersIn(ms);
    if t.unsent != [] && j > k {
      var u := t.(sent := t.sent + [t.unsent[0]], unsent := t.unsent[1..]);
      assert t.unsent == [t.unsent[0]] + t.unsent[1..];
      Assoc(t.sent, [t.unsent[0]], t.unsent[1..]);
      assert SendUnsent(u, s.lastReceived + 1) == u;
    }
  }

  lemma {:induction false} ReadInStep(s: State, begun: seq<Query>, k: nat, ds: seq<seq<Message>>)
    requires Idle(s, begun, k) && ObedientRead(s, ds)
    ensures Idle(ReadDatagrams(s, ds), begun, k + AnswersInAll(ds))
    decreases |ds|
  {
    if ds != [] {
      DatagramInStep(s, begun, k, ds[0]);
      ReadInStep(ReadDatagram(s, ds[0]), begun, k + AnswersIn(ds[0]), ds[1..]);
    }
  }

  lemma BeginInStep(s: State, begun: seq<Query>, k: nat, kind: QueryKind)
    requires Idle(s, begun, k)
    ensures Idle(BeginQuery(s, kind), begun + [Query(kind, s.sequence + 1)], k)
  {
    var q := Query(kind, s.sequence + 1);
    Assoc(s.sent, s.unsent, [q]);
    if s.lastReceived == s.sequence {
      assert s.unsent == [];
      assert s.sent + s.unsent == s.sent;
      assert s.sent + [q] + [] == s.sent + [q];
    }
  }

  lemma {:induction false} RunInStep(s: State, begun: seq<Query>, k: nat, ops: seq<Op>)
    requires Idle(s, begun, k) && ObedientRun(s, ops)
    ensures Idle(RunOps(s, ops), begun + Queries(ops, s.sequence), k + AnswersInRun(ops))
    decreases |ops|
  {
    if ops == [] {
      assert begun + [] == begun;
    } else {
      var t := ApplyOp(s, ops[0]);
      match ops[0]
      case Begin(kind) =>
        var q := Query(kind, s.sequence + 1);
        BeginInStep(s, begun, k, kind);
        RunInStep(t, begun + [q], k, ops[1..]);
        Assoc(begun, [q], Queries(ops[1..], s.sequence + 1));
      case Read(ds) =>
        ReadInStep(s, begun, k, ds);
        RunInStep(t, begun, k + AnswersInAll(ds), ops[1..]);
    }
  }

  /** Stop-and-wait: however queries are begun and messages arrive, `k` answers to `n` queries
      leave exactly the first min(n, k + 1) sent, in order, and the others queued in order. */
  lemma StopAndWait(ops: seq<Op>)
    requires ObedientRun(Initial(), ops)
    ensures var s, queries, k := RunOps(Initial(), ops), Queries(ops, FIRST_SEQUENCE), AnswersInRun(ops);
      && s.lastReceived == FIRST_SEQUENCE + k
      && |s.sent| == Min(|queries|, k + 1)
      && s.sent == queries[..|s.sent|] && s.unsent == queries[|s.sent|..]
  {
    RunInStep(Initial(), [], 0, ops);
    assert [] + Queries(ops, FIRST_SEQUENCE) == Queries(ops, FIRST_SEQUENCE);
  }

  // ---------- exactly when at most one query is outstanding ----------

  /** The number sent is the number last answered or one more. */
  predicate OneOutstanding(s: State) {
    0 <= FIRST_SEQUENCE + |s.sent| - s.lastReceived <= 1
  }

  /** OneOutstanding in every state of the message loop. */
  predicate AlwaysDelivering(s: State, ms: seq<Message>)
    decreases |ms|
  {
    OneOutstanding(s) && (ms != [] ==> AlwaysDelivering(ApplyMessage(s, ms[0]), ms[1..]))
  }

  /** And in every state of the sending loop. */
  predicate AlwaysSending(s: State, since: int)
    decreases |s.unsent|
  {
    && OneOutstanding(s)
    && (s.unsent != [] && since < s.lastReceived ==>
          AlwaysSending(s.(sent := s.sent + [s.unsent[0]], unsent := s.unsent[1..]), since + 1))
  }

  predicate AlwaysReading(s: State, ds: seq<seq<Message>>)
    decreases |ds|
  {
    ds != [] ==>
      && AlwaysDelivering(s, ds[0])
      && AlwaysSending(Deliver(s, ds[0]), s.lastReceived)
      && AlwaysReading(ReadDatagram(s, ds[0]), ds[1..])
  }

  /** In every state of a run. */
  predicate AlwaysOne(s: State, ops: seq<Op>)
    decreases |ops|
  {
    && OneOutstanding(s)
    && (ops != [] ==>
          && (ops[0].Read? ==> AlwaysReading(s, ops[0].datagrams))
          && AlwaysOne(ApplyOp(s, ops[0]), ops[1..]))
  }

  /** An answer carries the number of the query sent last or of the one before it. */
  predicate Near(s: State, m: Message) {
    Answers(m) ==> 0 <= FIRST_SEQUENCE + |s.sent| - AsInt32(m.number) <= 1
  }

  predicate NearAll(s: State, ms: seq<Message>)
    decreases |ms|
  {
    ms != [] ==> Near(s, ms[0]) && NearAll(ApplyMessage(s, ms[0]), ms[1..])
  }

  predicate NearRead(s: State, ds: seq<seq<Message>>)
    decreases |ds|
  {
    ds != [] ==> NearAll(s, ds[0]) && NearRead(ReadDatagram(s, ds[0]), ds[1..])
  }

  predicate NearRun(s: State, ops: seq<Op>)
    decreases |ops|
  {
    ops != [] ==>
      && (ops[0].Read? ==> NearRead(s, ops[0].datagrams))
      && NearRun(ApplyOp(s, ops[0]), ops[1..])
  }

  /** `begun` has been sent or queued, in order, and none waits without one being outstanding. */
  predicate Paced(s: State, begun: seq<Query>) {
    && OneOutstanding(s)
    && s.sent + s.unsent == begun
    && s.sequence == FIRST_SEQUENCE + |begun|
    && |s.sent| == Min(|begun|, s.lastReceived - FIRST_SEQUENCE + 1)
  }

  lemma {:induction false} DeliverNear(s: State, ms: seq<Message>)
    requires OneOutstanding(s)
    ensures AlwaysDelivering(s, ms) <==> NearAll(s, ms)
    ensures NearAll(s, ms) ==> OneOutstanding(Deliver(s, ms))
    ensures var t := Deliver(s, ms); t.sent == s.sent && t.unsent == s.unsent && t.sequence == s.sequence
    decreases |ms|
  {
    if ms != [] {
      var t := ApplyMessage(s, ms[0]);
      assert OneOutstanding(t) <==> Near(s, ms[0]);
      if Near(s, ms[0]) {
        DeliverNear(t, ms[1..]);
      } else {
        DeliverOnly(t, ms[1..]);
      }
    }
  }

  lemma {:induction false} DeliverOnly(s: State, ms: seq<Message>)
    ensures var t := Deliver(s, ms); t.sent == s.sent && t.unsent == s.unsent && t.sequence == s.sequence
    decreases |ms|
  {
    if ms != [] {
      DeliverOnly(ApplyMessage(s, ms[0]), ms[1..]);
    }
  }

  /** The sending loop behind a datagram that moved the answer counter within its bounds. */
  lemma SendPaced(s: State, t: State, begun: seq<Query>)
    requires Paced(s, begun) && OneOutstanding(t)
    requires t.sent == s.sent && t.unsent == s.unsent && t.sequence == s.sequence
    ensures AlwaysSending(t, s.lastReceived) && Paced(SendUnsent(t, s.lastReceived), begun)
  {
    if t.unsent != [] && s.lastReceived < t.lastReceived {
      var u := t.(sent := t.sent + [t.unsent[0]], unsent := t.unsent[1..]);
      assert t.unsent == [t.unsent[0]] + t.unsent[1..];
      Assoc(t.sent, [t.unsent[0]], t.unsent[1..]);
      assert SendUnsent(u, s.lastReceived + 1) == u;
    }
  }

  lemma {:induction false} ReadNear(s: State, begun: seq<Query>, ds: seq<seq<Message>>)
    requires Paced(s, begun)
    ensures AlwaysReading(s, ds) <==> NearRead(s, ds)
    ensures NearRead(s, ds) ==> Paced(ReadDatagrams(s, ds), begun)
    decreases |ds|
  {
    if ds != [] {
      DeliverNear(s, ds[0]);
      if NearAll(s, ds[0]) {
        SendPaced(s, Deliver(s, ds[0]), begun);
        ReadNear(ReadDatagram(s, ds[0]), begun, ds[1..]);
      }
    }
  }

  lemma BeginPaced(s: State, begun: seq<Query>, kind: QueryKind)
    requires Paced(s, begun)
    ensures Paced(BeginQuery(s, kind), begun + [Query(kind, s.sequence + 1)])
  {
    var q := Query(kind, s.sequence + 1);
    Assoc(s.sent, s.unsent, [q]);
    if s.lastReceived == s.sequence {
      assert s.unsent == [];
      assert s.sent + s.unsent == s.sent;
      assert s.sent + [q] + [] == s.sent + [q];
    }
  }

  lemma {:induction false} RunNear(s: State, begun: seq<Query>, ops: seq<Op>)
    requires Paced(s, begun)
    ensures AlwaysOne(s, ops) <==> NearRun(s, ops)
    ensures NearRun(s, ops) ==> Paced(RunOps(s, ops), begun + Queries(ops, s.sequence))
    decreases |ops|
  {
    if ops == [] {
      assert begun + [] == begun;
    } else {
      var t := ApplyOp(s, ops[0]);
      match ops[0]
      case Begin(kind) =>
        var q := Query(kind, s.sequence + 1);
        BeginPaced(s, begun, kind);
        RunNear(t, begun + [q], ops[1..]);
        Assoc(begun, [q], Queries(ops[1..], s.sequence + 1));
      case Read(ds) =>
        ReadNear(s, begun, ds);
        if NearRead(s, ds) {
          RunNear(t, begun, ops[1..]);
        }
    }
  }

  /** At most one query is outstanding in every state of a run, within both loops too, exactly if
      every answer carries the number of the query sent last or of the one before it. */
  lemma AtMostOneExactly(ops: seq<Op>)
    ensures AlwaysOne(Initial(), ops) <==> NearRun(Initial(), ops)
  {
    RunNear(Initial(), [], ops);
  }

  /** The queries of such a run have gone out in order up to the one behind the last number
      answered, and the others are queued in order. */
  lemma NearStopAndWait(ops: seq<Op>)
    requires NearRun(Initial(), ops)
    ensures var s, queries := RunOps(Initial(), ops), Queries(ops, FIRST_SEQUENCE);
      && OneOutstanding(s) && |s.sent| == Min(|queries|, s.lastReceived - FIRST_SEQUENCE + 1)
      && s.sent == queries[..|s.sent|] && s.unsent == queries[|s.sent|..]
  {
    RunNear(Initial(), [], ops);
    assert [] + Queries(ops, FIRST_SEQUENCE) == Queries(ops, FIRST_SEQUENCE);
  }

  /** In particular with a kernel that answers only the outstanding query. */
  lemma AtMostOneOutstanding(ops: seq<Op>, ms: seq<Message>)
    requires ObedientRun(Initial(), ops) && Obedient(RunOps(Initial(), ops), ms)
    ensures var s := Deliver(RunOps(Initial(), ops), ms);
      0 <= FIRST_SEQUENCE + |s.sent| - s.lastReceived <= 1
  {
    var queries := Queries(ops, FIRST_SEQUENCE);
    RunInStep(Initial(), [], 0, ops);
    assert [] + queries == queries;
    DeliverInStep(RunOps(Initial(), ops), queries, AnswersInRun(ops), ms);
  }

  /** An answer that is not near: one number of the kernel's own making sends all waiting queries
      at once. */
  lemma ForgedAnswerSendsAll(kind: QueryKind)
    ensures var s := RunOps(Initial(), [Begin(kind), Begin(kind), Begin(kind), Read([[Message(39, Done)]])]);
      |s.sent| == 3 && s.unsent == []
  {
    var read := Read([[Message(39, Done)]]);
    assert [Begin(kind), Begin(kind), Begin(kind), read][1..] == [Begin(kind), Begin(kind), read];
    assert [Begin(kind), Begin(kind), read][1..] == [Begin(kind), read];
    assert [Begin(kind), read][1..] == [read] && [read][1..] == [];
    var q1, q2, q3 := Query(kind, 37), Query(kind, 38), Query(kind, 39);
    var s1 := State(37, 36, [], map[], [], [q1]);
    var s2 := State(38, 36, [q2], map[], [], [q1]);
    var s3 := State(39, 36, [q2, q3], map[], [], [q1]);
    assert [] + [q1] == [q1] && [] + [q2] == [q2];
    assert BeginQuery(Initial(), kind) == s1 && BeginQuery(s1, kind) == s2 && BeginQuery(s2, kind) == s3;
    var s4 := State(39, 39, [q2, q3], map[], [], [q1]);
    assert [Message(39, Done)][1..] == [];
    assert Deliver(s3, [Message(39, Done)]) == s4;
    var s5 := State(39, 39, [q3], map[], [], [q1, q2]);
    var s6 := State(39, 39, [], map[], [], [q1, q2, q3]);
    assert [q2, q3][1..] == [q3] && [q3][1..] == [];
    assert [q1] + [q2] == [q1, q2] && [q1, q2] + [q3] == [q1, q2, q3];
    assert SendUnsent(s6, 38) == s6;
    assert SendUnsent(s5, 37) == s6;
    assert SendUnsent(s4, 36) == s6;
    assert read.datagrams[1..] == [];
    assert ReadDatagrams(s3, read.datagrams) == s6;
    assert RunOps(s3, [read]) == s6;
    assert RunOps(s2, [Begin(kind), read]) == s6;
    assert RunOps(s1, [Begin(kind), Begin(kind), read]) == s6;
  }
}
