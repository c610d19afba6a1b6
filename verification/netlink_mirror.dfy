/** What a listener learns from the notices: over every run it can mirror the monitor's public
    interfaces, and it never hears anything out of order. */
module NetlinkMirror {
  import opened Base
  import opened IpText
  import opened NetlinkSpec

  // ---------- the listener ----------

  /** One known interface after a notice about it. Only the deltas are used, not the snapshots
      that come with them. */
  function Adjust(info: Info, n: Notice): Info {
    match n
    case InterfaceCreated(created) => created
    case LinkUp(_) => info.(linkActive := true)
    case LinkDown(_) => info.(linkActive := false)
    case Ip4AddressAdded(_, a) => info.(ip4 := info.ip4[a.address := a])
    case Ip4AddressRemoved(_, a) => info.(ip4 := info.ip4 - {a.address})
    case Ip6AddressAdded(_, a) => info.(ip6 := info.ip6 + {a})
    case Ip6AddressRemoved(_, a) => info.(ip6 := info.ip6 - {a})
  }

  /** What a listener knows of one interface; it starts from the InterfaceCreated snapshot. */
  function ReplayOne(known: Option<Info>, n: Notice): Option<Info> {
    if n.InterfaceCreated? then Some(n.info)
    else if known.Some? then Some(Adjust(known.value, n))
    else None
  }

  function Find(mirror: Table, index: int): Option<Info> {
    if index in mirror then Some(mirror[index]) else None
  }

  function Replay(mirror: Table, n: Notice): Table {
    match ReplayOne(Find(mirror, n.info.index), n)
    case Some(info) => mirror[n.info.index := info]
    case None => mirror
  }

  /** The mirror a listener holds after hearing `log`. */
  function Mirror(log: seq<Notice>): Table {
    if log == [] then map[] else Replay(Mirror(log[..|log| - 1]), log[|log| - 1])
  }

  /** The part of the monitor's table that listeners are told about. */
  function Public(t: Table): Table {
    map i | i in t && t[i].isPublic :: t[i]
  }

  // ---------- order of notices, told from the log alone ----------

  /** The link status last reported for an interface, if it was ever mentioned. */
  function LinkStatus(log: seq<Notice>, index: int): Option<bool> {
    if log == [] then None
    else
      var n := log[|log| - 1];
      if n.info.index != index then LinkStatus(log[..|log| - 1], index)
      else
        match n
        case InterfaceCreated(info) => Some(info.linkActive)
        case LinkUp(_) => Some(true)
        case LinkDown(_) => Some(false)
        case _ => LinkStatus(log[..|log| - 1], index)
  }

  /** Whether an address was last reported as there. Addresses in the InterfaceCreated snapshot
      count as reported. */
  predicate Has4(log: seq<Notice>, index: int, a: Ip4) {
    log != [] &&
      var n := log[|log| - 1];
      if n.info.index == index && n.InterfaceCreated? then a in n.info.ip4
      else if n.info.index == index && n.Ip4AddressAdded? && n.ip4.address == a then true
      else if n.info.index == index && n.Ip4AddressRemoved? && n.ip4.address == a then false
      else Has4(log[..|log| - 1], index, a)
  }

  predicate Has6(log: seq<Notice>, index: int, a: Ip6) {
    log != [] &&
      var n := log[|log| - 1];
      if n.info.index == index && n.InterfaceCreated? then a in n.info.ip6
      else if n.info.index == index && n.Ip6AddressAdded? && n.ip6 == a then true
      else if n.info.index == index && n.Ip6AddressRemoved? && n.ip6 == a then false
      else Has6(log[..|log| - 1], index, a)
  }

  /** A notice that may follow `log`: an interface is created once and before anything else, and
      every other notice reports a change. */
  predicate Fits(log: seq<Notice>, n: Notice) {
    var status := LinkStatus(log, n.info.index);
    match n
    case InterfaceCreated(_) => status.None?
    case LinkUp(_) => status == Some(false)
    case LinkDown(_) => status == Some(true)
    case Ip4AddressAdded(_, a) => status.Some? && !Has4(log, n.info.index, a.address)
    case Ip4AddressRemoved(_, a) => status.Some? && Has4(log, n.info.index, a.address)
    case Ip6AddressAdded(_, a) => status.Some? && !Has6(log, n.info.index, a)
    case Ip6AddressRemoved(_, a) => status.Some? && Has6(log, n.info.index, a)
  }

  predicate Disciplined(log: seq<Notice>) {
    forall k :: 0 <= k < |log| ==> Fits(log[..k], log[k])
  }

  /** Each snapshot is what the listener itself holds once it has heard the notice. */
  predicate Truthful(log: seq<Notice>) {
    forall k :: 0 <= k < |log| ==> Find(Mirror(log[..k + 1]), log[k].info.index) == Some(log[k].info)
  }

  // ---------- log and mirror ----------

  /** In a disciplined log the last reports are what the mirror says. */
  lemma {:induction false} ReportsAreMirrored(log: seq<Notice>, index: int)
    requires Disciplined(log)
    ensures LinkStatus(log, index).Some? == (index in Mirror(log))
    ensures index in Mirror(log) ==> LinkStatus(log, index) == Some(Mirror(log)[index].linkActive)
    ensures index in Mirror(log) ==> forall a :: Has4(log, index, a) == (a in Mirror(log)[index].ip4)
    ensures index in Mirror(log) ==> forall a :: Has6(log, index, a) == (a in Mirror(log)[index].ip6)
  {
    if log != [] {
      var n := |log| - 1;
      var before := log[..n];
      assert Disciplined(before) by {
        forall k | 0 <= k < |before|
          ensures Fits(before[..k], before[k])
        {
          assert before[..k] == log[..k];
        }
      }
      ReportsAreMirrored(before, index);
      assert Fits(before, log[n]);
      if log[n].info.index == index {
        ReportStep(before, log[n], Mirror(before));
      }
    }
  }

  /** The same for one more notice about the interface. */
  lemma ReportStep(log: seq<Notice>, n: Notice, mirror: Table)
    requires var i := n.info.index;
      && LinkStatus(log, i).Some? == (i in mirror) && Fits(log, n)
      && (i in mirror ==> LinkStatus(log, i) == Some(mirror[i].linkActive)
                          && (forall a :: Has4(log, i, a) == (a in mirror[i].ip4))
                          && (forall a :: Has6(log, i, a) == (a in mirror[i].ip6)))
    ensures var i, next := n.info.index, Replay(mirror, n);
      && i in next && LinkStatus(log + [n], i) == Some(next[i].linkActive)
      && (forall a :: Has4(log + [n], i, a) == (a in next[i].ip4))
      && (forall a :: Has6(log + [n], i, a) == (a in next[i].ip6))
  {
    assert (log + [n])[..|log|] == log;
  }

  // ---------- the monitor ----------

  /** What a listener should know of an interface. */
  function Shown(info: Info): Option<Info> {
    if info.isPublic then Some(info) else None
  }

  predicate AgreesBody(t: Table, log: seq<Notice>) {
    && (forall i :: i in t ==> t[i].index == i)
    && Mirror(log) == Public(t)
    && Disciplined(log)
    && Truthful(log)
  }

  ghost predicate Unlock(key: int) {
    true
  }

  /** The monitor's table and everything broadcast so far. Kept under a lock. */
  ghost predicate Agrees(t: Table, log: seq<Notice>) {
    forall key: int {:trigger Unlock(key)} :: Unlock(key) ==> AgreesBody(t, log)
  }

  lemma Open(t: Table, log: seq<Notice>)
    requires Agrees(t, log)
    ensures AgreesBody(t, log)
  {
    assert Unlock(0);
  }

  /** A notice about an interface that listeners see as `known`, if they see it. */
  predicate Suits(known: Option<Info>, n: Notice) {
    match n
    case InterfaceCreated(_) => known.None?
    case LinkUp(_) => known.Some? && !known.value.linkActive
    case LinkDown(_) => known.Some? && known.value.linkActive
    case Ip4AddressAdded(_, a) => known.Some? && a.address !in known.value.ip4
    case Ip4AddressRemoved(_, a) => known.Some? && a.address in known.value.ip4
    case Ip6AddressAdded(_, a) => known.Some? && a !in known.value.ip6
    case Ip6AddressRemoved(_, a) => known.Some? && a in known.value.ip6
  }

  /** At most one notice, and with it listeners see what they should. */
  predicate Announced(info: Info, c: Change) {
    && c.info.index == info.index
    && (info.isPublic ==> c.info.isPublic)
    && if c.notices == [] then Shown(c.info) == Shown(info)
       else
         && |c.notices| == 1 && c.notices[0].info == c.info && c.info.isPublic
         && Suits(Shown(info), c.notices[0]) && ReplayOne(Shown(info), c.notices[0]) == Some(c.info)
  }

  lemma PublishIsAnnounced(info: Info, name: Option<bytes>)
    ensures Announced(info, Publish(info, name))
  {
  }

  lemma SetLinkIsAnnounced(info: Info, up: bool)
    ensures Announced(info, SetLink(info, up))
  {
  }

  lemma Ip4IsAnnounced(info: Info, deleted: bool, a: Ip4Info)
    ensures Announced(info, ChangeIp4(info, deleted, a))
  {
  }

  lemma Ip6IsAnnounced(info: Info, deleted: bool, a: Ip6)
    ensures Announced(info, ChangeIp6(info, deleted, a))
  {
  }

  lemma AppendNotice(log: seq<Notice>, n: Notice)
    requires Disciplined(log) && Truthful(log) && Fits(log, n)
    requires Find(Replay(Mirror(log), n), n.info.index) == Some(n.info)
    ensures Disciplined(log + [n]) && Truthful(log + [n]) && Mirror(log + [n]) == Replay(Mirror(log), n)
  {
    var longer := log + [n];
    assert longer[..|log|] == log && longer[..|log| + 1] == longer;
    forall k | 0 <= k < |longer|
      ensures Fits(longer[..k], longer[k])
      ensures Find(Mirror(longer[..k + 1]), longer[k].info.index) == Some(longer[k].info)
    {
      if k < |log| {
        assert longer[..k] == log[..k] && longer[..k + 1] == log[..k + 1];
      }
    }
  }

  lemma SilentKeeps(t: Table, log: seq<Notice>, i: int, c: Change)
    requires Agrees(t, log) && Announced(InfoAt(t, i), c) && c.notices == []
    ensures Agrees(t[i := c.info], log)
  {
    Open(t, log);
    assert Public(t[i := c.info]) == Public(t);
    assert AgreesBody(t[i := c.info], log);
  }

  lemma NoticeFits(t: Table, log: seq<Notice>, i: int, n: Notice)
    requires AgreesBody(t, log) && n.info.index == i && Suits(Shown(InfoAt(t, i)), n)
    ensures Fits(log, n) && Find(Mirror(log), i) == Shown(InfoAt(t, i))
  {
    ReportsAreMirrored(log, i);
  }

  lemma SpokenKeeps(t: Table, log: seq<Notice>, i: int, c: Change)
    requires Agrees(t, log) && Announced(InfoAt(t, i), c) && c.notices != []
    ensures Agrees(t[i := c.info], log + c.notices)
  {
    Open(t, log);
    var n := c.notices[0];
    assert c.notices == [n];
    NoticeFits(t, log, i, n);
    assert Replay(Mirror(log), n) == Mirror(log)[i := c.info];
    AppendNotice(log, n);
    assert Public(t[i := c.info]) == Public(t)[i := c.info];
    assert AgreesBody(t[i := c.info], log + c.notices);
  }

  /** An announced change of one interface keeps log and table in step. */
  lemma AnnouncedKeeps(t: Table, log: seq<Notice>, i: int, c: Change)
    requires Agrees(t, log) && Announced(InfoAt(t, i), c)
    ensures Agrees(t[i := c.info], log + c.notices)
  {
    if c.notices == [] {
      assert log + [] == log;
      SilentKeeps(t, log, i, c);
    } else {
      SpokenKeeps(t, log, i, c);
    }
  }

  /** Two changes of one interface in a row. */
  lemma BothKeep(t: Table, log: seq<Notice>, i: int, first: Change, second: Change)
    requires Agrees(t, log) && Announced(InfoAt(t, i), first) && Announced(first.info, second)
    ensures Agrees(t[i := second.info], log + (first.notices + second.notices))
  {
    AnnouncedKeeps(t, log, i, first);
    AnnouncedKeeps(t[i := first.info], log + first.notices, i, second);
    Assoc(log, first.notices, second.notices);
    assert t[i := first.info][i := second.info] == t[i := second.info];
  }

  lemma LinkKeeps(t: Table, log: seq<Notice>, i: int, name: Option<bytes>, up: bool)
    requires Agrees(t, log)
    ensures var c := ChangeLink(InfoAt(t, i), name, up); Agrees(t[i := c.info], log + c.notices)
  {
    var first := Publish(InfoAt(t, i), name);
    PublishIsAnnounced(InfoAt(t, i), name);
    SetLinkIsAnnounced(first.info, up);
    BothKeep(t, log, i, first, SetLink(first.info, up));
  }

  lemma BodyKeeps(s: State, b: Body)
    requires Agrees(s.table, s.log)
    ensures Agrees(ApplyBody(s, b).table, ApplyBody(s, b).log)
  {
    if ConcernsInterface(b) {
      var i, info := b.index, InfoAt(s.table, b.index);
      match b
      case Link(_, _, name, up) =>
        LinkKeeps(s.table, s.log, i, name, up);
      case Address4(deleted, _, a) =>
        Ip4IsAnnounced(info, deleted, a);
        AnnouncedKeeps(s.table, s.log, i, ChangeIp4(info, deleted, a));
      case Address6(deleted, _, a) =>
        Ip6IsAnnounced(info, deleted, a);
        AnnouncedKeeps(s.table, s.log, i, ChangeIp6(info, deleted, a));
      case AddressOther(_, _) =>
        AnnouncedKeeps(s.table, s.log, i, Change(info, []));
    }
  }

  lemma {:induction false} DeliverKeeps(s: State, ms: seq<Message>)
    requires Agrees(s.table, s.log)
    ensures Agrees(Deliver(s, ms).table, Deliver(s, ms).log)
    decreases |ms|
  {
    if ms != [] {
      var m := ms[0];
      BodyKeeps(if Answers(m) then s.(lastReceived := AsInt32(m.number)) else s, m.body);
      DeliverKeeps(ApplyMessage(s, m), ms[1..]);
    }
  }

  lemma {:induction false} SendingKeeps(s: State, since: int)
    ensures SendUnsent(s, since).table == s.table && SendUnsent(s, since).log == s.log
    decreases |s.unsent|
  {
    if s.unsent != [] && since < s.lastReceived {
      SendingKeeps(s.(sent := s.sent + [s.unsent[0]], unsent := s.unsent[1..]), since + 1);
    }
  }

  lemma {:induction false} ReadingKeeps(s: State, ds: seq<seq<Message>>)
    requires Agrees(s.table, s.log)
    ensures Agrees(ReadDatagrams(s, ds).table, ReadDatagrams(s, ds).log)
    decreases |ds|
  {
    if ds != [] {
      DeliverKeeps(s, ds[0]);
      SendingKeeps(Deliver(s, ds[0]), s.lastReceived);
      ReadingKeeps(ReadDatagram(s, ds[0]), ds[1..]);
    }
  }

  lemma {:induction false} RunKeeps(s: State, ops: seq<Op>)
    requires Agrees(s.table, s.log)
    ensures Agrees(RunOps(s, ops).table, RunOps(s, ops).log)
    decreases |ops|
  {
    if ops != [] {
      if ops[0].Read? {
        ReadingKeeps(s, ops[0].datagrams);
      }
      RunKeeps(ApplyOp(s, ops[0]), ops[1..]);
    }
  }

  /** Mirror agreement: whatever messages arrive in whatever datagrams, a listener registered from
      the start holds exactly the monitor's public interfaces after every single message, has
      heard nothing out of order, and was never shown a snapshot that differs from its mirror. */
  lemma MirrorAgreement(ops: seq<Op>, ms: seq<Message>)
    ensures var s := Deliver(RunOps(Initial(), ops), ms);
      Mirror(s.log) == Public(s.table) && Disciplined(s.log) && Truthful(s.log)
  {
    assert Public(map[]) == map[];
    assert AgreesBody(map[], []);
    RunKeeps(Initial(), ops);
    DeliverKeeps(RunOps(Initial(), ops), ms);
    var s := Deliver(RunOps(Initial(), ops), ms);
    Open(s.table, s.log);
  }

  // ---------- what discipline means ----------

  predicate IsLinkNotice(n: Notice, index: int) {
    n.info.index == index && (n.LinkUp? || n.LinkDown?)
  }

  lemma {:induction false} MentionedOnce(log: seq<Notice>, j: nat)
    requires j < |log| && Disciplined(log)
    ensures LinkStatus(log, log[j].info.index).Some?
  {
    var n := |log| - 1;
    var i := log[j].info.index;
    assert Fits(log[..n], log[n]);
    if j < n {
      PrefixIsDisciplined(log, n);
      MentionedOnce(log[..n], j);
    }
  }

  lemma PrefixIsDisciplined(log: seq<Notice>, n: nat)
    requires n <= |log| && Disciplined(log)
    ensures Disciplined(log[..n])
  {
    forall k | 0 <= k < n
      ensures Fits(log[..n][..k], log[..n][k])
    {
      assert log[..n][..k] == log[..k];
    }
  }

  /** An interface's creation is the first thing heard of it, and heard once. */
  lemma CreatedFirstAndOnce(log: seq<Notice>, j: nat, k: nat)
    requires j < k < |log| && Disciplined(log) && log[j].info.index == log[k].info.index
    ensures !log[k].InterfaceCreated?
  {
    assert Fits(log[..k], log[k]);
    PrefixIsDisciplined(log, k);
    MentionedOnce(log[..k], j);
  }

  lemma {:induction false} MentionedAfterCreation(log: seq<Notice>, index: int) returns (j: nat)
    requires Disciplined(log) && LinkStatus(log, index).Some?
    ensures j < |log| && log[j].info.index == index && log[j].InterfaceCreated?
  {
    var n := |log| - 1;
    assert Fits(log[..n], log[n]);
    if log[n].info.index == index && log[n].InterfaceCreated? {
      j := n;
    } else {
      PrefixIsDisciplined(log, n);
      j := MentionedAfterCreation(log[..n], index);
    }
  }

  /** Everything else about an interface is heard after its creation. */
  lemma NothingBeforeCreation(log: seq<Notice>, k: nat) returns (j: nat)
    requires k < |log| && Disciplined(log) && !log[k].InterfaceCreated?
    ensures j < k && log[j].InterfaceCreated? && log[j].info.index == log[k].info.index
  {
    assert Fits(log[..k], log[k]);
    PrefixIsDisciplined(log, k);
    j := MentionedAfterCreation(log[..k], log[k].info.index);
  }

  /** What was reported stands until the next report. */
  lemma {:induction false} StatusStands(log: seq<Notice>, j: nat, index: int)
    requires j < |log| && Disciplined(log) && IsLinkNotice(log[j], index)
    requires forall m :: j < m < |log| ==> !IsLinkNotice(log[m], index)
    ensures LinkStatus(log, index) == Some(log[j].LinkUp?)
  {
    var n := |log| - 1;
    if j < n {
      PrefixIsDisciplined(log, n);
      if log[n].InterfaceCreated? && log[n].info.index == index {
        CreatedFirstAndOnce(log, j, n);
      }
      StatusStands(log[..n], j, index);
    }
  }

  /** LinkUp and LinkDown of an interface strictly alternate. */
  lemma LinkAlternates(log: seq<Notice>, j: nat, k: nat, index: int)
    requires j < k < |log| && Disciplined(log) && IsLinkNotice(log[j], index) && IsLinkNotice(log[k], index)
    requires forall m :: j < m < k ==> !IsLinkNotice(log[m], index)
    ensures log[j].LinkUp? != log[k].LinkUp?
  {
    assert Fits(log[..k], log[k]);
    PrefixIsDisciplined(log, k);
    StatusStands(log[..k], j, index);
  }

  predicate IsIp4Notice(n: Notice, index: int, a: Ip4) {
    n.info.index == index && (n.Ip4AddressAdded? || n.Ip4AddressRemoved?) && n.ip4.address == a
  }

  lemma {:induction false} Ip4Stands(log: seq<Notice>, j: nat, index: int, a: Ip4)
    requires j < |log| && Disciplined(log) && IsIp4Notice(log[j], index, a)
    requires forall m :: j < m < |log| ==> !IsIp4Notice(log[m], index, a)
    ensures Has4(log, index, a) == log[j].Ip4AddressAdded?
  {
    var n := |log| - 1;
    if j < n {
      PrefixIsDisciplined(log, n);
      if log[n].InterfaceCreated? && log[n].info.index == index {
        CreatedFirstAndOnce(log, j, n);
      }
      Ip4Stands(log[..n], j, index, a);
    }
  }

  /** Added and Removed of an address of an interface strictly alternate. */
  lemma Ip4Alternates(log: seq<Notice>, j: nat, k: nat, index: int, a: Ip4)
    requires j < k < |log| && Disciplined(log) && IsIp4Notice(log[j], index, a) && IsIp4Notice(log[k], index, a)
    requires forall m :: j < m < k ==> !IsIp4Notice(log[m], index, a)
    ensures log[j].Ip4AddressAdded? != log[k].Ip4AddressAdded?
  {
    assert Fits(log[..k], log[k]);
    PrefixIsDisciplined(log, k);
    Ip4Stands(log[..k], j, index, a);
  }

  predicate IsIp6Notice(n: Notice, index: int, a: Ip6) {
    n.info.index == index && (n.Ip6AddressAdded? || n.Ip6AddressRemoved?) && n.ip6 == a
  }

  lemma {:induction false} Ip6Stands(log: seq<Notice>, j: nat, index: int, a: Ip6)
    requires j < |log| && Disciplined(log) && IsIp6Notice(log[j], index, a)
    requires forall m :: j < m < |log| ==> !IsIp6Notice(log[m], index, a)
    ensures Has6(log, index, a) == log[j].Ip6AddressAdded?
  {
    var n := |log| - 1;
    if j < n {
      PrefixIsDisciplined(log, n);
      if log[n].InterfaceCreated? && log[n].info.index == index {
        CreatedFirstAndOnce(log, j, n);
      }
      Ip6Stands(log[..n], j, index, a);
    }
  }

  lemma Ip6Alternates(log: seq<Notice>, j: nat, k: nat, index: int, a: Ip6)
    requires j < k < |log| && Disciplined(log) && IsIp6Notice(log[j], index, a) && IsIp6Notice(log[k], index, a)
    requires forall m :: j < m < k ==> !IsIp6Notice(log[m], index, a)
    ensures log[j].Ip6AddressAdded? != log[k].Ip6AddressAdded?
  {
    assert Fits(log[..k], log[k]);
    PrefixIsDisciplined(log, k);
    Ip6Stands(log[..k], j, index, a);
  }
}
