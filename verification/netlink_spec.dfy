/** What src/net/netlink_monitor.cc does with each netlink message, as functions of the monitor's
    fields. The kernel is an arbitrary source of messages. */
module NetlinkSpec {
  import opened Base
  import opened Wire
  import opened IpText

  // ---------- interfaces ----------

  type Ip6 = a: bytes | |a| == 16 witness seq(16, _ => 0)

  datatype Ip4Info = Ip4Info(address: Ip4, broadcast: Ip4, prefixLen: byte)

  /** The fields of NetInterfaceInfo. Its set of IPv4 addresses is ordered by address alone, so
      it is a map. */
  datatype Info = Info(index: int, name: bytes, linkActive: bool, isPublic: bool,
                       ip4: map<Ip4, Ip4Info>, ip6: set<Ip6>)

  type Table = map<int, Info>

  function NewInfo(index: int): Info {
    Info(index, [], false, false, map[], {})
  }

  /** GetOrCreateInterface */
  function InfoAt(t: Table, index: int): Info {
    if index in t then t[index] else NewInfo(index)
  }

  /** What listeners are told, with the snapshot of the interface they get. */
  datatype Notice =
    | InterfaceCreated(info: Info)
    | LinkUp(info: Info)
    | LinkDown(info: Info)
    | Ip4AddressAdded(info: Info, ip4: Ip4Info)
    | Ip4AddressRemoved(info: Info, ip4: Ip4Info)
    | Ip6AddressAdded(info: Info, ip6: Ip6)
    | Ip6AddressRemoved(info: Info, ip6: Ip6)

  // ---------- messages ----------

  /** The message types HandleRead distinguishes, with the attributes it looks at. */
  datatype Body =
    | Link(deleted: bool, index: int, name: Option<bytes>, up: bool)
    | Address4(deleted: bool, index: int, ip4: Ip4Info)
    | Address6(deleted: bool, index: int, ip6: Ip6)
    | AddressOther(deleted: bool, index: int)
    | Done
    | Error
    | Other

  datatype Message = Message(number: uint32, body: Body)

  datatype QueryKind = LinkQuery | AddrQuery(family: byte)

  datatype Query = Query(kind: QueryKind, number: int)

  /** The fields of NetlinkMonitor, all notices broadcast and all queries handed to the socket. */
  datatype State = State(sequence: int, lastReceived: int, unsent: seq<Query>, table: Table,
                         log: seq<Notice>, sent: seq<Query>)

  const FIRST_SEQUENCE := 36

  function Initial(): State {
    State(FIRST_SEQUENCE, FIRST_SEQUENCE, [], map[], [], [])
  }

  // ---------- one message ----------

  /** An interface after a message, and the notices broadcast for it. */
  datatype Change = Change(info: Info, notices: seq<Notice>)

  /** An interface becomes public with its first name. */
  function Publish(info: Info, name: Option<bytes>): Change {
    if !info.isPublic && name.Some? then
      var i := info.(name := CStr(name.value), isPublic := true);
      Change(i, [InterfaceCreated(i)])
    else Change(info, [])
  }

  function SetLink(info: Info, up: bool): Change {
    if up == info.linkActive then Change(info, [])
    else
      var i := info.(linkActive := up);
      Change(i, if !i.isPublic then [] else if up then [LinkUp(i)] else [LinkDown(i)])
  }

  /** A deleted link is handled like a new one: only name and flags count. */
  function ChangeLink(info: Info, name: Option<bytes>, up: bool): Change {
    var published := Publish(info, name);
    var linked := SetLink(published.info, up);
    Change(linked.info, published.notices + linked.notices)
  }

  /** An address already known stays as it was first reported. */
  function ChangeIp4(info: Info, deleted: bool, a: Ip4Info): Change {
    if deleted != (a.address in info.ip4) then Change(info, [])
    else if deleted then
      var i := info.(ip4 := info.ip4 - {a.address});
      Change(i, if i.isPublic then [Ip4AddressRemoved(i, a)] else [])
    else
      var i := info.(ip4 := info.ip4[a.address := a]);
      Change(i, if i.isPublic then [Ip4AddressAdded(i, a)] else [])
  }

  function ChangeIp6(info: Info, deleted: bool, a: Ip6): Change {
    if deleted != (a in info.ip6) then Change(info, [])
    else if deleted then
      var i := info.(ip6 := info.ip6 - {a});
      Change(i, if i.isPublic then [Ip6AddressRemoved(i, a)] else [])
    else
      var i := info.(ip6 := info.ip6 + {a});
      Change(i, if i.isPublic then [Ip6AddressAdded(i, a)] else [])
  }

  predicate ConcernsInterface(b: Body) {
    b.Link? || b.Address4? || b.Address6? || b.AddressOther?
  }

  function ChangeInfo(info: Info, b: Body): Change {
    match b
    case Link(_, _, name, up) => ChangeLink(info, name, up)
    case Address4(deleted, _, a) => ChangeIp4(info, deleted, a)
    case Address6(deleted, _, a) => ChangeIp6(info, deleted, a)
    case _ => Change(info, [])
  }

  function ApplyBody(s: State, b: Body): State {
    if !ConcernsInterface(b) then s
    else
      var c := ChangeInfo(InfoAt(s.table, b.index), b);
      s.(table := s.table[b.index := c.info], log := s.log + c.notices)
  }

  /** The end of an answer, or an error in its place. */
  predicate Answers(m: Message) {
    m.number != 0 && (m.body.Done? || m.body.Error?)
  }

  /** uint32_t assigned to int */
  function AsInt32(u: uint32): int {
    if u < 0x8000_0000 then u else u - 0x1_0000_0000
  }

  function ApplyMessage(s: State, m: Message): State {
    ApplyBody(if Answers(m) then s.(lastReceived := AsInt32(m.number)) else s, m.body)
  }

  function Deliver(s: State, ms: seq<Message>): State
    decreases |ms|
  {
    if ms == [] then s else Deliver(ApplyMessage(s, ms[0]), ms[1..])
  }

  // ---------- queries ----------

  /** The loop behind a datagram: one queued query per number by which the answers advanced. */
  function SendUnsent(s: State, since: int): State
    decreases |s.unsent|
  {
    if s.unsent == [] || since >= s.lastReceived then s
    else SendUnsent(s.(sent := s.sent + [s.unsent[0]], unsent := s.unsent[1..]), since + 1)
  }

  function ReadDatagram(s: State, ms: seq<Message>): State {
    SendUnsent(Deliver(s, ms), s.lastReceived)
  }

  function ReadDatagrams(s: State, ds: seq<seq<Message>>): State
    decreases |ds|
  {
    if ds == [] then s else ReadDatagrams(ReadDatagram(s, ds[0]), ds[1..])
  }

  function SendMessage(s: State, q: Query): State {
    if s.lastReceived + 1 == s.sequence then s.(sent := s.sent + [q]) else s.(unsent := s.unsent + [q])
  }

  function BeginQuery(s: State, kind: QueryKind): State {
    SendMessage(s.(sequence := s.sequence + 1), Query(kind, s.sequence + 1))
  }

  // ---------- runs ----------

  /** A run is any sequence of queries begun and of reads from the socket. */
  datatype Op = Begin(kind: QueryKind) | Read(datagrams: seq<seq<Message>>)

  function ApplyOp(s: State, op: Op): State {
    match op
    case Begin(kind) => BeginQuery(s, kind)
    case Read(ds) => ReadDatagrams(s, ds)
  }

  function RunOps(s: State, ops: seq<Op>): State
    decreases |ops|
  {
    if ops == [] then s else RunOps(ApplyOp(s, ops[0]), ops[1..])
  }
}
