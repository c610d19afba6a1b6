/** The netlink monitor of src/net/netlink_monitor.cc. */
module NetlinkMonitors {
  import opened Base
  import opened IpText
  import opened NetlinkSpec
  import Spec = NetlinkSpec

  class NetInterfaceInfo {
    const index: int
    var name: bytes
    var linkActive: bool
    var isPublic: bool
    var ip4Addresses: map<Ip4, Ip4Info>
    var ip6Addresses: set<Ip6>

    constructor (index: int)
      ensures this.index == index && Value() == NewInfo(index)
    {
      this.index := index;
      name := [];
      linkActive := false;
      isPublic := false;
      ip4Addresses := map[];
      ip6Addresses := {};
    }

    ghost function Value(): Info
      reads this
    {
      Info(index, name, linkActive, isPublic, ip4Addresses, ip6Addresses)
    }

    /** What a listener gets to see. */
    method Snapshot() returns (info: Info)
      ensures info == Value()
    {
      return Info(index, name, linkActive, isPublic, ip4Addresses, ip6Addresses);
    }
  }

  class NetlinkMonitor {
    var sequenceNumber: int
    var lastReceivedSeq: int
    var unsentMessages: seq<Query>
    var interfacesByIndex: map<int, NetInterfaceInfo>

    /** Everything broadcast, and everything handed to the socket. */
    ghost var log: seq<Notice>
    ghost var sent: seq<Query>

    ghost predicate Valid()
      reads `interfacesByIndex
    {
      forall i :: i in interfacesByIndex ==> interfacesByIndex[i].index == i
    }

    ghost function Table(): Table
      reads `interfacesByIndex, interfacesByIndex.Values
    {
      map i | i in interfacesByIndex :: interfacesByIndex[i].Value()
    }

    ghost function State(): State
      reads this, interfacesByIndex.Values
    {
      Spec.State(sequenceNumber, lastReceivedSeq, unsentMessages, Table(), log, sent)
    }

    constructor ()
      ensures Valid() && State() == Initial() && interfacesByIndex == map[]
    {
      sequenceNumber := FIRST_SEQUENCE;
      lastReceivedSeq := FIRST_SEQUENCE;
      unsentMessages := [];
      interfacesByIndex := map[];
      log := [];
      sent := [];
    }

    method Broadcast(notice: Notice)
      modifies `log
      ensures log == old(log) + [notice]
    {
      log := log + [notice];
    }

    // ---------- queries ----------

    method SendMessageNow(query: Query)
      modifies `sent
      ensures sent == old(sent) + [query]
    {
      sent := sent + [query];
    }

    method SendMessage(query: Query)
      requires Valid()
      modifies `sent, `unsentMessages
      ensures Valid() && State() == Spec.SendMessage(old(State()), query)
    {
      if lastReceivedSeq + 1 == sequenceNumber {
        SendMessageNow(query);
      } else {
        unsentMessages := unsentMessages + [query];
      }
    }

    method BeginLinkQuery()
      requires Valid()
      modifies `sequenceNumber, `sent, `unsentMessages
      ensures Valid() && State() == BeginQuery(old(State()), LinkQuery)
    {
      sequenceNumber := sequenceNumber + 1;
      SendMessage(Query(LinkQuery, sequenceNumber));
    }

    method BeginAddrQuery(family: byte)
      requires Valid()
      modifies `sequenceNumber, `sent, `unsentMessages
      ensures Valid() && State() == BeginQuery(old(State()), AddrQuery(family))
    {
      sequenceNumber := sequenceNumber + 1;
      SendMessage(Query(AddrQuery(family), sequenceNumber));
    }

    method Init()
      requires Valid()
      modifies `sequenceNumber, `sent, `unsentMessages
      ensures Valid() && State() == RunOps(old(State()), INIT_OPS)
    {
      ghost var start := State();
      BeginLinkQuery();
      BeginAddrQuery(AF_INET);
      BeginAddrQuery(AF_INET6);
      RunThree(start, INIT_OPS[0], INIT_OPS[1], INIT_OPS[2]);
    }

    // ---------- messages ----------

    method GetOrCreateInterface(index: int) returns (info: NetInterfaceInfo)
      requires Valid()
      modifies `interfacesByIndex
      ensures Valid() && index in interfacesByIndex && interfacesByIndex[index] == info
      ensures info.Value() == InfoAt(old(Table()), index)
      ensures Table() == old(Table())[index := info.Value()]
      ensures fresh(info) || info in old(interfacesByIndex.Values)
      ensures fresh(interfacesByIndex.Values - old(interfacesByIndex.Values))
    {
      if index !in interfacesByIndex {
        var created := new NetInterfaceInfo(index);
        interfacesByIndex := interfacesByIndex[index := created];
      }
      info := interfacesByIndex[index];
    }

    method HandleLink(info: NetInterfaceInfo, name: Option<bytes>, up: bool)
      modifies info, `log
      ensures var c := ChangeLink(old(info.Value()), name, up);
        info.Value() == c.info && log == old(log) + c.notices
    {
      if !info.isPublic && name.Some? {
        info.name := CStr(name.value);
        info.isPublic := true;
        var snapshot := info.Snapshot();
        Broadcast(InterfaceCreated(snapshot));
      }
      if up != info.linkActive {
        info.linkActive := up;
        if info.isPublic {
          var snapshot := info.Snapshot();
          if info.linkActive {
            Broadcast(LinkUp(snapshot));
          } else {
            Broadcast(LinkDown(snapshot));
          }
        }
      }
    }

    method HandleIp4Address(info: NetInterfaceInfo, deleted: bool, a: Ip4Info)
      modifies info, `log
      ensures var c := ChangeIp4(old(info.Value()), deleted, a);
        info.Value() == c.info && log == old(log) + c.notices
    {
      var known := a.address in info.ip4Addresses;
      if !deleted {
        if !known {
          info.ip4Addresses := info.ip4Addresses[a.address := a];
          if info.isPublic {
            var snapshot := info.Snapshot();
            Broadcast(Ip4AddressAdded(snapshot, a));
          }
        }
      } else {
        info.ip4Addresses := info.ip4Addresses - {a.address};
        if known && info.isPublic {
          var snapshot := info.Snapshot();
          Broadcast(Ip4AddressRemoved(snapshot, a));
        }
      }
    }

    method HandleIp6Address(info: NetInterfaceInfo, deleted: bool, a: Ip6)
      modifies info, `log
      ensures var c := ChangeIp6(old(info.Value()), deleted, a);
        info.Value() == c.info && log == old(log) + c.notices
    {
      var known := a in info.ip6Addresses;
      if !deleted {
        info.ip6Addresses := info.ip6Addresses + {a};
        if !known && info.isPublic {
          var snapshot := info.Snapshot();
          Broadcast(Ip6AddressAdded(snapshot, a));
        }
      } else {
        info.ip6Addresses := info.ip6Addresses - {a};
        if known && info.isPublic {
          var snapshot := info.Snapshot();
          Broadcast(Ip6AddressRemoved(snapshot, a));
        }
      }
    }

    /** Interfaces are kept under their own index, so no two entries share an object. */
    twostate lemma OneEntryChanges(info: NetInterfaceInfo)
      requires Valid() && unchanged(`interfacesByIndex)
      requires info.index in interfacesByIndex && interfacesByIndex[info.index] == info
      requires forall i :: i in interfacesByIndex && interfacesByIndex[i] != info ==> unchanged(interfacesByIndex[i])
      ensures Table() == old(Table())[info.index := info.Value()]
    {
      forall i | i in interfacesByIndex && i != info.index
        ensures interfacesByIndex[i].Value() == old(interfacesByIndex[i].Value())
      {
        assert interfacesByIndex[i] != info;
      }
    }

    method HandleInterface(info: NetInterfaceInfo, body: Body)
      modifies info, `log
      ensures var c := ChangeInfo(old(info.Value()), body);
        info.Value() == c.info && log == old(log) + c.notices
    {
      match body {
        case Link(_, _, name, up) =>
          HandleLink(info, name, up);
        case Address4(deleted, _, a) =>
          HandleIp4Address(info, deleted, a);
        case Address6(deleted, _, a) =>
          HandleIp6Address(info, deleted, a);
        case _ =>
          assert log + [] == log;
      }
    }

    method UpdateEntry(info: NetInterfaceInfo, body: Body)
      requires Valid() && info.index in interfacesByIndex && interfacesByIndex[info.index] == info
      modifies `log, info
      ensures var c := ChangeInfo(old(info.Value()), body);
        log == old(log) + c.notices && Table() == old(Table())[info.index := c.info]
    {
      HandleInterface(info, body);
      OneEntryChanges(info);
    }

    method HandleInterfaceMessage(body: Body)
      requires Valid() && ConcernsInterface(body)
      modifies `interfacesByIndex, `log, interfacesByIndex.Values
      ensures Valid() && fresh(interfacesByIndex.Values - old(interfacesByIndex.Values))
      ensures var c := ChangeInfo(InfoAt(old(Table()), body.index), body);
        log == old(log) + c.notices && Table() == old(Table())[body.index := c.info]
    {
      var info := GetOrCreateInterface(body.index);
      UpdateEntry(info, body);
    }

    method HandleBody(body: Body)
      requires Valid()
      modifies `interfacesByIndex, `log, interfacesByIndex.Values
      ensures Valid() && State() == ApplyBody(old(State()), body)
      ensures fresh(interfacesByIndex.Values - old(interfacesByIndex.Values))
    {
      if ConcernsInterface(body) {
        HandleInterfaceMessage(body);
      }
    }

    method HandleMessage(m: Message)
      requires Valid()
      modifies `lastReceivedSeq, `interfacesByIndex, `log, interfacesByIndex.Values
      ensures Valid() && State() == ApplyMessage(old(State()), m)
      ensures fresh(interfacesByIndex.Values - old(interfacesByIndex.Values))
    {
      if m.number != 0 && (m.body.Done? || m.body.Error?) {
        lastReceivedSeq := AsInt32(m.number);
      }
      HandleBody(m.body);
    }

    method HandleDatagram(ms: seq<Message>)
      requires Valid()
      modifies this, interfacesByIndex.Values
      ensures Valid() && State() == ReadDatagram(old(State()), ms)
      ensures fresh(interfacesByIndex.Values - old(interfacesByIndex.Values))
    {
      var oldLastReceivedSeq := lastReceivedSeq;
      var i := 0;
      assert ms[0..] == ms;
      while i < |ms|
        invariant i <= |ms| && Valid()
        invariant Deliver(State(), ms[i..]) == Deliver(old(State()), ms)
        invariant fresh(interfacesByIndex.Values - old(interfacesByIndex.Values))
      {
        HandleMessage(ms[i]);
        assert ms[i..][1..] == ms[i + 1..];
        i := i + 1;
      }
      assert State() == Deliver(old(State()), ms);
      while |unsentMessages| > 0 && oldLastReceivedSeq < lastReceivedSeq
        invariant Valid() && fresh(interfacesByIndex.Values - old(interfacesByIndex.Values))
        invariant SendUnsent(State(), oldLastReceivedSeq) == ReadDatagram(old(State()), ms)
        decreases |unsentMessages|
      {
        SendMessageNow(unsentMessages[0]);
        unsentMessages := unsentMessages[1..];
        oldLastReceivedSeq := oldLastReceivedSeq + 1;
      }
    }

    /** Reads the datagrams the socket has ready. */
    method HandleRead(datagrams: seq<seq<Message>>)
      requires Valid()
      modifies this, interfacesByIndex.Values
      ensures Valid() && State() == ReadDatagrams(old(State()), datagrams)
      ensures fresh(interfacesByIndex.Values - old(interfacesByIndex.Values))
    {
      var i := 0;
      assert datagrams[0..] == datagrams;
      while i < |datagrams|
        invariant i <= |datagrams| && Valid()
        invariant ReadDatagrams(State(), datagrams[i..]) == ReadDatagrams(old(State()), datagrams)
        invariant fresh(interfacesByIndex.Values - old(interfacesByIndex.Values))
      {
        HandleDatagram(datagrams[i]);
        assert datagrams[i..][1..] == datagrams[i + 1..];
        i := i + 1;
      }
    }
  }

  lemma RunThree(s: State, a: Op, b: Op, c: Op)
    ensures RunOps(s, [a, b, c]) == ApplyOp(ApplyOp(ApplyOp(s, a), b), c)
  {
    assert [a, b, c][1..] == [b, c] && [b, c][1..] == [c];
    var s1 := ApplyOp(s, a);
    assert RunOps(s, [a, b, c]) == RunOps(s1, [b, c]) == RunOps(ApplyOp(s1, b), [c]);
  }

  const AF_INET: byte := 2
  const AF_INET6: byte := 10

  /** The queries Init begins. */
  const INIT_OPS: seq<Op> := [Begin(LinkQuery), Begin(AddrQuery(AF_INET)), Begin(AddrQuery(AF_INET6))]
}
