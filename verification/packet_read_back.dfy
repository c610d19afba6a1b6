/** Reading back the tokens that SerializePacket writes for a packet of the right shape. */
module PacketReadBack {
  import opened Base
  import opened HexCodec
  import opened JsonTokens
  import opened JsonWriterSpec
  import opened EventViews
  import opened Wire
  import opened IpText
  import opened TcpOptions
  import opened PacketTables
  import opened PacketFormat
  import opened PacketCalls
  import opened PacketFeed
  import opened PacketShape

  /** Decoding gave `result`, and read everything but `rest`; or it gave up. */
  ghost predicate Gives(r: Option<(bytes, View)>, result: Option<bytes>, rest: seq<Event>) {
    match result
    case Some(bs) => r.Some? && r.value.0 == bs && r.value.1.pending == rest
    case None => r.None?
  }

  // ---------- IP ----------

  function IpFieldsOf(b: bytes): IpFields
    requires |b| >= 20
  {
    IpFields(b[1], U16(b, 4), U16(b, 6), b[8], b[9], b[12..16], b[16..20])
  }

  lemma ReadVersionAndTos(v: View, b: bytes, rest: seq<Event>) returns (v1: View, v2: View)
    requires |b| >= 20 && b[0] == 0x45 && Queue(v.pending, IpFront(b), 1, rest)
    ensures ExpectProperty(v, "version", 4, 4) == Some((4, v1))
    ensures ExpectProperty(v1, "tos", 0, 255) == Some((b[1] as int, v2))
    ensures Queue(v2.pending, IpFront(b), 6, rest)
  {
    var cs := IpFront(b);
    v1 := StepProperty(v, cs, 1, rest, "version", true, 4, 4, 4);
    v2 := StepProperty(v1, cs, 4, rest, "tos", false, b[1], 0, 255);
  }

  lemma ReadId(v: View, b: bytes, rest: seq<Event>) returns (v1: View, v2: View)
    requires |b| >= 20 && Queue(v.pending, IpFront(b), 6, rest)
    ensures ExpectProperty(v, "id", 0, 0xffff) == Some((U16(b, 4), v1))
    ensures ExpectName(v1, "flags") == Some(v2) && v2.pending == rest
  {
    var cs := IpFront(b);
    v1 := StepProperty(v, cs, 6, rest, "id", false, U16(b, 4), 0, 0xffff);
    v2 := StepName(v1, cs, 8, rest, "flags");
    Done(v2.pending, cs, 9, rest);
  }

  lemma ReadIpFront(v: View, b: bytes, mid: seq<Event>, rest: seq<Event>) returns (u: View, w: View, mask: nat)
    requires |b| >= 20 && IpShape(b)
    requires Queue(v.pending, IpFront(b), 0, mid) && Queue(mid, IpFlagCalls(U16(b, 6)), 0, rest)
    ensures ExpectToken(v, StartObjectToken) == Some(u)
    ensures TakeIpFront(u) == Some((b[1], U16(b, 4), mask, w)) && w.pending == rest
    ensures JoinFragment(FragmentOffset(U16(b, 6)), mask) == U16(b, 6)
  {
    u := OpenIp(v, b, mid);
    var v1, v2 := ReadVersionAndTos(u, b, mid);
    var v3, v4 := ReadId(v2, b, mid);
    w, mask := ReadIpFlags(v4, U16(b, 6), rest);
  }

  lemma OpenIp(v: View, b: bytes, rest: seq<Event>) returns (w: View)
    requires |b| >= 20 && Queue(v.pending, IpFront(b), 0, rest)
    ensures ExpectToken(v, StartObjectToken) == Some(w) && Queue(w.pending, IpFront(b), 1, rest)
  {
    w := StepBracket(v, IpFront(b), 0, rest, CBeginObject);
  }

  lemma ReadFragmentOffset(v: View, b: bytes, rest: seq<Event>) returns (w: View)
    requires |b| >= 20 && Queue(v.pending, IpMiddle(b), 0, rest)
    ensures ExpectProperty(v, "fragmentOffset", 0, 8191) == Some((FragmentOffset(U16(b, 6)), w))
    ensures Queue(w.pending, IpMiddle(b), 4, rest)
  {
    SkipPack(v.pending, IpMiddle(b), 0, rest);
    w := StepProperty(v, IpMiddle(b), 1, rest, "fragmentOffset", true, FragmentOffset(U16(b, 6)), 0, 8191);
  }

  lemma ReadIpMiddle(v: View, b: bytes, mask: nat, rest: seq<Event>) returns (w: View)
    requires |b| >= 20 && IpShape(b)
    requires Queue(v.pending, IpMiddle(b), 0, rest)
    requires JoinFragment(FragmentOffset(U16(b, 6)), mask) == U16(b, 6)
    ensures TakeIpMiddle(v, mask) == Some((U16(b, 6), b[8], b[9], w)) && w.pending == rest
  {
    var cs := IpMiddle(b);
    var v1 := ReadFragmentOffset(v, b, rest);
    var v2 := StepProperty(v1, cs, 4, rest, "ttl", false, b[8], 0, 255);
    w := StepEnumProperty(v2, cs, 6, rest, "protocol", false, ProtocolName, PROTOCOL_COUNT, b[9]);
    SkipPack(w.pending, cs, 8, rest);
    Done(w.pending, cs, 9, rest);
  }

  lemma ReadTwoAddresses(v: View, b: bytes, rest: seq<Event>) returns (w: View)
    requires |b| >= 20 && Queue(v.pending, IpBack(b), 0, rest)
    ensures TakeAddresses(v) == Some((b[12..16], b[16..20], w)) && Queue(w.pending, IpBack(b), 5, rest)
  {
    var u := StepIp4Property(v, IpBack(b), 0, rest, "source", true, b[12..16]);
    w := StepIp4Property(u, IpBack(b), 3, rest, "destination", false, b[16..20]);
  }

  lemma ReadAddresses(v: View, b: bytes, rest: seq<Event>) returns (u: View, w: View)
    requires |b| >= 20 && Queue(v.pending, IpBack(b), 0, rest)
    ensures TakeAddresses(v) == Some((b[12..16], b[16..20], u))
    ensures ExpectToken(u, EndObjectToken) == Some(w) && w.pending == rest
  {
    u := ReadTwoAddresses(v, b, rest);
    SkipPack(u.pending, IpBack(b), 5, rest);
    w := StepBracket(u, IpBack(b), 6, rest, CEndObject);
    Done(w.pending, IpBack(b), 7, rest);
  }

  lemma SplitIp(pending: seq<Event>, b: bytes, rest: seq<Event>)
      returns (r1: seq<Event>, r2: seq<Event>, r3: seq<Event>)
    requires |b| >= 20 && Queue(pending, IpCalls(b), 0, rest)
    ensures Queue(pending, IpFront(b), 0, r1) && Queue(r1, IpFlagCalls(U16(b, 6)), 0, r2)
    ensures Queue(r2, IpMiddle(b), 0, r3) && Queue(r3, IpBack(b), 0, rest)
  {
    r1, r2, r3 := SplitFour(pending, IpFront(b), IpFlagCalls(U16(b, 6)), IpMiddle(b), IpBack(b), rest);
  }

  lemma JoinIpFields(v: View, v1: View, tos: byte, id: uint16, mask: nat, v2: View, frag: uint16, ttl: byte,
                     protocol: byte, v3: View, source: Ip4, dest: Ip4, v4: View, v5: View)
    requires ExpectToken(v, StartObjectToken) == Some(v1) && TakeIpFront(v1) == Some((tos, id, mask, v2))
    requires TakeIpMiddle(v2, mask) == Some((frag, ttl, protocol, v3))
    requires TakeAddresses(v3) == Some((source, dest, v4)) && ExpectToken(v4, EndObjectToken) == Some(v5)
    ensures TakeIpFields(v) == Some((IpFields(tos, id, frag, ttl, protocol, source, dest), v5))
  {
  }

  lemma ReadIpStart(v: View, b: bytes, rest: seq<Event>) returns (v1: View, v2: View, mask: nat, mid: seq<Event>)
    requires |b| >= 20 && IpShape(b) && Queue(v.pending, IpCalls(b), 0, rest)
    ensures ExpectToken(v, StartObjectToken) == Some(v1) && TakeIpFront(v1) == Some((b[1], U16(b, 4), mask, v2))
    ensures JoinFragment(FragmentOffset(U16(b, 6)), mask) == U16(b, 6)
    ensures Queue(v2.pending, IpMiddle(b), 0, mid) && Queue(mid, IpBack(b), 0, rest)
  {
    var r1, r2, r3 := SplitIp(v.pending, b, rest);
    v1, v2, mask := ReadIpFront(v, b, r1, r2);
    mid := r3;
  }

  lemma ReadIp(v: View, b: bytes, rest: seq<Event>) returns (w: View)
    requires |b| >= 20 && IpShape(b) && Queue(v.pending, IpCalls(b), 0, rest)
    ensures TakeIpFields(v) == Some((IpFieldsOf(b), w)) && w.pending == rest
  {
    var v1, v2, mask, mid := ReadIpStart(v, b, rest);
    var v3 := ReadIpMiddle(v2, b, mask, mid);
    var v4;
    v4, w := ReadAddresses(v3, b, rest);
    JoinIpFields(v, v1, b[1], U16(b, 4), mask, v2, U16(b, 6), b[8], b[9], v3, b[12..16], b[16..20], v4, w);
  }

  // ---------- TCP ----------

  function TcpFieldsOf(t: bytes): TcpFields
    requires |t| >= 20
  {
    TcpFields(U16(t, 0), U16(t, 2), U32(t, 4), if HasAck(t) then U32(t, 8) else 0, t[13], U16(t, 14),
              if HasUrg(t) then U16(t, 18) else 0)
  }

  function AckCalls(ack: uint32): seq<Call> {
    [Name("ackNumber"), CInteger(ack), CEndPack, Name("flags"), CBeginPack]
  }

  lemma ReadAck(v: View, ack: uint32, rest: seq<Event>) returns (w: View)
    requires Queue(v.pending, AckCalls(ack), 0, rest)
    ensures TakeAckNumber(v) == Some((ack, w)) && w.pending == rest && AtName(w, "flags")
  {
    var cs := AckCalls(ack);
    var v1 := StepName(v, cs, 0, rest, "ackNumber");
    var v2 := StepInt(v1, cs, 1, rest, ack, 0, 0xffff_ffff);
    SkipPack(v2.pending, cs, 2, rest);
    w := StepName(v2, cs, 3, rest, "flags");
    SkipPack(w.pending, cs, 4, rest);
    Done(w.pending, cs, 5, rest);
  }

  lemma ReadAckNumber(v: View, t: bytes, rest: seq<Event>) returns (w: View)
    requires |t| >= 20 && Queue(v.pending, TcpAck(t), 0, rest)
    ensures TakeAckNumber(v) == Some((if HasAck(t) then U32(t, 8) else 0, w)) && w.pending == rest
    ensures AtName(w, "flags")
  {
    var cs := TcpAck(t);
    AsciiAt("ackNumber", 0);
    AsciiAt("flags", 0);
    if HasAck(t) {
      assert cs == AckCalls(U32(t, 8));
      w := ReadAck(v, U32(t, 8), rest);
    } else {
      assert cs == [CEndPack, Name("flags"), CBeginPack];
      SkipPack(v.pending, cs, 0, rest);
      w := StepName(v, cs, 1, rest, "flags");
      SkipPack(w.pending, cs, 2, rest);
      Done(w.pending, cs, 3, rest);
    }
  }

  lemma ReadWindow(v: View, t: bytes, rest: seq<Event>) returns (u: View, w: View)
    requires |t| >= 20 && Queue(v.pending, TcpWindow(t), 0, rest)
    ensures ExpectProperty(v, "windowSize", 0, 0xffff) == Some((U16(t, 14), u))
    ensures TakeUrgentPointer(u, t[13]) == Some((if HasUrg(t) then U16(t, 18) else 0, w)) && w.pending == rest
  {
    var cs := TcpWindow(t);
    u := StepProperty(v, cs, 0, rest, "windowSize", true, U16(t, 14), 0, 0xffff);
    if HasUrg(t) {
      assert cs == [Name("windowSize"), CBeginPack, CInteger(U16(t, 14)), Name("urgentPointer"),
                    CInteger(U16(t, 18)), CEndPack];
      w := StepProperty(u, cs, 3, rest, "urgentPointer", false, U16(t, 18), 0, 0xffff);
      SkipPack(w.pending, cs, 5, rest);
      Done(w.pending, cs, 6, rest);
    } else {
      assert cs == [Name("windowSize"), CBeginPack, CInteger(U16(t, 14)), CEndPack];
      w := u;
      SkipPack(w.pending, cs, 3, rest);
      Done(w.pending, cs, 4, rest);
    }
  }

  lemma ReadTcpControl(v: View, t: bytes, mid: seq<Event>, rest: seq<Event>) returns (w: View)
    requires |t| >= 20 && t[13] < 64 && AtName(v, "flags")
    requires Queue(v.pending, TcpFlagCalls(t[13]), 0, mid) && Queue(mid, TcpWindow(t), 0, rest)
    ensures TakeTcpControl(v) == Some((t[13] as nat, U16(t, 14), if HasUrg(t) then U16(t, 18) else 0, w))
    ensures w.pending == rest
  {
    var v1 := ReadTcpFlags(v, t[13], mid);
    var u;
    u, w := ReadWindow(v1, t, rest);
  }

  lemma OpenTcp(v: View, t: bytes, rest: seq<Event>) returns (w: View)
    requires |t| >= 20 && Queue(v.pending, TcpFront(t), 0, rest)
    ensures ExpectToken(v, StartObjectToken) == Some(w) && Queue(w.pending, TcpFront(t), 1, rest)
  {
    w := StepBracket(v, TcpFront(t), 0, rest, CBeginObject);
  }

  lemma ReadTcpFront(v: View, t: bytes, rest: seq<Event>) returns (u: View, w: View)
    requires |t| >= 20 && Queue(v.pending, TcpFront(t), 1, rest)
    ensures TakePorts(v) == Some((U16(t, 0), U16(t, 2), u))
    ensures ExpectProperty(u, "seqNumber", 0, 0xffff_ffff) == Some((U32(t, 4), w)) && w.pending == rest
  {
    var cs := TcpFront(t);
    var v1 := StepProperty(v, cs, 1, rest, "sourcePort", true, U16(t, 0), 0, 0xffff);
    u := StepProperty(v1, cs, 4, rest, "destPort", false, U16(t, 2), 0, 0xffff);
    SkipPack(u.pending, cs, 6, rest);
    w := StepProperty(u, cs, 7, rest, "seqNumber", true, U32(t, 4), 0, 0xffff_ffff);
    Done(w.pending, cs, 10, rest);
  }

  lemma SplitTcp(pending: seq<Event>, t: bytes, rest: seq<Event>)
      returns (r1: seq<Event>, r2: seq<Event>, r3: seq<Event>)
    requires |t| >= 20
    requires Queue(pending, TcpFront(t) + TcpAck(t) + TcpFlagCalls(t[13]) + TcpWindow(t), 0, rest)
    ensures Queue(pending, TcpFront(t), 0, r1) && Queue(r1, TcpAck(t), 0, r2)
    ensures Queue(r2, TcpFlagCalls(t[13]), 0, r3) && Queue(r3, TcpWindow(t), 0, rest)
  {
    r1, r2, r3 := SplitFour(pending, TcpFront(t), TcpAck(t), TcpFlagCalls(t[13]), TcpWindow(t), rest);
  }

  lemma ReadTcpFields(v: View, t: bytes, rest: seq<Event>) returns (w: View)
    requires |t| >= 20 && t[13] < 64
    requires Queue(v.pending, TcpFront(t) + TcpAck(t) + TcpFlagCalls(t[13]) + TcpWindow(t), 0, rest)
    ensures TakeTcpFields(v) == Some((TcpFieldsOf(t), w)) && w.pending == rest
  {
    var r1, r2, r3 := SplitTcp(v.pending, t, rest);
    var v1 := OpenTcp(v, t, r1);
    var v2, v3 := ReadTcpFront(v1, t, r1);
    var v4 := ReadAckNumber(v3, t, r2);
    w := ReadTcpControl(v4, t, r3, rest);
  }

  function OptionFront(): seq<Call> {
    [Name("options"), CBeginPack, CBeginArray]
  }

  lemma SplitOptions(pending: seq<Event>, os: seq<TcpOption>, rest: seq<Event>) returns (mid: seq<Event>)
    requires Queue(pending, OptionFront() + OptionListCalls(os) + [CEndArray, CEndPack], 0, rest)
    ensures Queue(pending, OptionFront(), 0, mid)
    ensures Queue(mid, OptionListCalls(os) + [CEndArray], 0, rest)
  {
    var r2;
    mid, r2 := SplitThree(pending, OptionFront(), OptionListCalls(os), [CEndArray, CEndPack], rest);
    DropLastPack(r2, rest);
    Join(mid, OptionListCalls(os), r2, [CEndArray], rest);
  }

  /** The "options" property, up to the end of its array. */
  lemma ReadOptionProperty(v: View, os: seq<TcpOption>, rest: seq<Event>) returns (v1: View, v2: View, w: View)
    requires Queue(v.pending, OptionFront() + OptionListCalls(os) + [CEndArray, CEndPack], 0, rest)
    ensures ExpectName(v, "options") == Some(v1) && ExpectToken(v1, StartArrayToken) == Some(v2)
    ensures NextView(v2).Some? && TakeOptions(NextView(v2).value) == Some((os, w)) && w.pending == rest
  {
    var mid := SplitOptions(v.pending, os, rest);
    v1, v2 := OpenOptions(v, mid);
    w := ReadOptions(v2, os, rest);
  }

  lemma OpenOptions(v: View, rest: seq<Event>) returns (v1: View, v2: View)
    requires Queue(v.pending, OptionFront(), 0, rest)
    ensures ExpectName(v, "options") == Some(v1) && ExpectToken(v1, StartArrayToken) == Some(v2) && v2.pending == rest
  {
    var cs := OptionFront();
    v1 := StepName(v, cs, 0, rest, "options");
    SkipPack(v1.pending, cs, 1, rest);
    v2 := StepBracket(v1, cs, 2, rest, CBeginArray);
    Done(v2.pending, cs, 3, rest);
  }

  lemma DropLastPack(pending: seq<Event>, rest: seq<Event>)
    requires Queue(pending, [CEndArray, CEndPack], 0, rest)
    ensures Queue(pending, [CEndArray], 0, rest)
  {
    Open(pending, [CEndArray, CEndPack], 0, rest);
    assert Feed([CEndArray, CEndPack], 1, rest) == Feed([CEndArray, CEndPack], 2, rest) == rest;
    assert Feed([CEndArray], 1, rest) == rest;
    Close([CEndArray], 0, rest);
  }

  lemma ReadTcpOptions(v: View, t: bytes, rest: seq<Event>) returns (w: View)
    requires |t| >= 20 && WalkEnds(OptionArea(t))
    requires Queue(v.pending, TcpOptionCalls(t) + [CEndObject], 0, rest)
    ensures NextView(v).Some? && DecodeOptions(NextView(v).value) == Some((Walk(OptionArea(t)), w))
    ensures w.pending == rest
  {
    var mid := Split(v.pending, TcpOptionCalls(t), [CEndObject], rest);
    if OptionSize(t) > 0 {
      var v1, v2, v3 := ReadOptionProperty(v, Walk(OptionArea(t)), mid);
      w := StepLast(v3, [CEndObject], 0, rest);
    } else {
      assert OptionArea(t) == [];
      Done(v.pending, [], 0, mid);
      w := StepLast(v, [CEndObject], 0, rest);
    }
  }

  /** A TCP header as it comes back, if the option bytes come out aligned. */
  function TcpAgain(t: bytes): Option<bytes>
    requires |t| >= 20 && WalkEnds(OptionArea(t))
  {
    var area := EncodeAll(Walk(OptionArea(t)));
    var _ :- Check(|area| % 4 == 0);
    Some(WithDataOffset(TcpHeader(TcpFieldsOf(t)), |area|) + area)
  }

  lemma ReadTcp(v: View, t: bytes, rest: seq<Event>)
    requires |t| >= 20 && t[13] < 64 && WalkEnds(OptionArea(t)) && Queue(v.pending, TcpCalls(t), 0, rest)
    ensures Gives(DecodeTcp(v), TcpAgain(t), rest)
  {
    var fixed := TcpFront(t) + TcpAck(t) + TcpFlagCalls(t[13]) + TcpWindow(t);
    Assoc(fixed, TcpOptionCalls(t), [CEndObject]);
    var mid := Split(v.pending, fixed, TcpOptionCalls(t) + [CEndObject], rest);
    var v1 := ReadTcpFields(v, t, mid);
    var v2 := ReadTcpOptions(v1, t, rest);
  }

  // ---------- UDP and ICMP ----------

  lemma ReadUdpPorts(v: View, t: bytes, rest: seq<Event>) returns (w: View)
    requires |t| >= 8 && Queue(v.pending, UdpCalls(t), 1, rest)
    ensures TakePorts(v) == Some((U16(t, 0), U16(t, 2), w)) && Queue(w.pending, UdpCalls(t), 5, rest)
  {
    var u := StepProperty(v, UdpCalls(t), 1, rest, "sourcePort", false, U16(t, 0), 0, 0xffff);
    w := StepProperty(u, UdpCalls(t), 3, rest, "destPort", false, U16(t, 2), 0, 0xffff);
  }

  lemma OpenUdp(v: View, t: bytes, rest: seq<Event>) returns (w: View)
    requires |t| >= 8 && Queue(v.pending, UdpCalls(t), 0, rest)
    ensures ExpectToken(v, StartObjectToken) == Some(w) && Queue(w.pending, UdpCalls(t), 1, rest)
  {
    w := StepBracket(v, UdpCalls(t), 0, rest, CBeginObject);
  }

  lemma CloseUdp(v: View, t: bytes, rest: seq<Event>) returns (w: View)
    requires |t| >= 8 && Queue(v.pending, UdpCalls(t), 5, rest)
    ensures ExpectToken(v, EndObjectToken) == Some(w) && w.pending == rest
  {
    w := StepBracket(v, UdpCalls(t), 5, rest, CEndObject);
    Done(w.pending, UdpCalls(t), 6, rest);
  }

  lemma JoinUdp(v: View, v1: View, source: uint16, dest: uint16, v2: View, v3: View)
    requires ExpectToken(v, StartObjectToken) == Some(v1) && TakePorts(v1) == Some((source, dest, v2))
    requires ExpectToken(v2, EndObjectToken) == Some(v3)
    ensures Gives(DecodeUdp(v), Some(UdpHeader(source, dest)), v3.pending)
  {
  }

  lemma ReadUdp(v: View, t: bytes, rest: seq<Event>)
    requires |t| >= 8 && Queue(v.pending, UdpCalls(t), 0, rest)
    ensures Gives(DecodeUdp(v), Some(UdpHeader(U16(t, 0), U16(t, 2))), rest)
  {
    var v1 := OpenUdp(v, t, rest);
    var v2 := ReadUdpPorts(v1, t, rest);
    var v3 := CloseUdp(v2, t, rest);
    JoinUdp(v, v1, U16(t, 0), U16(t, 2), v2, v3);
  }

  lemma ReadIcmpCode(v: View, cs: seq<Call>, k: nat, kind: byte, code: byte, rest: seq<Event>) returns (w: View)
    requires k + 1 < |cs| && cs[k] == Name("code") && cs[k + 1] == IcmpCodeCall(kind, code)
    requires Queue(v.pending, cs, k, rest) && IcmpCodeShape(kind, code)
    ensures DecodeIcmpCode(v, kind) == Some((code, w)) && Queue(w.pending, cs, k + 2, rest)
  {
    if kind == ICMP_DEST_UNREACH {
      w := StepEnumProperty(v, cs, k, rest, "code", false, UnreachableCodeName, UNREACHABLE_CODE_COUNT, code);
    } else if kind == ICMP_REDIRECT {
      w := StepEnumProperty(v, cs, k, rest, "code", false, RedirectCodeName, REDIRECT_CODE_COUNT, code);
    } else if kind == ICMP_PARAMETERPROB {
      w := StepEnumProperty(v, cs, k, rest, "code", false, BadHeaderCodeName, BAD_HEADER_CODE_COUNT, code);
    } else {
      w := StepProperty(v, cs, k, rest, "code", false, code, 0, 255);
    }
  }

  function EchoCalls(t: bytes): seq<Call>
    requires |t| >= 8
  {
    [Name("identifier"), CBeginPack, CInteger(U16(t, 4)), Name("sequenceNumber"), CInteger(U16(t, 6)), CEndPack]
  }

  lemma ReadEchoNumbers(v: View, t: bytes, rest: seq<Event>) returns (u: View, w: View)
    requires |t| >= 8 && Queue(v.pending, EchoCalls(t), 0, rest)
    ensures ExpectProperty(v, "identifier", 0, 0xffff) == Some((U16(t, 4), u))
    ensures ExpectProperty(u, "sequenceNumber", 0, 0xffff) == Some((U16(t, 6), w)) && w.pending == rest
  {
    u := StepProperty(v, EchoCalls(t), 0, rest, "identifier", true, U16(t, 4), 0, 0xffff);
    w := StepProperty(u, EchoCalls(t), 3, rest, "sequenceNumber", false, U16(t, 6), 0, 0xffff);
    SkipPack(w.pending, EchoCalls(t), 5, rest);
    Done(w.pending, EchoCalls(t), 6, rest);
  }

  lemma ReadEcho(v: View, t: bytes, rest: seq<Event>) returns (w: View)
    requires |t| >= 8 && HasEchoFields(t[0]) && Queue(v.pending, EchoCalls(t), 0, rest)
    ensures DecodeIcmpRest(v, t[0]) == Some((t[4..8], w)) && w.pending == rest
  {
    var u;
    u, w := ReadEchoNumbers(v, t, rest);
    PutOfGet(t, 4);
    PutOfGet(t, 6);
    assert t[4..6] + t[6..8] == t[4..8];
  }

  lemma ReadMtu(v: View, t: bytes, rest: seq<Event>) returns (w: View)
    requires |t| >= 8 && t[0] == ICMP_DEST_UNREACH && Zero16(t, 4)
    requires Queue(v.pending, [Name("nextHopMtu"), CInteger(U16(t, 6))], 0, rest)
    ensures DecodeIcmpRest(v, t[0]) == Some((t[4..8], w)) && w.pending == rest
  {
    var cs := [Name("nextHopMtu"), CInteger(U16(t, 6))];
    PutOfGet(t, 6);
    w := StepProperty(v, cs, 0, rest, "nextHopMtu", false, U16(t, 6), 0, 0xffff);
    Done(w.pending, cs, 2, rest);
    assert [0, 0] + t[6..8] == t[4..8];
  }

  lemma ReadGateway(v: View, t: bytes, rest: seq<Event>) returns (w: View)
    requires |t| >= 8 && t[0] == ICMP_REDIRECT
    requires Queue(v.pending, [Name("gateway"), CString(DottedQuad(t[4..8]))], 0, rest)
    ensures DecodeIcmpRest(v, t[0]) == Some((t[4..8], w)) && w.pending == rest
  {
    var cs := [Name("gateway"), CString(DottedQuad(t[4..8]))];
    w := StepIp4Property(v, cs, 0, rest, "gateway", false, t[4..8]);
    Done(w.pending, cs, 2, rest);
  }

  lemma ReadNoRest(v: View, t: bytes, rest: seq<Event>)
    requires |t| >= 8 && !HasEchoFields(t[0]) && t[0] != ICMP_DEST_UNREACH && t[0] != ICMP_REDIRECT
    requires Zero16(t, 4) && Zero16(t, 6) && Queue(v.pending, [], 0, rest)
    ensures DecodeIcmpRest(v, t[0]) == Some((t[4..8], v)) && v.pending == rest
  {
    Done(v.pending, [], 0, rest);
    assert t[4..8] == [0, 0, 0, 0];
  }

  lemma ReadIcmpRest(v: View, t: bytes, rest: seq<Event>) returns (w: View)
    requires |t| >= 8 && IcmpRestFits(t) && Queue(v.pending, IcmpRest(t), 0, rest)
    ensures DecodeIcmpRest(v, t[0]) == Some((t[4..8], w)) && w.pending == rest
  {
    if HasEchoFields(t[0]) {
      w := ReadEcho(v, t, rest);
    } else if t[0] == ICMP_DEST_UNREACH {
      w := ReadMtu(v, t, rest);
    } else if t[0] == ICMP_REDIRECT {
      w := ReadGateway(v, t, rest);
    } else {
      w := v;
      ReadNoRest(v, t, rest);
    }
  }

  lemma OpenIcmp(v: View, t: bytes, rest: seq<Event>) returns (w: View)
    requires |t| >= 8 && Queue(v.pending, IcmpKindCalls(t), 0, rest)
    ensures ExpectToken(v, StartObjectToken) == Some(w) && Queue(w.pending, IcmpKindCalls(t), 1, rest)
  {
    w := StepBracket(v, IcmpKindCalls(t), 0, rest, CBeginObject);
  }

  lemma ReadIcmpType(v: View, t: bytes, rest: seq<Event>) returns (w: View)
    requires |t| >= 8 && Named(IcmpTypeName, ICMP_TYPE_COUNT, t[0]) && Queue(v.pending, IcmpKindCalls(t), 1, rest)
    ensures ExpectEnumProperty(v, "type", IcmpTypeName, ICMP_TYPE_COUNT) == Some((t[0], w))
    ensures Queue(w.pending, IcmpKindCalls(t), 4, rest)
  {
    w := StepEnumProperty(v, IcmpKindCalls(t), 1, rest, "type", true, IcmpTypeName, ICMP_TYPE_COUNT, t[0]);
  }

  lemma ReadIcmpFront(v: View, t: bytes, rest: seq<Event>) returns (v1: View, v2: View, w: View)
    requires IcmpShape(t) && Queue(v.pending, IcmpKindCalls(t), 0, rest)
    ensures ExpectToken(v, StartObjectToken) == Some(v1)
    ensures ExpectEnumProperty(v1, "type", IcmpTypeName, ICMP_TYPE_COUNT) == Some((t[0], v2))
    ensures DecodeIcmpCode(v2, t[0]) == Some((t[1], w)) && w.pending == rest
  {
    v1 := OpenIcmp(v, t, rest);
    v2 := ReadIcmpType(v1, t, rest);
    w := ReadIcmpCode(v2, IcmpKindCalls(t), 4, t[0], t[1], rest);
    SkipPack(w.pending, IcmpKindCalls(t), 6, rest);
    Done(w.pending, IcmpKindCalls(t), 7, rest);
  }

  lemma SplitIcmp(pending: seq<Event>, t: bytes, rest: seq<Event>) returns (r1: seq<Event>, r2: seq<Event>)
    requires |t| >= 8 && Queue(pending, IcmpCalls(t), 0, rest)
    ensures Queue(pending, IcmpKindCalls(t), 0, r1) && Queue(r1, IcmpRest(t), 0, r2) && Queue(r2, [CEndObject], 0, rest)
  {
    r1, r2 := SplitThree(pending, IcmpKindCalls(t), IcmpRest(t), [CEndObject], rest);
  }

  lemma JoinIcmp(v: View, v1: View, kind: byte, v2: View, code: byte, v3: View, r: bytes, v4: View, v5: View)
    requires ExpectToken(v, StartObjectToken) == Some(v1)
    requires ExpectEnumProperty(v1, "type", IcmpTypeName, ICMP_TYPE_COUNT) == Some((kind, v2))
    requires DecodeIcmpCode(v2, kind) == Some((code, v3))
    requires DecodeIcmpRest(v3, kind) == Some((r, v4)) && ExpectToken(v4, EndObjectToken) == Some(v5)
    ensures Gives(DecodeIcmp(v), Some([kind, code, 0, 0] + r), v5.pending)
  {
  }

  lemma ReadIcmp(v: View, t: bytes, rest: seq<Event>)
    requires IcmpShape(t) && Queue(v.pending, IcmpCalls(t), 0, rest)
    ensures Gives(DecodeIcmp(v), Some([t[0], t[1], 0, 0] + t[4..8]), rest)
  {
    var r1, r2 := SplitIcmp(v.pending, t, rest);
    var v1, v2, v3 := ReadIcmpFront(v, t, r1);
    var v4, v5 := ReadIcmpEnd(v3, t, r2, rest);
    JoinIcmp(v, v1, t[0], v2, t[1], v3, t[4..8], v4, v5);
  }

  lemma ReadIcmpEnd(v: View, t: bytes, mid: seq<Event>, rest: seq<Event>) returns (v1: View, v2: View)
    requires |t| >= 8 && IcmpRestFits(t)
    requires Queue(v.pending, IcmpRest(t), 0, mid) && Queue(mid, [CEndObject], 0, rest)
    ensures DecodeIcmpRest(v, t[0]) == Some((t[4..8], v1))
    ensures ExpectToken(v1, EndObjectToken) == Some(v2) && v2.pending == rest
  {
    v1 := ReadIcmpRest(v, t, mid);
    v2 := OnlyBracket(v1, rest, CEndObject);
  }

  // ---------- payload ----------

  predicate CleanLines(lines: seq<bytes>) {
    forall i :: 0 <= i < |lines| ==> CStr(lines[i]) == lines[i]
  }

  /** The strings of the "data" array from the `k`-th on. */
  lemma {:induction false} ReadLines(v: View, lines: seq<bytes>, k: nat, rest: seq<Event>) returns (w: View)
    requires k <= |lines| && CleanLines(lines)
    requires Queue(v.pending, StringCalls(lines) + [CEndArray], k, rest)
    ensures TakeLines(v) == Some((Concat(lines[k..]), w)) && w.pending == rest
    decreases |lines| - k
  {
    var cs := StringCalls(lines) + [CEndArray];
    if k == |lines| {
      w := StepLast(v, cs, k, rest);
    } else {
      var u := Step(v, cs, k, rest);
      w := ReadLines(u, lines, k + 1, rest);
      assert lines[k..][1..] == lines[k + 1..];
    }
  }

  lemma {:induction false} TextLinesJoin(line: bytes, d: bytes)
    requires NulFree(line) && IsPlainText(d)
    ensures Concat(TextLines(line, d)) == line + d && CleanLines(TextLines(line, d))
    decreases |d|
  {
    if d == [] {
      CStrOfNulFree(line);
      assert line + d == line;
      if line != [] {
        assert Concat([line]) == line + Concat([]);
      }
    } else {
      var longer := line + [d[0]];
      assert longer + d[1..] == line + d;
      if d[0] == '\n' as int {
        TextLinesJoin([], d[1..]);
        CStrOfNulFree(longer);
        var more := TextLines([], d[1..]);
        assert TextLines(line, d) == [longer] + more;
        assert ([longer] + more)[1..] == more;
        assert Concat(more) == d[1..];
      } else {
        TextLinesJoin(longer, d[1..]);
      }
    }
  }

  /** The chunks dumped separately. */
  function Chunks(d: bytes): seq<bytes> {
    if d == [] then [] else [d[..Min(|d|, BYTES_PER_LINE)]] + Chunks(d[Min(|d|, BYTES_PER_LINE)..])
  }

  lemma {:induction false} HexTextNulFree(d: bytes, position: nat)
    ensures NulFree(HexText(d, position))
  {
    if |d| > 1 {
      HexTextNulFree(d[1..], NextPosition(position));
    }
  }

  lemma {:induction false} HexLinesJoin(d: bytes)
    ensures Concat(HexLines(d)) == HexTexts(Chunks(d)) && Concat(Chunks(d)) == d && CleanLines(HexLines(d))
  {
    if d != [] {
      var n := Min(|d|, BYTES_PER_LINE);
      var text := HexText(d[..n], 0);
      HexLinesJoin(d[n..]);
      HexTextNulFree(d[..n], 0);
      CStrOfNulFree(text);
      assert HexLines(d) == [text] + HexLines(d[n..]);
      assert HexLines(d)[1..] == HexLines(d[n..]) && Chunks(d)[1..] == Chunks(d[n..]);
      assert d == d[..n] + d[n..];
    }
  }

  /** Payload round trip: whichever form is chosen, joining and decoding its lines gives the
      bytes back, and no line is cut short by a NUL. */
  lemma PayloadRoundTrip(d: bytes)
    ensures IsPlainText(d) ==> DecodePayload(true, Concat(TextLines([], d))) == d && CleanLines(TextLines([], d))
    ensures !IsPlainText(d) ==> DecodePayload(false, Concat(HexLines(d))) == d && CleanLines(HexLines(d))
  {
    if IsPlainText(d) {
      TextLinesJoin([], d);
    } else {
      HexLinesJoin(d);
      HexChunksRoundTrip(Chunks(d), []);
    }
  }

  function KindWord(isText: bool): string {
    if isText then "text" else "hex"
  }

  lemma KindIsKnown(isText: bool)
    ensures Ascii(KindWord(isText)) == Ascii("text") || Ascii(KindWord(isText)) == Ascii("hex")
    ensures (Ascii(KindWord(isText)) == Ascii("text")) == isText
  {
    AsciiAt("text", 0);
    AsciiAt("hex", 0);
  }

  lemma ReadPayloadKind(v: View, kind: string, rest: seq<Event>) returns (v1: View, v2: View, v3: View)
    requires Queue(v.pending, PayloadFront(kind), 0, rest)
    ensures ExpectToken(v, StartObjectToken) == Some(v1) && ExpectName(v1, "type") == Some(v2)
    ensures ExpectToken(v2, StringToken) == Some(v3) && v3.str == Ascii(kind)
    ensures Queue(v3.pending, PayloadFront(kind), 3, rest)
  {
    v1, v2 := OpenPayload(v, kind, rest);
    v3 := StepWord(v2, PayloadFront(kind), 2, rest, kind);
  }

  lemma OpenPayload(v: View, kind: string, rest: seq<Event>) returns (v1: View, v2: View)
    requires Queue(v.pending, PayloadFront(kind), 0, rest)
    ensures ExpectToken(v, StartObjectToken) == Some(v1) && ExpectName(v1, "type") == Some(v2)
    ensures Queue(v2.pending, PayloadFront(kind), 2, rest)
  {
    v1 := StepBracket(v, PayloadFront(kind), 0, rest, CBeginObject);
    v2 := StepName(v1, PayloadFront(kind), 1, rest, "type");
  }

  lemma StepWord(v: View, cs: seq<Call>, k: nat, rest: seq<Event>, word: string) returns (w: View)
    requires k < |cs| && cs[k] == Word(word) && Queue(v.pending, cs, k, rest)
    ensures ExpectToken(v, StringToken) == Some(w) && w.str == Ascii(word) && Queue(w.pending, cs, k + 1, rest)
  {
    NameEvent(word);
    w := Step(v, cs, k, rest);
  }

  lemma ReadPayloadFront(v: View, kind: string, rest: seq<Event>) returns (v4: View, v5: View)
    requires Queue(v.pending, PayloadFront(kind), 3, rest)
    ensures ExpectName(v, "data") == Some(v4) && ExpectToken(v4, StartArrayToken) == Some(v5) && v5.pending == rest
  {
    var cs := PayloadFront(kind);
    v4 := StepName(v, cs, 3, rest, "data");
    v5 := StepBracket(v4, cs, 4, rest, CBeginArray);
    Done(v5.pending, cs, 5, rest);
  }

  lemma SplitPayload(pending: seq<Event>, front: seq<Call>, list: seq<Call>, rest: seq<Event>)
      returns (r1: seq<Event>, r2: seq<Event>)
    requires Queue(pending, front + list + [CEndArray, CEndObject], 0, rest)
    ensures Queue(pending, front, 0, r1) && Queue(r1, list + [CEndArray], 0, r2) && Queue(r2, [CEndObject], 0, rest)
  {
    assert [CEndArray] + [CEndObject] == [CEndArray, CEndObject];
    Assoc(front + list, [CEndArray], [CEndObject]);
    Assoc(front, list, [CEndArray]);
    r1, r2 := SplitThree(pending, front, list + [CEndArray], [CEndObject], rest);
  }

  lemma JoinPayload(v: View, v1: View, v2: View, v3: View, isText: bool, v4: View, v5: View, text: bytes, v6: View)
    requires ExpectToken(v, StartObjectToken) == Some(v1) && ExpectName(v1, "type") == Some(v2)
    requires ExpectToken(v2, StringToken) == Some(v3) && v3.str == Ascii(KindWord(isText))
    requires ExpectName(v3, "data") == Some(v4) && ExpectToken(v4, StartArrayToken) == Some(v5)
    requires TakeLines(v5) == Some((text, v6))
    ensures TakePayload(v) == Some((isText, text, v6))
  {
    KindIsKnown(isText);
  }

  lemma ReadPayloadParts(v: View, isText: bool, lines: seq<bytes>, r1: seq<Event>, r2: seq<Event>) returns (u: View)
    requires CleanLines(lines)
    requires Queue(v.pending, PayloadFront(KindWord(isText)), 0, r1)
    requires Queue(r1, StringCalls(lines) + [CEndArray], 0, r2)
    ensures TakePayload(v) == Some((isText, Concat(lines), u)) && u.pending == r2
  {
    var v1, v2, v3 := ReadPayloadKind(v, KindWord(isText), r1);
    var v4, v5 := ReadPayloadFront(v3, KindWord(isText), r1);
    u := ReadLines(v5, lines, 0, r2);
    assert lines[0..] == lines;
    JoinPayload(v, v1, v2, v3, isText, v4, v5, Concat(lines), u);
  }

  /** The lines of whichever form is chosen. */
  function PayloadLines(d: bytes): seq<bytes> {
    if IsPlainText(d) then TextLines([], d) else HexLines(d)
  }

  lemma PayloadLinesDecode(d: bytes)
    ensures CleanLines(PayloadLines(d)) && DecodePayload(IsPlainText(d), Concat(PayloadLines(d))) == d
  {
    PayloadRoundTrip(d);
  }

  lemma SplitPayloadOf(pending: seq<Event>, d: bytes, rest: seq<Event>) returns (r1: seq<Event>, r2: seq<Event>)
    requires Queue(pending, PayloadCalls(d), 0, rest)
    ensures Queue(pending, PayloadFront(KindWord(IsPlainText(d))), 0, r1)
    ensures Queue(r1, StringCalls(PayloadLines(d)) + [CEndArray], 0, r2) && Queue(r2, [CEndObject], 0, rest)
  {
    r1, r2 := SplitPayload(pending, PayloadFront(KindWord(IsPlainText(d))), StringCalls(PayloadLines(d)), rest);
  }

  lemma ReadPayloadOf(v: View, d: bytes, rest: seq<Event>) returns (isText: bool, text: bytes, u: View, w: View)
    requires Queue(v.pending, PayloadCalls(d), 0, rest)
    ensures TakePayload(v) == Some((isText, text, u)) && DecodePayload(isText, text) == d
    ensures ExpectToken(u, EndObjectToken) == Some(w) && w.pending == rest
  {
    PayloadLinesDecode(d);
    isText, text := IsPlainText(d), Concat(PayloadLines(d));
    var r1, r2 := SplitPayloadOf(v.pending, d, rest);
    u := ReadPayloadParts(v, isText, PayloadLines(d), r1, r2);
    w := OnlyBracket(u, rest, CEndObject);
  }

  function Payload(b: bytes): bytes
    requires |b| >= 20
  {
    if |b| > DataOffset(b) then b[DataOffset(b)..] else []
  }

  lemma ReadNoData(v: View, rest: seq<Event>)
    requires Queue(v.pending, [] + [CEndObject], 0, rest)
    ensures Gives(DecodeData(v), Some([]), rest)
  {
    assert [] + [CEndObject] == [CEndObject];
    var v1 := OnlyBracket(v, rest, CEndObject);
  }

  lemma JoinData(v: View, v1: View, isText: bool, text: bytes, v2: View, v3: View, v4: View, d: bytes,
                 rest: seq<Event>)
    requires NextView(v) == Some(v1) && AtName(v1, "data") && TakePayload(v1) == Some((isText, text, v2))
    requires ExpectToken(v2, EndObjectToken) == Some(v3) && ExpectToken(v3, EndObjectToken) == Some(v4)
    requires DecodePayload(isText, text) == d && v4.pending == rest
    ensures Gives(DecodeData(v), Some(d), rest)
  {
  }

  lemma ReadDataBehind(v: View, v1: View, d: bytes, mid: seq<Event>, rest: seq<Event>)
    requires NextView(v) == Some(v1) && AtName(v1, "data")
    requires Queue(v1.pending, PayloadCalls(d), 0, mid) && Queue(mid, [CEndObject], 0, rest)
    ensures Gives(DecodeData(v), Some(d), rest)
  {
    var isText, text, v2, v3 := ReadPayloadOf(v1, d, mid);
    var v4 := OnlyBracket(v3, rest, CEndObject);
    JoinData(v, v1, isText, text, v2, v3, v4, d, rest);
  }

  lemma ReadSomeData(v: View, d: bytes, rest: seq<Event>)
    requires Queue(v.pending, [Name("data")] + PayloadCalls(d) + [CEndObject], 0, rest)
    ensures Gives(DecodeData(v), Some(d), rest)
  {
    var r1, r2 := SplitThree(v.pending, [Name("data")], PayloadCalls(d), [CEndObject], rest);
    var v1 := ReadOnlyName(v, "data", r1);
    ReadDataBehind(v, v1, d, r2, rest);
  }

  lemma ReadOnlyName(v: View, name: string, rest: seq<Event>) returns (w: View)
    requires Queue(v.pending, [Name(name)], 0, rest)
    ensures NextView(v) == Some(w) && AtName(w, name) && w.pending == rest
  {
    w := StepName(v, [Name(name)], 0, rest, name);
    Done(w.pending, [Name(name)], 1, rest);
  }

  lemma ReadData(v: View, b: bytes, rest: seq<Event>)
    requires |b| >= 20 && Queue(v.pending, DataCalls(b) + [CEndObject], 0, rest)
    ensures Gives(DecodeData(v), Some(Payload(b)), rest)
  {
    if |b| > DataOffset(b) {
      ReadSomeData(v, b[DataOffset(b)..], rest);
    } else {
      ReadNoData(v, rest);
    }
  }

  // ---------- the packet ----------

  /** What is written for the header behind an IP header without options. */
  function NamedTransportCalls(protocol: byte, t: bytes): seq<Call>
    requires TransportShape(protocol, t)
  {
    if protocol == PROTOCOL_TCP then [Name("tcp")] + TcpCalls(t)
    else if protocol == PROTOCOL_UDP then [Name("udp")] + UdpCalls(t)
    else if protocol == PROTOCOL_ICMP then [Name("icmp")] + IcmpCalls(t)
    else []
  }

  /** A header of the right shape is found where it is. */
  lemma ShapedTransport(b: bytes)
    requires |b| >= 20 && b[0] == 0x45 && TransportShape(b[9], b[20..])
    ensures Walkable(b) && TransportCalls(b) == NamedTransportCalls(b[9], b[20..])
  {
    assert IpLength(b) == 20;
  }

  /** The header behind the IP header as it comes back. */
  function TransportAgain(protocol: byte, t: bytes): Option<bytes>
    requires TransportShape(protocol, t)
  {
    if protocol == PROTOCOL_TCP then TcpAgain(t)
    else if protocol == PROTOCOL_UDP then Some(UdpHeader(U16(t, 0), U16(t, 2)))
    else if protocol == PROTOCOL_ICMP then Some([t[0], t[1], 0, 0] + t[4..8])
    else Some([])
  }

  lemma ReadNamedTransport(v: View, name: string, cs: seq<Call>, rest: seq<Event>) returns (w: View)
    requires Queue(v.pending, [Name(name)] + cs, 0, rest)
    ensures ExpectName(v, name) == Some(w) && Queue(w.pending, cs, 0, rest)
  {
    var mid := Split(v.pending, [Name(name)], cs, rest);
    w := StepName(v, [Name(name)], 0, mid, name);
    Done(w.pending, [Name(name)], 1, mid);
  }

  lemma ReadTransport(v: View, protocol: byte, t: bytes, rest: seq<Event>)
    requires TransportShape(protocol, t) && Queue(v.pending, NamedTransportCalls(protocol, t), 0, rest)
    ensures Gives(DecodeTransport(v, protocol), TransportAgain(protocol, t), rest)
  {
    if protocol == PROTOCOL_TCP {
      var w := ReadNamedTransport(v, "tcp", TcpCalls(t), rest);
      ReadTcp(w, t, rest);
    } else if protocol == PROTOCOL_UDP {
      var w := ReadNamedTransport(v, "udp", UdpCalls(t), rest);
      ReadUdp(w, t, rest);
    } else if protocol == PROTOCOL_ICMP {
      var w := ReadNamedTransport(v, "icmp", IcmpCalls(t), rest);
      ReadIcmp(w, t, rest);
    } else {
      Done(v.pending, [], 0, rest);
    }
  }

  /** What deserializing the JSON text of a packet gives, before length and checksums are set. */
  function ReRead(b: bytes): Option<bytes>
    requires Shaped(b)
  {
    var transport :- TransportAgain(b[9], b[20..]);
    Some(IpHeader(IpFieldsOf(b)) + transport + Payload(b))
  }

  /** Where the tokens of the parts of a packet begin. */
  lemma SplitPacket(pending: seq<Event>, b: bytes, rest: seq<Event>)
      returns (r1: seq<Event>, r2: seq<Event>, r3: seq<Event>)
    requires |b| >= 20 && b[0] == 0x45 && Walkable(b) && Queue(pending, WholePacketCalls(b), 0, rest)
    ensures Queue(pending, [CBeginObject, Name("ip")], 0, r1) && Queue(r1, IpCalls(b), 0, r2)
    ensures Queue(r2, TransportCalls(b), 0, r3) && Queue(r3, DataCalls(b) + [CEndObject], 0, rest)
  {
    Assoc([CBeginObject, Name("ip")] + IpCalls(b) + TransportCalls(b), DataCalls(b), [CEndObject]);
    r1, r2, r3 := SplitFour(pending, [CBeginObject, Name("ip")], IpCalls(b), TransportCalls(b),
                            DataCalls(b) + [CEndObject], rest);
  }

  /** The "ip" property. */
  lemma ReadIpName(v: View, rest: seq<Event>) returns (v1: View, v2: View)
    requires Queue(v.pending, [CBeginObject, Name("ip")], 0, rest)
    ensures NextView(v) == Some(v1) && v1.token == StartObjectToken
    ensures ExpectName(v1, "ip") == Some(v2) && v2.pending == rest
  {
    var front := [CBeginObject, Name("ip")];
    v1 := StepBracket(v, front, 0, rest, CBeginObject);
    v2 := StepName(v1, front, 1, rest, "ip");
    Done(v2.pending, front, 2, rest);
  }

  lemma JoinHeaders(v: View, v1: View, h: bytes, v2: View, transport: Option<bytes>, rest: seq<Event>)
    requires |h| == 20 && ExpectName(v, "ip") == Some(v1) && DecodeIp(v1) == Some((h, v2))
    requires Gives(DecodeTransport(v2, h[9]), transport, rest)
    ensures transport.None? ==> DecodeHeaders(v).None?
    ensures transport.Some? ==> Gives(DecodeHeaders(v), Some(h + transport.value), rest)
  {
  }

  lemma DecodeIpFrom(v: View, f: IpFields, w: View)
    requires TakeIpFields(v) == Some((f, w))
    ensures DecodeIp(v) == Some((IpHeader(f), w))
  {
  }

  lemma ProtocolInHeader(f: IpFields)
    ensures IpHeader(f)[9] == f.protocol
  {
  }

  /** Decoding the tokens SerializePacket writes, whatever tokens follow. */
  lemma ReadPacket(v: View, b: bytes, rest: seq<Event>)
    requires Shaped(b) && Walkable(b) && Queue(v.pending, WholePacketCalls(b), 0, rest)
    ensures NextView(v).Some? && Gives(Decode(NextView(v).value), ReRead(b), rest)
  {
    ShapedTransport(b);
    var r1, r2, r3 := SplitPacket(v.pending, b, rest);
    var v1, v2 := ReadIpName(v, r1);
    var v3 := ReadIp(v2, b, r2);
    ReadTransport(v3, b[9], b[20..], r3);
    DecodeIpFrom(v2, IpFieldsOf(b), v3);
    ProtocolInHeader(IpFieldsOf(b));
    JoinHeaders(v1, v2, IpHeader(IpFieldsOf(b)), v3, TransportAgain(b[9], b[20..]), r3);
    if DecodeHeaders(v1).Some? {
      ReadData(DecodeHeaders(v1).value.1, b, rest);
    }
  }
}
