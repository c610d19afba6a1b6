/** TCP packets written down in JSON by a client: which of them come back from a round trip. */
module WrittenPackets {
  import opened Base
  import opened JsonTokens
  import opened JsonWriterSpec
  import opened EventViews
  import opened Wire
  import opened TcpOptions
  import opened PacketTables
  import opened PacketFormat
  import opened PacketCalls
  import opened PacketFeed
  import opened PacketShape
  import opened PacketReadBack
  import opened PacketChecksums
  import opened PacketRoundTrips

  import JsonRoundTrip

  // ---------- the tokens ----------

  /** The fixed header `t`, with an "ackNumber" whether or not ACK is among the flags. */
  function FixedCalls(t: bytes, ack: uint32): seq<Call>
    requires |t| >= 20
  {
    TcpFront(t) + AckCalls(ack) + TcpFlagCalls(t[13]) + TcpWindow(t)
  }

  function OptionProperty(os: seq<TcpOption>): seq<Call> {
    OptionFront() + OptionListCalls(os) + [CEndArray, CEndPack]
  }

  function WrittenTcpCalls(t: bytes, ack: uint32, os: seq<TcpOption>): seq<Call>
    requires |t| >= 20
  {
    FixedCalls(t, ack) + OptionProperty(os) + [CEndObject]
  }

  function DataProperty(d: bytes): seq<Call> {
    Optional(d != [], [Name("data")] + PayloadCalls(d))
  }

  /** A JSON packet with the fields of the headers `h` and `t`, options and data. */
  function WrittenCalls(h: bytes, t: bytes, ack: uint32, os: seq<TcpOption>, d: bytes): seq<Call>
    requires |h| >= 20 && |t| >= 20
  {
    [CBeginObject, Name("ip")] + IpCalls(h) + ([Name("tcp")] + WrittenTcpCalls(t, ack, os))
    + (DataProperty(d) + [CEndObject])
  }

  // ---------- what they are decoded to ----------

  predicate Aligned(os: seq<TcpOption>) {
    |EncodeAll(os)| % 4 == 0
  }

  function WrittenFields(t: bytes, ack: uint32): TcpFields
    requires |t| >= 20
  {
    TcpFieldsOf(t).(ack := ack)
  }

  function WrittenTcp(t: bytes, ack: uint32, os: seq<TcpOption>): bytes
    requires |t| >= 20
  {
    WithDataOffset(TcpHeader(WrittenFields(t, ack)), |EncodeAll(os)|) + EncodeAll(os)
  }

  /** The packet before its length and checksums are set. */
  function Written(h: bytes, t: bytes, ack: uint32, os: seq<TcpOption>, d: bytes): (p: bytes)
    requires |h| >= 20 && |t| >= 20
    ensures |p| >= 40
  {
    IpHeader(IpFieldsOf(h)) + WrittenTcp(t, ack, os) + d
  }

  lemma ReadFixed(v: View, t: bytes, ack: uint32, rest: seq<Event>) returns (w: View)
    requires |t| >= 20 && t[13] < 64 && Queue(v.pending, FixedCalls(t, ack), 0, rest)
    ensures TakeTcpFields(v) == Some((WrittenFields(t, ack), w)) && w.pending == rest
  {
    var r1, r2, r3 := SplitFour(v.pending, TcpFront(t), AckCalls(ack), TcpFlagCalls(t[13]), TcpWindow(t), rest);
    var v1 := OpenTcp(v, t, r1);
    var v2, v3 := ReadTcpFront(v1, t, r1);
    var v4 := ReadAck(v3, ack, r2);
    w := ReadTcpControl(v4, t, r3, rest);
  }

  lemma ReadOptionsAndEnd(v: View, os: seq<TcpOption>, mid: seq<Event>, rest: seq<Event>) returns (w: View)
    requires Queue(v.pending, OptionProperty(os), 0, mid) && Queue(mid, [CEndObject], 0, rest)
    ensures NextView(v).Some? && DecodeOptions(NextView(v).value) == Some((os, w)) && w.pending == rest
  {
    var v1, v2, v3 := ReadOptionProperty(v, os, mid);
    w := StepLast(v3, [CEndObject], 0, rest);
  }

  lemma ReadWrittenTcp(v: View, t: bytes, ack: uint32, os: seq<TcpOption>, rest: seq<Event>)
    requires |t| >= 20 && t[13] < 64 && Queue(v.pending, WrittenTcpCalls(t, ack, os), 0, rest)
    ensures Gives(DecodeTcp(v), if Aligned(os) then Some(WrittenTcp(t, ack, os)) else None, rest)
  {
    var r1, r2 := SplitThree(v.pending, FixedCalls(t, ack), OptionProperty(os), [CEndObject], rest);
    var v1 := ReadFixed(v, t, ack, r1);
    var v2 := ReadOptionsAndEnd(v1, os, r2, rest);
  }

  lemma ReadNamedTcp(v: View, t: bytes, ack: uint32, os: seq<TcpOption>, rest: seq<Event>)
    requires |t| >= 20 && t[13] < 64 && Queue(v.pending, [Name("tcp")] + WrittenTcpCalls(t, ack, os), 0, rest)
    ensures Gives(DecodeTransport(v, PROTOCOL_TCP), if Aligned(os) then Some(WrittenTcp(t, ack, os)) else None, rest)
  {
    var w := ReadNamedTransport(v, "tcp", WrittenTcpCalls(t, ack, os), rest);
    ReadWrittenTcp(w, t, ack, os, rest);
  }

  lemma ReadDataProperty(v: View, d: bytes, rest: seq<Event>)
    requires Queue(v.pending, DataProperty(d) + [CEndObject], 0, rest)
    ensures Gives(DecodeData(v), Some(d), rest)
  {
    if d != [] {
      ReadSomeData(v, d, rest);
    } else {
      ReadNoData(v, rest);
    }
  }

  lemma ReadWritten(v: View, h: bytes, t: bytes, ack: uint32, os: seq<TcpOption>, d: bytes, rest: seq<Event>)
    requires |h| >= 20 && IpShape(h) && h[9] == PROTOCOL_TCP && |t| >= 20 && t[13] < 64
    requires Queue(v.pending, WrittenCalls(h, t, ack, os, d), 0, rest)
    ensures NextView(v).Some?
    ensures Gives(Decode(NextView(v).value), if Aligned(os) then Some(Written(h, t, ack, os, d)) else None, rest)
  {
    var r1, r2, r3 := SplitFour(v.pending, [CBeginObject, Name("ip")], IpCalls(h),
                                [Name("tcp")] + WrittenTcpCalls(t, ack, os), DataProperty(d) + [CEndObject], rest);
    var v1, v2 := ReadIpName(v, r1);
    var v3 := ReadIp(v2, h, r2);
    ReadNamedTcp(v3, t, ack, os, r3);
    DecodeIpFrom(v2, IpFieldsOf(h), v3);
    ProtocolInHeader(IpFieldsOf(h));
    JoinHeaders(v1, v2, IpHeader(IpFieldsOf(h)), v3, if Aligned(os) then Some(WrittenTcp(t, ack, os)) else None, r3);
    if Aligned(os) {
      ReadDataProperty(DecodeHeaders(v1).value.1, d, rest);
    }
  }

  // ---------- which of them survive ----------

  /** The checksum is not among the fields that decide. */
  lemma ChecksumIsFree(t: bytes, u: bytes)
    requires |t| == |u| >= 20 && forall i :: 0 <= i < |t| && i != 16 && i != 17 ==> u[i] == t[i]
    ensures TcpFaithful(u) == TcpFaithful(t)
  {
    assert OptionArea(u) == OptionArea(t);
    assert U32(u, 8) == U32(t, 8);
  }

  lemma FinishKeepsFaithful(p: bytes)
    requires |p| >= 40 && p[9] == PROTOCOL_TCP
    ensures Faithful(Finish(p)) == TcpFaithful(p[20..])
  {
    FinishKeeps(p);
    var q := Finish(p);
    var t, u := p[20..], q[20..];
    forall i | 0 <= i < |t| && i != 16 && i != 17
      ensures u[i] == t[i]
    {
      assert u[i] == q[20 + i] && t[i] == p[20 + i];
    }
    ChecksumIsFree(t, u);
  }

  /** The properties "flags", "ackNumber" and "options" survive a round trip. */
  predicate Survives(t: bytes, ack: uint32, os: seq<TcpOption>)
    requires |t| >= 20
  {
    HeaderSurvives(WrittenFields(t, ack), EncodeAll(os))
  }

  lemma WrittenIsFaithful(h: bytes, t: bytes, ack: uint32, os: seq<TcpOption>, d: bytes)
    requires |h| >= 20 && h[9] == PROTOCOL_TCP && |t| >= 20 && Aligned(os)
    ensures Faithful(Finish(Written(h, t, ack, os, d))) <==> Survives(t, ack, os)
  {
    var header, tcp, p := IpHeader(IpFieldsOf(h)), WrittenTcp(t, ack, os), Written(h, t, ack, os, d);
    ProtocolInHeader(IpFieldsOf(h));
    Assoc(header, tcp, d);
    assert p[9] == header[9] && p[20..] == tcp + d;
    FinishKeepsFaithful(p);
    FaithfulHeader(WrittenFields(t, ack), os, d);
  }

  lemma WrittenDecodes(v: View, h: bytes, t: bytes, ack: uint32, os: seq<TcpOption>, d: bytes, rest: seq<Event>)
    requires |h| >= 20 && IpShape(h) && h[9] == PROTOCOL_TCP && |t| >= 20 && t[13] < 64
    requires v.pending == JsonRoundTrip.CallEvents(WrittenCalls(h, t, ack, os, d)) + rest
    ensures NextView(v).Some?
    ensures Gives(Decode(NextView(v).value), if Aligned(os) then Some(Written(h, t, ack, os, d)) else None, rest)
  {
    var cs := WrittenCalls(h, t, ack, os, d);
    FeedIsCallEvents(cs, 0, rest);
    assert cs[0..] == cs;
    Close(cs, 0, rest);
    ReadWritten(v, h, t, ack, os, d, rest);
  }

  lemma GivesPacket(r: Option<(bytes, View)>, p: bytes, rest: seq<Event>)
    requires Gives(r, Some(p), rest)
    ensures r.Some? && r.value.0 == p
  {
  }

  lemma WrittenAlone(v: View, h: bytes, t: bytes, ack: uint32, os: seq<TcpOption>, d: bytes)
    requires |h| >= 20 && IpShape(h) && h[9] == PROTOCOL_TCP && |t| >= 20 && t[13] < 64
    requires v.pending == JsonRoundTrip.CallEvents(WrittenCalls(h, t, ack, os, d)) && Aligned(os)
    ensures NextView(v).Some? && Decode(NextView(v).value).Some?
    ensures Decode(NextView(v).value).value.0 == Written(h, t, ack, os, d)
  {
    assert v.pending + [] == v.pending;
    WrittenDecodes(v, h, t, ack, os, d, []);
    GivesPacket(Decode(NextView(v).value), Written(h, t, ack, os, d), []);
  }

  /** Every TCP packet written down in JSON: it is refused exactly if its options do not fill
      whole words, and otherwise comes back from a round trip exactly if `Survives` holds of the
      "flags", "ackNumber" and "options" properties. */
  lemma WrittenPacketExactly(v: View, h: bytes, t: bytes, ack: uint32, os: seq<TcpOption>, d: bytes, rest: seq<Event>)
    requires |h| >= 20 && IpShape(h) && h[9] == PROTOCOL_TCP && |t| >= 20 && t[13] < 64
    requires v.pending == JsonRoundTrip.CallEvents(WrittenCalls(h, t, ack, os, d)) + rest
    ensures NextView(v).Some? && (Decode(NextView(v).value).Some? <==> Aligned(os))
    ensures Aligned(os) ==>
      var b := Finish(Written(h, t, ack, os, d));
      Deserializes(NextView(v).value, b) && Walkable(b) && (Restorable(b) <==> Survives(t, ack, os))
  {
    WrittenDecodes(v, h, t, ack, os, d, rest);
    if Aligned(os) {
      WrittenIsFaithful(h, t, ack, os, d);
      PacketRoundTrip(NextView(v).value, Finish(Written(h, t, ack, os, d)), v, []);
    }
  }

  // ---------- and which do not ----------

  /** Deserializing at `v` gives a packet that does not come back. */
  ghost predicate IsLost(v: View) {
    exists b :: Deserializes(v, b) && Walkable(b) && !Restorable(b)
  }

  lemma LostPacket(v: View, h: bytes, t: bytes, ack: uint32, os: seq<TcpOption>, d: bytes)
    requires |h| >= 20 && IpShape(h) && h[9] == PROTOCOL_TCP && |t| >= 20 && t[13] < 64
    requires v.pending == JsonRoundTrip.CallEvents(WrittenCalls(h, t, ack, os, d))
    requires Aligned(os) && !Survives(t, ack, os)
    ensures NextView(v).Some? && IsLost(NextView(v).value)
  {
    assert v.pending + [] == v.pending;
    WrittenPacketExactly(v, h, t, ack, os, d, []);
  }

  /** No packet with a window scale as its only option comes back. */
  lemma ScaleDoesNotSurvive(t: bytes, ack: uint32, shift: uint16)
    requires |t| >= 20
    ensures Aligned([WindowScale(shift)]) && !Survives(t, ack, [WindowScale(shift)])
  {
    var os := [WindowScale(shift)];
    assert os[1..] == [] && EncodeAll(os) == Encode(os[0]) + [] == Encode(os[0]);
    assert EncodeAll(os)[..4] == EncodeAll(os);
    ShortOptions(WrittenFields(t, ack), os);
  }

  lemma NoOptionsAreAligned()
    ensures Aligned([])
  {
  }

  lemma NumberDoesNotSurvive(t: bytes, ack: uint32)
    requires |t| >= 20 && !HasAck(t) && ack != 0
    ensures Aligned([]) && !Survives(t, ack, [])
  {
    NoOptionsAreAligned();
  }

  /** The protocols besides TCP whose names begin with a T. */
  const T_NAMES: set<nat> := {23, 24, 39, 56, 84, 87}

  predicate NoInitialT(name: Option<string>) {
    name.Some? ==> |name.value| > 0 && 0 < name.value[0] as int < 256 && name.value[0] != 'T'
  }

  lemma NoInitialT0(i: nat)
    requires i > 6 && i !in T_NAMES
    ensures NoInitialT(ProtocolText0(i))
  {
  }

  lemma NoInitialT32(i: nat)
    requires i !in T_NAMES
    ensures NoInitialT(ProtocolText32(i))
  {
  }

  lemma NoInitialT64(i: nat)
    requires i !in T_NAMES
    ensures NoInitialT(ProtocolText64(i))
  {
  }

  lemma NoInitialT96(i: nat)
    ensures NoInitialT(ProtocolText96(i))
  {
  }

  lemma NoInitialT120(i: nat)
    ensures NoInitialT(ProtocolText120(i))
  {
  }

  lemma NoInitialTName(i: nat)
    requires i > 6 && i !in T_NAMES
    ensures NoInitialT(ProtocolText(i))
  {
    NoInitialT0(i);
    NoInitialT32(i);
    NoInitialT64(i);
    NoInitialT96(i);
    NoInitialT120(i);
  }

  lemma NamesWithT(i: nat)
    requires i in T_NAMES
    ensures ProtocolText(i).Some? && Ascii(ProtocolText(i).value) != Ascii("TCP")
  {
    Differ("TRUNK-1", "TCP", 1);
    Differ("TRUNK-2", "TCP", 1);
    Differ("TP++", "TCP", 1);
    Differ("TLSP", "TCP", 1);
    Differ("TTP", "TCP", 1);
    Differ("TCF", "TCP", 2);
  }

  lemma OtherName(i: nat)
    requires i > 6
    ensures ProtocolName(i) != Some(Ascii("TCP"))
  {
    if i in T_NAMES {
      NamesWithT(i);
    } else if ProtocolText(i).Some? {
      NoInitialTName(i);
      Differ(ProtocolText(i).value, "TCP", 0);
    }
  }

  lemma TcpIsNamed()
    ensures Named(ProtocolName, PROTOCOL_COUNT, PROTOCOL_TCP)
  {
    AsciiIsCStr("TCP");
    forall j | 6 < j < PROTOCOL_COUNT
      ensures ProtocolName(j) != Some(Ascii("TCP"))
    {
      OtherName(j);
    }
    LookupFinds(ProtocolName, PROTOCOL_COUNT, Ascii("TCP"), PROTOCOL_TCP);
  }

  /** From 192.168.0.1 to 192.168.0.2, with identification 63869. */
  function ExampleIp(): (h: bytes)
    ensures |h| == 20
  {
    [0x45, 0, 0, 0, 0xf9, 0x7d, 0, 0, 64, PROTOCOL_TCP, 0, 0, 192, 168, 0, 1, 192, 168, 0, 2]
  }

  /** SYN from port 1024 to port 80. */
  function ExampleSyn(): (t: bytes)
    ensures |t| == 20
  {
    [4, 0, 0, 80, 0, 0, 0, 1, 0, 0, 0, 0, 0, 2, 1, 0, 0, 0, 0, 0]
  }

  lemma TcpHeaderFits(h: bytes)
    requires |h| >= 20 && h[0] == 0x45 && U16(h, 6) < 0x8000 && h[9] == PROTOCOL_TCP
    ensures IpShape(h)
  {
    TcpIsNamed();
  }

  lemma ExampleFields()
    ensures var h := ExampleIp(); h[0] == 0x45 && U16(h, 6) == 0 && h[9] == PROTOCOL_TCP
  {
  }

  lemma ExampleIpFits()
    ensures IpShape(ExampleIp()) && ExampleIp()[9] == PROTOCOL_TCP
  {
    ExampleFields();
    TcpHeaderFits(ExampleIp());
  }

  lemma ExampleSynFits()
    ensures ExampleSyn()[13] < 64 && !HasAck(ExampleSyn())
  {
  }

  /** A SYN with a window scale is deserialized, but does not come back. */
  lemma WindowScaleIsLost(v: View)
    requires v.pending
          == JsonRoundTrip.CallEvents(WrittenCalls(ExampleIp(), ExampleSyn(), 0, [WindowScale(7)], []))
    ensures NextView(v).Some? && IsLost(NextView(v).value)
  {
    var h, t := ExampleIp(), ExampleSyn();
    ExampleIpFits();
    ExampleSynFits();
    ScaleDoesNotSurvive(t, 0, 7);
    LostPacket(v, h, t, 0, [WindowScale(7)], []);
  }

  /** So it is with an acknowledgement number and no ACK flag. */
  lemma AckNumberIsLost(v: View)
    requires v.pending == JsonRoundTrip.CallEvents(WrittenCalls(ExampleIp(), ExampleSyn(), 1, [], []))
    ensures NextView(v).Some? && IsLost(NextView(v).value)
  {
    var h, t := ExampleIp(), ExampleSyn();
    ExampleIpFits();
    ExampleSynFits();
    NumberDoesNotSurvive(t, 1);
    LostPacket(v, h, t, 1, [], []);
  }

  lemma WordSumFour(a: byte, b: byte, c: byte, d: byte)
    ensures WordSum([a, b, c, d]) == 256 * a + b + 256 * c + d
  {
    assert [c, d][2..] == [] && WordSum([c, d]) == 256 * c + d;
    assert [a, b, c, d][2..] == [c, d];
  }

  lemma WordSumFive(a: bytes, b: bytes, c: bytes, d: bytes, e: bytes)
    requires |a| == |b| == |c| == |d| == 4
    ensures WordSum(a + b + c + d + e) == WordSum(a) + WordSum(b) + WordSum(c) + WordSum(d) + WordSum(e)
  {
    WordSumConcat(a + b + c + d, e);
    WordSumConcat(a + b + c, d);
    WordSumConcat(a + b, c);
    WordSumConcat(a, b);
  }

  /** The words of the example header, with a total length of 40, add up to 0x2fffe. */
  lemma ExampleSum()
    ensures WordSum(Patch16(ExampleIp(), 2, 40)) == 0x2_fffe
  {
    var a, b, c: bytes := [0x45, 0, 0, 40], [0xf9, 0x7d, 0, 0], [64, PROTOCOL_TCP, 0, 0];
    var d, e: bytes := [192, 168, 0, 1], [192, 168, 0, 2];
    assert Patch16(ExampleIp(), 2, 40) == a + b + c + d + e;
    WordSumFive(a, b, c, d, e);
    WordSumFour(0x45, 0, 0, 40);
    WordSumFour(0xf9, 0x7d, 0, 0);
    WordSumFour(64, PROTOCOL_TCP, 0, 0);
    WordSumFour(192, 168, 0, 1);
    WordSumFour(192, 168, 0, 2);
  }

  lemma ExampleHeader()
    ensures IpHeader(IpFieldsOf(ExampleIp())) == ExampleIp()
  {
  }

  lemma WrittenParts(h: bytes, t: bytes, ack: uint32)
    requires |h| >= 20 && |t| >= 20
    ensures var p := Written(h, t, ack, [], []);
      |p| == 40 && p[..20] == IpHeader(IpFieldsOf(h)) && Zero16(p, 10)
  {
  }

  /** The words of a bare segment's IP header, its length set. */
  function BareSum(h: bytes): nat
    requires |h| >= 20
  {
    WordSum(Patch16(IpHeader(IpFieldsOf(h)), 2, 40))
  }

  lemma ExampleBareSum()
    ensures BareSum(ExampleIp()) == 0x2_fffe
  {
    ExampleHeader();
    ExampleSum();
  }

  lemma CarryInHeader(p: bytes, h: bytes)
    requires |h| >= 20 && |p| == 40 && p[..20] == IpHeader(IpFieldsOf(h)) && Zero16(p, 10)
    ensures Residue([], Finish(p)[..20]) == if Fold(BareSum(h)) < WORD then 0 else 1
  {
    IpHeaderVerifies(p);
    assert Low8(40) == 40 && WordSum([]) == 0;
  }

  /** What a receiver finds for the IP header of the finished packet. */
  predicate VerifiesUnlessCarried(p: bytes, h: bytes)
    requires |h| >= 20 && |p| >= 20
  {
    Residue([], Finish(p)[..20]) == if Fold(BareSum(h)) < WORD then 0 else 1
  }

  lemma WrittenResidue(h: bytes, t: bytes, ack: uint32)
    requires |h| >= 20 && |t| >= 20
    ensures VerifiesUnlessCarried(Written(h, t, ack, [], []), h)
  {
    WrittenParts(h, t, ack);
    CarryInHeader(Written(h, t, ack, [], []), h);
  }

  lemma BareDecodes(v: View, h: bytes, t: bytes, ack: uint32)
    requires |h| >= 20 && IpShape(h) && h[9] == PROTOCOL_TCP && |t| >= 20 && t[13] < 64
    requires v.pending == JsonRoundTrip.CallEvents(WrittenCalls(h, t, ack, [], []))
    ensures NextView(v).Some? && Decode(NextView(v).value).Some?
    ensures Decode(NextView(v).value).value.0 == Written(h, t, ack, [], [])
  {
    NoOptionsAreAligned();
    WrittenAlone(v, h, t, ack, [], []);
  }

  /** The IP header of a bare segment is good for a receiver exactly if the fold leaves no carry. */
  lemma BareSegmentExactly(v: View, h: bytes, t: bytes, ack: uint32)
    requires |h| >= 20 && IpShape(h) && h[9] == PROTOCOL_TCP && |t| >= 20 && t[13] < 64
    requires v.pending == JsonRoundTrip.CallEvents(WrittenCalls(h, t, ack, [], []))
    ensures NextView(v).Some? && Decode(NextView(v).value).Some?
    ensures VerifiesUnlessCarried(Decode(NextView(v).value).value.0, h)
  {
    BareDecodes(v, h, t, ack);
    WrittenResidue(h, t, ack);
  }

  /** The carry does happen: a plain SYN segment is deserialized to a packet whose IP header a
      receiver would reject. */
  lemma SingleFoldIsNotEnough(v: View)
    requires v.pending == JsonRoundTrip.CallEvents(WrittenCalls(ExampleIp(), ExampleSyn(), 0, [], []))
    ensures NextView(v).Some? && Decode(NextView(v).value).Some?
    ensures Residue([], Finish(Decode(NextView(v).value).value.0)[..20]) == 1
  {
    ExampleIpFits();
    ExampleSynFits();
    ExampleBareSum();
    BareSegmentExactly(v, ExampleIp(), ExampleSyn(), 0);
  }
}
