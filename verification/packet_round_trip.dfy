/** Packets through JSON and back: exactly when deserializing what was serialized gives the same
    bytes. */
module PacketRoundTrips {
  import opened Base
  import opened JsonTokens
  import opened JsonWriterSpec
  import opened EventViews
  import opened Wire
  import opened TcpOptions
  import opened PacketTables
  import opened PacketFormat
  import opened PacketCalls
  import opened PacketFeed
  import opened PacketShape
  import opened PacketReadBack

  import JsonRoundTrip

  // ---------- the condition ----------

  /** Acknowledgement numbers are written only under the ACK flag. */
  predicate AckSurvives(t: bytes)
    requires |t| >= 20
  {
    HasAck(t) || U32(t, 8) == 0
  }

  /** The data offset covers the fixed header, no acknowledgement number is dropped, and the
      options in front of it are those the walk recognises, with EOL at the end only. */
  predicate TcpFaithful(t: bytes)
    requires |t| >= 20
  {
    HeaderLength(t) >= 20 && AckSurvives(t) && CleanArea(OptionArea(t))
  }

  predicate Faithful(b: bytes)
    requires |b| >= 20
  {
    b[9] == PROTOCOL_TCP && |b| >= 40 ==> TcpFaithful(b[20..])
  }

  // ---------- the parts of a blanked packet ----------

  function BlankRest(protocol: byte, t: bytes): (r: bytes)
    ensures |r| == |t|
  {
    if protocol == PROTOCOL_ICMP && |t| >= 8 then Clear16(t, 2)
    else if protocol == PROTOCOL_UDP && |t| >= 8 then Clear16(Clear16(t, 4), 6)
    else if protocol == PROTOCOL_TCP && |t| >= 20 then Clear16(t, 16)
    else t
  }

  lemma ClearBehind(b: bytes, i: nat)
    requires 20 <= i && i + 2 <= |b|
    ensures Clear16(b, i) == b[..20] + Clear16(b[20..], i - 20)
  {
  }

  lemma ClearInFront(b: bytes, i: nat)
    requires i + 2 <= 20 <= |b|
    ensures Clear16(b, i)[20..] == b[20..] && Clear16(b, i)[..20] == Clear16(b[..20], i)
  {
  }

  lemma BlankTransportParts(b: bytes)
    requires |b| >= 20
    ensures BlankTransport(b) == b[..20] + BlankRest(b[9], b[20..])
  {
    if b[9] == PROTOCOL_ICMP && |b| >= 28 {
      ClearBehind(b, 22);
    } else if b[9] == PROTOCOL_UDP && |b| >= 28 {
      ClearBehind(b, 24);
      var c := Clear16(b, 24);
      ClearBehind(c, 26);
      assert c[..20] == b[..20] && c[20..] == Clear16(b[20..], 4);
    } else if b[9] == PROTOCOL_TCP && |b| >= 40 {
      ClearBehind(b, 36);
    } else {
      assert b == b[..20] + b[20..];
    }
  }

  lemma IpHeaderAgain(b: bytes)
    requires |b| >= 20 && b[0] == 0x45
    ensures Clear16(Clear16(b[..20], 2), 10) == IpHeader(IpFieldsOf(b))
  {
    var h, g := Clear16(Clear16(b[..20], 2), 10), IpHeader(IpFieldsOf(b));
    assert U16(b, 4) / 256 == b[4] && U16(b, 4) % 256 == b[5];
    assert U16(b, 6) / 256 == b[6] && U16(b, 6) % 256 == b[7];
    assert g[12..16] == b[12..16] && g[16..20] == b[16..20];
    forall i | 0 <= i < 20
      ensures h[i] == g[i]
    {
      if 12 <= i < 16 {
        assert g[i] == g[12..16][i - 12] == b[12..16][i - 12];
      } else if 16 <= i {
        assert g[i] == g[16..20][i - 16] == b[16..20][i - 16];
      }
    }
  }

  lemma BlankParts(b: bytes)
    requires |b| >= 20 && b[0] == 0x45
    ensures Blank(b) == IpHeader(IpFieldsOf(b)) + BlankRest(b[9], b[20..])
  {
    var c := Clear16(b, 2);
    var d := Clear16(c, 10);
    ClearInFront(b, 2);
    ClearInFront(c, 10);
    IpHeaderAgain(b);
    BlankTransportParts(d);
  }

  // ---------- one transport header after the other ----------

  lemma UdpAgain(t: bytes)
    requires |t| >= 8
    ensures UdpHeader(U16(t, 0), U16(t, 2)) + t[8..] == BlankRest(PROTOCOL_UDP, t)
  {
    PutOfGet(t, 0);
    PutOfGet(t, 2);
    var u := UdpHeader(U16(t, 0), U16(t, 2));
    assert u == t[0..2] + t[2..4] + [0, 0, 0, 0];
    assert u == t[..4] + [0, 0, 0, 0];
  }

  lemma IcmpAgain(t: bytes)
    requires |t| >= 8
    ensures [t[0], t[1], 0, 0] + t[4..8] + t[8..] == BlankRest(PROTOCOL_ICMP, t)
  {
  }

  /** The fixed TCP header comes back unless an acknowledgement number is dropped. */
  lemma TcpHeaderAgain(t: bytes)
    requires TcpShape(t) && HeaderLength(t) >= 20
    ensures WithDataOffset(TcpHeader(TcpFieldsOf(t)), HeaderLength(t) - 20) == Clear16(t[..20], 16) <==> AckSurvives(t)
  {
    var f := TcpFieldsOf(t);
    var g, h := WithDataOffset(TcpHeader(f), HeaderLength(t) - 20), Clear16(t[..20], 16);
    DataOffsetAgain(t[12]);
    TcpHeaderFields(f);
    PutOfGet(t, 0);
    PutOfGet(t, 2);
    PutOfGet(t, 4);
    PutOfGet(t, 8);
    PutOfGet(t, 14);
    PutOfGet(t, 18);
    assert g[0..2] == t[0..2] && g[2..4] == t[2..4] && g[4..8] == t[4..8];
    assert g[12] == t[12] && g[13] == t[13] && g[14..16] == t[14..16];
    assert g[18..20] == t[18..20] && g[8..12] == Put32(f.ack);
    SameHeader(g, h, t);
    SamePut32(f.ack, U32(t, 8));
  }

  lemma SameHeader(g: bytes, h: bytes, t: bytes)
    requires |g| == 20 && |t| >= 20 && h == Clear16(t[..20], 16)
    requires g[0..2] == t[0..2] && g[2..4] == t[2..4] && g[4..8] == t[4..8]
    requires g[12] == t[12] && g[13] == t[13] && g[14..16] == t[14..16]
    requires g[16] == 0 && g[17] == 0 && g[18..20] == t[18..20]
    ensures g == h <==> g[8..12] == t[8..12]
  {
    assert h[8..12] == t[8..12];
    var front, middle, back := t[0..2] + t[2..4] + t[4..8], [t[12], t[13]] + t[14..16], [0, 0] + t[18..20];
    assert g == front + g[8..12] + (middle + back);
    assert h == front + t[8..12] + (middle + back);
  }

  lemma DataOffsetAgain(x: byte)
    requires x % 16 == 0 && x / 16 >= 5
    ensures (5 + (x / 16 * 4 - 20) / 4) % 16 * 16 == x
  {
  }

  lemma SamePut32(a: uint32, b: uint32)
    ensures Put32(a) == Put32(b) <==> a == b
  {
    PutGet(a);
    PutGet(b);
  }

  /** Where the fields of a TCP header are. */
  lemma TcpHeaderFields(f: TcpFields)
    ensures var h := TcpHeader(f);
      && h[0..2] == Put16(f.source) && h[2..4] == Put16(f.dest) && h[4..8] == Put32(f.number)
      && h[8..12] == Put32(f.ack) && h[13] == f.flags % 64 && h[14..16] == Put16(f.window)
      && h[16] == 0 && h[17] == 0 && h[18..20] == Put16(f.urgent)
  {
  }

  lemma Cancel(a: bytes, b: bytes, a': bytes, b': bytes, c: bytes)
    requires |a| == |a'|
    ensures a + b + c == a' + b' + c <==> a == a' && b == b'
  {
    if a + b + c == a' + b' + c {
      assert |b| == |b'|;
      assert a == (a + b + c)[..|a|] && a' == (a' + b' + c)[..|a|];
      assert b == (a + b + c)[|a|..|a| + |b|] && b' == (a' + b' + c)[|a|..|a| + |b|];
    }
  }

  /** With a sound data offset a segment is its fixed header, its options and its payload. */
  lemma SegmentParts(t: bytes)
    requires TcpShape(t) && HeaderLength(t) >= 20
    ensures OptionArea(t) == t[20..HeaderLength(t)] && |OptionArea(t)| == HeaderLength(t) - 20
    ensures BlankRest(PROTOCOL_TCP, t) == Clear16(t[..20], 16) + OptionArea(t) + t[HeaderLength(t)..]
  {
    var n := HeaderLength(t);
    assert OptionSize(t) == n - 20;
    assert t == t[..20] + t[20..n] + t[n..];
  }

  lemma SegmentExactly(t: bytes)
    requires TcpShape(t) && HeaderLength(t) >= 20
    ensures var enc := EncodeAll(Walk(OptionArea(t)));
      WithDataOffset(TcpHeader(TcpFieldsOf(t)), |enc|) + enc + t[HeaderLength(t)..] == BlankRest(PROTOCOL_TCP, t)
      <==> AckSurvives(t) && CleanArea(OptionArea(t))
  {
    var area := OptionArea(t);
    var enc := EncodeAll(Walk(area));
    SegmentParts(t);
    CleanExactly(area);
    Cancel(WithDataOffset(TcpHeader(TcpFieldsOf(t)), |enc|), enc, Clear16(t[..20], 16), area, t[HeaderLength(t)..]);
    if enc == area {
      TcpHeaderAgain(t);
    }
  }

  /** A data offset below 5 makes header bytes pass for payload, so that they are doubled. */
  lemma ShortOffset(t: bytes)
    requires TcpShape(t) && HeaderLength(t) < 20 && TcpAgain(t).Some?
    ensures |TcpAgain(t).value + t[HeaderLength(t)..]| > |t|
  {
  }

  lemma AlignedArea(t: bytes)
    requires TcpShape(t) && HeaderLength(t) >= 20
    ensures |OptionArea(t)| % 4 == 0
  {
    SegmentParts(t);
  }

  lemma AgainParts(t: bytes)
    requires |t| >= 20 && WalkEnds(OptionArea(t))
    ensures var enc := EncodeAll(Walk(OptionArea(t)));
      var header := WithDataOffset(TcpHeader(TcpFieldsOf(t)), |enc|);
      && (TcpAgain(t).Some? <==> |enc| % 4 == 0)
      && (TcpAgain(t).Some? ==> TcpAgain(t).value == header + enc)
  {
  }

  lemma SoundOffset(t: bytes)
    requires TcpShape(t) && HeaderLength(t) >= 20
    ensures CleanArea(OptionArea(t)) ==> TcpAgain(t).Some?
    ensures TcpAgain(t).Some? ==>
      (TcpAgain(t).value + t[HeaderLength(t)..] == BlankRest(PROTOCOL_TCP, t)
       <==> AckSurvives(t) && CleanArea(OptionArea(t)))
  {
    AgainParts(t);
    AlignedArea(t);
    SegmentExactly(t);
    CleanExactly(OptionArea(t));
  }

  /** What is written for a TCP segment gives it back, checksum aside, exactly if it is faithful. */
  lemma TcpExactly(t: bytes)
    requires TcpShape(t)
    ensures var again, payload := TcpAgain(t), t[HeaderLength(t)..];
      again.Some? && again.value + payload == BlankRest(PROTOCOL_TCP, t) <==> TcpFaithful(t)
  {
    if HeaderLength(t) >= 20 {
      SoundOffset(t);
    } else if TcpAgain(t).Some? {
      ShortOffset(t);
    }
  }

  // ---------- the packet ----------

  /** Where the payload of a packet without IP options is. */
  function TransportLength(protocol: byte, t: bytes): (n: nat)
    requires TransportShape(protocol, t)
    ensures n <= |t|
  {
    if protocol == PROTOCOL_TCP then HeaderLength(t)
    else if protocol == PROTOCOL_UDP || protocol == PROTOCOL_ICMP then 8
    else 0
  }

  lemma PayloadBehind(b: bytes)
    requires |b| >= 20 && b[0] == 0x45 && TransportShape(b[9], b[20..])
    ensures Payload(b) == b[20..][TransportLength(b[9], b[20..])..]
  {
    assert IpLength(b) == 20;
    assert DataOffset(b) == 20 + TransportLength(b[9], b[20..]);
  }

  lemma TransportExactly(protocol: byte, t: bytes)
    requires TransportShape(protocol, t)
    ensures (TransportAgain(protocol, t).Some?
              && TransportAgain(protocol, t).value + t[TransportLength(protocol, t)..] == BlankRest(protocol, t))
       <==> (protocol == PROTOCOL_TCP ==> TcpFaithful(t))
  {
    if protocol == PROTOCOL_TCP {
      TcpExactly(t);
    } else if protocol == PROTOCOL_UDP {
      UdpAgain(t);
    } else if protocol == PROTOCOL_ICMP {
      IcmpAgain(t);
    } else {
      assert [] + t == t;
    }
  }

  lemma SamePrefix(h: bytes, a: bytes, b: bytes)
    ensures h + a == h + b <==> a == b
  {
    if h + a == h + b {
      assert a == (h + a)[|h|..] && b == (h + b)[|h|..];
    }
  }

  /** Reading a packet's JSON text restores it, length and checksums aside, exactly if it is
      faithful. */
  lemma ReReadExactly(b: bytes)
    requires Shaped(b)
    ensures ReRead(b) == Some(Blank(b)) <==> Faithful(b)
  {
    TransportExactly(b[9], b[20..]);
    PayloadBehind(b);
    BlankParts(b);
    var h, again := IpHeader(IpFieldsOf(b)), TransportAgain(b[9], b[20..]);
    if again.Some? {
      Assoc(h, again.value, Payload(b));
      SamePrefix(h, again.value + Payload(b), BlankRest(b[9], b[20..]));
    }
  }

  /** Deserializing at `v` gives packet `b`. */
  predicate Deserializes(v: View, b: bytes) {
    Decode(v).Some? && Finish(Decode(v).value.0) == b
  }

  /** Length and checksum fields hold what DeserializePacket computes. */
  predicate HasComputedFields(b: bytes)
    requires |b| >= 20
  {
    Finish(Blank(b)) == b
  }

  /** What a packet must satisfy to survive the trip through JSON. */
  predicate Restorable(b: bytes) {
    Shaped(b) && Faithful(b) && HasComputedFields(b)
  }

  lemma DeserializedIsShaped(v: View, b: bytes)
    requires Deserializes(v, b)
    ensures Shaped(b) && Walkable(b) && HasComputedFields(b) && Decode(v).Some? && Decode(v).value.0 == Blank(b)
  {
    var raw := Decode(v).value.0;
    DecodedShape(v);
    FinishKeepsShape(raw);
    BlankFinish(raw);
    ShapedTransport(b);
  }

  lemma ReadWhole(u: View, b: bytes, rest: seq<Event>)
    requires Shaped(b) && Walkable(b) && u.pending == JsonRoundTrip.CallEvents(WholePacketCalls(b)) + rest
    ensures NextView(u).Some? && Gives(Decode(NextView(u).value), ReRead(b), rest)
  {
    var cs := WholePacketCalls(b);
    FeedIsCallEvents(cs, 0, rest);
    assert cs[0..] == cs;
    Close(cs, 0, rest);
    ReadPacket(u, b, rest);
  }

  lemma FirstCall(b: bytes)
    requires Walkable(b)
    ensures WholePacketCalls(b) != [] && WholePacketCalls(b)[0] == CBeginObject
  {
  }

  lemma SerializedOpens(u: View, b: bytes, rest: seq<Event>)
    requires Walkable(b) && u.pending == JsonRoundTrip.CallEvents(WholePacketCalls(b)) + rest
    ensures NextView(u).Some?
  {
    var cs := WholePacketCalls(b);
    FeedIsCallEvents(cs, 0, rest);
    assert cs[0..] == cs;
    FirstCall(b);
    FeedStep(cs, 0, rest, CBeginObject);
  }

  /** The packet round trip: for every packet that SerializePacket gets through, recorded or not,
      the tokens written for it make DeserializePacket produce the same bytes exactly if it has a
      shape that DeserializePacket produces, is faithful, and carries the computed fields. */
  lemma RecordedPacketRoundTrip(b: bytes, u: View, rest: seq<Event>)
    requires Walkable(b) && u.pending == JsonRoundTrip.CallEvents(WholePacketCalls(b)) + rest
    ensures NextView(u).Some? && (Deserializes(NextView(u).value, b) <==> Restorable(b))
  {
    SerializedOpens(u, b, rest);
    var w := NextView(u).value;
    if Deserializes(w, b) {
      DeserializedIsShaped(w, b);
    }
    if Shaped(b) {
      ReadWhole(u, b, rest);
      ReReadExactly(b);
    }
  }

  /** For every packet that DeserializePacket produces, nothing but faithfulness is left to ask:
      length and checksum fields, too, come back. */
  lemma PacketRoundTrip(v: View, b: bytes, u: View, rest: seq<Event>)
    requires Deserializes(v, b)
    ensures Walkable(b) && (Restorable(b) <==> Faithful(b))
    ensures u.pending == JsonRoundTrip.CallEvents(WholePacketCalls(b)) + rest ==>
      NextView(u).Some? && (Deserializes(NextView(u).value, b) <==> Faithful(b))
  {
    DeserializedIsShaped(v, b);
    if u.pending == JsonRoundTrip.CallEvents(WholePacketCalls(b)) + rest {
      RecordedPacketRoundTrip(b, u, rest);
    }
  }

  // ---------- the condition on the JSON side ----------

  lemma {:induction false} VisibleIsShorter(os: seq<TcpOption>)
    ensures |EncodeAll(Visible(os))| <= |EncodeAll(os)|
    ensures |EncodeAll(Visible(os))| == |EncodeAll(os)| ==> Visible(os) == os
  {
    if os != [] {
      VisibleIsShorter(os[1..]);
      var rest := Visible(os[1..]);
      if os[0].EndOfList? {
        assert EncodeAll([EndOfList]) == [TCPOPT_EOL];
        if |os| > 1 {
          assert |Encode(os[1])| > 0;
          assert os[1..] != [] && |EncodeAll(os[1..])| > 0;
        } else {
          assert os == [EndOfList];
        }
      } else if !os[0].WindowScale? {
        assert ([os[0]] + rest)[1..] == rest;
        assert os == [os[0]] + os[1..];
      }
    }
  }

  /** Written options form a clean area exactly if none is a window scale and none follows EOL. */
  lemma EncodedIsClean(os: seq<TcpOption>)
    ensures CleanArea(EncodeAll(os)) <==> Visible(os) == os
  {
    WalkOfEncoded(os);
    CleanExactly(EncodeAll(os));
    VisibleIsShorter(os);
  }

  lemma WrittenHeader(f: TcpFields, area: bytes, data: bytes)
    requires |area| % 4 == 0
    ensures var t := WithDataOffset(TcpHeader(f), |area|) + area + data;
      && HeaderLength(t) == (5 + |area| / 4) % 16 * 4
      && HasAck(t) == HasBit(f.flags, ACK_BIT)
      && U32(t, 8) == f.ack
  {
    var t := WithDataOffset(TcpHeader(f), |area|) + area + data;
    TcpHeaderFields(f);
    UrgBit(f.flags);
    assert t[12] == (5 + |area| / 4) % 16 * 16 && t[13] == f.flags % 64;
    assert t[8..12] == TcpHeader(f)[8..12];
    PutGet(f.ack);
    assert U32(t, 8) == U32(t[8..12], 0);
  }

  /** The header length that `n` bytes of options leave in four bits: a multiple of 64 is lost. */
  lemma OffsetWraps(n: nat)
    requires n % 4 == 0
    ensures var m := n % 64;
      (m <= 40 ==> (5 + n / 4) % 16 * 4 == 20 + m) && (m > 40 ==> (5 + n / 4) % 16 * 4 < 20)
  {
    var q, w := n / 64, n % 64 / 4;
    assert n % 64 == 4 * w && w < 16 && n / 4 == 16 * q + w;
    WrapFour(q, 5 + w);
  }

  lemma WrapFour(q: nat, w: nat)
    requires w < 32
    ensures (16 * q + w) % 16 == if w < 16 then w else w - 16
  {
  }

  lemma AreaBehind(h: bytes, area: bytes, data: bytes, m: nat)
    requires |h| == 20 && m <= |area| && HeaderLength(h + area + data) == 20 + m
    ensures OptionArea(h + area + data) == area[..m]
  {
    assert OptionSize(h + area + data) == m;
  }

  /** With up to 40 bytes of options the data offset leads to the payload. */
  lemma PayloadStart(f: TcpFields, area: bytes, data: bytes)
    requires |area| % 4 == 0 && |area| <= 40
    ensures var t := WithDataOffset(TcpHeader(f), |area|) + area + data;
      HeaderLength(t) == 20 + |area| && t[HeaderLength(t)..] == data && OptionArea(t) == area
  {
    WrittenHeader(f, area, data);
    OffsetWraps(|area|);
    AreaBehind(WithDataOffset(TcpHeader(f), |area|), area, data, |area|);
  }

  lemma FaithfulBehind(t: bytes, area: bytes, m: nat)
    requires |t| >= 20 && m <= |area|
    requires if m <= 40 then HeaderLength(t) == 20 + m && OptionArea(t) == area[..m] else HeaderLength(t) < 20
    ensures TcpFaithful(t) <==> m <= 40 && AckSurvives(t) && CleanArea(area[..m])
  {
  }

  lemma LengthWraps(f: TcpFields, area: bytes, data: bytes)
    requires |area| % 4 == 0
    ensures var m, t := |area| % 64, WithDataOffset(TcpHeader(f), |area|) + area + data;
      && (m <= 40 ==> HeaderLength(t) == 20 + m)
      && (m > 40 ==> HeaderLength(t) < 20)
      && HasAck(t) == HasBit(f.flags, ACK_BIT) && U32(t, 8) == f.ack
  {
    WrittenHeader(f, area, data);
    OffsetWraps(|area|);
  }

  /** What a TCP header in JSON must satisfy to survive. Of the length of its options only the
      remainder modulo 64 is kept: a remainder above 40 never survives, and otherwise the options
      that far must be clean, while the bytes behind pass for payload. An acknowledgement number
      needs the ACK flag. */
  predicate HeaderSurvives(f: TcpFields, area: bytes) {
    var m := |area| % 64;
    m <= 40 && (HasBit(f.flags, ACK_BIT) || f.ack == 0) && CleanArea(area[..m])
  }

  lemma FaithfulModulo(f: TcpFields, area: bytes, data: bytes)
    requires |area| % 4 == 0
    ensures TcpFaithful(WithDataOffset(TcpHeader(f), |area|) + area + data) <==> HeaderSurvives(f, area)
  {
    var m, h := |area| % 64, WithDataOffset(TcpHeader(f), |area|);
    LengthWraps(f, area, data);
    if m <= 40 {
      AreaBehind(h, area, data, m);
    }
    FaithfulBehind(h + area + data, area, m);
  }

  lemma CleanBelow(os: seq<TcpOption>, m: nat)
    requires m == |EncodeAll(os)| % 64 && |EncodeAll(os)| <= 40
    ensures CleanArea(EncodeAll(os)[..m]) <==> Visible(os) == os
  {
    EncodedIsClean(os);
    assert EncodeAll(os)[..m] == EncodeAll(os);
  }

  /** Up to 40 bytes the options survive exactly if none is a window scale or stands behind EOL. */
  lemma ShortOptions(f: TcpFields, os: seq<TcpOption>)
    requires |EncodeAll(os)| <= 40
    ensures HeaderSurvives(f, EncodeAll(os)) <==> (HasBit(f.flags, ACK_BIT) || f.ack == 0) && Visible(os) == os
  {
    CleanBelow(os, |EncodeAll(os)| % 64);
  }

  /** The condition on the fields and options in JSON, for any number of options. */
  lemma FaithfulHeader(f: TcpFields, os: seq<TcpOption>, data: bytes)
    requires |EncodeAll(os)| % 4 == 0
    ensures var n := |EncodeAll(os)|;
      var t := WithDataOffset(TcpHeader(f), n) + EncodeAll(os) + data;
      && (TcpFaithful(t) <==> HeaderSurvives(f, EncodeAll(os)))
      && (n <= 40 ==> (TcpFaithful(t) <==> (HasBit(f.flags, ACK_BIT) || f.ack == 0) && Visible(os) == os))
  {
    FaithfulModulo(f, EncodeAll(os), data);
    if |EncodeAll(os)| <= 40 {
      ShortOptions(f, os);
    }
  }
}
