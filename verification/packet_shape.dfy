/** What every packet that DeserializePacket produces looks like. */
module PacketShape {
  import opened Base
  import opened JsonTokens
  import opened EventViews
  import opened Wire
  import opened TcpOptions
  import opened PacketTables
  import opened PacketFormat
  import opened PacketCalls
  import opened PacketFeed

  predicate Zero16(b: bytes, i: nat)
    requires i + 2 <= |b|
  {
    b[i] == 0 && b[i + 1] == 0
  }

  predicate IpShape(b: bytes)
    requires |b| >= 20
  {
    && b[0] == 0x45
    && U16(b, 6) < 0x8000
    && Named(ProtocolName, PROTOCOL_COUNT, b[9])
  }

  predicate TcpShape(t: bytes) {
    && |t| >= 20
    && HeaderLength(t) <= |t|
    && WalkEnds(OptionArea(t))
    && t[12] % 16 == 0
    && t[13] < 64
    && (!HasUrg(t) ==> Zero16(t, 18))
  }

  predicate IcmpCodeShape(kind: byte, code: byte) {
    if kind == ICMP_DEST_UNREACH then Named(UnreachableCodeName, UNREACHABLE_CODE_COUNT, code)
    else if kind == ICMP_REDIRECT then Named(RedirectCodeName, REDIRECT_CODE_COUNT, code)
    else if kind == ICMP_PARAMETERPROB then Named(BadHeaderCodeName, BAD_HEADER_CODE_COUNT, code)
    else true
  }

  predicate IcmpShape(t: bytes) {
    && |t| >= 8
    && Named(IcmpTypeName, ICMP_TYPE_COUNT, t[0])
    && IcmpCodeShape(t[0], t[1])
    && IcmpRestFits(t)
  }

  /** The fields a type does not have are zero. */
  predicate IcmpRestFits(t: bytes)
    requires |t| >= 8
  {
    && (!HasEchoFields(t[0]) && t[0] != ICMP_REDIRECT ==> Zero16(t, 4))
    && (!HasEchoFields(t[0]) && t[0] != ICMP_REDIRECT && t[0] != ICMP_DEST_UNREACH ==> Zero16(t, 6))
  }

  predicate TransportShape(protocol: byte, t: bytes) {
    if protocol == PROTOCOL_TCP then TcpShape(t)
    else if protocol == PROTOCOL_UDP then |t| >= 8
    else if protocol == PROTOCOL_ICMP then IcmpShape(t)
    else true
  }

  /** A packet DeserializePacket can produce, as far as it matters below. */
  predicate Shaped(b: bytes) {
    |b| >= 20 && IpShape(b) && TransportShape(b[9], b[20..])
  }

  // ---------- the fields that are computed last ----------

  /** The two-byte fields behind the IP header that Finish sets. */
  function Clear16(b: bytes, i: nat): (r: bytes)
    requires i + 2 <= |b|
    ensures |r| == |b|
  {
    Patch16(b, i, 0)
  }

  function BlankTransport(b: bytes): (r: bytes)
    requires |b| >= 20
    ensures |r| == |b|
  {
    if b[9] == PROTOCOL_ICMP && |b| >= 28 then Clear16(b, 22)
    else if b[9] == PROTOCOL_UDP && |b| >= 28 then Clear16(Clear16(b, 24), 26)
    else if b[9] == PROTOCOL_TCP && |b| >= 40 then Clear16(b, 36)
    else b
  }

  /** The packet with its length and checksum fields zeroed. */
  function Blank(b: bytes): (r: bytes)
    requires |b| >= 20
    ensures |r| == |b|
  {
    BlankTransport(Clear16(Clear16(b, 2), 10))
  }

  predicate BlankFields(b: bytes) {
    && |b| >= 20
    && Zero16(b, 2) && Zero16(b, 10)
    && (b[9] == PROTOCOL_ICMP && |b| >= 28 ==> Zero16(b, 22))
    && (b[9] == PROTOCOL_UDP && |b| >= 28 ==> Zero16(b, 24) && Zero16(b, 26))
    && (b[9] == PROTOCOL_TCP && |b| >= 40 ==> Zero16(b, 36))
  }

  /** Finish touches nothing but the fields Blank clears. */
  lemma FinishKeeps(p: bytes)
    requires |p| >= 20
    ensures forall i :: 0 <= i < |p| && i !in {2, 3, 10, 11} && i < 22 ==> Finish(p)[i] == p[i]
    ensures forall i :: 28 <= i < |p| && i !in {36, 37} ==> Finish(p)[i] == p[i]
    ensures p[9] == PROTOCOL_ICMP && |p| >= 28 ==> forall i :: 24 <= i < |p| ==> Finish(p)[i] == p[i]
    ensures p[9] == PROTOCOL_UDP ==> forall i :: 22 <= i < 24 && i < |p| ==> Finish(p)[i] == p[i]
    ensures p[9] == PROTOCOL_TCP || p[9] !in {PROTOCOL_ICMP, PROTOCOL_UDP} ==>
      forall i :: 22 <= i < 36 && i < |p| ==> Finish(p)[i] == p[i]
    ensures p[9] != PROTOCOL_TCP ==> forall i :: 36 <= i < |p| ==> Finish(p)[i] == p[i]
  {
    var q := FinishIp(p);
    assert forall i :: 0 <= i < |p| && i !in {2, 3, 10, 11} ==> q[i] == p[i];
  }

  /** Finish is undone by zeroing the fields it set. */
  lemma BlankFinish(p: bytes)
    requires BlankFields(p)
    ensures Blank(Finish(p)) == p
  {
    FinishKeeps(p);
    var r := Blank(Finish(p));
    forall i | 0 <= i < |p|
      ensures r[i] == p[i]
    {
    }
  }

  // ---------- every decoded packet has the shape ----------

  lemma EntryIsCStr(text: Option<string>)
    ensures Entry(text).Some? ==> CStr(Entry(text).value) == Entry(text).value
  {
    if text.Some? {
      AsciiIsCStr(text.value);
    }
  }

  lemma EnumIsNamed(v: View, name: string, t: Table, n: nat)
    requires n <= 256 && ExpectEnumProperty(v, name, t, n).Some?
    requires forall i :: t(i).Some? ==> CStr(t(i).value) == t(i).value
    ensures Named(t, n, ExpectEnumProperty(v, name, t, n).value.0)
  {
    var u := ExpectName(v, name).value;
    var w := NextView(u).value;
    LookupInverts(t, n, w.str);
  }

  lemma TablesAreCStrings()
    ensures forall i: nat {:trigger ProtocolName(i)} ::
      ProtocolName(i).Some? ==> CStr(ProtocolName(i).value) == ProtocolName(i).value
    ensures forall i: nat {:trigger IcmpTypeName(i)} ::
      IcmpTypeName(i).Some? ==> CStr(IcmpTypeName(i).value) == IcmpTypeName(i).value
    ensures forall i: nat {:trigger UnreachableCodeName(i)} ::
      UnreachableCodeName(i).Some? ==> CStr(UnreachableCodeName(i).value) == UnreachableCodeName(i).value
    ensures forall i: nat {:trigger RedirectCodeName(i)} ::
      RedirectCodeName(i).Some? ==> CStr(RedirectCodeName(i).value) == RedirectCodeName(i).value
    ensures forall i: nat {:trigger BadHeaderCodeName(i)} ::
      BadHeaderCodeName(i).Some? ==> CStr(BadHeaderCodeName(i).value) == BadHeaderCodeName(i).value
  {
    forall i: nat {
      EntryIsCStr(ProtocolText(i));
    }
    forall i: nat {
      EntryIsCStr(IcmpTypeText(i));
    }
    forall i: nat {
      EntryIsCStr(UnreachableCodeText(i));
    }
    forall i: nat {
      EntryIsCStr(RedirectCodeText(i));
    }
    forall i: nat {
      EntryIsCStr(BadHeaderCodeText(i));
    }
  }

  /** An IP flag mask is one of four values. */
  lemma {:induction false} IpMaskRange(v: View, mask: nat)
    requires mask in {0, IP_DF, IP_MF, IP_DF + IP_MF} && TakeFlags(v, IpFlag, mask).Some?
    ensures TakeFlags(v, IpFlag, mask).value.0 in {0, IP_DF, IP_MF, IP_DF + IP_MF}
    decreases |v.pending|
  {
    var w := NextView(v).value;
    if w.token != EndArrayToken {
      var bit := IpFlag(w.str).value;
      assert OrBit(mask, bit) in {0, IP_DF, IP_MF, IP_DF + IP_MF};
      IpMaskRange(w, OrBit(mask, bit));
    }
  }

  lemma JoinIsSmall(offset: nat, mask: nat)
    requires offset <= 8191 && mask in {0, IP_DF, IP_MF, IP_DF + IP_MF}
    ensures JoinFragment(offset, mask) < 0x8000
  {
  }

  predicate IpMask(mask: nat) {
    mask == 0 || mask == IP_DF || mask == IP_MF || mask == IP_DF + IP_MF
  }

  lemma IpFrontShape(v: View)
    requires TakeIpFront(v).Some?
    ensures IpMask(TakeIpFront(v).value.2)
  {
    var f1 := ExpectProperty(v, "version", 4, 4).value.1;
    var f2 := ExpectProperty(f1, "tos", 0, 255).value.1;
    var f3 := ExpectProperty(f2, "id", 0, 0xffff).value.1;
    var f4 := ExpectName(f3, "flags").value;
    IpMaskRange(ExpectToken(f4, StartArrayToken).value, 0);
  }

  lemma IpMiddleShape(v: View, mask: nat)
    requires IpMask(mask) && TakeIpMiddle(v, mask).Some?
    ensures var (frag, _, protocol, _) := TakeIpMiddle(v, mask).value;
      frag < 0x8000 && Named(ProtocolName, PROTOCOL_COUNT, protocol)
  {
    TablesAreCStrings();
    var m1 := ExpectProperty(v, "fragmentOffset", 0, 8191).value;
    JoinIsSmall(m1.0, mask);
    var m2 := ExpectProperty(m1.1, "ttl", 0, 255).value.1;
    EnumIsNamed(m2, "protocol", ProtocolName, PROTOCOL_COUNT);
  }

  lemma IpFieldsParts(v: View) returns (v1: View, v2: View, mask: nat)
    requires TakeIpFields(v).Some?
    ensures TakeIpFront(v1).Some? && TakeIpFront(v1).value.2 == mask && TakeIpMiddle(v2, mask).Some?
    ensures TakeIpFields(v).value.0.frag == TakeIpMiddle(v2, mask).value.0
    ensures TakeIpFields(v).value.0.protocol == TakeIpMiddle(v2, mask).value.2
  {
    v1 := ExpectToken(v, StartObjectToken).value;
    mask, v2 := TakeIpFront(v1).value.2, TakeIpFront(v1).value.3;
  }

  lemma IpFieldsShape(v: View)
    requires TakeIpFields(v).Some?
    ensures var f := TakeIpFields(v).value.0;
      f.frag < 0x8000 && Named(ProtocolName, PROTOCOL_COUNT, f.protocol)
  {
    var v1, v2, mask := IpFieldsParts(v);
    IpFrontShape(v1);
    IpMiddleShape(v2, mask);
  }

  lemma IpHeaderShape(f: IpFields)
    requires f.frag < 0x8000 && Named(ProtocolName, PROTOCOL_COUNT, f.protocol)
    ensures var h := IpHeader(f); IpShape(h) && Zero16(h, 2) && Zero16(h, 10) && h[9] == f.protocol
  {
    var h := IpHeader(f);
    assert U16(h, 6) == f.frag;
  }

  lemma TcpDecodeShape(v: View)
    requires DecodeTcp(v).Some?
    ensures var t := DecodeTcp(v).value.0; TcpShape(t) && Zero16(t, 16)
  {
    var (f, v1) := TakeTcpFields(v).value;
    UrgentShape(v);
    var v2 := NextView(v1).value;
    var (os, v3) := DecodeOptions(v2).value;
    TcpBytesShape(f, os);
  }

  lemma ControlShape(v: View)
    requires TakeTcpControl(v).Some?
    ensures !HasBit(TakeTcpControl(v).value.0, URG_BIT) ==> TakeTcpControl(v).value.2 == 0
  {
  }

  lemma TcpFieldsParts(v: View) returns (w: View)
    requires TakeTcpFields(v).Some?
    ensures TakeTcpControl(w).Some?
    ensures TakeTcpFields(v).value.0.flags == TakeTcpControl(w).value.0
    ensures TakeTcpFields(v).value.0.urgent == TakeTcpControl(w).value.2
  {
    var v1 := ExpectToken(v, StartObjectToken).value;
    var v2 := TakePorts(v1).value.2;
    var v3 := ExpectProperty(v2, "seqNumber", 0, 0xffff_ffff).value.1;
    w := TakeAckNumber(v3).value.1;
  }

  /** Without the URG flag the urgent pointer stays zero. */
  lemma UrgentShape(v: View)
    requires TakeTcpFields(v).Some?
    ensures var f := TakeTcpFields(v).value.0; !HasBit(f.flags, URG_BIT) ==> f.urgent == 0
  {
    var w := TcpFieldsParts(v);
    ControlShape(w);
  }

  lemma SameParity(k: nat, x: nat)
    ensures (2 * k + x) % 2 == x % 2
  {
  }

  lemma UrgBit(flags: nat)
    ensures HasBit(flags % 64, 32) == HasBit(flags, 32)
    ensures HasBit(flags % 64, 16) == HasBit(flags, 16)
  {
    var q, r := flags / 64, flags % 64;
    assert flags == 64 * q + r;
    assert flags / 32 == 2 * q + r / 32;
    assert flags / 16 == 2 * (2 * q) + r / 16;
    SameParity(q, r / 32);
    SameParity(2 * q, r / 16);
  }

  lemma FixedFields(f: TcpFields)
    ensures var h := TcpHeader(f);
      h[13] == f.flags % 64 && Zero16(h, 16) && h[18] == f.urgent / 256 && h[19] == f.urgent % 256
  {
  }

  lemma OffsetFits(n: nat)
    requires n % 4 == 0
    ensures (5 + n / 4) % 16 * 4 <= 20 + n
  {
  }

  lemma HeaderBeforeArea(h: bytes, area: bytes)
    requires |h| == 20 && |area| % 4 == 0
    ensures var t := WithDataOffset(h, |area|) + area;
      && HeaderLength(t) <= |t| && t[12] % 16 == 0
      && (forall i :: 13 <= i < 20 ==> t[i] == h[i])
      && OptionSize(t) <= |area| && OptionArea(t) == area[..OptionSize(t)]
  {
    OffsetFits(|area|);
  }

  lemma TcpBytesShape(f: TcpFields, os: seq<TcpOption>)
    requires |EncodeAll(os)| % 4 == 0
    requires !HasBit(f.flags, URG_BIT) ==> f.urgent == 0
    ensures var t := WithDataOffset(TcpHeader(f), |EncodeAll(os)|) + EncodeAll(os); TcpShape(t) && Zero16(t, 16)
  {
    var area := EncodeAll(os);
    var n := |area|;
    var h := TcpHeader(f);
    var t := WithDataOffset(h, n) + area;
    FixedFields(f);
    UrgBit(f.flags);
    HeaderBeforeArea(h, area);
    WalkEndsOnPrefix(os, OptionSize(t));
  }

  lemma IcmpParts(v: View) returns (v1: View, kind: byte, v2: View, code: byte, v3: View, rest: bytes)
    requires DecodeIcmp(v).Some?
    ensures ExpectEnumProperty(v1, "type", IcmpTypeName, ICMP_TYPE_COUNT) == Some((kind, v2))
    ensures DecodeIcmpCode(v2, kind) == Some((code, v3))
    ensures DecodeIcmpRest(v3, kind).Some? && DecodeIcmpRest(v3, kind).value.0 == rest
    ensures DecodeIcmp(v).value.0 == [kind, code, 0, 0] + rest
  {
    v1 := ExpectToken(v, StartObjectToken).value;
    var named := ExpectEnumProperty(v1, "type", IcmpTypeName, ICMP_TYPE_COUNT).value;
    kind, v2 := named.0, named.1;
    var coded := DecodeIcmpCode(v2, kind).value;
    code, v3 := coded.0, coded.1;
    rest := DecodeIcmpRest(v3, kind).value.0;
  }

  lemma IcmpDecodeShape(v: View)
    requires DecodeIcmp(v).Some?
    ensures var t := DecodeIcmp(v).value.0; IcmpShape(t) && Zero16(t, 2)
  {
    var v1, kind, v2, code, v3, rest := IcmpParts(v);
    TablesAreCStrings();
    EnumIsNamed(v1, "type", IcmpTypeName, ICMP_TYPE_COUNT);
    IcmpCodeDecodeShape(v2, kind);
    IcmpRestShape(v3, kind);
    IcmpBytesShape(kind, code, rest);
  }

  lemma IcmpBytesShape(kind: byte, code: byte, rest: bytes)
    requires Named(IcmpTypeName, ICMP_TYPE_COUNT, kind) && IcmpCodeShape(kind, code) && |rest| == 4
    requires !HasEchoFields(kind) && kind != ICMP_REDIRECT ==> Zero16(rest, 0)
    requires !HasEchoFields(kind) && kind != ICMP_REDIRECT && kind != ICMP_DEST_UNREACH ==> Zero16(rest, 2)
    ensures var t := [kind, code, 0, 0] + rest; IcmpShape(t) && Zero16(t, 2)
  {
  }

  lemma IcmpCodeDecodeShape(v: View, kind: byte)
    requires DecodeIcmpCode(v, kind).Some?
    ensures IcmpCodeShape(kind, DecodeIcmpCode(v, kind).value.0)
  {
    TablesAreCStrings();
    if kind == ICMP_DEST_UNREACH {
      EnumIsNamed(v, "code", UnreachableCodeName, UNREACHABLE_CODE_COUNT);
    } else if kind == ICMP_REDIRECT {
      EnumIsNamed(v, "code", RedirectCodeName, REDIRECT_CODE_COUNT);
    } else if kind == ICMP_PARAMETERPROB {
      EnumIsNamed(v, "code", BadHeaderCodeName, BAD_HEADER_CODE_COUNT);
    }
  }

  lemma IcmpRestShape(v: View, kind: byte)
    requires DecodeIcmpRest(v, kind).Some?
    ensures var r := DecodeIcmpRest(v, kind).value.0;
      && (!HasEchoFields(kind) && kind != ICMP_REDIRECT ==> Zero16(r, 0))
      && (!HasEchoFields(kind) && kind != ICMP_REDIRECT && kind != ICMP_DEST_UNREACH ==> Zero16(r, 2))
  {
  }

  lemma TransportDecodeShape(v: View, protocol: byte)
    requires DecodeTransport(v, protocol).Some?
    ensures var t := DecodeTransport(v, protocol).value.0;
      && TransportShape(protocol, t)
      && (protocol == PROTOCOL_TCP ==> Zero16(t, 16))
      && (protocol == PROTOCOL_ICMP ==> Zero16(t, 2))
      && (protocol == PROTOCOL_UDP ==> Zero16(t, 4) && Zero16(t, 6))
  {
    if protocol == PROTOCOL_TCP {
      TcpDecodeShape(ExpectName(v, "tcp").value);
    } else if protocol == PROTOCOL_ICMP {
      IcmpDecodeShape(ExpectName(v, "icmp").value);
    }
  }

  /** Payload behind a header does not change its shape. */
  lemma PayloadKeepsShape(protocol: byte, t: bytes, data: bytes)
    requires TransportShape(protocol, t)
    ensures TransportShape(protocol, t + data)
  {
    if protocol == PROTOCOL_TCP {
      assert (t + data)[20..20 + OptionSize(t)] == t[20..20 + OptionSize(t)];
    }
  }

  lemma SameIpShape(h: bytes, p: bytes)
    requires |h| >= 20 && |p| >= 20 && IpShape(h)
    requires p[0] == h[0] && p[6] == h[6] && p[7] == h[7] && p[9] == h[9]
    ensures IpShape(p)
  {
  }

  lemma HeaderAndRest(h: bytes, x: bytes)
    requires |h| == 20 && IpShape(h) && TransportShape(h[9], x)
    ensures Shaped(h + x)
  {
    assert (h + x)[20..] == x;
    SameIpShape(h, h + x);
  }

  lemma PartsAreShaped(h: bytes, t: bytes, data: bytes)
    requires |h| == 20 && IpShape(h) && TransportShape(h[9], t)
    ensures Shaped(h + t + data)
  {
    PayloadKeepsShape(h[9], t, data);
    Assoc(h, t, data);
    HeaderAndRest(h, t + data);
  }

  lemma PartsAreBlank(h: bytes, t: bytes, data: bytes)
    requires |h| == 20 && Zero16(h, 2) && Zero16(h, 10)
    requires h[9] == PROTOCOL_TCP ==> |t| >= 20 && Zero16(t, 16)
    requires h[9] == PROTOCOL_ICMP ==> |t| >= 8 && Zero16(t, 2)
    requires h[9] == PROTOCOL_UDP ==> |t| >= 8 && Zero16(t, 4) && Zero16(t, 6)
    ensures BlankFields(h + t + data)
  {
    var p := h + t + data;
    assert forall i :: 0 <= i < 20 ==> p[i] == h[i];
    assert forall i :: 0 <= i < |t| ==> p[20 + i] == t[i];
  }

  /** Everything Decode accepts has the shape, with length and checksum fields zero. */
  lemma DecodedShape(v: View)
    requires Decode(v).Some?
    ensures BlankFields(Decode(v).value.0) && Shaped(Decode(v).value.0)
  {
    var v1 := ExpectName(v, "ip").value;
    var (f, v2) := TakeIpFields(v1).value;
    IpFieldsShape(v1);
    IpHeaderShape(f);
    var h := IpHeader(f);
    TransportDecodeShape(v2, h[9]);
    var (t, v3) := DecodeTransport(v2, h[9]).value;
    var (data, v4) := DecodeData(v3).value;
    PartsAreShaped(h, t, data);
    PartsAreBlank(h, t, data);
  }

  /** Setting length and checksums keeps the shape. */
  lemma FinishKeepsShape(p: bytes)
    requires Shaped(p)
    ensures Shaped(Finish(p))
  {
    var q := Finish(p);
    FinishKeeps(p);
    assert U16(q, 6) == U16(p, 6);
    if p[9] == PROTOCOL_TCP {
      var t, u := p[20..], q[20..];
      assert forall i :: 0 <= i < |t| && i != 16 && i != 17 ==> u[i] == t[i] by {
        forall i | 0 <= i < |t| && i != 16 && i != 17
          ensures u[i] == t[i]
        {
          assert u[i] == q[20 + i] && t[i] == p[20 + i];
        }
      }
      assert OptionArea(u) == OptionArea(t);
    }
  }
}
