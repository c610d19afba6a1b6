/** The checksums in the packets that DeserializePacket produces. */
module PacketChecksums {
  import opened Base
  import opened EventViews
  import opened Wire
  import opened PacketTables
  import opened PacketFormat
  import opened PacketShape

  /** What a receiver finds for bytes whose check was computed as `Checksum` over `rest`: with
      the check in place they sum to 0 modulo 65535, unless the single fold left a carry. */
  predicate Verifies(pseudo: bytes, data: bytes, rest: bytes) {
    Residue(pseudo, data) == if Fold(WordSum(pseudo) + WordSum(rest)) < WORD then 0 else 1
  }

  lemma PatchInFront(b: bytes, i: nat, v: uint16)
    requires i + 2 <= 20 <= |b|
    ensures Patch16(b, i, v)[..20] == Patch16(b[..20], i, v)
  {
  }

  lemma PatchBehind(b: bytes, i: nat, v: uint16)
    requires 20 <= i && i + 2 <= |b|
    ensures Patch16(b, i, v)[20..] == Patch16(b[20..], i - 20, v) && Patch16(b, i, v)[..20] == b[..20]
  {
  }

  /** The IP header with its length, before its checksum. */
  function Unchecked(p: bytes): bytes
    requires |p| >= 20
  {
    Patch16(p[..20], 2, Low8(|p|))
  }

  lemma HeaderInFront(p: bytes)
    requires |p| >= 20
    ensures FinishIp(p)[..20] == Patch16(Unchecked(p), 10, Checksum([], Unchecked(p)))
    ensures FinishIp(p)[20..] == p[20..]
  {
    var q := Patch16(p, 2, Low8(|p|));
    PatchInFront(p, 2, Low8(|p|));
    PatchInFront(q, 10, Checksum([], q[..20]));
  }

  lemma TransportBehind(p: bytes)
    requires |p| >= 20
    ensures FinishTransport(p)[..20] == p[..20]
  {
    if p[9] == PROTOCOL_ICMP && |p| >= 28 {
      PatchBehind(p, 22, Checksum([], p[20..]));
    } else if p[9] == PROTOCOL_UDP && |p| >= 28 {
      var q := Patch16(p, 24, Low16(|p| - 20));
      PatchBehind(p, 24, Low16(|p| - 20));
      PatchBehind(q, 26, Checksum(PseudoHeader(q), q[20..]));
    } else if p[9] == PROTOCOL_TCP && |p| >= 40 {
      PatchBehind(p, 36, Checksum(PseudoHeader(p), p[20..]));
    }
  }

  /** The IP header checksum of every packet. */
  lemma IpHeaderVerifies(p: bytes)
    requires |p| >= 20 && Zero16(p, 10)
    ensures Verifies([], Finish(p)[..20], Unchecked(p))
  {
    HeaderInFront(p);
    TransportBehind(FinishIp(p));
    ChecksumVerifies([], Unchecked(p), 10);
  }

  lemma SamePseudoHeader(p: bytes, q: bytes)
    requires |p| == |q| >= 20 && p[..20] == q[..20]
    ensures PseudoHeader(p) == PseudoHeader(q) && |PseudoHeader(p)| == 12
  {
    assert p[12..20] == p[..20][12..20] && q[12..20] == q[..20][12..20];
    assert p[9] == p[..20][9] && q[9] == q[..20][9];
  }

  /** An ICMP message verifies by itself. */
  lemma IcmpVerifies(p: bytes)
    requires BlankFields(p) && p[9] == PROTOCOL_ICMP && 28 <= |p| <= 0xffff
    ensures Verifies([], Finish(p)[20..], p[20..])
  {
    HeaderInFront(p);
    var q := FinishIp(p);
    assert q[9] == p[9];
    PatchBehind(q, 22, Checksum([], q[20..]));
    ChecksumVerifies([], p[20..], 2);
  }

  /** A UDP datagram, its length set, verifies together with its pseudo header. */
  lemma UdpVerifies(p: bytes)
    requires BlankFields(p) && p[9] == PROTOCOL_UDP && 28 <= |p| <= 0xffff
    ensures Verifies(PseudoHeader(Finish(p)), Finish(p)[20..], Patch16(p[20..], 4, |p| - 20))
  {
    HeaderInFront(p);
    var q := FinishIp(p);
    assert q[9] == p[9] && Low16(|p| - 20) == |p| - 20;
    var r := Patch16(q, 24, |p| - 20);
    PatchBehind(q, 24, |p| - 20);
    PatchBehind(r, 26, Checksum(PseudoHeader(r), r[20..]));
    SamePseudoHeader(r, Finish(p));
    var s := Patch16(p[20..], 4, |p| - 20);
    assert s[6] == p[26] && s[7] == p[27];
    ChecksumVerifies(PseudoHeader(r), s, 6);
  }

  /** A TCP segment verifies together with its pseudo header. */
  lemma TcpVerifies(p: bytes)
    requires BlankFields(p) && p[9] == PROTOCOL_TCP && 40 <= |p| <= 0xffff
    ensures Verifies(PseudoHeader(Finish(p)), Finish(p)[20..], p[20..])
  {
    HeaderInFront(p);
    var q := FinishIp(p);
    assert q[9] == p[9];
    PatchBehind(q, 36, Checksum(PseudoHeader(q), q[20..]));
    SamePseudoHeader(q, Finish(p));
    ChecksumVerifies(PseudoHeader(q), p[20..], 16);
  }

  /** So for every packet of up to 65535 bytes that DeserializePacket produces, IP header and
      segment verify at a receiver, up to the one carry that is lost. */
  lemma PacketVerifies(v: View)
    requires Decode(v).Some? && |Decode(v).value.0| <= 0xffff
    ensures var p := Decode(v).value.0; var b := Finish(p);
      && Verifies([], b[..20], Unchecked(p))
      && (b[9] == PROTOCOL_ICMP ==> Verifies([], b[20..], p[20..]))
      && (b[9] == PROTOCOL_TCP ==> Verifies(PseudoHeader(b), b[20..], p[20..]))
      && (b[9] == PROTOCOL_UDP ==> Verifies(PseudoHeader(b), b[20..], Patch16(p[20..], 4, |p| - 20)))
  {
    DecodedShape(v);
    Conclude(Decode(v).value.0);
  }

  lemma Conclude(p: bytes)
    requires BlankFields(p) && Shaped(p) && |p| <= 0xffff
    ensures var b := Finish(p);
      && Verifies([], b[..20], Unchecked(p))
      && (b[9] == PROTOCOL_ICMP ==> Verifies([], b[20..], p[20..]))
      && (b[9] == PROTOCOL_TCP ==> Verifies(PseudoHeader(b), b[20..], p[20..]))
      && (b[9] == PROTOCOL_UDP ==> Verifies(PseudoHeader(b), b[20..], Patch16(p[20..], 4, |p| - 20)))
  {
    IpHeaderVerifies(p);
    FinishKeeps(p);
    if p[9] == PROTOCOL_ICMP {
      IcmpVerifies(p);
    } else if p[9] == PROTOCOL_TCP {
      TcpVerifies(p);
    } else if p[9] == PROTOCOL_UDP {
      UdpVerifies(p);
    }
  }

  /** The total length field holds the low byte of the length only: it is right for packets
      shorter than 256 bytes and for no others. */
  lemma TotalLengthExactly(p: bytes)
    requires |p| >= 20
    ensures U16(Finish(p), 2) == |p| <==> |p| < 256
  {
    TransportBehind(FinishIp(p));
    assert Finish(p)[2] == Finish(p)[..20][2] && Finish(p)[3] == Finish(p)[..20][3];
    assert U16(Finish(p), 2) == Low8(|p|);
  }
}
