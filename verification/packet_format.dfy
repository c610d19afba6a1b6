/** What DeserializePacket of src/net/json_packet.cc accepts and appends, as functions of the
    token queue. */
module PacketFormat {
  import opened Base
  import opened HexCodec
  import opened JsonTokens
  import opened EventViews
  import opened Wire
  import opened IpText
  import opened TcpOptions
  import opened PacketTables

  // ---------- the Expect helpers ----------

  function ExpectToken(v: View, token: JsonToken): Option<View> {
    var w :- NextView(v);
    var _ :- Check(w.token == token);
    Some(w)
  }

  predicate AtName(v: View, name: string) {
    v.token == PropertyNameToken && v.str == Ascii(name)
  }

  function ExpectName(v: View, name: string): Option<View> {
    var w :- NextView(v);
    var _ :- Check(AtName(w, name));
    Some(w)
  }

  function ExpectInt(v: View, lo: int, hi: int): (r: Option<(int, View)>)
    ensures r.Some? ==> lo <= r.value.0 <= hi
  {
    var w :- NextView(v);
    var _ :- Check(w.token == IntegerToken && lo <= w.num <= hi);
    Some((w.num, w))
  }

  function ExpectProperty(v: View, name: string, lo: int, hi: int): (r: Option<(int, View)>)
    ensures r.Some? ==> lo <= r.value.0 <= hi
  {
    var w :- ExpectName(v, name);
    ExpectInt(w, lo, hi)
  }

  /** Looks up whatever text the reader holds: the token type is not checked. */
  function ExpectEnum(v: View, t: Table, n: nat): Option<(byte, View)>
    requires n <= 256
  {
    var w :- NextView(v);
    var i :- Lookup(t, n, w.str);
    Some((i, w))
  }

  function ExpectEnumProperty(v: View, name: string, t: Table, n: nat): Option<(byte, View)>
    requires n <= 256
  {
    var w :- ExpectName(v, name);
    ExpectEnum(w, t, n)
  }

  function ExpectIp4(v: View): (r: Option<(Ip4, View)>) {
    var w :- ExpectToken(v, StringToken);
    var a :- ParseIp4(w.str);
    Some((a, w))
  }

  function ExpectIp4Property(v: View, name: string): Option<(Ip4, View)> {
    var w :- ExpectName(v, name);
    ExpectIp4(w)
  }

  function TakeFlags(v: View, t: FlagTable, mask: nat): Option<(nat, View)>
    decreases |v.pending|
  {
    var w :- NextView(v);
    if w.token == EndArrayToken then Some((mask, w))
    else
      var _ :- Check(w.token == StringToken);
      var bit :- t(w.str);
      TakeFlags(w, t, OrBit(mask, bit))
  }

  function ExpectFlags(v: View, t: FlagTable): Option<(nat, View)> {
    var w :- ExpectToken(v, StartArrayToken);
    TakeFlags(w, t, 0)
  }

  // ---------- the headers ----------

  const IP_HEADER_SIZE := 20
  const TCP_HEADER_SIZE := 20

  /** The fields of struct iphdr that are read from properties. */
  datatype IpFields = IpFields(
    tos: byte, id: uint16, frag: uint16, ttl: byte, protocol: byte, source: Ip4, dest: Ip4)

  /** An IPv4 header (RFC 791, section 3.1) without options, with length and checksum unset. */
  function IpHeader(f: IpFields): (h: bytes)
    ensures |h| == IP_HEADER_SIZE
  {
    [0x45, f.tos, 0, 0, f.id / 256, f.id % 256, f.frag / 256, f.frag % 256, f.ttl, f.protocol, 0, 0]
    + f.source + f.dest
  }

  /** Version, type of service, identification and flags. */
  function TakeIpFront(v: View): (r: Option<(byte, uint16, nat, View)>) {
    var (_, v) :- ExpectProperty(v, "version", 4, 4);
    var (tos, v) :- ExpectProperty(v, "tos", 0, 255);
    var (id, v) :- ExpectProperty(v, "id", 0, 0xffff);
    var v :- ExpectName(v, "flags");
    var (flags, v) :- ExpectFlags(v, IpFlag);
    Some((tos, id, flags, v))
  }

  /** `offset | flags`: the flags lie above the 13 bits of the offset. */
  function JoinFragment(offset: nat, flags: nat): uint16 {
    (offset + flags) % WORD
  }

  /** Fragment offset, joined with the flags in one field, time to live and protocol. */
  function TakeIpMiddle(v: View, flags: nat): (r: Option<(uint16, byte, byte, View)>) {
    var (offset, v) :- ExpectProperty(v, "fragmentOffset", 0, 8191);
    var (ttl, v) :- ExpectProperty(v, "ttl", 0, 255);
    var (protocol, v) :- ExpectEnumProperty(v, "protocol", ProtocolName, PROTOCOL_COUNT);
    Some((JoinFragment(offset, flags), ttl, protocol, v))
  }

  function TakeAddresses(v: View): (r: Option<(Ip4, Ip4, View)>) {
    var (source, v) :- ExpectIp4Property(v, "source");
    var (dest, v) :- ExpectIp4Property(v, "destination");
    Some((source, dest, v))
  }

  function TakeIpFields(v: View): Option<(IpFields, View)> {
    var v :- ExpectToken(v, StartObjectToken);
    var (tos, id, flags, v) :- TakeIpFront(v);
    var (frag, ttl, protocol, v) :- TakeIpMiddle(v, flags);
    var (source, dest, v) :- TakeAddresses(v);
    var v :- ExpectToken(v, EndObjectToken);
    Some((IpFields(tos, id, frag, ttl, protocol, source, dest), v))
  }

  function DecodeIp(v: View): (r: Option<(bytes, View)>)
    ensures r.Some? ==> |r.value.0| == IP_HEADER_SIZE
  {
    var (fields, v) :- TakeIpFields(v);
    Some((IpHeader(fields), v))
  }

  /** Value and echo reply of a timestamp. */
  function ExpectTimestamp(v: View): (r: Option<(uint32, uint32, View)>) {
    var (value, v) :- ExpectInt(v, 0, 0xffff_ffff);
    var (echo, v) :- ExpectInt(v, 0, 0xffff_ffff);
    Some((value, echo, v))
  }

  /** The rest of an option of type `t`. */
  function TakeOptionValue(v: View, t: byte): Option<(TcpOption, View)> {
    if t == TCPOPT_EOL then Some((EndOfList, v))
    else if t == TCPOPT_NOP then Some((NoOperation, v))
    else if t == TCPOPT_SACK_PERMITTED then Some((SackPermitted, v))
    else if t == TCPOPT_MAXSEG then
      var (value, v) :- ExpectInt(v, 0, 0xffff);
      Some((MaxSegmentSize(value), v))
    else if t == TCPOPT_WINDOW then
      var (value, v) :- ExpectInt(v, 0, 0xffff);
      Some((WindowScale(value), v))
    else if t == TCPOPT_TIMESTAMP then
      var (value, echo, v) :- ExpectTimestamp(v);
      Some((Timestamp(value, echo), v))
    else None
  }

  /** One element of the option array, behind its opening bracket. */
  function TakeOption(v: View): Option<(TcpOption, View)> {
    var (t, v) :- ExpectEnum(v, TcpOptionName, TCP_OPTION_COUNT);
    TakeOptionValue(v, t)
  }

  lemma TakeOptionIsShorter(v: View)
    ensures TakeOption(v).Some? ==> |TakeOption(v).value.1.pending| < |v.pending|
  {
  }

  /** The elements of the option array from the current token on. */
  function TakeOptions(v: View): Option<(seq<TcpOption>, View)>
    decreases |v.pending|
  {
    if v.token == EndArrayToken then Some(([], v))
    else
      var _ :- Check(v.token == StartArrayToken);
      TakeOptionIsShorter(v);
      var (o, v1) :- TakeOption(v);
      var v2 :- ExpectToken(v1, EndArrayToken);
      var v3 :- NextView(v2);
      var (os, v4) :- TakeOptions(v3);
      Some(([o] + os, v4))
  }

  function DecodeOptions(v: View): Option<(seq<TcpOption>, View)> {
    if v.token == EndObjectToken then Some(([], v))
    else
      var _ :- Check(AtName(v, "options"));
      var v :- ExpectToken(v, StartArrayToken);
      var v :- NextView(v);
      var (os, v) :- TakeOptions(v);
      var v :- ExpectToken(v, EndObjectToken);
      Some((os, v))
  }

  /** The fields of struct tcphdr that are read from properties. */
  datatype TcpFields = TcpFields(
    source: uint16, dest: uint16, number: uint32, ack: uint32, flags: nat, window: uint16, urgent: uint16)

  /** A TCP header (RFC 793, section 3.1) with data offset and checksum unset. The six flags keep
      the bit positions they have in the flag table. */
  function TcpHeader(f: TcpFields): (h: bytes)
    ensures |h| == TCP_HEADER_SIZE
  {
    Put16(f.source) + Put16(f.dest) + Put32(f.number) + Put32(f.ack)
    + [0, f.flags % 64] + Put16(f.window) + [0, 0] + Put16(f.urgent)
  }

  const ACK_BIT: nat := 16
  const URG_BIT: nat := 32

  /** "ackNumber" is optional, whether or not ACK is among the flags. The result is positioned
      on the "flags" property. */
  function TakeAckNumber(v: View): (r: Option<(uint32, View)>) {
    var v :- ExpectToken(v, PropertyNameToken);
    if v.str == Ascii("ackNumber") then
      var (ack, v) :- ExpectInt(v, 0, 0xffff_ffff);
      var v :- ExpectToken(v, PropertyNameToken);
      Some((ack, v))
    else
      Some((0, v))
  }

  function TakeUrgentPointer(v: View, flags: nat): (r: Option<(uint16, View)>) {
    if HasBit(flags, URG_BIT) then ExpectProperty(v, "urgentPointer", 0, 0xffff) else Some((0, v))
  }

  function TakePorts(v: View): (r: Option<(uint16, uint16, View)>) {
    var (source, v) :- ExpectProperty(v, "sourcePort", 0, 0xffff);
    var (dest, v) :- ExpectProperty(v, "destPort", 0, 0xffff);
    Some((source, dest, v))
  }

  /** Flags, window and urgent pointer, from the "flags" property on. */
  function TakeTcpControl(v: View): (r: Option<(nat, uint16, uint16, View)>) {
    var _ :- Check(AtName(v, "flags"));
    var (flags, v) :- ExpectFlags(v, TcpFlag);
    var (window, v) :- ExpectProperty(v, "windowSize", 0, 0xffff);
    var (urgent, v) :- TakeUrgentPointer(v, flags);
    Some((flags, window, urgent, v))
  }

  /** Everything in front of the options. */
  function TakeTcpFields(v: View): Option<(TcpFields, View)> {
    var v :- ExpectToken(v, StartObjectToken);
    var (source, dest, v) :- TakePorts(v);
    var (number, v) :- ExpectProperty(v, "seqNumber", 0, 0xffff_ffff);
    var (ack, v) :- TakeAckNumber(v);
    var (flags, window, urgent, v) :- TakeTcpControl(v);
    Some((TcpFields(source, dest, number, ack, flags, window, urgent), v))
  }

  /** doff shares its byte with four zero bits. */
  function DataOffsetByte(optionsSize: nat): byte {
    (5 + optionsSize / 4) % 16 * 16
  }

  /** Sets the data offset, of which only four bits are kept. */
  function WithDataOffset(header: bytes, optionsSize: nat): (h: bytes)
    requires |header| == TCP_HEADER_SIZE
    ensures |h| == TCP_HEADER_SIZE
  {
    header[12 := DataOffsetByte(optionsSize)]
  }

  /** The options, and with them the data offset. */
  function TakeTcpOptions(v: View, header: bytes): Option<(bytes, View)>
    requires |header| == TCP_HEADER_SIZE
  {
    var (os, v) :- DecodeOptions(v);
    var area := EncodeAll(os);
    var _ :- Check(|area| % 4 == 0);
    Some((WithDataOffset(header, |area|) + area, v))
  }

  function DecodeTcp(v: View): Option<(bytes, View)> {
    var (fields, v) :- TakeTcpFields(v);
    var v :- NextView(v);
    TakeTcpOptions(v, TcpHeader(fields))
  }

  /** A UDP header (RFC 768) with length and checksum unset. */
  function UdpHeader(source: uint16, dest: uint16): bytes {
    Put16(source) + Put16(dest) + [0, 0, 0, 0]
  }

  function DecodeUdp(v: View): Option<(bytes, View)> {
    var v :- ExpectToken(v, StartObjectToken);
    var (source, dest, v) :- TakePorts(v);
    var v :- ExpectToken(v, EndObjectToken);
    Some((UdpHeader(source, dest), v))
  }

  function DecodeIcmpCode(v: View, kind: byte): Option<(byte, View)> {
    if kind == ICMP_DEST_UNREACH then
      ExpectEnumProperty(v, "code", UnreachableCodeName, UNREACHABLE_CODE_COUNT)
    else if kind == ICMP_REDIRECT then
      ExpectEnumProperty(v, "code", RedirectCodeName, REDIRECT_CODE_COUNT)
    else if kind == ICMP_PARAMETERPROB then
      ExpectEnumProperty(v, "code", BadHeaderCodeName, BAD_HEADER_CODE_COUNT)
    else
      var (code, v) :- ExpectProperty(v, "code", 0, 255);
      Some((code, v))
  }

  /** The last four bytes of an ICMP header (RFC 792), by type. */
  function DecodeIcmpRest(v: View, kind: byte): (r: Option<(bytes, View)>)
    ensures r.Some? ==> |r.value.0| == 4
  {
    if HasEchoFields(kind) then
      var (id, v) :- ExpectProperty(v, "identifier", 0, 0xffff);
      var (number, v) :- ExpectProperty(v, "sequenceNumber", 0, 0xffff);
      Some((Put16(id) + Put16(number), v))
    else if kind == ICMP_DEST_UNREACH then
      var (mtu, v) :- ExpectProperty(v, "nextHopMtu", 0, 0xffff);
      Some(([0, 0] + Put16(mtu), v))
    else if kind == ICMP_REDIRECT then
      var (gateway, v) :- ExpectIp4Property(v, "gateway");
      Some((gateway, v))
    else
      Some(([0, 0, 0, 0], v))
  }

  function DecodeIcmp(v: View): (r: Option<(bytes, View)>)
    ensures r.Some? ==> |r.value.0| == 8
  {
    var v :- ExpectToken(v, StartObjectToken);
    var (kind, v) :- ExpectEnumProperty(v, "type", IcmpTypeName, ICMP_TYPE_COUNT);
    var (code, v) :- DecodeIcmpCode(v, kind);
    var (rest, v) :- DecodeIcmpRest(v, kind);
    var v :- ExpectToken(v, EndObjectToken);
    Some(([kind, code, 0, 0] + rest, v))
  }

  function TransportSize(protocol: byte): nat {
    if protocol == PROTOCOL_TCP then TCP_HEADER_SIZE
    else if protocol == PROTOCOL_UDP || protocol == PROTOCOL_ICMP then 8
    else 0
  }

  function DecodeTransport(v: View, protocol: byte): (r: Option<(bytes, View)>)
    ensures r.Some? ==> |r.value.0| >= TransportSize(protocol)
  {
    if protocol == PROTOCOL_TCP then
      var v :- ExpectName(v, "tcp");
      DecodeTcp(v)
    else if protocol == PROTOCOL_UDP then
      var v :- ExpectName(v, "udp");
      DecodeUdp(v)
    else if protocol == PROTOCOL_ICMP then
      var v :- ExpectName(v, "icmp");
      DecodeIcmp(v)
    else
      Some(([], v))
  }

  /** The strings of the "data" array, joined. */
  function TakeLines(v: View): Option<(bytes, View)>
    decreases |v.pending|
  {
    var w :- NextView(v);
    if w.token == EndArrayToken then Some(([], w))
    else
      var _ :- Check(w.token == StringToken);
      var (rest, x) :- TakeLines(w);
      Some((w.str + rest, x))
  }

  /** Text is taken as it is; of a hex dump whatever ParseHex appends, its verdict ignored. */
  function DecodePayload(isText: bool, text: bytes): bytes {
    if isText then text else HexParse(text, []).out
  }

  /** The "data" property's object, up to the end of the array in it. */
  function TakePayload(v: View): Option<(bool, bytes, View)> {
    var v :- ExpectToken(v, StartObjectToken);
    var v :- ExpectName(v, "type");
    var v :- ExpectToken(v, StringToken);
    var kind := v.str;
    var _ :- Check(kind == Ascii("text") || kind == Ascii("hex"));
    var v :- ExpectName(v, "data");
    var v :- ExpectToken(v, StartArrayToken);
    var (text, v) :- TakeLines(v);
    Some((kind == Ascii("text"), text, v))
  }

  function DecodeData(v: View): Option<(bytes, View)> {
    var v :- NextView(v);
    if v.token == EndObjectToken then Some(([], v))
    else
      var _ :- Check(AtName(v, "data"));
      var (isText, text, v) :- TakePayload(v);
      var v :- ExpectToken(v, EndObjectToken);
      var v :- ExpectToken(v, EndObjectToken);
      Some((DecodePayload(isText, text), v))
  }

  /** The "ip" property and the one of the protocol it names. */
  function DecodeHeaders(v: View): (r: Option<(bytes, View)>)
    ensures r.Some? ==> |r.value.0| >= IP_HEADER_SIZE
    ensures r.Some? ==> |r.value.0| >= IP_HEADER_SIZE + TransportSize(r.value.0[9])
  {
    var v :- ExpectName(v, "ip");
    var (ip, v) :- DecodeIp(v);
    var (transport, v) :- DecodeTransport(v, ip[9]);
    Some((ip + transport, v))
  }

  /** A packet before its length and checksum fields are set. */
  function Decode(v: View): (r: Option<(bytes, View)>)
    ensures r.Some? ==> |r.value.0| >= IP_HEADER_SIZE
    ensures r.Some? ==> |r.value.0| >= IP_HEADER_SIZE + TransportSize(r.value.0[9])
  {
    var _ :- Check(v.token == StartObjectToken);
    var (headers, v) :- DecodeHeaders(v);
    var (data, v) :- DecodeData(v);
    Some((headers + data, v))
  }

  // ---------- length and checksum fields ----------

  /** static_cast<uint16_t> */
  function Low16(n: nat): uint16 {
    n % WORD
  }

  /** static_cast<uint8_t> */
  function Low8(n: nat): byte {
    n % 256
  }

  function PseudoHeader(p: bytes): bytes
    requires |p| >= IP_HEADER_SIZE
  {
    p[12..20] + [0, p[9]] + Put16(Low16(|p| - IP_HEADER_SIZE))
  }

  /** Sets total length (its low byte only) and header checksum. */
  function FinishIp(p: bytes): (q: bytes)
    requires |p| >= IP_HEADER_SIZE
    ensures |q| == |p|
  {
    var q := Patch16(p, 2, Low8(|p|));
    Patch16(q, 10, Checksum([], q[..IP_HEADER_SIZE]))
  }

  function FinishIcmp(p: bytes): (q: bytes)
    requires |p| >= 28
    ensures |q| == |p|
  {
    Patch16(p, 22, Checksum([], p[IP_HEADER_SIZE..]))
  }

  function FinishUdp(p: bytes): (q: bytes)
    requires |p| >= 28
    ensures |q| == |p|
  {
    var q := Patch16(p, 24, Low16(|p| - IP_HEADER_SIZE));
    Patch16(q, 26, Checksum(PseudoHeader(q), q[IP_HEADER_SIZE..]))
  }

  function FinishTcp(p: bytes): (q: bytes)
    requires |p| >= 40
    ensures |q| == |p|
  {
    Patch16(p, 36, Checksum(PseudoHeader(p), p[IP_HEADER_SIZE..]))
  }

  /** Sets the fields of the header behind the IP header. */
  function FinishTransport(p: bytes): (q: bytes)
    requires |p| >= IP_HEADER_SIZE
    ensures |q| == |p|
  {
    if p[9] == PROTOCOL_ICMP && |p| >= 28 then FinishIcmp(p)
    else if p[9] == PROTOCOL_UDP && |p| >= 28 then FinishUdp(p)
    else if p[9] == PROTOCOL_TCP && |p| >= 40 then FinishTcp(p)
    else p
  }

  function Finish(p: bytes): (q: bytes)
    requires |p| >= IP_HEADER_SIZE
    ensures |q| == |p|
  {
    FinishTransport(FinishIp(p))
  }
}
