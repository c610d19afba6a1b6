/** The writer calls SerializePacket of src/net/json_packet.cc makes for the bytes of a packet. */
module PacketCalls {
  import opened Base
  import opened HexCodec
  import opened JsonTokens
  import opened JsonWriterSpec
  import opened Wire
  import opened IpText
  import opened TcpOptions
  import opened PacketTables

  function Name(name: string): Call {
    CName(Ascii(name))
  }

  function Word(name: string): Call {
    CString(Ascii(name))
  }

  /** WriteFriendlyStringOrInt: the name of a number if the table has one. */
  function Friendly(t: Table, value: byte): Call {
    match t(value)
    case Some(name) => CString(name)
    case None => CInteger(value)
  }

  function Optional(condition: bool, cs: seq<Call>): seq<Call> {
    if condition then cs else []
  }

  // ---------- IP ----------

  function IpFront(b: bytes): seq<Call>
    requires |b| >= 20
  {
    [CBeginObject, Name("version"), CBeginPack, CInteger(b[0] / 16), Name("tos"), CInteger(b[1]),
     Name("id"), CInteger(U16(b, 4)), Name("flags")]
  }

  /** WriteIpFlags */
  function IpFlagCalls(frag: uint16): seq<Call> {
    [CBeginArray] + Optional(HasBit(frag, IP_DF), [Word("DF")]) + Optional(HasBit(frag, IP_MF), [Word("MF")])
    + [CEndArray]
  }

  /** U16(b, 6) & IP_OFFMASK */
  function FragmentOffset(frag: uint16): int {
    frag % 0x2000
  }

  function IpMiddle(b: bytes): seq<Call>
    requires |b| >= 20
  {
    [CEndPack, Name("fragmentOffset"), CBeginPack, CInteger(FragmentOffset(U16(b, 6))), Name("ttl"), CInteger(b[8]),
     Name("protocol"), Friendly(ProtocolName, b[9]), CEndPack]
  }

  function IpBack(b: bytes): seq<Call>
    requires |b| >= 20
  {
    [Name("source"), CBeginPack, CString(DottedQuad(b[12..16])),
     Name("destination"), CString(DottedQuad(b[16..20])), CEndPack, CEndObject]
  }

  function IpCalls(b: bytes): seq<Call>
    requires |b| >= 20
  {
    IpFront(b) + IpFlagCalls(U16(b, 6)) + IpMiddle(b) + IpBack(b)
  }

  // ---------- TCP ----------

  function TcpFront(t: bytes): seq<Call>
    requires |t| >= 20
  {
    [CBeginObject, Name("sourcePort"), CBeginPack, CInteger(U16(t, 0)), Name("destPort"), CInteger(U16(t, 2)),
     CEndPack, Name("seqNumber"), CBeginPack, CInteger(U32(t, 4))]
  }

  function HasAck(t: bytes): bool
    requires |t| >= 20
  {
    HasBit(t[13], 16)
  }

  function HasUrg(t: bytes): bool
    requires |t| >= 20
  {
    HasBit(t[13], 32)
  }

  function TcpAck(t: bytes): seq<Call>
    requires |t| >= 20
  {
    Optional(HasAck(t), [Name("ackNumber"), CInteger(U32(t, 8))]) + [CEndPack, Name("flags"), CBeginPack]
  }

  function FlagCall(flags: byte, bit: nat, name: string): seq<Call>
    requires bit > 0
  {
    Optional(HasBit(flags, bit), [Word(name)])
  }

  /** WriteTcpFlags */
  function TcpFlagCalls(flags: byte): seq<Call> {
    [CBeginArray] + FlagCall(flags, 32, "URG") + FlagCall(flags, 16, "ACK") + FlagCall(flags, 8, "PSH")
    + FlagCall(flags, 4, "RST") + FlagCall(flags, 2, "SYN") + FlagCall(flags, 1, "FIN") + [CEndArray]
  }

  function TcpWindow(t: bytes): seq<Call>
    requires |t| >= 20
  {
    [Name("windowSize"), CBeginPack, CInteger(U16(t, 14))]
    + Optional(HasUrg(t), [Name("urgentPointer"), CInteger(U16(t, 18))]) + [CEndPack]
  }

  function OptionCalls(o: TcpOption): seq<Call> {
    match o
    case EndOfList => [CBeginArray, Word("EOL"), CEndArray]
    case NoOperation => [CBeginArray, Word("NOP"), CEndArray]
    case MaxSegmentSize(v) => [CBeginArray, Word("maxSegmentSize"), CInteger(v), CEndArray]
    case WindowScale(v) => [CBeginArray, Word("windowScale"), CInteger(v), CEndArray]
    case SackPermitted => [CBeginArray, Word("sackPermitted"), CEndArray]
    case Timestamp(v, w) => [CBeginArray, Word("timestamp"), CInteger(v), CInteger(w), CEndArray]
  }

  function OptionListCalls(os: seq<TcpOption>): seq<Call> {
    if os == [] then [] else OptionCalls(os[0]) + OptionListCalls(os[1..])
  }

  /** The header length a TCP header claims. */
  function HeaderLength(t: bytes): nat
    requires |t| >= 20
  {
    t[12] / 16 * 4
  }

  function OptionSize(t: bytes): nat
    requires |t| >= 20
  {
    Min(|t| - 20, Max(20, HeaderLength(t)) - 20)
  }

  /** The option area: what lies between the fixed header and the length claimed, or the end. */
  function OptionArea(t: bytes): bytes
    requires |t| >= 20
  {
    t[20..20 + OptionSize(t)]
  }

  function TcpOptionCalls(t: bytes): seq<Call>
    requires |t| >= 20 && WalkEnds(OptionArea(t))
  {
    Optional(OptionSize(t) > 0,
             [Name("options"), CBeginPack, CBeginArray] + OptionListCalls(Walk(OptionArea(t))) + [CEndArray, CEndPack])
  }

  function TcpCalls(t: bytes): seq<Call>
    requires |t| >= 20 && WalkEnds(OptionArea(t))
  {
    TcpFront(t) + TcpAck(t) + TcpFlagCalls(t[13]) + TcpWindow(t) + TcpOptionCalls(t) + [CEndObject]
  }

  // ---------- UDP and ICMP ----------

  function UdpCalls(t: bytes): seq<Call>
    requires |t| >= 8
  {
    [CBeginObject, Name("sourcePort"), CInteger(U16(t, 0)), Name("destPort"), CInteger(U16(t, 2)), CEndObject]
  }

  /** WriteIcmpCode */
  function IcmpCodeCall(kind: byte, code: byte): Call {
    if kind == ICMP_DEST_UNREACH then Friendly(UnreachableCodeName, code)
    else if kind == ICMP_REDIRECT then Friendly(RedirectCodeName, code)
    else if kind == ICMP_PARAMETERPROB then Friendly(BadHeaderCodeName, code)
    else CInteger(code)
  }

  function IcmpRest(t: bytes): seq<Call>
    requires |t| >= 8
  {
    if HasEchoFields(t[0]) then
      [Name("identifier"), CBeginPack, CInteger(U16(t, 4)), Name("sequenceNumber"), CInteger(U16(t, 6)), CEndPack]
    else if t[0] == ICMP_DEST_UNREACH then
      [Name("nextHopMtu"), CInteger(U16(t, 6))]
    else if t[0] == ICMP_REDIRECT then
      [Name("gateway"), CString(DottedQuad(t[4..8]))]
    else []
  }

  function IcmpKindCalls(t: bytes): seq<Call>
    requires |t| >= 8
  {
    [CBeginObject, Name("type"), CBeginPack, Friendly(IcmpTypeName, t[0]), Name("code"),
     IcmpCodeCall(t[0], t[1]), CEndPack]
  }

  function IcmpCalls(t: bytes): seq<Call>
    requires |t| >= 8
  {
    IcmpKindCalls(t) + IcmpRest(t) + [CEndObject]
  }

  // ---------- payload ----------

  predicate IsPlainText(d: bytes) {
    forall i :: 0 <= i < |d| ==> d[i] >= ' ' as int || d[i] in {13, 10, 9}
  }

  /** The text cut behind every line feed; `line` has been collected already. */
  function TextLines(line: bytes, d: bytes): seq<bytes>
    decreases |d|
  {
    if d == [] then
      if line == [] then [] else [line]
    else if d[0] == '\n' as int then
      [line + [d[0]]] + TextLines([], d[1..])
    else
      TextLines(line + [d[0]], d[1..])
  }

  const BYTES_PER_LINE := 16

  function HexLines(d: bytes): seq<bytes>
  {
    if d == [] then [] else [HexText(d[..Min(|d|, BYTES_PER_LINE)], 0)] + HexLines(d[Min(|d|, BYTES_PER_LINE)..])
  }

  function StringCalls(lines: seq<bytes>): seq<Call> {
    seq(|lines|, i requires 0 <= i < |lines| => CString(lines[i]))
  }

  function PayloadFront(kind: string): seq<Call> {
    [CBeginObject, Name("type"), Word(kind), Name("data"), CBeginArray]
  }

  function PayloadCalls(d: bytes): seq<Call> {
    (if IsPlainText(d) then PayloadFront("text") + StringCalls(TextLines([], d))
     else PayloadFront("hex") + StringCalls(HexLines(d)))
    + [CEndArray, CEndObject]
  }

  // ---------- the packet ----------

  datatype Transport = NoTransport | Tcp | Udp | Icmp

  function IpLength(b: bytes): nat
    requires |b| >= 20
  {
    b[0] % 16 * 4
  }

  /** The header written behind the IP header: the one the protocol names, if it is there. */
  function TransportOf(b: bytes): Transport
    requires |b| >= 20
  {
    if b[9] == PROTOCOL_TCP && |b| >= IpLength(b) + 20 then Tcp
    else if b[9] == PROTOCOL_UDP && |b| >= IpLength(b) + 8 then Udp
    else if b[9] == PROTOCOL_ICMP && |b| >= IpLength(b) + 8 then Icmp
    else NoTransport
  }

  /** The option walk over this packet ends. */
  predicate Walkable(b: bytes) {
    |b| >= 20 && b[0] % 16 >= 5 && TransportOf(b) == Tcp ==> WalkEnds(OptionArea(b[IpLength(b)..]))
  }

  function TransportCalls(b: bytes): seq<Call>
    requires |b| >= 20 && b[0] % 16 >= 5 && Walkable(b)
  {
    match TransportOf(b)
    case Tcp => [Name("tcp")] + TcpCalls(b[IpLength(b)..])
    case Udp => [Name("udp")] + UdpCalls(b[IpLength(b)..])
    case Icmp => [Name("icmp")] + IcmpCalls(b[IpLength(b)..])
    case NoTransport => []
  }

  /** Where the payload begins. */
  function DataOffset(b: bytes): nat
    requires |b| >= 20
  {
    IpLength(b) +
      match TransportOf(b)
      case Tcp => HeaderLength(b[IpLength(b)..])
      case Udp => 8
      case Icmp => 8
      case NoTransport => 0
  }

  function DataCalls(b: bytes): seq<Call>
    requires |b| >= 20
  {
    if |b| > DataOffset(b) then [Name("data")] + PayloadCalls(b[DataOffset(b)..]) else []
  }

  function WholePacketCalls(b: bytes): seq<Call>
    requires Walkable(b)
  {
    if |b| >= 20 && b[0] % 16 >= 5 then
      [CBeginObject, Name("ip")] + IpCalls(b) + TransportCalls(b) + DataCalls(b) + [CEndObject]
    else
      [CBeginObject, CEndObject]
  }
}
