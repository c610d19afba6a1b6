/** The name tables of src/net/json_packet.cc. */
module PacketTables {
  import opened Base

  /** A C array of names, with None for NULL entries and everything behind the end. */
  type Table = nat -> Option<bytes>

  /** A `const char*` entry as a std::string. */
  function Entry(text: Option<string>): Option<bytes> {
    match text
    case Some(s) => Some(Ascii(s))
    case None => None
  }

  /** The lookup in the map built from a table's first `n` entries: a later entry replaces an
      earlier one of the same name. */
  function Lookup(t: Table, n: nat, name: bytes): Option<byte>
    requires n <= 256
    decreases name, n
  {
    if n == 0 then None
    else if t(n - 1) == Some(name) then Some(n - 1)
    else Lookup(t, n - 1, name)
  }

  /** A number that came out of a lookup is written as the name that was looked up. */
  lemma {:induction false} LookupInverts(t: Table, n: nat, name: bytes)
    requires n <= 256 && Lookup(t, n, name).Some?
    ensures Lookup(t, n, name).value < n && t(Lookup(t, n, name).value) == Some(name)
  {
    if t(n - 1) != Some(name) {
      LookupInverts(t, n - 1, name);
    }
  }

  lemma {:induction false} LookupMisses(t: Table, n: nat, name: bytes)
    requires n <= 256 && forall i :: 0 <= i < n ==> t(i) != Some(name)
    ensures Lookup(t, n, name) == None
  {
    if n > 0 {
      LookupMisses(t, n - 1, name);
    }
  }

  /** The last entry of a name is the one found. */
  lemma {:induction false} LookupFinds(t: Table, n: nat, name: bytes, i: nat)
    requires i < n <= 256 && t(i) == Some(name) && forall j :: i < j < n ==> t(j) != Some(name)
    ensures Lookup(t, n, name) == Some(i)
  {
    if i < n - 1 {
      LookupFinds(t, n - 1, name, i);
    }
  }

  /** kProtocolNames, from entry 0 on. */
  function ProtocolText0(i: nat): Option<string> {
    match i
    case 0 => Some("HOPOPT")
    case 1 => Some("ICMP")
    case 2 => Some("IGMP")
    case 3 => Some("GGP")
    case 4 => Some("IP")
    case 5 => Some("ST")
    case 6 => Some("TCP")
    case 7 => Some("CBT")
    case 8 => Some("EGP")
    case 9 => Some("IGP")
    case 10 => Some("BBN-RCC-MON")
    case 11 => Some("NVP-II")
    case 12 => Some("PUP")
    case 13 => Some("ARGUS")
    case 14 => Some("EMCON")
    case 15 => Some("XNET")
    case 16 => Some("CHAOS")
    case 17 => Some("UDP")
    case 18 => Some("MUX")
    case 19 => Some("DCN-MEAS")
    case 20 => Some("HMP")
    case 21 => Some("PRM")
    case 22 => Some("XNS-IDP")
    case 23 => Some("TRUNK-1")
    case 24 => Some("TRUNK-2")
    case 25 => Some("LEAF-1")
    case 26 => Some("LEAF-2")
    case 27 => Some("RDP")
    case 28 => Some("IRTP")
    case 29 => Some("ISO-TP4")
    case 30 => Some("NETBLT")
    case 31 => Some("MFE-NSP")
    case _ => None
  }

  /** kProtocolNames, from entry 32 on. */
  function ProtocolText32(i: nat): Option<string> {
    match i
    case 32 => Some("MERIT-INP")
    case 33 => Some("DCCP")
    case 34 => Some("3PC")
    case 35 => Some("IDPR")
    case 36 => Some("XTP")
    case 37 => Some("DDP")
    case 38 => Some("IDPR-CMTP")
    case 39 => Some("TP++")
    case 40 => Some("IL")
    case 41 => Some("IPv6")
    case 42 => Some("SDRP")
    case 43 => Some("IPv6-Route")
    case 44 => Some("IPv6-Frag")
    case 45 => Some("IDRP")
    case 46 => Some("RSVP")
    case 47 => Some("GRE")
    case 48 => Some("MHRP")
    case 49 => Some("BNA")
    case 50 => Some("ESP")
    case 51 => Some("AH")
    case 52 => Some("I-NLSP")
    case 53 => Some("SWIPE")
    case 54 => Some("NARP")
    case 55 => Some("MOBILE")
    case 56 => Some("TLSP")
    case 57 => Some("SKIP")
    case 58 => Some("IPv6-ICMP")
    case 59 => Some("IPv6-NoNxt")
    case 60 => Some("IPv6-Opts")
    case 62 => Some("CFTP")
    case _ => None
  }

  /** kProtocolNames, from entry 64 on. */
  function ProtocolText64(i: nat): Option<string> {
    match i
    case 64 => Some("SAT-EXPAK")
    case 65 => Some("KRYPTOLAN")
    case 66 => Some("RVD")
    case 67 => Some("IPPC")
    case 69 => Some("SAT-MON")
    case 70 => Some("VISA")
    case 71 => Some("IPCV")
    case 72 => Some("CPNX")
    case 73 => Some("CPHB")
    case 74 => Some("WSN")
    case 75 => Some("PVP")
    case 76 => Some("BR-SAT-MON")
    case 77 => Some("SUN-ND")
    case 78 => Some("WB-MON")
    case 79 => Some("WB-EXPAK")
    case 80 => Some("ISO-IP")
    case 81 => Some("VMTP")
    case 82 => Some("SECURE-VMTP")
    case 83 => Some("VINES")
    case 84 => Some("TTP")
    case 85 => Some("NSFNET-IGP")
    case 86 => Some("DGP")
    case 87 => Some("TCF")
    case 88 => Some("EIGRP")
    case 89 => Some("OSPF")
    case 90 => Some("Sprite-RPC")
    case 91 => Some("LARP")
    case 92 => Some("MTP")
    case 93 => Some("AX.25")
    case 94 => Some("IPIP")
    case 95 => Some("MICP")
    case _ => None
  }

  /** kProtocolNames, from entry 96 on. */
  function ProtocolText96(i: nat): Option<string> {
    match i
    case 96 => Some("SCC-SP")
    case 97 => Some("ETHERIP")
    case 98 => Some("ENCAP")
    case 100 => Some("GMTP")
    case 101 => Some("IFMP")
    case 102 => Some("PNNI")
    case 103 => Some("PIM")
    case 104 => Some("ARIS")
    case 105 => Some("SCPS")
    case 106 => Some("QNX")
    case 107 => Some("A/N")
    case 108 => Some("IPComp")
    case 109 => Some("SNP")
    case 110 => Some("Compaq-Peer")
    case 111 => Some("IPX-in-IP")
    case 112 => Some("VRRP")
    case 113 => Some("PGM")
    case 115 => Some("L2TP")
    case 116 => Some("DDX")
    case 117 => Some("IATP")
    case 118 => Some("STP")
    case 119 => Some("SRP")
    case _ => None
  }

  /** kProtocolNames, from entry 120 on. */
  function ProtocolText120(i: nat): Option<string> {
    match i
    case 120 => Some("UTI")
    case 121 => Some("SMP")
    case 122 => Some("SM")
    case 123 => Some("PTP")
    case 125 => Some("FIRE")
    case 126 => Some("CRTP")
    case 127 => Some("CRUDP")
    case 128 => Some("SSCOPMCE")
    case 129 => Some("IPLT")
    case 130 => Some("SPS")
    case 131 => Some("PIPE")
    case 132 => Some("SCTP")
    case 133 => Some("FC")
    case 138 => Some("manet")
    case 139 => Some("HIP")
    case 140 => Some("Shim6")
    case _ => None
  }

  /** kProtocolNames */
  function ProtocolText(i: nat): Option<string> {
    if i < 32 then ProtocolText0(i)
    else if i < 64 then ProtocolText32(i)
    else if i < 96 then ProtocolText64(i)
    else if i < 120 then ProtocolText96(i)
    else ProtocolText120(i)
  }

  function ProtocolName(i: nat): Option<bytes> {
    Entry(ProtocolText(i))
  }

  /** kTcpOptions */
  function TcpOptionText(i: nat): Option<string> {
    match i
    case 0 => Some("EOL")
    case 1 => Some("NOP")
    case 2 => Some("maxSegmentSize")
    case 3 => Some("windowScale")
    case 4 => Some("sackPermitted")
    case 5 => Some("selectedAck")
    case 8 => Some("timestamp")
    case _ => None
  }

  function TcpOptionName(i: nat): Option<bytes> {
    Entry(TcpOptionText(i))
  }

  /** kIcmpTypeNames */
  function IcmpTypeText(i: nat): Option<string> {
    match i
    case 0 => Some("echoReply")
    case 2 => Some("destinationUnreachable")
    case 3 => Some("sourceQuench")
    case 4 => Some("redirectMessage")
    case 8 => Some("echoRequest")
    case 9 => Some("routerAdvertisement")
    case 10 => Some("routerSolicitation")
    case 11 => Some("timeExceeded")
    case 12 => Some("badIpHeader")
    case 13 => Some("timestamp")
    case 14 => Some("timestampReply")
    case 15 => Some("infoRequest")
    case 16 => Some("infoReply")
    case 17 => Some("addressMaskRequest")
    case 18 => Some("addressMaskReply")
    case 30 => Some("traceroute")
    case _ => None
  }

  function IcmpTypeName(i: nat): Option<bytes> {
    Entry(IcmpTypeText(i))
  }

  /** kIcmpDestinationUnreachableCodeNames */
  function UnreachableCodeText(i: nat): Option<string> {
    match i
    case 0 => Some("destinationNetworkUnreachable")
    case 1 => Some("destinationHostUnreachable")
    case 2 => Some("destinationProtocolUnreachable")
    case 3 => Some("destinationPortUnreachable")
    case 4 => Some("fragmentationRequired")
    case 5 => Some("sourceRouteFailed")
    case 6 => Some("destinationNetworkUnknown")
    case 7 => Some("destinationHostUnknown")
    case 8 => Some("sourceHostIsolated")
    case 9 => Some("networkAdministrativelyProhibited")
    case 10 => Some("hostAdministrativelyProhibited")
    case 11 => Some("networkUnreachableForTos")
    case 12 => Some("communicationAdministrativelyProhibited")
    case _ => None
  }

  function UnreachableCodeName(i: nat): Option<bytes> {
    Entry(UnreachableCodeText(i))
  }

  /** kIcmpRedirectMessageCodeNames */
  function RedirectCodeText(i: nat): Option<string> {
    match i
    case 0 => Some("redirectDatagramForHost")
    case 1 => Some("redirectDatagramForNetwork")
    case 2 => Some("redirectDatagramForTosAndNetwork")
    case 3 => Some("redirectDatagramForTosAndHost")
    case _ => None
  }

  function RedirectCodeName(i: nat): Option<bytes> {
    Entry(RedirectCodeText(i))
  }

  /** kIcmpBadIpHeaderCodeNames */
  function BadHeaderCodeText(i: nat): Option<string> {
    match i
    case 0 => Some("pointerIndicatesTheError")
    case 1 => Some("missingARequiredOption")
    case 2 => Some("badLength")
    case _ => None
  }

  function BadHeaderCodeName(i: nat): Option<bytes> {
    Entry(BadHeaderCodeText(i))
  }

  const PROTOCOL_COUNT := 256
  const TCP_OPTION_COUNT := 9
  const ICMP_TYPE_COUNT := 32
  const UNREACHABLE_CODE_COUNT := 13
  const REDIRECT_CODE_COUNT := 4
  const BAD_HEADER_CODE_COUNT := 3

  // netinet/ip_icmp.h
  const ICMP_ECHOREPLY := 0
  const ICMP_DEST_UNREACH := 3
  const ICMP_REDIRECT := 5
  const ICMP_ECHO := 8
  const ICMP_PARAMETERPROB := 12
  const ICMP_TIMESTAMP := 13
  const ICMP_TIMESTAMPREPLY := 14
  const ICMP_ADDRESS := 17
  const ICMP_ADDRESSREPLY := 18

  /** Types whose messages carry an identifier and a sequence number. */
  predicate HasEchoFields(kind: byte) {
    kind in {ICMP_ECHO, ICMP_ECHOREPLY, ICMP_TIMESTAMP, ICMP_TIMESTAMPREPLY, ICMP_ADDRESS, ICMP_ADDRESSREPLY}
  }

  const PROTOCOL_ICMP := 1
  const PROTOCOL_TCP := 6
  const PROTOCOL_UDP := 17

  // ---------- flags ----------

  /** A flag table maps names to single bits. */
  type FlagTable = bytes -> Option<nat>

  const IP_DF: nat := 0x4000
  const IP_MF: nat := 0x2000

  function IpFlag(name: bytes): Option<nat> {
    if name == Ascii("DF") then Some(IP_DF)
    else if name == Ascii("MF") then Some(IP_MF)
    else None
  }

  function TcpFlag(name: bytes): Option<nat> {
    if name == Ascii("FIN") then Some(1)
    else if name == Ascii("SYN") then Some(2)
    else if name == Ascii("RST") then Some(4)
    else if name == Ascii("PSH") then Some(8)
    else if name == Ascii("ACK") then Some(16)
    else if name == Ascii("URG") then Some(32)
    else if name == Ascii("ECE") then Some(64)
    else if name == Ascii("CWR") then Some(128)
    else if name == Ascii("NS") then Some(256)
    else None
  }

  predicate HasBit(mask: nat, bit: nat)
    requires bit > 0
  {
    (mask / bit) % 2 == 1
  }

  /** `mask | bit` for a single bit. */
  function OrBit(mask: nat, bit: nat): nat {
    if bit > 0 && HasBit(mask, bit) then mask else mask + bit
  }
}
