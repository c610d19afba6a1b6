/** SerializePacket of src/net/json_packet.cc: it walks over a packet's bytes and calls a
    JsonWriter. Every call is one the writer's assertions allow. */
module PacketSerializer {
  import opened Base
  import opened HexCodec
  import opened JsonTokens
  import opened JsonWriterSpec
  import opened JsonWriters
  import opened Wire
  import opened IpText
  import opened TcpOptions
  import opened PacketTables
  import opened PacketCalls

  method WriteFriendlyStringOrInt(writer: JsonWriter, table: Table, value: byte)
    requires writer.Valid() && writer.mode in {WPropertyValue, WMiddleArray}
    modifies writer, writer.stream, writer.stream.buffer, writer.stream.sink
    ensures writer.Valid() && (old(writer.sensible) ==> writer.sensible)
    ensures writer.calls == old(writer.calls) + [Friendly(table, value)]
    ensures writer.mode == ModeAfterValue(old(writer.mode)) && writer.modeStack == old(writer.modeStack)
  {
    var name := table(value);
    if name.Some? {
      writer.WriteString(name.value);
    } else {
      writer.WriteInteger(value);
    }
  }

  /** A property with a number for its value. */
  method WriteNumber(writer: JsonWriter, name: string, value: int64)
    requires writer.Valid() && writer.mode in {WStartObject, WPropertyName}
    modifies writer, writer.stream, writer.stream.buffer, writer.stream.sink
    ensures writer.Valid() && (old(writer.sensible) ==> writer.sensible)
    ensures writer.calls == old(writer.calls) + [Name(name), CInteger(value)]
    ensures writer.mode == WPropertyName && writer.modeStack == old(writer.modeStack)
  {
    writer.WritePropertyName(Ascii(name));
    writer.WriteInteger(value);
  }

  /** The same, with the properties that follow packed behind it. */
  method WritePackedNumber(writer: JsonWriter, name: string, value: int64)
    requires writer.Valid() && writer.mode in {WStartObject, WPropertyName}
    modifies writer, writer.stream, writer.stream.buffer, writer.stream.sink
    ensures writer.Valid() && (old(writer.sensible) ==> writer.sensible)
    ensures writer.calls == old(writer.calls) + [Name(name), CBeginPack, CInteger(value)]
    ensures writer.mode == WPropertyName && writer.modeStack == old(writer.modeStack)
  {
    writer.WritePropertyName(Ascii(name));
    writer.BeginPack();
    writer.WriteInteger(value);
  }

  method WriteIpFront(writer: JsonWriter, b: bytes)
    requires writer.Valid() && writer.mode == WPropertyValue && |b| >= 20
    modifies writer, writer.stream, writer.stream.buffer, writer.stream.sink
    ensures writer.Valid() && (old(writer.sensible) ==> writer.sensible)
    ensures writer.calls == old(writer.calls) + IpFront(b)
    ensures writer.mode == WPropertyValue && writer.modeStack == old(writer.modeStack) + [WPropertyName]
  {
    writer.BeginObject();
    WritePackedNumber(writer, "version", b[0] / 16);
    WriteNumber(writer, "tos", b[1]);
    WriteNumber(writer, "id", U16(b, 4));
    writer.WritePropertyName(Ascii("flags"));
  }

  method WriteFlag(writer: JsonWriter, isSet: bool, name: string)
    requires writer.Valid() && writer.mode in {WStartArray, WMiddleArray}
    modifies writer, writer.stream, writer.stream.buffer, writer.stream.sink
    ensures writer.Valid() && (old(writer.sensible) ==> writer.sensible)
    ensures writer.calls == old(writer.calls) + Optional(isSet, [Word(name)])
    ensures writer.mode in {WStartArray, WMiddleArray} && writer.modeStack == old(writer.modeStack)
  {
    if isSet {
      writer.WriteString(Ascii(name));
    }
  }

  method WriteIpFlags(writer: JsonWriter, flags: uint16)
    requires writer.Valid() && writer.mode == WPropertyValue
    modifies writer, writer.stream, writer.stream.buffer, writer.stream.sink
    ensures writer.Valid() && (old(writer.sensible) ==> writer.sensible)
    ensures writer.calls == old(writer.calls) + IpFlagCalls(flags)
    ensures writer.mode == WPropertyName && writer.modeStack == old(writer.modeStack)
  {
    ghost var start := writer.calls;
    writer.BeginArray();
    WriteFlag(writer, HasBit(flags, IP_DF), "DF");
    WriteFlag(writer, HasBit(flags, IP_MF), "MF");
    writer.EndArray();
    ghost var df, mf := Optional(HasBit(flags, IP_DF), [Word("DF")]), Optional(HasBit(flags, IP_MF), [Word("MF")]);
    Regroup(start, [CBeginArray], df, mf, [CEndArray]);
  }

  method WriteIpMiddle(writer: JsonWriter, b: bytes)
    requires writer.Valid() && writer.mode == WPropertyName && |b| >= 20
    modifies writer, writer.stream, writer.stream.buffer, writer.stream.sink
    ensures writer.Valid() && (old(writer.sensible) ==> writer.sensible)
    ensures writer.calls == old(writer.calls) + IpMiddle(b)
    ensures writer.mode == WPropertyName && writer.modeStack == old(writer.modeStack)
  {
    writer.EndPack();
    WritePackedNumber(writer, "fragmentOffset", FragmentOffset(U16(b, 6)));
    WriteNumber(writer, "ttl", b[8]);
    writer.WritePropertyName(Ascii("protocol"));
    WriteFriendlyStringOrInt(writer, ProtocolName, b[9]);
    writer.EndPack();
  }

  method WriteIpBack(writer: JsonWriter, b: bytes)
    requires writer.Valid() && writer.mode == WPropertyName && |b| >= 20
    modifies writer, writer.stream, writer.stream.buffer, writer.stream.sink
    ensures writer.Valid() && (old(writer.sensible) ==> writer.sensible)
    ensures writer.calls == old(writer.calls) + IpBack(b)
    ensures writer.mode == TopMode(old(writer.modeStack)) && writer.modeStack == Below(old(writer.modeStack))
  {
    writer.WritePropertyName(Ascii("source"));
    writer.BeginPack();
    writer.WriteString(DottedQuad(b[12..16]));
    writer.WritePropertyName(Ascii("destination"));
    writer.WriteString(DottedQuad(b[16..20]));
    writer.EndPack();
    writer.EndObject();
  }

  method WriteIpHeader(writer: JsonWriter, b: bytes) returns (size: nat)
    requires writer.Valid() && writer.mode == WPropertyValue && |b| >= 20
    modifies writer, writer.stream, writer.stream.buffer, writer.stream.sink
    ensures writer.Valid() && (old(writer.sensible) ==> writer.sensible)
    ensures writer.calls == old(writer.calls) + IpCalls(b)
    ensures writer.mode == WPropertyName && writer.modeStack == old(writer.modeStack)
    ensures size == IpLength(b)
  {
    WriteIpFront(writer, b);
    WriteIpFlags(writer, U16(b, 6));
    WriteIpMiddle(writer, b);
    WriteIpBack(writer, b);
    Regroup(old(writer.calls), IpFront(b), IpFlagCalls(U16(b, 6)), IpMiddle(b), IpBack(b));
    return b[0] % 16 * 4;
  }

  method WriteTcpFront(writer: JsonWriter, t: bytes)
    requires writer.Valid() && writer.mode == WPropertyValue && |t| >= 20
    modifies writer, writer.stream, writer.stream.buffer, writer.stream.sink
    ensures writer.Valid() && (old(writer.sensible) ==> writer.sensible)
    ensures writer.calls == old(writer.calls) + TcpFront(t)
    ensures writer.mode == WPropertyName && writer.modeStack == old(writer.modeStack) + [WPropertyName]
  {
    writer.BeginObject();
    WritePackedNumber(writer, "sourcePort", U16(t, 0));
    WriteNumber(writer, "destPort", U16(t, 2));
    writer.EndPack();
    WritePackedNumber(writer, "seqNumber", U32(t, 4));
  }

  method WriteTcpAck(writer: JsonWriter, t: bytes)
    requires writer.Valid() && writer.mode == WPropertyName && |t| >= 20
    modifies writer, writer.stream, writer.stream.buffer, writer.stream.sink
    ensures writer.Valid() && (old(writer.sensible) ==> writer.sensible)
    ensures writer.calls == old(writer.calls) + TcpAck(t)
    ensures writer.mode == WPropertyValue && writer.modeStack == old(writer.modeStack)
  {
    if HasAck(t) {
      WriteNumber(writer, "ackNumber", U32(t, 8));
    }
    writer.EndPack();
    writer.WritePropertyName(Ascii("flags"));
    writer.BeginPack();
  }

  method WriteTcpFlag(writer: JsonWriter, flags: byte, bit: nat, name: string)
    requires writer.Valid() && writer.mode in {WStartArray, WMiddleArray} && bit > 0
    modifies writer, writer.stream, writer.stream.buffer, writer.stream.sink
    ensures writer.Valid() && (old(writer.sensible) ==> writer.sensible)
    ensures writer.calls == old(writer.calls) + FlagCall(flags, bit, name)
    ensures writer.mode in {WStartArray, WMiddleArray} && writer.modeStack == old(writer.modeStack)
  {
    WriteFlag(writer, HasBit(flags, bit), name);
  }

  /** URG, ACK and PSH. */
  method WriteHighFlags(writer: JsonWriter, flags: byte)
    requires writer.Valid() && writer.mode in {WStartArray, WMiddleArray}
    modifies writer, writer.stream, writer.stream.buffer, writer.stream.sink
    ensures writer.Valid() && (old(writer.sensible) ==> writer.sensible)
    ensures writer.calls == old(writer.calls)
              + FlagCall(flags, 32, "URG") + FlagCall(flags, 16, "ACK") + FlagCall(flags, 8, "PSH")
    ensures writer.mode in {WStartArray, WMiddleArray} && writer.modeStack == old(writer.modeStack)
  {
    WriteTcpFlag(writer, flags, 32, "URG");
    WriteTcpFlag(writer, flags, 16, "ACK");
    WriteTcpFlag(writer, flags, 8, "PSH");
  }

  /** RST, SYN and FIN. */
  method WriteLowFlags(writer: JsonWriter, flags: byte)
    requires writer.Valid() && writer.mode in {WStartArray, WMiddleArray}
    modifies writer, writer.stream, writer.stream.buffer, writer.stream.sink
    ensures writer.Valid() && (old(writer.sensible) ==> writer.sensible)
    ensures writer.calls == old(writer.calls)
              + FlagCall(flags, 4, "RST") + FlagCall(flags, 2, "SYN") + FlagCall(flags, 1, "FIN")
    ensures writer.mode in {WStartArray, WMiddleArray} && writer.modeStack == old(writer.modeStack)
  {
    WriteTcpFlag(writer, flags, 4, "RST");
    WriteTcpFlag(writer, flags, 2, "SYN");
    WriteTcpFlag(writer, flags, 1, "FIN");
  }

  /** Eight pieces appended one by one. */
  lemma RegroupEight<T>(s: seq<T>, a: seq<T>, b: seq<T>, c: seq<T>, d: seq<T>,
                        e: seq<T>, f: seq<T>, g: seq<T>, h: seq<T>)
    ensures s + a + b + c + d + e + f + g + h == s + (a + b + c + d + e + f + g + h)
  {
    Regroup(s, a, b, c, d);
    Regroup(s, a + b + c + d, e, f, g);
    Assoc(s, a + b + c + d + e + f + g, h);
  }

  method WriteTcpFlags(writer: JsonWriter, flags: byte)
    requires writer.Valid() && writer.mode == WPropertyValue
    modifies writer, writer.stream, writer.stream.buffer, writer.stream.sink
    ensures writer.Valid() && (old(writer.sensible) ==> writer.sensible)
    ensures writer.calls == old(writer.calls) + TcpFlagCalls(flags)
    ensures writer.mode == WPropertyName && writer.modeStack == old(writer.modeStack)
  {
    ghost var start := writer.calls;
    writer.BeginArray();
    WriteHighFlags(writer, flags);
    WriteLowFlags(writer, flags);
    writer.EndArray();
    TcpFlagParts(start, flags, writer.calls);
  }

  lemma TcpFlagParts(start: seq<Call>, flags: byte, calls: seq<Call>)
    requires calls == start + [CBeginArray]
               + FlagCall(flags, 32, "URG") + FlagCall(flags, 16, "ACK") + FlagCall(flags, 8, "PSH")
               + FlagCall(flags, 4, "RST") + FlagCall(flags, 2, "SYN") + FlagCall(flags, 1, "FIN") + [CEndArray]
    ensures calls == start + TcpFlagCalls(flags)
  {
    RegroupEight(start, [CBeginArray], FlagCall(flags, 32, "URG"), FlagCall(flags, 16, "ACK"),
                 FlagCall(flags, 8, "PSH"),
                 FlagCall(flags, 4, "RST"), FlagCall(flags, 2, "SYN"), FlagCall(flags, 1, "FIN"), [CEndArray]);
  }

  method WriteTcpWindow(writer: JsonWriter, t: bytes)
    requires writer.Valid() && writer.mode == WPropertyName && |t| >= 20
    modifies writer, writer.stream, writer.stream.buffer, writer.stream.sink
    ensures writer.Valid() && (old(writer.sensible) ==> writer.sensible)
    ensures writer.calls == old(writer.calls) + TcpWindow(t)
    ensures writer.mode == WPropertyName && writer.modeStack == old(writer.modeStack)
  {
    WritePackedNumber(writer, "windowSize", U16(t, 14));
    if HasUrg(t) {
      WriteNumber(writer, "urgentPointer", U16(t, 18));
    }
    writer.EndPack();
  }

  method WriteTcpOption(writer: JsonWriter, name: string, value: uint32)
    requires writer.Valid() && writer.mode in {WStartArray, WMiddleArray}
    modifies writer, writer.stream, writer.stream.buffer, writer.stream.sink
    ensures writer.Valid() && (old(writer.sensible) ==> writer.sensible)
    ensures writer.calls == old(writer.calls) + [CBeginArray, Word(name), CInteger(value), CEndArray]
    ensures writer.mode == WMiddleArray && writer.modeStack == old(writer.modeStack)
  {
    writer.BeginArray();
    writer.WriteString(Ascii(name));
    writer.WriteInteger(value);
    writer.EndArray();
  }

  /** An option without a value. */
  method WriteBareOption(writer: JsonWriter, name: string)
    requires writer.Valid() && writer.mode in {WStartArray, WMiddleArray}
    modifies writer, writer.stream, writer.stream.buffer, writer.stream.sink
    ensures writer.Valid() && (old(writer.sensible) ==> writer.sensible)
    ensures writer.calls == old(writer.calls) + [CBeginArray, Word(name), CEndArray]
    ensures writer.mode == WMiddleArray && writer.modeStack == old(writer.modeStack)
  {
    writer.BeginArray();
    writer.WriteString(Ascii(name));
    writer.EndArray();
  }

  lemma FiveCalls<T>(s: seq<T>, a: T, b: T, c: T, d: T, e: T)
    ensures s + [a] + [b] + [c] + [d] + [e] == s + [a, b, c, d, e]
  {
  }

  method WriteTimestamp(writer: JsonWriter, value: uint32, echo: uint32)
    requires writer.Valid() && writer.mode in {WStartArray, WMiddleArray}
    modifies writer, writer.stream, writer.stream.buffer, writer.stream.sink
    ensures writer.Valid() && (old(writer.sensible) ==> writer.sensible)
    ensures writer.calls == old(writer.calls) + OptionCalls(Timestamp(value, echo))
    ensures writer.mode == WMiddleArray && writer.modeStack == old(writer.modeStack)
  {
    ghost var start := writer.calls;
    writer.BeginArray();
    writer.WriteString(Ascii("timestamp"));
    writer.WriteInteger(value);
    writer.WriteInteger(echo);
    writer.EndArray();
    FiveCalls(start, CBeginArray, Word("timestamp"), CInteger(value), CInteger(echo), CEndArray);
  }

  method WriteOption(writer: JsonWriter, o: TcpOption)
    requires writer.Valid() && writer.mode in {WStartArray, WMiddleArray}
    modifies writer, writer.stream, writer.stream.buffer, writer.stream.sink
    ensures writer.Valid() && (old(writer.sensible) ==> writer.sensible)
    ensures writer.calls == old(writer.calls) + OptionCalls(o)
    ensures writer.mode == WMiddleArray && writer.modeStack == old(writer.modeStack)
  {
    match o {
    case EndOfList =>
      WriteBareOption(writer, "EOL");
    case NoOperation =>
      WriteBareOption(writer, "NOP");
    case MaxSegmentSize(v) =>
      WriteTcpOption(writer, "maxSegmentSize", v);
    case WindowScale(v) =>
      WriteTcpOption(writer, "windowScale", v);
    case SackPermitted =>
      WriteBareOption(writer, "sackPermitted");
    case Timestamp(v, w) =>
      WriteTimestamp(writer, v, w);
    }
  }

  /** What the walk over `a` still has to write, unless it is done. */
  ghost function Remaining(done: bool, a: bytes): seq<Call>
    requires WalkEnds(a)
  {
    if done then [] else OptionListCalls(Walk(a))
  }

  /** One round of the option loop over what is left of the area: how far the pointer moves, or
      that the loop is left. */
  method WriteNextOption(writer: JsonWriter, a: bytes) returns (done: bool, used: nat)
    requires writer.Valid() && writer.mode in {WStartArray, WMiddleArray} && WalkEnds(a) && a != []
    modifies writer, writer.stream, writer.stream.buffer, writer.stream.sink
    ensures writer.Valid() && (old(writer.sensible) ==> writer.sensible)
    ensures writer.mode in {WStartArray, WMiddleArray} && writer.modeStack == old(writer.modeStack)
    ensures used <= |a| && WalkEnds(a[used..]) && (!done ==> used > 0)
    ensures writer.calls + Remaining(done, a[used..]) == old(writer.calls) + Remaining(false, a)
  {
    ghost var before := writer.calls;
    assert before + [] == before;
    if a[0] == TCPOPT_NOP {
      WriteOption(writer, NoOperation);
      UnfoldOptions(before, NoOperation, Walk(a[1..]));
      return false, 1;
    }
    if a[0] == TCPOPT_EOL {
      WriteOption(writer, EndOfList);
      UnfoldOptions(before, EndOfList, []);
      assert [EndOfList] + [] == [EndOfList] && OptionListCalls([]) == [];
      assert writer.calls + [] == writer.calls;
      return true, 0;
    }
    if 1 >= |a| {
      return true, 0;
    }
    var size := a[1];
    if size > |a| {
      return true, 0;
    }
    var recognised := Recognise(a);
    if recognised.Some? {
      WriteOption(writer, recognised.value);
      UnfoldOptions(before, recognised.value, Walk(a[size..]));
    }
    return false, size;
  }

  lemma NothingRemains(done: bool, rest: bytes)
    requires WalkEnds(rest) && (done || rest == [])
    ensures Remaining(done, rest) == []
  {
  }

  method WriteTcpOptionList(writer: JsonWriter, area: bytes)
    requires writer.Valid() && writer.mode in {WStartArray, WMiddleArray} && WalkEnds(area)
    modifies writer, writer.stream, writer.stream.buffer, writer.stream.sink
    ensures writer.Valid() && (old(writer.sensible) ==> writer.sensible)
    ensures writer.mode in {WStartArray, WMiddleArray} && writer.modeStack == old(writer.modeStack)
    ensures writer.calls == old(writer.calls) + OptionListCalls(Walk(area))
  {
    var rest := area;
    var done := false;
    ghost var total := writer.calls + Remaining(false, area);
    while rest != [] && !done
      invariant writer.Valid() && (old(writer.sensible) ==> writer.sensible) && WalkEnds(rest)
      invariant writer.mode in {WStartArray, WMiddleArray} && writer.modeStack == old(writer.modeStack)
      invariant writer.calls + Remaining(done, rest) == total
      decreases |rest|, !done
    {
      var used;
      done, used := WriteNextOption(writer, rest);
      rest := rest[used..];
    }
    NothingRemains(done, rest);
    assert writer.calls + [] == writer.calls;
  }

  lemma UnfoldOptions(before: seq<Call>, o: TcpOption, os: seq<TcpOption>)
    ensures before + OptionListCalls([o] + os) == before + OptionCalls(o) + OptionListCalls(os)
  {
    assert ([o] + os)[1..] == os;
    Assoc(before, OptionCalls(o), OptionListCalls(os));
  }

  method WriteTcpOptions(writer: JsonWriter, t: bytes)
    requires writer.Valid() && writer.mode == WPropertyName && |t| >= 20 && WalkEnds(OptionArea(t))
    modifies writer, writer.stream, writer.stream.buffer, writer.stream.sink
    ensures writer.Valid() && (old(writer.sensible) ==> writer.sensible)
    ensures writer.calls == old(writer.calls) + TcpOptionCalls(t)
    ensures writer.mode == WPropertyName && writer.modeStack == old(writer.modeStack)
  {
    if OptionSize(t) > 0 {
      ghost var start := writer.calls;
      writer.WritePropertyName(Ascii("options"));
      writer.BeginPack();
      writer.BeginArray();
      ghost var front: seq<Call> := [Name("options"), CBeginPack, CBeginArray];
      assert writer.calls == start + front;
      WriteTcpOptionList(writer, OptionArea(t));
      ghost var list := OptionListCalls(Walk(OptionArea(t)));
      writer.EndArray();
      writer.EndPack();
      assert writer.calls == ((start + front) + list) + [CEndArray, CEndPack];
      Regroup(start, front, list, [CEndArray, CEndPack], []);
      assert front + list + [CEndArray, CEndPack] + [] == front + list + [CEndArray, CEndPack];
    }
  }

  method WriteTcpHeader(writer: JsonWriter, t: bytes) returns (size: nat)
    requires writer.Valid() && writer.mode == WPropertyValue && |t| >= 20 && WalkEnds(OptionArea(t))
    modifies writer, writer.stream, writer.stream.buffer, writer.stream.sink
    ensures writer.Valid() && (old(writer.sensible) ==> writer.sensible)
    ensures writer.calls == old(writer.calls) + TcpCalls(t)
    ensures writer.mode == WPropertyName && writer.modeStack == old(writer.modeStack)
    ensures size == HeaderLength(t)
  {
    WriteTcpFront(writer, t);
    WriteTcpAck(writer, t);
    WriteTcpFlags(writer, t[13]);
    WriteTcpWindow(writer, t);
    WriteTcpOptions(writer, t);
    writer.EndObject();
    Regroup(old(writer.calls), TcpFront(t), TcpAck(t), TcpFlagCalls(t[13]), TcpWindow(t));
    ghost var fixed := TcpFront(t) + TcpAck(t) + TcpFlagCalls(t[13]) + TcpWindow(t);
    Assoc(old(writer.calls), fixed, TcpOptionCalls(t));
    Assoc(old(writer.calls), fixed + TcpOptionCalls(t), [CEndObject]);
    return t[12] / 16 * 4;
  }

  method WriteUdpHeader(writer: JsonWriter, t: bytes) returns (size: nat)
    requires writer.Valid() && writer.mode == WPropertyValue && |t| >= 8
    modifies writer, writer.stream, writer.stream.buffer, writer.stream.sink
    ensures writer.Valid() && (old(writer.sensible) ==> writer.sensible)
    ensures writer.calls == old(writer.calls) + UdpCalls(t)
    ensures writer.mode == WPropertyName && writer.modeStack == old(writer.modeStack)
    ensures size == 8
  {
    writer.BeginObject();
    WriteNumber(writer, "sourcePort", U16(t, 0));
    WriteNumber(writer, "destPort", U16(t, 2));
    writer.EndObject();
    return 8;
  }

  method WriteIcmpCode(writer: JsonWriter, kind: byte, code: byte)
    requires writer.Valid() && writer.mode == WPropertyValue
    modifies writer, writer.stream, writer.stream.buffer, writer.stream.sink
    ensures writer.Valid() && (old(writer.sensible) ==> writer.sensible)
    ensures writer.calls == old(writer.calls) + [IcmpCodeCall(kind, code)]
    ensures writer.mode == WPropertyName && writer.modeStack == old(writer.modeStack)
  {
    if kind == ICMP_DEST_UNREACH {
      WriteFriendlyStringOrInt(writer, UnreachableCodeName, code);
    } else if kind == ICMP_REDIRECT {
      WriteFriendlyStringOrInt(writer, RedirectCodeName, code);
    } else if kind == ICMP_PARAMETERPROB {
      WriteFriendlyStringOrInt(writer, BadHeaderCodeName, code);
    } else {
      writer.WriteInteger(code);
    }
  }

  method WriteIcmpRest(writer: JsonWriter, t: bytes)
    requires writer.Valid() && writer.mode == WPropertyName && |t| >= 8
    modifies writer, writer.stream, writer.stream.buffer, writer.stream.sink
    ensures writer.Valid() && (old(writer.sensible) ==> writer.sensible)
    ensures writer.calls == old(writer.calls) + IcmpRest(t)
    ensures writer.mode == WPropertyName && writer.modeStack == old(writer.modeStack)
  {
    if HasEchoFields(t[0]) {
      WritePackedNumber(writer, "identifier", U16(t, 4));
      WriteNumber(writer, "sequenceNumber", U16(t, 6));
      writer.EndPack();
    } else if t[0] == ICMP_DEST_UNREACH {
      WriteNumber(writer, "nextHopMtu", U16(t, 6));
    } else if t[0] == ICMP_REDIRECT {
      writer.WritePropertyName(Ascii("gateway"));
      writer.WriteString(DottedQuad(t[4..8]));
    }
  }

  /** Type and code. */
  method WriteIcmpKind(writer: JsonWriter, t: bytes)
    requires writer.Valid() && writer.mode == WPropertyValue && |t| >= 8
    modifies writer, writer.stream, writer.stream.buffer, writer.stream.sink
    ensures writer.Valid() && (old(writer.sensible) ==> writer.sensible)
    ensures writer.calls == old(writer.calls) + IcmpKindCalls(t)
    ensures writer.mode == WPropertyName && writer.modeStack == old(writer.modeStack) + [WPropertyName]
  {
    writer.BeginObject();
    writer.WritePropertyName(Ascii("type"));
    writer.BeginPack();
    WriteFriendlyStringOrInt(writer, IcmpTypeName, t[0]);
    writer.WritePropertyName(Ascii("code"));
    WriteIcmpCode(writer, t[0], t[1]);
    writer.EndPack();
  }

  method WriteIcmpHeader(writer: JsonWriter, t: bytes) returns (size: nat)
    requires writer.Valid() && writer.mode == WPropertyValue && |t| >= 8
    modifies writer, writer.stream, writer.stream.buffer, writer.stream.sink
    ensures writer.Valid() && (old(writer.sensible) ==> writer.sensible)
    ensures writer.calls == old(writer.calls) + IcmpCalls(t)
    ensures writer.mode == WPropertyName && writer.modeStack == old(writer.modeStack)
    ensures size == 8
  {
    ghost var start := writer.calls;
    WriteIcmpKind(writer, t);
    WriteIcmpRest(writer, t);
    writer.EndObject();
    Assoc(start, IcmpKindCalls(t), IcmpRest(t));
    Assoc(start, IcmpKindCalls(t) + IcmpRest(t), [CEndObject]);
    return 8;
  }

  method IsPlain(data: bytes) returns (plain: bool)
    ensures plain == IsPlainText(data)
  {
    var p := 0;
    while p < |data|
      invariant p <= |data| && IsPlainText(data[..p])
    {
      if data[p] < ' ' as int && data[p] != '\r' as int && data[p] != '\n' as int && data[p] != '\t' as int {
        return false;
      }
      p := p + 1;
    }
    return true;
  }

  method WriteTextLines(writer: JsonWriter, data: bytes)
    requires writer.Valid() && writer.mode in {WStartArray, WMiddleArray}
    modifies writer, writer.stream, writer.stream.buffer, writer.stream.sink
    ensures writer.Valid() && (old(writer.sensible) ==> writer.sensible)
    ensures writer.mode in {WStartArray, WMiddleArray} && writer.modeStack == old(writer.modeStack)
    ensures writer.calls == old(writer.calls) + StringCalls(TextLines([], data))
  {
    var line: bytes := [];
    var p := 0;
    ghost var total := writer.calls + StringCalls(TextLines([], data));
    assert data[0..] == data;
    while p < |data|
      invariant writer.Valid() && (old(writer.sensible) ==> writer.sensible) && p <= |data|
      invariant writer.mode in {WStartArray, WMiddleArray} && writer.modeStack == old(writer.modeStack)
      invariant writer.calls + StringCalls(TextLines(line, data[p..])) == total
    {
      ghost var before, rest := writer.calls, data[p..];
      line := line + [data[p]];
      assert rest[1..] == data[p + 1..];
      if data[p] == '\n' as int {
        writer.WriteString(line);
        UnfoldLines(before, line, TextLines([], data[p + 1..]));
        line := [];
      }
      p := p + 1;
    }
    if |line| > 0 {
      writer.WriteString(line);
      assert StringCalls([line]) == [CString(line)];
    } else {
      assert writer.calls + [] == writer.calls;
    }
  }

  lemma UnfoldLines(before: seq<Call>, line: bytes, lines: seq<bytes>)
    ensures before + StringCalls([line] + lines) == before + [CString(line)] + StringCalls(lines)
  {
    assert StringCalls([line] + lines) == [CString(line)] + StringCalls(lines);
    Assoc(before, [CString(line)], StringCalls(lines));
  }

  method WriteHexLines(writer: JsonWriter, data: bytes)
    requires writer.Valid() && writer.mode in {WStartArray, WMiddleArray}
    modifies writer, writer.stream, writer.stream.buffer, writer.stream.sink
    ensures writer.Valid() && (old(writer.sensible) ==> writer.sensible)
    ensures writer.mode in {WStartArray, WMiddleArray} && writer.modeStack == old(writer.modeStack)
    ensures writer.calls == old(writer.calls) + StringCalls(HexLines(data))
  {
    var p := 0;
    assert data[0..] == data;
    while p < |data|
      invariant writer.Valid() && (old(writer.sensible) ==> writer.sensible) && p <= |data|
      invariant writer.mode in {WStartArray, WMiddleArray} && writer.modeStack == old(writer.modeStack)
      invariant writer.calls + StringCalls(HexLines(data[p..])) == old(writer.calls) + StringCalls(HexLines(data))
    {
      ghost var before, rest := writer.calls, data[p..];
      var size := Min(|data| - p, BYTES_PER_LINE);
      var line := FormatHex(data[p..p + size]);
      writer.WriteString(line);
      assert rest[..size] == data[p..p + size] && rest[size..] == data[p + size..];
      UnfoldLines(before, line, HexLines(data[p + size..]));
      p := p + size;
    }
    assert writer.calls + [] == writer.calls;
  }

  method WritePayloadFront(writer: JsonWriter, kind: string)
    requires writer.Valid() && writer.mode == WPropertyValue
    modifies writer, writer.stream, writer.stream.buffer, writer.stream.sink
    ensures writer.Valid() && (old(writer.sensible) ==> writer.sensible)
    ensures writer.calls == old(writer.calls) + PayloadFront(kind)
    ensures writer.mode == WStartArray && writer.modeStack == old(writer.modeStack) + [WPropertyName, WPropertyName]
  {
    writer.BeginObject();
    writer.WritePropertyName(Ascii("type"));
    writer.WriteString(Ascii(kind));
    writer.WritePropertyName(Ascii("data"));
    writer.BeginArray();
  }

  method SerializeBytes(writer: JsonWriter, data: bytes)
    requires writer.Valid() && writer.mode == WPropertyValue
    modifies writer, writer.stream, writer.stream.buffer, writer.stream.sink
    ensures writer.Valid() && (old(writer.sensible) ==> writer.sensible)
    ensures writer.calls == old(writer.calls) + PayloadCalls(data)
    ensures writer.mode == WPropertyName && writer.modeStack == old(writer.modeStack)
  {
    ghost var start := writer.calls;
    ghost var front, lines;
    var plain := IsPlain(data);
    if plain {
      WritePayloadFront(writer, "text");
      WriteTextLines(writer, data);
      front, lines := PayloadFront("text"), StringCalls(TextLines([], data));
    } else {
      WritePayloadFront(writer, "hex");
      WriteHexLines(writer, data);
      front, lines := PayloadFront("hex"), StringCalls(HexLines(data));
    }
    Assoc(start, front, lines);
    writer.EndArray();
    writer.EndObject();
    ghost var all := front + lines;
    assert writer.calls == ((start + all) + [CEndArray]) + [CEndObject];
    Assoc(start + all, [CEndArray], [CEndObject]);
    Assoc(start, all, [CEndArray, CEndObject]);
  }

  /** Where the payload begins, by the header in front of it. */
  lemma DataOffsetBehind(b: bytes)
    requires |b| >= 20 && b[0] % 16 >= 5
    ensures TransportOf(b).Tcp? ==> DataOffset(b) == IpLength(b) + HeaderLength(b[IpLength(b)..])
    ensures TransportOf(b).Udp? || TransportOf(b).Icmp? ==> DataOffset(b) == IpLength(b) + 8
    ensures TransportOf(b).NoTransport? ==> DataOffset(b) == IpLength(b)
  {
  }

  method WriteNamedTransport(writer: JsonWriter, transport: Transport, t: bytes) returns (size: nat)
    requires writer.Valid() && writer.mode == WPropertyName
    requires transport.Tcp? ==> |t| >= 20 && WalkEnds(OptionArea(t))
    requires transport.Udp? || transport.Icmp? ==> |t| >= 8
    modifies writer, writer.stream, writer.stream.buffer, writer.stream.sink
    ensures writer.Valid() && (old(writer.sensible) ==> writer.sensible)
    ensures writer.mode == WPropertyName && writer.modeStack == old(writer.modeStack)
    ensures transport.Tcp? ==> writer.calls == old(writer.calls) + ([Name("tcp")] + TcpCalls(t))
    ensures transport.Tcp? ==> size == HeaderLength(t)
    ensures transport.Udp? ==> writer.calls == old(writer.calls) + ([Name("udp")] + UdpCalls(t)) && size == 8
    ensures transport.Icmp? ==> writer.calls == old(writer.calls) + ([Name("icmp")] + IcmpCalls(t)) && size == 8
    ensures transport.NoTransport? ==> writer.calls == old(writer.calls) && size == 0
  {
    ghost var start := writer.calls;
    size := 0;
    match transport {
    case Tcp =>
      writer.WritePropertyName(Ascii("tcp"));
      size := WriteTcpHeader(writer, t);
      Assoc(start, [Name("tcp")], TcpCalls(t));
    case Udp =>
      writer.WritePropertyName(Ascii("udp"));
      size := WriteUdpHeader(writer, t);
      Assoc(start, [Name("udp")], UdpCalls(t));
    case Icmp =>
      writer.WritePropertyName(Ascii("icmp"));
      size := WriteIcmpHeader(writer, t);
      Assoc(start, [Name("icmp")], IcmpCalls(t));
    case NoTransport =>
    }
  }

  /** The header behind the IP header, if the packet holds all of it. */
  method WriteTransport(writer: JsonWriter, b: bytes, offset: nat) returns (size: nat)
    requires writer.Valid() && writer.mode == WPropertyName
    requires |b| >= 20 && b[0] % 16 >= 5 && Walkable(b) && offset == IpLength(b)
    modifies writer, writer.stream, writer.stream.buffer, writer.stream.sink
    ensures writer.Valid() && (old(writer.sensible) ==> writer.sensible)
    ensures writer.calls == old(writer.calls) + TransportCalls(b)
    ensures writer.mode == WPropertyName && writer.modeStack == old(writer.modeStack)
    ensures offset + size == DataOffset(b)
  {
    var transport := NoTransport;
    if b[9] == PROTOCOL_TCP && |b| >= offset + 20 {
      transport := Tcp;
    } else if b[9] == PROTOCOL_UDP && |b| >= offset + 8 {
      transport := Udp;
    } else if b[9] == PROTOCOL_ICMP && |b| >= offset + 8 {
      transport := Icmp;
    }
    DataOffsetBehind(b);
    size := WriteNamedTransport(writer, transport, if transport == NoTransport then [] else b[offset..]);
    assert old(writer.calls) + [] == old(writer.calls);
  }

  method WriteData(writer: JsonWriter, b: bytes, offset: nat)
    requires writer.Valid() && writer.mode == WPropertyName && |b| >= 20 && offset == DataOffset(b)
    modifies writer, writer.stream, writer.stream.buffer, writer.stream.sink
    ensures writer.Valid() && (old(writer.sensible) ==> writer.sensible)
    ensures writer.calls == old(writer.calls) + DataCalls(b)
    ensures writer.mode == WPropertyName && writer.modeStack == old(writer.modeStack)
  {
    ghost var start := writer.calls;
    if |b| > offset {
      writer.WritePropertyName(Ascii("data"));
      SerializeBytes(writer, b[offset..]);
      Assoc(start, [Name("data")], PayloadCalls(b[offset..]));
    } else {
      assert start + [] == start;
    }
  }

  /** The members of the packet's object. */
  method WriteMembers(writer: JsonWriter, b: bytes)
    requires writer.Valid() && writer.mode == WStartObject && |b| >= 20 && b[0] % 16 >= 5 && Walkable(b)
    modifies writer, writer.stream, writer.stream.buffer, writer.stream.sink
    ensures writer.Valid() && (old(writer.sensible) ==> writer.sensible)
    ensures writer.calls == old(writer.calls) + ([Name("ip")] + IpCalls(b) + TransportCalls(b) + DataCalls(b))
    ensures writer.mode == WPropertyName && writer.modeStack == old(writer.modeStack)
  {
    ghost var start := writer.calls;
    writer.WritePropertyName(Ascii("ip"));
    var offset := WriteIpHeader(writer, b);
    var size := WriteTransport(writer, b, offset);
    WriteData(writer, b, offset + size);
    Regroup(start, [Name("ip")], IpCalls(b), TransportCalls(b), DataCalls(b));
  }

  /** An object whose first member's name stands apart. */
  lemma ObjectParts<T>(start: seq<T>, open: T, name: T, a: seq<T>, b: seq<T>, c: seq<T>, close: T)
    ensures start + [open] + ([name] + a + b + c) + [close] == start + ([open, name] + a + b + c + [close])
  {
    Regroup([open], [name], a, b, c);
    assert [open] + [name] == [open, name];
    Assoc(start, [open], [name] + a + b + c);
    Assoc(start, [open] + ([name] + a + b + c), [close]);
  }

  lemma WholePacketParts(start: seq<Call>, b: bytes, calls: seq<Call>)
    requires |b| >= 20 && b[0] % 16 >= 5 && Walkable(b)
    requires var members := [Name("ip")] + IpCalls(b) + TransportCalls(b) + DataCalls(b);
      calls == start + [CBeginObject] + members + [CEndObject]
    ensures calls == start + WholePacketCalls(b)
  {
    ObjectParts(start, CBeginObject, Name("ip"), IpCalls(b), TransportCalls(b), DataCalls(b), CEndObject);
  }

  lemma EmptyPacketParts(start: seq<Call>, b: bytes, calls: seq<Call>)
    requires !(|b| >= 20 && b[0] % 16 >= 5) && Walkable(b)
    requires calls == start + [CBeginObject] + [CEndObject]
    ensures calls == start + WholePacketCalls(b)
  {
    Assoc(start, [CBeginObject], [CEndObject]);
    assert [CBeginObject] + [CEndObject] == [CBeginObject, CEndObject];
  }

  method WriteObject(writer: JsonWriter, b: bytes)
    requires writer.Valid() && |b| >= 20 && b[0] % 16 >= 5 && Walkable(b)
    requires writer.mode in {WDocumentStart, WPropertyValue, WStartArray, WMiddleArray}
    modifies writer, writer.stream, writer.stream.buffer, writer.stream.sink
    ensures writer.Valid()
    ensures old(writer.sensible) && ValueFits(old(writer.mode), old(writer.calls)) ==> writer.sensible
    ensures writer.calls == old(writer.calls) + [CBeginObject]
              + ([Name("ip")] + IpCalls(b) + TransportCalls(b) + DataCalls(b)) + [CEndObject]
    ensures writer.mode == ModeAfterValue(old(writer.mode)) && writer.modeStack == old(writer.modeStack)
  {
    writer.BeginObject();
    WriteMembers(writer, b);
    writer.EndObject();
  }

  /** Writes a packet as one JSON object, wherever the writer expects a value. The only packets
      it does not come back from are those whose option walk stands still. */
  method SerializePacket(writer: JsonWriter, b: bytes)
    requires writer.Valid() && Walkable(b)
    requires writer.mode in {WDocumentStart, WPropertyValue, WStartArray, WMiddleArray}
    modifies writer, writer.stream, writer.stream.buffer, writer.stream.sink
    ensures writer.Valid()
    ensures old(writer.sensible) && ValueFits(old(writer.mode), old(writer.calls)) ==> writer.sensible
    ensures writer.calls == old(writer.calls) + WholePacketCalls(b)
    ensures writer.mode == ModeAfterValue(old(writer.mode)) && writer.modeStack == old(writer.modeStack)
  {
    ghost var start := writer.calls;
    if |b| >= 20 && b[0] % 16 >= 5 {
      WriteObject(writer, b);
      WholePacketParts(start, b, writer.calls);
    } else {
      writer.BeginObject();
      writer.EndObject();
      EmptyPacketParts(start, b, writer.calls);
    }
  }
}
