/** DeserializePacket of src/net/json_packet.cc and its helpers: they pull tokens from a reader
    and append to a byte vector, whose header fields are patched at the end. */
module PacketDeserializer {
  import opened Base
  import opened HexCodec
  import opened JsonTokens
  import opened EventViews
  import opened JsonReaders
  import opened Wire
  import opened IpText
  import opened TcpOptions
  import opened PacketTables
  import Spec = PacketFormat
  import opened PacketFormat

  /** std::vector<uint8_t> */
  class ByteVector {
    var data: bytes

    constructor ()
      ensures data == []
    {
      data := [];
    }

    method Append(more: bytes)
      modifies this
      ensures data == old(data) + more
    {
      data := data + more;
    }

    /** Writes a 16-bit field in place. */
    method Store16(i: nat, v: uint16)
      requires i + 2 <= |data|
      modifies this
      ensures data == Patch16(old(data), i, v)
    {
      data := data[i := v / 256];
      data := data[i + 1 := v % 256];
    }
  }

  method ExpectNext(reader: JsonReader, token: JsonToken) returns (ok: bool)
    requires reader.Valid()
    modifies reader, reader.stream, reader.stream.buffer, reader.stream.source
    ensures reader.Valid()
    ensures ok == Spec.ExpectToken(old(reader.View()), token).Some?
    ensures ok ==> reader.View() == Spec.ExpectToken(old(reader.View()), token).value
  {
    ok := reader.Next();
    if !ok {
      return false;
    }
    return reader.tokenType == token;
  }

  method ExpectNextPropertyName(reader: JsonReader, name: string) returns (ok: bool)
    requires reader.Valid()
    modifies reader, reader.stream, reader.stream.buffer, reader.stream.source
    ensures reader.Valid()
    ensures ok == Spec.ExpectName(old(reader.View()), name).Some?
    ensures ok ==> reader.View() == Spec.ExpectName(old(reader.View()), name).value
  {
    ok := reader.Next();
    if !ok {
      return false;
    }
    return reader.tokenType == PropertyNameToken && reader.strValue == Ascii(name);
  }

  method ExpectNextValue(reader: JsonReader, lo: int, hi: int) returns (ok: bool, value: int)
    requires reader.Valid()
    modifies reader, reader.stream, reader.stream.buffer, reader.stream.source
    ensures reader.Valid()
    ensures ok == Spec.ExpectInt(old(reader.View()), lo, hi).Some?
    ensures ok ==> (value, reader.View()) == Spec.ExpectInt(old(reader.View()), lo, hi).value
    ensures ok ==> lo <= value <= hi
  {
    value := 0;
    ok := reader.Next();
    if !ok {
      return false, value;
    }
    if reader.tokenType != IntegerToken {
      return false, value;
    }
    value := reader.intValue;
    return lo <= value <= hi, value;
  }

  method ExpectNextProperty(reader: JsonReader, name: string, lo: int, hi: int) returns (ok: bool, value: int)
    requires reader.Valid()
    modifies reader, reader.stream, reader.stream.buffer, reader.stream.source
    ensures reader.Valid()
    ensures ok == Spec.ExpectProperty(old(reader.View()), name, lo, hi).Some?
    ensures ok ==> (value, reader.View()) == Spec.ExpectProperty(old(reader.View()), name, lo, hi).value
    ensures ok ==> lo <= value <= hi
  {
    value := 0;
    ok := ExpectNextPropertyName(reader, name);
    if !ok {
      return false, value;
    }
    ok, value := ExpectNextValue(reader, lo, hi);
  }

  method ExpectNextEnumValue(reader: JsonReader, table: Table, n: nat) returns (ok: bool, value: byte)
    requires reader.Valid() && n <= 256
    modifies reader, reader.stream, reader.stream.buffer, reader.stream.source
    ensures reader.Valid()
    ensures ok == Spec.ExpectEnum(old(reader.View()), table, n).Some?
    ensures ok ==> (value, reader.View()) == Spec.ExpectEnum(old(reader.View()), table, n).value
  {
    value := 0;
    ok := reader.Next();
    if !ok {
      return false, value;
    }
    var found := Lookup(table, n, reader.strValue);
    if found.None? {
      return false, value;
    }
    return true, found.value;
  }

  method ExpectNextEnumProperty(reader: JsonReader, name: string, table: Table, n: nat) returns (ok: bool, value: byte)
    requires reader.Valid() && n <= 256
    modifies reader, reader.stream, reader.stream.buffer, reader.stream.source
    ensures reader.Valid()
    ensures ok == Spec.ExpectEnumProperty(old(reader.View()), name, table, n).Some?
    ensures ok ==> (value, reader.View()) == Spec.ExpectEnumProperty(old(reader.View()), name, table, n).value
  {
    value := 0;
    ok := ExpectNextPropertyName(reader, name);
    if !ok {
      return false, value;
    }
    ok, value := ExpectNextEnumValue(reader, table, n);
  }

  method ExpectIp4Value(reader: JsonReader) returns (ok: bool, value: Ip4)
    requires reader.Valid()
    modifies reader, reader.stream, reader.stream.buffer, reader.stream.source
    ensures reader.Valid()
    ensures ok == Spec.ExpectIp4(old(reader.View())).Some?
    ensures ok ==> (value, reader.View()) == Spec.ExpectIp4(old(reader.View())).value
  {
    value := [0, 0, 0, 0];
    ok := ExpectNext(reader, StringToken);
    if !ok {
      return false, value;
    }
    var address := ParseIp4(reader.strValue);
    if address.None? {
      return false, value;
    }
    return true, address.value;
  }

  method ExpectIp4Property(reader: JsonReader, name: string) returns (ok: bool, value: Ip4)
    requires reader.Valid()
    modifies reader, reader.stream, reader.stream.buffer, reader.stream.source
    ensures reader.Valid()
    ensures ok == Spec.ExpectIp4Property(old(reader.View()), name).Some?
    ensures ok ==> (value, reader.View()) == Spec.ExpectIp4Property(old(reader.View()), name).value
  {
    value := [0, 0, 0, 0];
    ok := ExpectNextPropertyName(reader, name);
    if !ok {
      return false, value;
    }
    ok, value := ExpectIp4Value(reader);
  }

  method DeserializeFlags(reader: JsonReader, table: FlagTable) returns (ok: bool, result: nat)
    requires reader.Valid()
    modifies reader, reader.stream, reader.stream.buffer, reader.stream.source
    ensures reader.Valid()
    ensures ok == Spec.ExpectFlags(old(reader.View()), table).Some?
    ensures ok ==> (result, reader.View()) == Spec.ExpectFlags(old(reader.View()), table).value
  {
    result := 0;
    ok := ExpectNext(reader, StartArrayToken);
    if !ok {
      return false, result;
    }
    ghost var first := reader.View();
    while true
      invariant reader.Valid()
      invariant Spec.TakeFlags(first, table, 0) == Spec.TakeFlags(reader.View(), table, result)
      decreases |reader.View().pending|
    {
      ok := reader.Next();
      if !ok {
        return false, result;
      }
      if reader.tokenType == EndArrayToken {
        return true, result;
      }
      if reader.tokenType != StringToken {
        return false, result;
      }
      var flag := table(reader.strValue);
      if flag.None? {
        return false, result;
      }
      result := OrBit(result, flag.value);
    }
  }

  method TakeIpFront(reader: JsonReader) returns (ok: bool, tos: byte, id: uint16, flags: nat)
    requires reader.Valid()
    modifies reader, reader.stream, reader.stream.buffer, reader.stream.source
    ensures reader.Valid()
    ensures ok == Spec.TakeIpFront(old(reader.View())).Some?
    ensures ok ==> (tos, id, flags, reader.View()) == Spec.TakeIpFront(old(reader.View())).value
  {
    var version;
    tos, id, flags := 0, 0, 0;
    ok, version := ExpectNextProperty(reader, "version", 4, 4);
    if !ok {
      return false, tos, id, flags;
    }
    var value;
    ok, value := ExpectNextProperty(reader, "tos", 0, 255);
    if !ok {
      return false, tos, id, flags;
    }
    tos := value;
    ok, value := ExpectNextProperty(reader, "id", 0, 0xffff);
    if !ok {
      return false, tos, id, flags;
    }
    id := value;
    ok := ExpectNextPropertyName(reader, "flags");
    if !ok {
      return false, tos, id, flags;
    }
    ok, flags := DeserializeFlags(reader, IpFlag);
  }

  method TakeIpMiddle(reader: JsonReader, flags: nat) returns (ok: bool, frag: uint16, ttl: byte, protocol: byte)
    requires reader.Valid()
    modifies reader, reader.stream, reader.stream.buffer, reader.stream.source
    ensures reader.Valid()
    ensures ok == Spec.TakeIpMiddle(old(reader.View()), flags).Some?
    ensures ok ==> (frag, ttl, protocol, reader.View()) == Spec.TakeIpMiddle(old(reader.View()), flags).value
  {
    frag, ttl, protocol := 0, 0, 0;
    var value;
    ok, value := ExpectNextProperty(reader, "fragmentOffset", 0, 8191);
    if !ok {
      return false, frag, ttl, protocol;
    }
    frag := JoinFragment(value, flags);
    ok, value := ExpectNextProperty(reader, "ttl", 0, 255);
    if !ok {
      return false, frag, ttl, protocol;
    }
    ttl := value;
    ok, protocol := ExpectNextEnumProperty(reader, "protocol", ProtocolName, PROTOCOL_COUNT);
  }

  method TakeAddresses(reader: JsonReader) returns (ok: bool, source: Ip4, destination: Ip4)
    requires reader.Valid()
    modifies reader, reader.stream, reader.stream.buffer, reader.stream.source
    ensures reader.Valid()
    ensures ok == Spec.TakeAddresses(old(reader.View())).Some?
    ensures ok ==> (source, destination, reader.View()) == Spec.TakeAddresses(old(reader.View())).value
  {
    source, destination := [0, 0, 0, 0], [0, 0, 0, 0];
    ok, source := ExpectIp4Property(reader, "source");
    if !ok {
      return false, source, destination;
    }
    ok, destination := ExpectIp4Property(reader, "destination");
  }

  method ReadIpFields(reader: JsonReader) returns (ok: bool, fields: IpFields)
    requires reader.Valid()
    modifies reader, reader.stream, reader.stream.buffer, reader.stream.source
    ensures reader.Valid()
    ensures ok == Spec.TakeIpFields(old(reader.View())).Some?
    ensures ok ==> (fields, reader.View()) == Spec.TakeIpFields(old(reader.View())).value
  {
    fields := IpFields(0, 0, 0, 0, 0, [0, 0, 0, 0], [0, 0, 0, 0]);
    ok := ExpectNext(reader, StartObjectToken);
    if !ok {
      return false, fields;
    }
    var tos, id, flags, frag, ttl, protocol, source, destination;
    ok, tos, id, flags := TakeIpFront(reader);
    if !ok {
      return false, fields;
    }
    ok, frag, ttl, protocol := TakeIpMiddle(reader, flags);
    if !ok {
      return false, fields;
    }
    ok, source, destination := TakeAddresses(reader);
    if !ok {
      return false, fields;
    }
    ok := ExpectNext(reader, EndObjectToken);
    if !ok {
      return false, fields;
    }
    fields := IpFields(tos, id, frag, ttl, protocol, source, destination);
  }

  method DeserializeIp4Header(reader: JsonReader, dest: ByteVector) returns (ok: bool)
    requires reader.Valid()
    modifies reader, reader.stream, reader.stream.buffer, reader.stream.source, dest
    ensures reader.Valid()
    ensures ok == Spec.DecodeIp(old(reader.View())).Some?
    ensures ok ==> dest.data == old(dest.data) + Spec.DecodeIp(old(reader.View())).value.0
    ensures ok ==> reader.View() == Spec.DecodeIp(old(reader.View())).value.1
  {
    var fields;
    ok, fields := ReadIpFields(reader);
    if !ok {
      return false;
    }
    dest.Append(IpHeader(fields));
  }

  method ReadTimestamp(reader: JsonReader) returns (ok: bool, value1: int, value2: int)
    requires reader.Valid()
    modifies reader, reader.stream, reader.stream.buffer, reader.stream.source
    ensures reader.Valid()
    ensures ok == Spec.ExpectTimestamp(old(reader.View())).Some?
    ensures ok ==> 0 <= value1 <= 0xffff_ffff && 0 <= value2 <= 0xffff_ffff
    ensures ok ==> (value1, value2, reader.View()) == Spec.ExpectTimestamp(old(reader.View())).value
  {
    value2 := 0;
    ok, value1 := ExpectNextValue(reader, 0, 0xffff_ffff);
    if !ok {
      return false, 0, 0;
    }
    ok, value2 := ExpectNextValue(reader, 0, 0xffff_ffff);
  }

  method PushTimestamp(reader: JsonReader, dest: ByteVector) returns (ok: bool, ghost o: TcpOption)
    requires reader.Valid()
    modifies reader, reader.stream, reader.stream.buffer, reader.stream.source, dest
    ensures reader.Valid()
    ensures ok == Spec.ExpectTimestamp(old(reader.View())).Some?
    ensures ok ==> var (value, echo, v) := Spec.ExpectTimestamp(old(reader.View())).value;
      o == Timestamp(value, echo) && reader.View() == v
    ensures ok ==> dest.data == old(dest.data) + Encode(o)
  {
    o := NoOperation;
    ghost var start := dest.data;
    dest.Append([TCPOPT_TIMESTAMP]);
    dest.Append([TCPOLEN_TIMESTAMP]);
    assert dest.data == start + [TCPOPT_TIMESTAMP, TCPOLEN_TIMESTAMP];
    var value1, value2;
    ok, value1, value2 := ReadTimestamp(reader);
    if !ok {
      return false, o;
    }
    dest.Append(Put32(value1));
    dest.Append(Put32(value2));
    o := Timestamp(value1, value2);
    Assoc(start + [TCPOPT_TIMESTAMP, TCPOLEN_TIMESTAMP], Put32(value1), Put32(value2));
    Assoc(start, [TCPOPT_TIMESTAMP, TCPOLEN_TIMESTAMP], Put32(value1) + Put32(value2));
  }

  /** "windowScale" and "maxSegmentSize" both get length 4 and a 16-bit value. */
  method PushShort(reader: JsonReader, dest: ByteVector, t: byte) returns (ok: bool, value: uint16)
    requires reader.Valid()
    modifies reader, reader.stream, reader.stream.buffer, reader.stream.source, dest
    ensures reader.Valid()
    ensures ok == Spec.ExpectInt(old(reader.View()), 0, 0xffff).Some?
    ensures ok ==> (value, reader.View()) == Spec.ExpectInt(old(reader.View()), 0, 0xffff).value
    ensures ok ==> dest.data == old(dest.data) + ([t, 4] + Put16(value))
  {
    value := 0;
    ghost var start := dest.data;
    dest.Append([t]);
    dest.Append([4]);
    assert dest.data == start + [t, 4];
    var parsed;
    ok, parsed := ExpectNextValue(reader, 0, 0xffff);
    if !ok {
      return false, value;
    }
    value := parsed;
    dest.Append(Put16(value));
    Assoc(start, [t, 4], Put16(value));
  }

  /** The switch over the option type. */
  method PushOption(reader: JsonReader, dest: ByteVector, t: byte) returns (ok: bool, ghost o: TcpOption)
    requires reader.Valid()
    modifies reader, reader.stream, reader.stream.buffer, reader.stream.source, dest
    ensures reader.Valid()
    ensures ok == Spec.TakeOptionValue(old(reader.View()), t).Some?
    ensures ok ==> (o, reader.View()) == Spec.TakeOptionValue(old(reader.View()), t).value
    ensures ok ==> dest.data == old(dest.data) + Encode(o)
  {
    ok, o := true, NoOperation;
    if t == TCPOPT_EOL || t == TCPOPT_NOP {
      dest.Append([t]);
      o := if t == TCPOPT_EOL then EndOfList else NoOperation;
    } else if t == TCPOPT_SACK_PERMITTED {
      dest.Append([t]);
      dest.Append([TCPOLEN_SACK_PERMITTED]);
      o := SackPermitted;
    } else if t == TCPOPT_WINDOW || t == TCPOPT_MAXSEG {
      var value;
      ok, value := PushShort(reader, dest, t);
      o := if t == TCPOPT_WINDOW then WindowScale(value) else MaxSegmentSize(value);
    } else if t == TCPOPT_TIMESTAMP {
      ok, o := PushTimestamp(reader, dest);
    } else {
      return false, o;
    }
  }

  /** One option of the array: its type is looked up, its bytes are pushed. */
  method DeserializeTcpOption(reader: JsonReader, dest: ByteVector) returns (ok: bool, ghost o: TcpOption)
    requires reader.Valid()
    modifies reader, reader.stream, reader.stream.buffer, reader.stream.source, dest
    ensures reader.Valid()
    ensures ok == Spec.TakeOption(old(reader.View())).Some?
    ensures ok ==> (o, reader.View()) == Spec.TakeOption(old(reader.View())).value
    ensures ok ==> dest.data == old(dest.data) + Encode(o)
  {
    o := NoOperation;
    var t;
    ok, t := ExpectNextEnumValue(reader, TcpOptionName, TCP_OPTION_COUNT);
    if !ok {
      return false, o;
    }
    ok, o := PushOption(reader, dest, t);
  }

  method DeserializeTcpOptionArray(reader: JsonReader, dest: ByteVector)
    returns (ok: bool, ghost taken: seq<TcpOption>)
    requires reader.Valid()
    modifies reader, reader.stream, reader.stream.buffer, reader.stream.source, dest
    ensures reader.Valid()
    ensures ok == Spec.TakeOptions(old(reader.View())).Some?
    ensures ok ==> (taken, reader.View()) == Spec.TakeOptions(old(reader.View())).value
    ensures ok ==> dest.data == old(dest.data) + EncodeAll(taken)
  {
    ghost var first, start := reader.View(), dest.data;
    taken := [];
    assert start + EncodeAll([]) == start;
    PrependNone(Spec.TakeOptions(first));
    while reader.tokenType != EndArrayToken
      invariant reader.Valid()
      invariant dest.data == start + EncodeAll(taken)
      invariant Spec.TakeOptions(first) == Prepend(taken, Spec.TakeOptions(reader.View()))
      decreases |reader.View().pending|
    {
      ghost var before := reader.View();
      TakeOptionIsShorter(before);
      if reader.tokenType != StartArrayToken {
        return false, taken;
      }
      ghost var o;
      ok, o := DeserializeTcpOption(reader, dest);
      if !ok {
        return false, taken;
      }
      ok := ExpectNext(reader, EndArrayToken);
      if !ok {
        return false, taken;
      }
      ok := reader.Next();
      if !ok {
        return false, taken;
      }
      PrependOne(taken, o, Spec.TakeOptions(reader.View()));
      EncodeSnoc(start, taken, o);
      taken := taken + [o];
    }
    assert taken + [] == taken;
    return true, taken;
  }

  ghost function Prepend(taken: seq<TcpOption>, r: Option<(seq<TcpOption>, View)>): Option<(seq<TcpOption>, View)> {
    if r.None? then None else Some((taken + r.value.0, r.value.1))
  }

  lemma PrependNone(r: Option<(seq<TcpOption>, View)>)
    ensures Prepend([], r) == r
  {
    if r.Some? {
      assert [] + r.value.0 == r.value.0;
    }
  }

  lemma PrependOne(taken: seq<TcpOption>, o: TcpOption, r: Option<(seq<TcpOption>, View)>)
    ensures Prepend(taken, Prepend([o], r)) == Prepend(taken + [o], r)
  {
    if r.Some? {
      Assoc(taken, [o], r.value.0);
    }
  }

  lemma {:induction false} EncodeSnoc(start: bytes, os: seq<TcpOption>, o: TcpOption)
    ensures start + EncodeAll(os) + Encode(o) == start + EncodeAll(os + [o])
    decreases |os|
  {
    if os == [] {
      assert os + [o] == [o];
      assert [o][1..] == [];
      assert EncodeAll([o]) == Encode(o) + [];
      assert start + [] + Encode(o) == start + (Encode(o) + []);
    } else {
      var e, x := Encode(os[0]), EncodeAll(os[1..]);
      assert (os + [o])[1..] == os[1..] + [o];
      EncodeSnoc(start + e, os[1..], o);
      Assoc(start, e, x);
      Assoc(start, e, EncodeAll(os[1..] + [o]));
    }
  }

  method DeserializeTcpHeaderOptions(reader: JsonReader, dest: ByteVector)
    returns (ok: bool, ghost os: seq<TcpOption>)
    requires reader.Valid()
    modifies reader, reader.stream, reader.stream.buffer, reader.stream.source, dest
    ensures reader.Valid()
    ensures ok == Spec.DecodeOptions(old(reader.View())).Some?
    ensures ok ==> (os, reader.View()) == Spec.DecodeOptions(old(reader.View())).value
    ensures ok ==> dest.data == old(dest.data) + EncodeAll(os)
  {
    os := [];
    if reader.tokenType == EndObjectToken {
      assert dest.data + [] == dest.data;
      return true, os;
    }
    if !(reader.tokenType == PropertyNameToken && reader.strValue == Ascii("options")) {
      return false, os;
    }
    ok := ExpectNext(reader, StartArrayToken);
    if !ok {
      return false, os;
    }
    ok := reader.Next();
    if !ok {
      return false, os;
    }
    ok, os := DeserializeTcpOptionArray(reader, dest);
    if !ok {
      return false, os;
    }
    ok := ExpectNext(reader, EndObjectToken);
  }

  method TakeAckNumber(reader: JsonReader) returns (ok: bool, ack: uint32)
    requires reader.Valid()
    modifies reader, reader.stream, reader.stream.buffer, reader.stream.source
    ensures reader.Valid()
    ensures ok == Spec.TakeAckNumber(old(reader.View())).Some?
    ensures ok ==> (ack, reader.View()) == Spec.TakeAckNumber(old(reader.View())).value
  {
    ack := 0;
    ok := ExpectNext(reader, PropertyNameToken);
    if !ok {
      return false, ack;
    }
    if reader.strValue == Ascii("ackNumber") {
      var value;
      ok, value := ExpectNextValue(reader, 0, 0xffff_ffff);
      if !ok {
        return false, ack;
      }
      ack := value;
      ok := ExpectNext(reader, PropertyNameToken);
    }
  }

  method TakePorts(reader: JsonReader) returns (ok: bool, source: uint16, destination: uint16)
    requires reader.Valid()
    modifies reader, reader.stream, reader.stream.buffer, reader.stream.source
    ensures reader.Valid()
    ensures ok == Spec.TakePorts(old(reader.View())).Some?
    ensures ok ==> (source, destination, reader.View()) == Spec.TakePorts(old(reader.View())).value
  {
    source, destination := 0, 0;
    var value;
    ok, value := ExpectNextProperty(reader, "sourcePort", 0, 0xffff);
    if !ok {
      return false, source, destination;
    }
    source := value;
    ok, value := ExpectNextProperty(reader, "destPort", 0, 0xffff);
    if !ok {
      return false, source, destination;
    }
    destination := value;
  }

  method TakeTcpControl(reader: JsonReader) returns (ok: bool, flags: nat, window: uint16, urgent: uint16)
    requires reader.Valid()
    modifies reader, reader.stream, reader.stream.buffer, reader.stream.source
    ensures reader.Valid()
    ensures ok == Spec.TakeTcpControl(old(reader.View())).Some?
    ensures ok ==> (flags, window, urgent, reader.View()) == Spec.TakeTcpControl(old(reader.View())).value
  {
    flags, window, urgent := 0, 0, 0;
    if !(reader.tokenType == PropertyNameToken && reader.strValue == Ascii("flags")) {
      return false, flags, window, urgent;
    }
    var value;
    ok, flags := DeserializeFlags(reader, TcpFlag);
    if !ok {
      return false, flags, window, urgent;
    }
    ok, value := ExpectNextProperty(reader, "windowSize", 0, 0xffff);
    if !ok {
      return false, flags, window, urgent;
    }
    window := value;
    if HasBit(flags, URG_BIT) {
      ok, value := ExpectNextProperty(reader, "urgentPointer", 0, 0xffff);
      if !ok {
        return false, flags, window, urgent;
      }
      urgent := value;
    }
  }

  method ReadTcpFields(reader: JsonReader) returns (ok: bool, fields: TcpFields)
    requires reader.Valid()
    modifies reader, reader.stream, reader.stream.buffer, reader.stream.source
    ensures reader.Valid()
    ensures ok == Spec.TakeTcpFields(old(reader.View())).Some?
    ensures ok ==> (fields, reader.View()) == Spec.TakeTcpFields(old(reader.View())).value
  {
    fields := TcpFields(0, 0, 0, 0, 0, 0, 0);
    ok := ExpectNext(reader, StartObjectToken);
    if !ok {
      return false, fields;
    }
    var source, destination, number, ack, flags, window, urgent;
    ok, source, destination := TakePorts(reader);
    if !ok {
      return false, fields;
    }
    ok, number := ExpectNextProperty(reader, "seqNumber", 0, 0xffff_ffff);
    if !ok {
      return false, fields;
    }
    ok, ack := TakeAckNumber(reader);
    if !ok {
      return false, fields;
    }
    ok, flags, window, urgent := TakeTcpControl(reader);
    if !ok {
      return false, fields;
    }
    fields := TcpFields(source, destination, number, ack, flags, window, urgent);
  }

  method AppendTcpHeader(reader: JsonReader, dest: ByteVector, header: bytes) returns (ok: bool)
    requires reader.Valid() && |header| == TCP_HEADER_SIZE
    modifies reader, reader.stream, reader.stream.buffer, reader.stream.source, dest
    ensures reader.Valid()
    ensures ok == Spec.TakeTcpOptions(old(reader.View()), header).Some?
    ensures ok ==> dest.data == old(dest.data) + Spec.TakeTcpOptions(old(reader.View()), header).value.0
    ensures ok ==> reader.View() == Spec.TakeTcpOptions(old(reader.View()), header).value.1
  {
    var headerOffset := |dest.data|;
    ghost var start := dest.data;
    dest.Append(header);
    var optionsOffset := |dest.data|;
    ghost var os;
    ok, os := DeserializeTcpHeaderOptions(reader, dest);
    if !ok {
      return false;
    }
    var optionsSize := |dest.data| - optionsOffset;
    if optionsSize % 4 != 0 {
      return false;
    }
    dest.data := dest.data[headerOffset + 12 := DataOffsetByte(optionsSize)];
    PatchDataOffset(start, header, EncodeAll(os));
  }

  method DeserializeTcpHeader(reader: JsonReader, dest: ByteVector) returns (ok: bool)
    requires reader.Valid()
    modifies reader, reader.stream, reader.stream.buffer, reader.stream.source, dest
    ensures reader.Valid()
    ensures ok == Spec.DecodeTcp(old(reader.View())).Some?
    ensures ok ==> dest.data == old(dest.data) + Spec.DecodeTcp(old(reader.View())).value.0
    ensures ok ==> reader.View() == Spec.DecodeTcp(old(reader.View())).value.1
  {
    var fields;
    ok, fields := ReadTcpFields(reader);
    if !ok {
      return false;
    }
    ok := reader.Next();
    if !ok {
      return false;
    }
    ok := AppendTcpHeader(reader, dest, TcpHeader(fields));
  }

  lemma PatchDataOffset(start: bytes, header: bytes, area: bytes)
    requires |header| == TCP_HEADER_SIZE
    ensures (start + header + area)[|start| + 12 := DataOffsetByte(|area|)]
         == start + (WithDataOffset(header, |area|) + area)
  {
  }

  method DeserializeUdpHeader(reader: JsonReader, dest: ByteVector) returns (ok: bool)
    requires reader.Valid()
    modifies reader, reader.stream, reader.stream.buffer, reader.stream.source, dest
    ensures reader.Valid()
    ensures ok == Spec.DecodeUdp(old(reader.View())).Some?
    ensures ok ==> dest.data == old(dest.data) + Spec.DecodeUdp(old(reader.View())).value.0
    ensures ok ==> reader.View() == Spec.DecodeUdp(old(reader.View())).value.1
  {
    ok := ExpectNext(reader, StartObjectToken);
    if !ok {
      return false;
    }
    var source, destination;
    ok, source, destination := TakePorts(reader);
    if !ok {
      return false;
    }
    ok := ExpectNext(reader, EndObjectToken);
    if !ok {
      return false;
    }
    dest.Append(UdpHeader(source, destination));
  }

  method ReadIcmpCode(reader: JsonReader, kind: byte) returns (ok: bool, code: byte)
    requires reader.Valid()
    modifies reader, reader.stream, reader.stream.buffer, reader.stream.source
    ensures reader.Valid()
    ensures ok == Spec.DecodeIcmpCode(old(reader.View()), kind).Some?
    ensures ok ==> (code, reader.View()) == Spec.DecodeIcmpCode(old(reader.View()), kind).value
  {
    code := 0;
    if kind == ICMP_DEST_UNREACH {
      ok, code := ExpectNextEnumProperty(reader, "code", UnreachableCodeName, UNREACHABLE_CODE_COUNT);
    } else if kind == ICMP_REDIRECT {
      ok, code := ExpectNextEnumProperty(reader, "code", RedirectCodeName, REDIRECT_CODE_COUNT);
    } else if kind == ICMP_PARAMETERPROB {
      ok, code := ExpectNextEnumProperty(reader, "code", BadHeaderCodeName, BAD_HEADER_CODE_COUNT);
    } else {
      var value;
      ok, value := ExpectNextProperty(reader, "code", 0, 255);
      if !ok {
        return false, code;
      }
      code := value;
    }
  }

  method ReadIcmpRest(reader: JsonReader, kind: byte) returns (ok: bool, rest: bytes)
    requires reader.Valid()
    modifies reader, reader.stream, reader.stream.buffer, reader.stream.source
    ensures reader.Valid()
    ensures ok == Spec.DecodeIcmpRest(old(reader.View()), kind).Some?
    ensures ok ==> (rest, reader.View()) == Spec.DecodeIcmpRest(old(reader.View()), kind).value
  {
    rest := [0, 0, 0, 0];
    ok := true;
    var value1, value2;
    if HasEchoFields(kind) {
      ok, value1 := ExpectNextProperty(reader, "identifier", 0, 0xffff);
      if !ok {
        return false, rest;
      }
      ok, value2 := ExpectNextProperty(reader, "sequenceNumber", 0, 0xffff);
      if !ok {
        return false, rest;
      }
      rest := Put16(value1) + Put16(value2);
    } else if kind == ICMP_DEST_UNREACH {
      ok, value1 := ExpectNextProperty(reader, "nextHopMtu", 0, 0xffff);
      if !ok {
        return false, rest;
      }
      rest := [0, 0] + Put16(value1);
    } else if kind == ICMP_REDIRECT {
      ok, rest := ExpectIp4Property(reader, "gateway");
    }
  }

  method DeserializeIcmpHeader(reader: JsonReader, dest: ByteVector) returns (ok: bool)
    requires reader.Valid()
    modifies reader, reader.stream, reader.stream.buffer, reader.stream.source, dest
    ensures reader.Valid()
    ensures ok == Spec.DecodeIcmp(old(reader.View())).Some?
    ensures ok ==> dest.data == old(dest.data) + Spec.DecodeIcmp(old(reader.View())).value.0
    ensures ok ==> reader.View() == Spec.DecodeIcmp(old(reader.View())).value.1
  {
    ok := ExpectNext(reader, StartObjectToken);
    if !ok {
      return false;
    }
    var kind, code, rest;
    ok, kind := ExpectNextEnumProperty(reader, "type", IcmpTypeName, ICMP_TYPE_COUNT);
    if !ok {
      return false;
    }
    ok, code := ReadIcmpCode(reader, kind);
    if !ok {
      return false;
    }
    ok, rest := ReadIcmpRest(reader, kind);
    if !ok {
      return false;
    }
    ok := ExpectNext(reader, EndObjectToken);
    if !ok {
      return false;
    }
    dest.Append([kind, code, 0, 0] + rest);
  }

  method DeserializeTransport(reader: JsonReader, dest: ByteVector, protocol: byte) returns (ok: bool)
    requires reader.Valid()
    modifies reader, reader.stream, reader.stream.buffer, reader.stream.source, dest
    ensures reader.Valid()
    ensures ok == Spec.DecodeTransport(old(reader.View()), protocol).Some?
    ensures ok ==> dest.data == old(dest.data) + Spec.DecodeTransport(old(reader.View()), protocol).value.0
    ensures ok ==> reader.View() == Spec.DecodeTransport(old(reader.View()), protocol).value.1
  {
    if protocol == PROTOCOL_TCP {
      ok := ExpectNextPropertyName(reader, "tcp");
      if !ok {
        return false;
      }
      ok := DeserializeTcpHeader(reader, dest);
    } else if protocol == PROTOCOL_UDP {
      ok := ExpectNextPropertyName(reader, "udp");
      if !ok {
        return false;
      }
      ok := DeserializeUdpHeader(reader, dest);
    } else if protocol == PROTOCOL_ICMP {
      ok := ExpectNextPropertyName(reader, "icmp");
      if !ok {
        return false;
      }
      ok := DeserializeIcmpHeader(reader, dest);
    } else {
      assert dest.data + [] == dest.data;
      return true;
    }
  }

  /** The loop over the strings of the "data" array. */
  method ReadLines(reader: JsonReader) returns (ok: bool, text: bytes)
    requires reader.Valid()
    modifies reader, reader.stream, reader.stream.buffer, reader.stream.source
    ensures reader.Valid()
    ensures ok == Spec.TakeLines(old(reader.View())).Some?
    ensures ok ==> (text, reader.View()) == Spec.TakeLines(old(reader.View())).value
  {
    ghost var first := reader.View();
    text := [];
    JoinNone(Spec.TakeLines(first));
    while true
      invariant reader.Valid()
      invariant Spec.TakeLines(first) == Join(text, Spec.TakeLines(reader.View()))
      decreases |reader.View().pending|
    {
      ok := reader.Next();
      if !ok {
        return false, text;
      }
      if reader.tokenType == EndArrayToken {
        assert text + [] == text;
        return true, text;
      }
      if reader.tokenType != StringToken {
        return false, text;
      }
      JoinOne(text, reader.strValue, Spec.TakeLines(reader.View()));
      text := text + reader.strValue;
    }
  }

  ghost function Join(text: bytes, r: Option<(bytes, View)>): Option<(bytes, View)> {
    if r.None? then None else Some((text + r.value.0, r.value.1))
  }

  lemma JoinNone(r: Option<(bytes, View)>)
    ensures Join([], r) == r
  {
    if r.Some? {
      assert [] + r.value.0 == r.value.0;
    }
  }

  lemma JoinOne(text: bytes, line: bytes, r: Option<(bytes, View)>)
    ensures Join(text, Join(line, r)) == Join(text + line, r)
  {
    if r.Some? {
      Assoc(text, line, r.value.0);
    }
  }

  /** The value of the "data" property, up to the end of the packet. */
  method ReadPayload(reader: JsonReader) returns (ok: bool, isText: bool, text: bytes)
    requires reader.Valid()
    modifies reader, reader.stream, reader.stream.buffer, reader.stream.source
    ensures reader.Valid()
    ensures ok == Spec.TakePayload(old(reader.View())).Some?
    ensures ok ==> (isText, text, reader.View()) == Spec.TakePayload(old(reader.View())).value
  {
    isText, text := false, [];
    ok := ExpectNext(reader, StartObjectToken);
    if !ok {
      return false, isText, text;
    }
    ok := ExpectNextPropertyName(reader, "type");
    if !ok {
      return false, isText, text;
    }
    ok := ExpectNext(reader, StringToken);
    if !ok {
      return false, isText, text;
    }
    var dataType := reader.strValue;
    if dataType != Ascii("text") && dataType != Ascii("hex") {
      return false, isText, text;
    }
    isText := dataType == Ascii("text");
    ok := ExpectNextPropertyName(reader, "data");
    if !ok {
      return false, isText, text;
    }
    ok := ExpectNext(reader, StartArrayToken);
    if !ok {
      return false, isText, text;
    }
    ok, text := ReadLines(reader);
  }

  method DeserializeData(reader: JsonReader, dest: ByteVector) returns (ok: bool)
    requires reader.Valid()
    modifies reader, reader.stream, reader.stream.buffer, reader.stream.source, dest
    ensures reader.Valid()
    ensures ok == Spec.DecodeData(old(reader.View())).Some?
    ensures ok ==> dest.data == old(dest.data) + Spec.DecodeData(old(reader.View())).value.0
    ensures ok ==> reader.View() == Spec.DecodeData(old(reader.View())).value.1
  {
    ok := reader.Next();
    if !ok {
      return false;
    }
    if reader.tokenType == EndObjectToken {
      assert dest.data + [] == dest.data;
      return true;
    }
    if !(reader.tokenType == PropertyNameToken && reader.strValue == Ascii("data")) {
      return false;
    }
    var isText, text;
    ok, isText, text := ReadPayload(reader);
    if !ok {
      return false;
    }
    if isText {
      dest.Append(text);
    } else {
      HexParseAppends(text, dest.data);
      var _, out := ParseHex(text, dest.data);
      dest.data := out;
    }
    ok := ExpectNext(reader, EndObjectToken);
    if !ok {
      return false;
    }
    ok := ExpectNext(reader, EndObjectToken);
  }

  /** ParseHex only appends, whatever its destination holds. */
  lemma {:induction false} HexParseAppends(s: bytes, out: bytes)
    ensures HexParse(s, out).out == out + HexParse(s, []).out
    decreases |s|
  {
    if AtEnd(s) {
    } else if IsBlank(s[0]) {
      HexParseAppends(s[1..], out);
    } else if AtEnd(s[1..]) || HexValue(s[0]) == -1 || HexValue(s[1]) == -1 {
    } else {
      var b: bytes := [HexValue(s[0]) * 16 + HexValue(s[1])];
      HexParseAppends(s[2..], out + b);
      HexParseAppends(s[2..], [] + b);
      assert [] + b == b;
      Assoc(out, b, HexParse(s[2..], []).out);
    }
  }

  /** Sets length and checksums in place. */
  method FinishPacket(dest: ByteVector)
    requires |dest.data| >= IP_HEADER_SIZE && |dest.data| >= IP_HEADER_SIZE + TransportSize(dest.data[9])
    modifies dest
    ensures dest.data == Spec.Finish(old(dest.data))
  {
    var size := |dest.data|;
    dest.Store16(2, Low8(size));
    var check := ComputeIpChecksum([], dest.data[..IP_HEADER_SIZE]);
    dest.Store16(10, check);
    assert dest.data == Spec.FinishIp(old(dest.data));
    var protocol := dest.data[9];
    if protocol == PROTOCOL_ICMP {
      check := ComputeIpChecksum([], dest.data[IP_HEADER_SIZE..]);
      dest.Store16(22, check);
    } else if protocol == PROTOCOL_UDP {
      dest.Store16(24, Low16(size - IP_HEADER_SIZE));
      check := ComputeIpChecksum(PseudoHeader(dest.data), dest.data[IP_HEADER_SIZE..]);
      dest.Store16(26, check);
    } else if protocol == PROTOCOL_TCP {
      check := ComputeIpChecksum(PseudoHeader(dest.data), dest.data[IP_HEADER_SIZE..]);
      dest.Store16(36, check);
    }
  }

  method DeserializeHeaders(reader: JsonReader, dest: ByteVector) returns (ok: bool)
    requires reader.Valid() && dest.data == []
    modifies reader, reader.stream, reader.stream.buffer, reader.stream.source, dest
    ensures reader.Valid()
    ensures ok == Spec.DecodeHeaders(old(reader.View())).Some?
    ensures ok ==> dest.data == Spec.DecodeHeaders(old(reader.View())).value.0
    ensures ok ==> reader.View() == Spec.DecodeHeaders(old(reader.View())).value.1
  {
    ok := ExpectNextPropertyName(reader, "ip");
    if !ok {
      return false;
    }
    ghost var v := reader.View();
    ok := DeserializeIp4Header(reader, dest);
    if !ok {
      return false;
    }
    ghost var ip, w := Spec.DecodeIp(v).value.0, reader.View();
    assert dest.data == ip;
    ok := DeserializeTransport(reader, dest, dest.data[9]);
  }

  /** Appends headers and payload, with length and checksums still unset. */
  method DeserializeParts(reader: JsonReader, dest: ByteVector) returns (ok: bool)
    requires reader.Valid() && dest.data == []
    modifies reader, reader.stream, reader.stream.buffer, reader.stream.source, dest
    ensures reader.Valid()
    ensures ok == Spec.Decode(old(reader.View())).Some?
    ensures ok ==> dest.data == Spec.Decode(old(reader.View())).value.0
    ensures ok ==> reader.View() == Spec.Decode(old(reader.View())).value.1
  {
    if reader.tokenType != StartObjectToken {
      return false;
    }
    ok := DeserializeHeaders(reader, dest);
    if !ok {
      return false;
    }
    ok := DeserializeData(reader, dest);
  }

  /** Reads one packet from a reader positioned on its opening brace into an empty vector. */
  method DeserializePacket(reader: JsonReader, dest: ByteVector) returns (ok: bool)
    requires reader.Valid() && dest.data == []
    modifies reader, reader.stream, reader.stream.buffer, reader.stream.source, dest
    ensures reader.Valid()
    ensures ok == Spec.Decode(old(reader.View())).Some?
    ensures ok ==> dest.data == Spec.Finish(Spec.Decode(old(reader.View())).value.0)
    ensures ok ==> reader.View() == Spec.Decode(old(reader.View())).value.1
  {
    ok := DeserializeParts(reader, dest);
    if !ok {
      return false;
    }
    FinishPacket(dest);
  }
}
