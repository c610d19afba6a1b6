/** Whole trips between JSON text and packets, through readers and writers on buffered streams. */
module PacketTrips {
  import opened Base
  import opened JsonTokens
  import opened JsonReaderSpec
  import opened JsonReaders
  import opened JsonWriterSpec
  import opened JsonWriters
  import opened EventViews
  import opened Streams
  import opened PacketFormat
  import opened PacketCalls
  import opened PacketDeserializer
  import opened PacketSerializer
  import opened PacketRoundTrips
  import opened PacketBalance

  import JsonRoundTrip

  /** The packet at the beginning of a JSON text. */
  ghost function PacketOf(text: bytes): Option<bytes> {
    var v :- NextView(ViewOf(InitialState(text)));
    var (p, _) :- Decode(v);
    Some(Finish(p))
  }

  /** The JSON text of a packet. */
  function PacketText(b: bytes, indents: bool): bytes
    requires Walkable(b)
  {
    Text(InitialWriter(indents), WholePacketCalls(b))
  }

  /** A reader on the first token of a text. */
  method StartReading(text: bytes, bufferSize: nat) returns (ok: bool, reader: JsonReader)
    requires bufferSize > 0
    ensures reader.Valid() && fresh(reader)
    ensures fresh(reader.stream) && fresh(reader.stream.buffer) && fresh(reader.stream.source)
    ensures ok == NextView(ViewOf(InitialState(text))).Some?
    ensures ok ==> Next(InitialState(text)) == Outcome(true, reader.State())
    ensures ok ==> NextView(ViewOf(InitialState(text))) == Some(reader.View())
  {
    var source := new ByteSource(text);
    var stream := new BufferedInputStream(source, bufferSize);
    reader := new JsonReader(stream);
    NextTakesHead(InitialState(text));
    ok := reader.Next();
  }

  /** Deserializes the packet at the beginning of a text. The result does not depend on how the
      text is cut up by the input buffer, and the reader is back outside of all containers. */
  method ReadPacketText(text: bytes, bufferSize: nat) returns (ok: bool, packet: bytes, open: nat)
    requires bufferSize > 0
    ensures ok <==> PacketOf(text).Some?
    ensures ok ==> PacketOf(text) == Some(packet) && open == 0
  {
    var reader;
    ok, reader := StartReading(text, bufferSize);
    if !ok {
      return false, [], 0;
    }
    ghost var start := reader.State();
    var dest := new ByteVector();
    ok := DeserializePacket(reader, dest);
    if !ok {
      return false, [], 0;
    }
    ReaderEndsOnMatchingObject(InitialState(text), start, reader.State());
    FirstToken(text);
    return true, dest.data, |reader.modeStack|;
  }

  /** A document's first token opens at most one container. */
  lemma FirstToken(text: bytes)
    requires Next(InitialState(text)).ok && Next(InitialState(text)).state.token == StartObjectToken
    ensures |Next(InitialState(text)).state.stack| == 1
  {
    NextKeeps(InitialState(text));
  }

  lemma Nothing<T>(s: seq<T>)
    ensures [] + s == s
  {
  }

  /** Serializes a packet; the text does not depend on the output buffer either. */
  method WritePacketText(b: bytes, indents: bool, bufferSize: nat) returns (text: bytes)
    requires bufferSize > 0 && Walkable(b)
    ensures text == PacketText(b, indents)
    ensures SensibleRun(InitialWriter(indents), WholePacketCalls(b))
  {
    var sink := new ByteSink();
    var stream := new BufferedOutputStream(sink, bufferSize);
    var writer := new JsonWriter(stream, indents);
    SerializePacket(writer, b);
    writer.Flush();
    writer.OpenSensible();
    Nothing(WholePacketCalls(b));
    Nothing(PacketText(b, indents));
    return sink.data;
  }

  /** A well-formed text of a packet reads as the same packet exactly if it is restorable. */
  lemma TextRoundTrip(b: bytes, indents: bool)
    requires Walkable(b) && SensibleRun(InitialWriter(indents), WholePacketCalls(b))
    ensures PacketOf(PacketText(b, indents)) == Some(b) <==> Restorable(b)
  {
    var u := ViewOf(InitialState(PacketText(b, indents)));
    JsonRoundTrip.WriterReaderRoundTrip(indents, WholePacketCalls(b));
    assert u.pending == JsonRoundTrip.CallEvents(WholePacketCalls(b)) + [];
    RecordedPacketRoundTrip(b, u, []);
  }

  lemma ReadIsRestorable(text: bytes, b: bytes)
    requires PacketOf(text) == Some(b)
    ensures Walkable(b) && (Restorable(b) <==> Faithful(b))
  {
    var u := ViewOf(InitialState(text));
    PacketRoundTrip(NextView(u).value, b, u, []);
  }

  /** Any recorded packet, to JSON text in either layout and back, with buffers of any sizes: the
      packet read is the one written, byte for byte, exactly if it is restorable. */
  method ThroughJson(b: bytes, indents: bool, outSize: nat, inSize: nat) returns (ok: bool, again: bytes)
    requires outSize > 0 && inSize > 0 && Walkable(b)
    ensures ok && again == b <==> Restorable(b)
  {
    var written := WritePacketText(b, indents, outSize);
    TextRoundTrip(b, indents);
    var open;
    ok, again, open := ReadPacketText(written, inSize);
  }

  /** From any JSON text to a packet, to JSON text in either layout, and back to a packet, with
      buffers of any sizes: the packet read second is the one read first, byte for byte, exactly
      if it is faithful. */
  method ThereAndBack(text: bytes, indents: bool, inSize: nat, outSize: nat, againSize: nat)
      returns (ok: bool, first: bytes, okAgain: bool, again: bytes)
    requires inSize > 0 && outSize > 0 && againSize > 0
    ensures ok <==> PacketOf(text).Some?
    ensures ok ==> PacketOf(text) == Some(first)
    ensures ok ==> (okAgain && again == first <==> Faithful(first))
  {
    var open;
    ok, first, open := ReadPacketText(text, inSize);
    if !ok {
      return false, [], false, [];
    }
    ReadIsRestorable(text, first);
    okAgain, again := ThroughJson(first, indents, outSize, againSize);
  }
}
