/** Whole trips from JSON trees to text and back to tokens, through the reader and writer classes
    on buffered streams. */
module JsonTrips {
  import opened Base
  import opened JsonTokens
  import opened JsonReaderSpec
  import opened JsonReaders
  import opened JsonWriterSpec
  import opened JsonWriters
  import opened JsonRoundTrip
  import opened JsonTrees
  import opened Streams

  /** What a client can read off after a successful call of Next. */
  method CurrentEvent(reader: JsonReader) returns (e: Event)
    requires reader.Valid()
    ensures e == EventOf(reader.State())
  {
    match reader.tokenType {
      case StartArrayToken => return StartArray;
      case EndArrayToken => return EndArray;
      case StartObjectToken => return StartObject;
      case EndObjectToken => return EndObject;
      case PropertyNameToken => return PropertyName(reader.strValue);
      case StringToken => return String(reader.strValue);
      case IntegerToken => return Integer(reader.intValue, reader.strValue);
      case FloatToken => return Float(reader.strValue);
      case BooleanToken => return Boolean(reader.boolValue);
      case _ => return Null;
    }
  }

  /** Calls Next until it first fails. The tokens depend on the bytes alone: not on the buffer, and
      not on how the source cuts them up. */
  method ReadTokens(text: bytes, bufferSize: nat) returns (tokens: seq<Event>)
    requires bufferSize > 0
    ensures tokens == Events(InitialState(text))
  {
    var source := new ByteSource(text);
    var stream := new BufferedInputStream(source, bufferSize);
    var reader := new JsonReader(stream);
    tokens := [];
    while true
      invariant reader.Valid()
      invariant tokens + Events(reader.State()) == Events(InitialState(text))
      decreases |stream.Rest()|
    {
      ghost var before := reader.State();
      var ok := reader.Next();
      if !ok {
        assert tokens + [] == tokens;
        return;
      }
      var e := CurrentEvent(reader);
      Assoc(tokens, [e], Events(reader.State()));
      tokens := tokens + [e];
    }
  }

  predicate TakesValue(mode: WriterMode) {
    mode in {WDocumentStart, WPropertyValue, WStartArray, WMiddleArray}
  }

  method WriteTree(writer: JsonWriter, v: Json)
    requires writer.Valid() && TakesValue(writer.mode)
    modifies writer, writer.stream, writer.stream.buffer, writer.stream.sink
    ensures writer.Valid() && writer.calls == old(writer.calls) + TreeCalls(v)
    ensures writer.mode == ModeAfterValue(old(writer.mode)) && writer.modeStack == old(writer.modeStack)
    decreases v
  {
    ghost var start := writer.calls;
    match v {
      case JObject(ms) =>
        writer.BeginObject();
        WriteTreeMembers(writer, ms);
        writer.EndObject();
        Assoc(start, [CBeginObject], MembersCalls(ms));
        Assoc(start, [CBeginObject] + MembersCalls(ms), [CEndObject]);
      case JArray(vs) =>
        writer.BeginArray();
        WriteItems(writer, vs);
        writer.EndArray();
        Assoc(start, [CBeginArray], ItemsCalls(vs));
        Assoc(start, [CBeginArray] + ItemsCalls(vs), [CEndArray]);
      case JString(s) =>
        writer.WriteString(s);
      case JInteger(n) =>
        writer.WriteInteger(n);
      case JBoolean(b) =>
        writer.WriteBoolean(b);
      case JNull =>
        writer.WriteNull();
    }
  }

  method WriteTreeMembers(writer: JsonWriter, ms: seq<Member>)
    requires writer.Valid() && writer.mode in {WStartObject, WPropertyName}
    modifies writer, writer.stream, writer.stream.buffer, writer.stream.sink
    ensures writer.Valid() && writer.calls == old(writer.calls) + MembersCalls(ms)
    ensures writer.mode in {WStartObject, WPropertyName} && writer.modeStack == old(writer.modeStack)
    decreases ms
  {
    ghost var total := writer.calls + MembersCalls(ms);
    assert ms[0..] == ms;
    for i := 0 to |ms|
      invariant writer.Valid() && writer.mode in {WStartObject, WPropertyName}
      invariant writer.modeStack == old(writer.modeStack)
      invariant writer.calls + MembersCalls(ms[i..]) == total
    {
      ghost var before := writer.calls;
      writer.WritePropertyName(ms[i].name);
      WriteTree(writer, ms[i].value);
      UnfoldMembers(before, ms, i);
    }
    assert writer.calls + [] == writer.calls;
  }

  lemma UnfoldMembers(before: seq<Call>, ms: seq<Member>, i: nat)
    requires i < |ms|
    ensures before + MembersCalls(ms[i..])
         == before + [CName(ms[i].name)] + TreeCalls(ms[i].value) + MembersCalls(ms[i + 1..])
  {
    assert ms[i..][1..] == ms[i + 1..];
    var first := [CName(ms[i].name)] + TreeCalls(ms[i].value);
    Assoc(before, [CName(ms[i].name)], TreeCalls(ms[i].value));
    Assoc(before, first, MembersCalls(ms[i + 1..]));
  }

  /** The items of an array, or documents back to back. */
  method WriteItems(writer: JsonWriter, vs: seq<Json>)
    requires writer.Valid() && writer.mode in {WDocumentStart, WStartArray, WMiddleArray}
    modifies writer, writer.stream, writer.stream.buffer, writer.stream.sink
    ensures writer.Valid() && writer.calls == old(writer.calls) + ItemsCalls(vs)
    ensures old(writer.mode) != WDocumentStart ==> writer.mode in {WStartArray, WMiddleArray}
    ensures writer.modeStack == old(writer.modeStack)
    decreases vs
  {
    ghost var total := writer.calls + ItemsCalls(vs);
    assert vs[0..] == vs;
    for i := 0 to |vs|
      invariant writer.Valid() && writer.mode in {WDocumentStart, WStartArray, WMiddleArray}
      invariant old(writer.mode) != WDocumentStart ==> writer.mode in {WStartArray, WMiddleArray}
      invariant writer.modeStack == old(writer.modeStack)
      invariant writer.calls + ItemsCalls(vs[i..]) == total
    {
      ghost var before := writer.calls;
      WriteTree(writer, vs[i]);
      assert vs[i..][1..] == vs[i + 1..];
      Assoc(before, TreeCalls(vs[i]), ItemsCalls(vs[i + 1..]));
    }
    assert writer.calls + [] == writer.calls;
  }

  /** The text of trees written back to back. */
  method WriteDocuments(vs: seq<Json>, indents: bool, bufferSize: nat) returns (text: bytes)
    requires bufferSize > 0
    ensures text == Text(InitialWriter(indents), ItemsCalls(vs))
  {
    var sink := new ByteSink();
    var stream := new BufferedOutputStream(sink, bufferSize);
    var writer := new JsonWriter(stream, indents);
    WriteItems(writer, vs);
    writer.Flush();
    assert [] + ItemsCalls(vs) == ItemsCalls(vs);
    assert [] + Text(InitialWriter(indents), ItemsCalls(vs)) == Text(InitialWriter(indents), ItemsCalls(vs));
    return sink.data;
  }

  lemma DocumentsReadBack(vs: seq<Json>, indents: bool)
    requires Separable(vs) && forall v | v in vs :: NulFreeTree(v)
    ensures Events(InitialState(Text(InitialWriter(indents), ItemsCalls(vs)))) == ItemsEvents(vs)
  {
    DocumentsAreSensible(InitialWriter(indents), [], vs);
    assert [] + ItemsCalls(vs) == ItemsCalls(vs);
    WriterReaderRoundTrip(indents, ItemsCalls(vs));
    ItemsEventsAreCallEvents(vs);
  }

  /** Writing trees back to back and reading until Next fails gives exactly their tokens, in
      either layout and with buffers of any sizes. */
  method DocumentTrip(vs: seq<Json>, indents: bool, outSize: nat, inSize: nat) returns (tokens: seq<Event>)
    requires outSize > 0 && inSize > 0
    requires Separable(vs) && forall v | v in vs :: NulFreeTree(v)
    ensures tokens == ItemsEvents(vs)
  {
    var text := WriteDocuments(vs, indents, outSize);
    tokens := ReadTokens(text, inSize);
    DocumentsReadBack(vs, indents);
  }
}
