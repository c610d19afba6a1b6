/** The JSON writer of src/base/json_writer.cc. */
module JsonWriters {
  import opened Base
  import opened Decimal
  import opened HexCodec
  import opened JsonTokens
  import opened JsonWriterSpec
  import opened Streams

  class JsonWriter {
    const stream: BufferedOutputStream
    const indents: bool
    var mode: WriterMode
    var modeStack: seq<WriterMode>
    var indent: int
    var pack: int

    /** The calls made so far, and the bytes the stream held before the first of them. */
    ghost var calls: seq<Call>
    ghost const start: bytes

    /** No call so far was out of place in JSON. */
    ghost var sensible: bool

    ghost function State(): WriterState
      reads this
    {
      WriterState(indents, mode, modeStack, indent, pack)
    }

    /** No assertion has failed, the fields are those the calls lead to, and the stream has
        received exactly their text. */
    ghost predicate Booked()
      reads this, stream, stream.buffer, stream.sink
    {
      && stream.Valid()
      && PermittedRun(InitialWriter(indents), calls)
      && State() == Run(InitialWriter(indents), calls)
      && WriterInvariant(State())
      && stream.Written() == start + Text(InitialWriter(indents), calls)
      && sensible == SensibleRun(InitialWriter(indents), calls)
    }

    /** Booked, under a lock: clients only hand Valid on and need not look inside. */
    ghost predicate Valid()
      reads this, stream, stream.buffer, stream.sink
    {
      forall key: int {:trigger Unlock(key)} :: Unlock(key) ==> Booked()
    }

    ghost predicate Unlock(key: int) {
      true
    }

    /** What the calls so far have written. */
    lemma Open()
      requires Valid()
      ensures Booked()
    {
      assert Unlock(0);
    }

    lemma OpenSensible()
      requires Valid()
      ensures sensible == SensibleRun(InitialWriter(indents), calls)
    {
      assert Unlock(0);
    }

    constructor (stream: BufferedOutputStream, indents: bool)
      requires stream.Valid()
      ensures Valid() && this.stream == stream && this.indents == indents
      ensures calls == [] && start == stream.Written() && sensible
      ensures State() == InitialWriter(indents)
    {
      this.stream := stream;
      this.indents := indents;
      mode := WDocumentStart;
      modeStack := [];
      indent := 0;
      pack := 0;
      calls := [];
      sensible := true;
      start := stream.Written();
      new;
      assert start + [] == start;
    }

    /** Books a call whose effects are complete. */
    ghost method Log(c: Call, before: WriterState, written: bytes)
      requires stream.Valid() && PermittedRun(InitialWriter(indents), calls)
      requires before == Run(InitialWriter(indents), calls) && WriterInvariant(before) && Permitted(before, c)
      requires written == start + Text(InitialWriter(indents), calls)
      requires State() == After(before, c)
      requires stream.Written() == written + Emit(before, c)
      requires sensible == SensibleRun(InitialWriter(indents), calls)
      modifies `calls, `sensible
      ensures Valid() && calls == old(calls) + [c]
      ensures sensible == (old(sensible) && Sensible(before, old(calls), c))
    {
      var w := InitialWriter(indents);
      SensibleRunSnoc(w, calls, c);
      sensible := sensible && Sensible(before, calls, c);
      RunSnoc(w, calls, c);
      CallKeepsInvariant(before, c);
      Assoc(start, Text(w, calls), Emit(before, c));
      calls := calls + [c];
    }

    method BeginNewLineIfNecessary()
      requires stream.Valid()
      modifies stream, stream.buffer, stream.sink
      ensures stream.Valid() && stream.Written() == old(stream.Written()) + NewLine(State())
    {
      if indents && pack == 0 {
        stream.WriteByte('\n' as int);
        var i := 0;
        while i < indent
          invariant stream.Valid() && 0 <= i
          invariant i <= indent || i == 0
          invariant stream.Written() == old(stream.Written()) + (['\n' as int] + Spaces(i))
        {
          stream.WriteByte(' ' as int);
          i := i + 1;
          assert Spaces(i) == Spaces(i - 1) + [' ' as int];
        }
        assert Spaces(i) == Spaces(indent);
      } else {
        assert stream.Written() == old(stream.Written()) + [];
      }
    }

    method WriteComma()
      requires stream.Valid()
      modifies stream, stream.buffer, stream.sink
      ensures stream.Valid() && stream.Written() == old(stream.Written()) + Comma(State())
    {
      stream.WriteByte(',' as int);
      if indents && pack != 0 {
        stream.WriteByte(' ' as int);
      }
    }

    method BeginValue()
      requires stream.Valid() && mode != WPropertyName
      modifies `mode, stream, stream.buffer, stream.sink
      ensures stream.Valid() && mode == ModeAfterValue(old(mode))
      ensures stream.Written() == old(stream.Written()) + ValuePrefix(old(State()))
    {
      if mode == WPropertyValue {
        mode := WPropertyName;
      }
      if mode == WMiddleArray {
        WriteComma();
      }
      ghost var wrote := stream.Written();
      if mode == WStartArray {
        mode := WMiddleArray;
      }
      if mode == WStartArray || mode == WMiddleArray {
        BeginNewLineIfNecessary();
        assert NewLine(State()) == NewLine(old(State()));
      }
    }

    method WriteRawString(str: bytes)
      requires stream.Valid()
      modifies stream, stream.buffer, stream.sink
      ensures stream.Valid() && stream.Written() == old(stream.Written()) + RawString(str)
    {
      ghost var before := stream.Written();
      stream.WriteByte('"' as int);
      var p := 0;
      while p < |str| && str[p] != 0
        invariant stream.Valid() && p <= |str|
        invariant stream.Written() + EscapeText(str[p..]) == before + ([QUOTE] + EscapeText(str))
      {
        ghost var sofar := stream.Written();
        WriteChar(str[p]);
        p := p + 1;
        assert str[p - 1..][1..] == str[p..];
        Assoc(sofar, EscapeChar(str[p - 1]), EscapeText(str[p..]));
      }
      assert EscapeText(str[p..]) == [];
      assert stream.Written() == before + ([QUOTE] + EscapeText(str));
      stream.WriteByte('"' as int);
      Assoc(before, [QUOTE] + EscapeText(str), [QUOTE]);
    }

    method WriteUnicode(ch: byte)
      requires stream.Valid()
      modifies stream, stream.buffer, stream.sink
      ensures stream.Valid()
      ensures stream.Written() == old(stream.Written()) + (['u' as int, '0' as int, '0' as int] + HexPair(ch))
    {
      ghost var before := stream.Written();
      stream.WriteByte('u' as int);
      stream.WriteByte('0' as int);
      stream.WriteByte('0' as int);
      ghost var head: bytes := ['u' as int, '0' as int, '0' as int];
      assert stream.Written() == before + head;
      stream.WriteByte(HexChar(ch / 16));
      stream.WriteByte(HexChar(ch % 16));
      assert stream.Written() == (before + head) + HexPair(ch);
      Assoc(before, head, HexPair(ch));
    }

    /** One round of the loop of WriteRawString. */
    method WriteChar(ch: byte)
      requires stream.Valid()
      modifies stream, stream.buffer, stream.sink
      ensures stream.Valid() && stream.Written() == old(stream.Written()) + EscapeChar(ch)
    {
      ghost var before := stream.Written();
      if ch == '"' as int || ch == '\\' as int {
        stream.WriteByte('\\' as int);
        stream.WriteByte(ch);
      } else if ch < ' ' as int {
        var special := SpecialEscape(ch);
        stream.WriteByte('\\' as int);
        if special != 0 {
          stream.WriteByte(special);
        } else {
          WriteUnicode(ch);
          ghost var head: bytes := ['u' as int, '0' as int, '0' as int];
          Assoc(before, [BACKSLASH], head + HexPair(ch));
          Assoc([BACKSLASH], head, HexPair(ch));
        }
      } else {
        stream.WriteByte(ch);
      }
    }

    method WritePropertyName(str: bytes)
      requires Valid() && Permitted(State(), CName(str))
      modifies `mode, `calls, `sensible, stream, stream.buffer, stream.sink
      ensures Valid() && calls == old(calls) + [CName(str)]
      ensures old(sensible) ==> sensible
      ensures mode == WPropertyValue
    {
      Open();
      ghost var before, written := State(), stream.Written();
      if mode == WPropertyName {
        WriteComma();
      }
      assert stream.Written() == written + NamePrefix(before);
      BeginNewLineIfNecessary();
      mode := WPropertyValue;
      WriteRawString(str);
      ghost var named := stream.Written();
      stream.WriteByte(':' as int);
      if indents {
        stream.WriteByte(' ' as int);
      }
      assert stream.Written() == named + Colon(before);
      Assoc(written, NamePrefix(before), NewLine(before));
      Assoc(written, NamePrefix(before) + NewLine(before), RawString(str));
      Assoc(written, NamePrefix(before) + NewLine(before) + RawString(str), Colon(before));
      Log(CName(str), before, written);
    }

    method WriteString(str: bytes)
      requires Valid() && Permitted(State(), CString(str))
      modifies `mode, `calls, `sensible, stream, stream.buffer, stream.sink
      ensures Valid() && calls == old(calls) + [CString(str)]
      ensures old(sensible) && ValueFits(old(mode), old(calls)) ==> sensible
      ensures mode == ModeAfterValue(old(mode))
    {
      Open();
      ghost var before, written := State(), stream.Written();
      BeginValue();
      WriteRawString(str);
      Assoc(written, ValuePrefix(before), RawString(str));
      Log(CString(str), before, written);
    }

    method WriteInteger(value: int64)
      requires Valid() && Permitted(State(), CInteger(value))
      modifies `mode, `calls, `sensible, stream, stream.buffer, stream.sink
      ensures Valid() && calls == old(calls) + [CInteger(value)]
      ensures old(sensible) && ValueFits(old(mode), old(calls)) ==> sensible
      ensures mode == ModeAfterValue(old(mode))
    {
      Open();
      ghost var before, written := State(), stream.Written();
      BeginValue();
      stream.Write(IntText(value));
      Assoc(written, ValuePrefix(before), IntText(value));
      Log(CInteger(value), before, written);
    }

    method WriteBoolean(value: bool)
      requires Valid() && Permitted(State(), CBoolean(value))
      modifies `mode, `calls, `sensible, stream, stream.buffer, stream.sink
      ensures Valid() && calls == old(calls) + [CBoolean(value)]
      ensures old(sensible) && ValueFits(old(mode), old(calls)) ==> sensible
      ensures mode == ModeAfterValue(old(mode))
    {
      Open();
      ghost var before, written := State(), stream.Written();
      BeginValue();
      if value {
        stream.Write(['t' as int, 'r' as int, 'u' as int, 'e' as int]);
      } else {
        stream.Write(['f' as int, 'a' as int, 'l' as int, 's' as int, 'e' as int]);
      }
      Assoc(written, ValuePrefix(before), BooleanText(value));
      Log(CBoolean(value), before, written);
    }

    method WriteNull()
      requires Valid() && Permitted(State(), CNull)
      modifies `mode, `calls, `sensible, stream, stream.buffer, stream.sink
      ensures Valid() && calls == old(calls) + [CNull]
      ensures old(sensible) && ValueFits(old(mode), old(calls)) ==> sensible
      ensures mode == ModeAfterValue(old(mode))
    {
      Open();
      ghost var before, written := State(), stream.Written();
      BeginValue();
      stream.Write(['n' as int, 'u' as int, 'l' as int, 'l' as int]);
      Assoc(written, ValuePrefix(before), NULL_WORD);
      Log(CNull, before, written);
    }

    /** What EndArray and EndObject do: a line of its own for the bracket, and back to the mode
        of the enclosing container. */
    method CloseContainer(bracket: byte)
      requires stream.Valid() && modeStack != []
      modifies `mode, `modeStack, `indent, stream, stream.buffer, stream.sink
      ensures stream.Valid() && State() == Pop(old(State()))
      ensures var line := NewLine(old(State()).(indent := old(indent) - 2));
        stream.Written() == old(stream.Written()) + (line + [bracket])
    {
      ghost var before, written := State(), stream.Written();
      indent := indent - 2;
      assert State() == before.(indent := before.indent - 2);
      BeginNewLineIfNecessary();
      stream.WriteByte(bracket);
      mode := modeStack[|modeStack| - 1];
      modeStack := modeStack[..|modeStack| - 1];
      Assoc(written, NewLine(before.(indent := before.indent - 2)), [bracket]);
    }

    method BeginArray()
      requires Valid() && Permitted(State(), CBeginArray)
      modifies `mode, `modeStack, `indent, `calls, `sensible, stream, stream.buffer, stream.sink
      ensures Valid() && calls == old(calls) + [CBeginArray]
      ensures old(sensible) && ValueFits(old(mode), old(calls)) ==> sensible
      ensures mode == WStartArray && modeStack == old(modeStack) + [ModeAfterValue(old(mode))]
      ensures indent == old(indent) + 2
    {
      Open();
      ghost var before, written := State(), stream.Written();
      BeginValue();
      stream.WriteByte('[' as int);
      modeStack := modeStack + [mode];
      mode := WStartArray;
      indent := indent + 2;
      Assoc(written, ValuePrefix(before), ['[' as int]);
      Log(CBeginArray, before, written);
    }

    method EndArray()
      requires Valid() && Permitted(State(), CEndArray)
      modifies `mode, `modeStack, `indent, `calls, `sensible, stream, stream.buffer, stream.sink
      ensures Valid() && calls == old(calls) + [CEndArray]
      ensures old(sensible) ==> sensible
      ensures mode == TopMode(old(modeStack)) && modeStack == Below(old(modeStack))
      ensures indent == old(indent) - 2
    {
      Open();
      ghost var before, written := State(), stream.Written();
      CloseContainer(']' as int);
      Log(CEndArray, before, written);
    }

    method BeginObject()
      requires Valid() && Permitted(State(), CBeginObject)
      modifies `mode, `modeStack, `indent, `calls, `sensible, stream, stream.buffer, stream.sink
      ensures Valid() && calls == old(calls) + [CBeginObject]
      ensures old(sensible) && ValueFits(old(mode), old(calls)) ==> sensible
      ensures mode == WStartObject && modeStack == old(modeStack) + [ModeAfterValue(old(mode))]
      ensures indent == old(indent) + 2
    {
      Open();
      ghost var before, written := State(), stream.Written();
      BeginValue();
      stream.WriteByte('{' as int);
      modeStack := modeStack + [mode];
      mode := WStartObject;
      indent := indent + 2;
      Assoc(written, ValuePrefix(before), ['{' as int]);
      Log(CBeginObject, before, written);
    }

    method EndObject()
      requires Valid() && Permitted(State(), CEndObject)
      modifies `mode, `modeStack, `indent, `calls, `sensible, stream, stream.buffer, stream.sink
      ensures Valid() && calls == old(calls) + [CEndObject]
      ensures old(sensible) ==> sensible
      ensures mode == TopMode(old(modeStack)) && modeStack == Below(old(modeStack))
      ensures indent == old(indent) - 2
    {
      Open();
      ghost var before, written := State(), stream.Written();
      CloseContainer('}' as int);
      Log(CEndObject, before, written);
    }

    method BeginPack()
      requires Valid()
      modifies `pack, `calls, `sensible
      ensures Valid() && calls == old(calls) + [CBeginPack]
      ensures old(sensible) ==> sensible
      ensures pack == old(pack) + 1
    {
      Open();
      ghost var before, written := State(), stream.Written();
      pack := pack + 1;
      assert written + [] == written;
      Log(CBeginPack, before, written);
    }

    method EndPack()
      requires Valid()
      modifies `pack, `calls, `sensible
      ensures Valid() && calls == old(calls) + [CEndPack]
      ensures old(sensible) ==> sensible
      ensures pack == old(pack) - 1
    {
      Open();
      ghost var before, written := State(), stream.Written();
      pack := pack - 1;
      assert written + [] == written;
      Log(CEndPack, before, written);
    }

    method Flush()
      requires Valid()
      modifies stream, stream.sink
      ensures Valid() && stream.sink.data == start + Text(InitialWriter(indents), calls)
    {
      Open();
      stream.Flush();
    }
  }
}
