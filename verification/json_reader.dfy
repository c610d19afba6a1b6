/** The pull parser of src/base/json_reader.cc. */
module JsonReaders {
  import opened Base
  import opened Decimal
  import opened HexCodec
  import opened JsonTokens
  import opened JsonReaderSpec
  import Spec = JsonReaderSpec
  import opened Streams
  import opened EventViews

  class JsonReader {
    const stream: BufferedInputStream
    var tokenType: JsonToken
    var mode: JsonMode
    var modeStack: seq<JsonMode>
    var strValue: bytes
    var intValue: int
    var boolValue: bool

    ghost predicate Valid()
      reads this, stream
    {
      stream.Valid()
    }

    ghost function State(): ReaderState
      reads this, stream, stream.buffer, stream.source
      requires Valid()
    {
      ReaderState(mode, modeStack, tokenType, strValue, intValue, boolValue, stream.Rest())
    }

    /** What a client sees: the current token, and the tokens that further calls will return. */
    ghost function View(): View
      reads this, stream, stream.buffer, stream.source
      requires Valid()
    {
      ViewOf(State())
    }

    constructor (stream: BufferedInputStream)
      requires stream.Valid()
      ensures Valid() && this.stream == stream
      ensures State() == InitialState(stream.Rest())
    {
      this.stream := stream;
      tokenType := NoToken;
      mode := DocumentStart;
      modeStack := [];
      strValue := [];
      intValue := 0;
      boolValue := false;
    }

    method SkipWhitespace() returns (ok: bool, ch: int)
      requires Valid()
      modifies stream, stream.buffer, stream.source
      ensures Valid()
      ensures match Spec.SkipWhitespace(old(stream.Rest()))
              case Exhausted => !ok && stream.Rest() == []
              case Found(c, rest) => ok && ch == c && stream.Rest() == rest
    {
      ghost var all := stream.Rest();
      ch := ' ' as int;
      while IsSpace(ch)
        invariant Valid()
        invariant 0 <= ch < 256
        invariant if IsSpace(ch) then Spec.SkipWhitespace(all) == Spec.SkipWhitespace(stream.Rest())
                  else Spec.SkipWhitespace(all) == Found(ch, stream.Rest())
        decreases |stream.Rest()|, IsSpace(ch)
      {
        ghost var before := stream.Rest();
        ch := stream.ReadByte();
        if ch == END_OF_STREAM {
          return false, ch;
        }
        assert before[1..] == stream.Rest();
      }
      return true, ch;
    }

    method ReadKeyword(initial: byte, keyword: bytes) returns (ok: bool)
      requires Valid() && keyword != [] && initial == keyword[0]
      modifies stream, stream.buffer, stream.source
      ensures Valid()
      ensures Outcome(ok, State()) == Spec.ReadKeyword(old(State()), keyword)
    {
      ghost var all := stream.Rest();
      var ch: int := initial;
      var p := 0;
      while p < |keyword|
        invariant Valid() && p <= |keyword|
        invariant p == 0 ==> ch == initial && stream.Rest() == all
        invariant p > 0 ==> ch == Head(stream.Rest())
        invariant p > 0 ==> MatchKeyword(keyword[1..], all) == MatchKeyword(keyword[p..], stream.Rest())
      {
        ghost var before := stream.Rest();
        if p != 0 {
          var _ := stream.ReadByte();
        }
        if ch == END_OF_STREAM {
          return false;
        }
        if ch != keyword[p] {
          return false;
        }
        assert p > 0 ==> before[1..] == stream.Rest() && keyword[p..][1..] == keyword[p + 1..];
        ch := stream.Peek();
        p := p + 1;
      }
      return true;
    }

    /** Consumes the inspected character, unless it was consumed before, and peeks at the next. */
    method PeekPast(consume: bool) returns (ch: int)
      requires Valid() && (consume ==> stream.Rest() != [])
      modifies stream, stream.buffer, stream.source
      ensures Valid() && ch == Head(stream.Rest())
      ensures stream.Rest() == if consume then old(stream.Rest())[1..] else old(stream.Rest())
    {
      if consume {
        ghost var before := stream.Rest();
        var _ := stream.ReadByte();
        assert before[1..] == stream.Rest();
      }
      ch := stream.Peek();
    }

    /** The cases of ReadNumber's switch that do not end the number. */
    method TakeNumberChar(ch: int, first: bool, dot: bool, exponent: bool, zero: bool, ghost scan: NumberScan)
      returns (ok: bool, dot': bool, exponent': bool, zero': bool)
      requires Valid() && scan.Consistent() && !EndsNumber(ch)
      requires scan == NumberScan(first, ch, strValue, dot, exponent, zero, stream.Rest())
      modifies `strValue
      ensures ok == !BreaksNumber(scan)
      ensures !ok ==> strValue == old(strValue)
      ensures ok ==>
        var next := AdvanceNumber(scan);
        next.str == strValue && next.dot == dot' && next.exponent == exponent' && next.zero == zero'
    {
      ok, dot', exponent', zero' := true, dot, exponent, zero;
      if ch == '.' as int {
        if dot || exponent {
          return false, dot, exponent, zero;
        }
        dot' := true;
        strValue := strValue + [ch];
      } else if ch == 'e' as int || ch == 'E' as int {
        exponent' := true;
        strValue := strValue + [ch];
      } else if IsDigit(ch) {
        if ch == '0' as int && first {
          zero' := true;
        } else if zero && !dot {
          return false, dot, exponent, zero;
        }
        strValue := strValue + [ch];
      }
    }

    /** The optional minus sign in front of a number. */
    method TakeSign(initial: byte) returns (ch: int)
      requires Valid()
      modifies `strValue, stream, stream.buffer, stream.source
      ensures Valid()
      ensures NumberScan(true, ch, strValue, false, false, false, stream.Rest())
           == StartNumber(initial, old(stream.Rest()))
    {
      strValue := [];
      ch := initial;
      ghost var all := stream.Rest();
      if ch == '-' as int {
        strValue := strValue + [ch];
        ch := stream.ReadByte();
        assert all != [] ==> all[1..] == stream.Rest();
      }
    }

    /** The loop of ReadNumber; the text is left in `strValue`. */
    method ScanNumberText(initial: byte) returns (ok: bool, isFloat: bool, ghost scan: NumberScan)
      requires Valid()
      modifies `strValue, stream, stream.buffer, stream.source
      ensures Valid()
      ensures NumberResult(ok, scan) == ScanNumber(StartNumber(initial, old(stream.Rest())))
      ensures ok ==> isFloat == (scan.dot || scan.exponent)
      ensures scan.str == strValue && scan.rest == stream.Rest()
    {
      var seenDot, seenExponent, seenInitialZero := false, false, false;
      ghost var all := stream.Rest();
      var ch := TakeSign(initial);
      var i := 0;
      scan := NumberScan(true, ch, strValue, false, false, false, stream.Rest());
      while true
        invariant Valid() && scan.Consistent()
        invariant scan == NumberScan(i == 0, ch, strValue, seenDot, seenExponent, seenInitialZero, stream.Rest())
        invariant ScanNumber(scan) == ScanNumber(StartNumber(initial, all))
        decreases scan.Size()
      {
        if EndsNumber(ch) {
          return |strValue| > 0, seenDot || seenExponent, scan;
        }
        ok, seenDot, seenExponent, seenInitialZero :=
          TakeNumberChar(ch, i == 0, seenDot, seenExponent, seenInitialZero, scan);
        if !ok {
          return false, seenDot || seenExponent, scan;
        }
        ch := PeekPast(i > 0);
        i := i + 1;
        scan := AdvanceNumber(scan);
      }
    }

    method ReadNumber(initial: byte) returns (ok: bool)
      requires Valid()
      modifies this, stream, stream.buffer, stream.source
      ensures Valid()
      ensures Outcome(ok, State()) == Spec.ReadNumber(old(State()), initial)
    {
      var isFloat;
      ghost var scan;
      ok, isFloat, scan := ScanNumberText(initial);
      if !ok {
        return false;
      }
      if isFloat {
        tokenType := FloatToken;
        return true;
      }
      tokenType := IntegerToken;
      var value := IntValue(strValue);
      intValue := ClampInt64(value);
      return INT64_MIN <= value <= INT64_MAX;
    }

    method ReadUnicodeEscapeCharacter() returns (ok: bool, value: nat)
      requires Valid()
      modifies stream, stream.buffer, stream.source
      ensures Valid()
      ensures Unicode(ok, value, stream.Rest()) == ReadUnicode(4, 0, old(stream.Rest()))
    {
      ghost var all := stream.Rest();
      value := 0;
      for i := 0 to 4
        invariant Valid()
        invariant ReadUnicode(4, 0, all) == ReadUnicode(4 - i, value, stream.Rest())
      {
        var good, digit := ReadHexDigit();
        if !good {
          return false, value;
        }
        value := value * 16 + digit;
      }
      return true, value;
    }

    /** One round of the loop above. */
    method ReadHexDigit() returns (ok: bool, digit: int)
      requires Valid()
      modifies stream, stream.buffer, stream.source
      ensures Valid()
      ensures old(stream.Rest()) == [] ==> !ok && stream.Rest() == []
      ensures old(stream.Rest()) != [] ==>
        digit == HexValue(old(stream.Rest())[0]) && ok == (digit != -1) && stream.Rest() == old(stream.Rest())[1..]
    {
      ghost var before := stream.Rest();
      var ch := stream.ReadByte();
      if ch == END_OF_STREAM {
        return false, -1;
      }
      assert before[1..] == stream.Rest();
      digit := HexValue(ch);
      return digit != -1, digit;
    }

    /** What follows a backslash inside a string. */
    method ReadEscape(ghost quote: byte) returns (ok: bool)
      requires Valid() && quote != '\\' as int
      modifies `strValue, stream, stream.buffer, stream.source
      ensures Valid()
      ensures |stream.Rest()| <= |old(stream.Rest())|
      ensures
        var scan := Spec.ScanString(quote, old(strValue), ['\\' as int] + old(stream.Rest()));
        if ok then scan == Spec.ScanString(quote, strValue, stream.Rest())
        else scan == StringScan(false, strValue, stream.Rest())
    {
      ghost var all := ['\\' as int] + stream.Rest();
      ghost var before := stream.Rest();
      assert all[1..] == before;
      var ch := stream.ReadByte();
      if ch == END_OF_STREAM {
        return false;
      }
      assert all[2..] == stream.Rest();
      if ch == 'u' as int {
        var good, value := ReadUnicodeEscapeCharacter();
        if !good {
          return false;
        }
        strValue := strValue + Utf8(value);
      } else {
        var unescaped := Unescape(ch);
        if unescaped.None? {
          return false;
        }
        strValue := strValue + [unescaped.value];
      }
      return true;
    }

    method ReadString(initial: byte) returns (ok: bool)
      requires Valid()
      modifies this, stream, stream.buffer, stream.source
      ensures Valid()
      ensures Outcome(ok, State()) == Spec.ReadString(old(State()), initial)
    {
      strValue := [];
      if initial != '"' as int && initial != '\'' as int {
        return false;
      }
      ghost var all := stream.Rest();
      while true
        invariant Valid()
        invariant tokenType == old(tokenType) && mode == old(mode) && modeStack == old(modeStack)
        invariant intValue == old(intValue) && boolValue == old(boolValue)
        invariant Spec.ScanString(initial, [], all) == Spec.ScanString(initial, strValue, stream.Rest())
        decreases |stream.Rest()|
      {
        ghost var before := stream.Rest();
        var ch := stream.ReadByte();
        if ch == END_OF_STREAM {
          return false;
        }
        assert before[1..] == stream.Rest();
        if ch == initial {
          return true;
        }
        if ch == '\\' as int {
          assert before == ['\\' as int] + stream.Rest();
          var good := ReadEscape(initial);
          if !good {
            return false;
          }
        } else {
          strValue := strValue + [ch];
        }
      }
    }

    method ReadValue(initial: byte) returns (ok: bool)
      requires Valid()
      modifies this, stream, stream.buffer, stream.source
      ensures Valid()
      ensures Outcome(ok, State()) == Spec.ReadValue(old(State()), initial)
    {
      if initial == '{' as int {
        modeStack := modeStack + [mode];
        tokenType := StartObjectToken;
        mode := ObjectMode;
        return true;
      } else if initial == '[' as int {
        modeStack := modeStack + [mode];
        tokenType := StartArrayToken;
        mode := ArrayMode;
        return true;
      } else if initial == '"' as int || initial == '\'' as int {
        tokenType := StringToken;
        ok := ReadString(initial);
      } else if initial == '-' as int || IsDigit(initial) {
        ok := ReadNumber(initial);
      } else if initial == 'n' as int {
        tokenType := NullToken;
        ok := ReadKeyword(initial, NULL_TEXT);
      } else if initial == 't' as int {
        tokenType := BooleanToken;
        boolValue := true;
        ok := ReadKeyword(initial, TRUE_TEXT);
      } else if initial == 'f' as int {
        tokenType := BooleanToken;
        boolValue := false;
        ok := ReadKeyword(initial, FALSE_TEXT);
      } else {
        return false;
      }
    }

    method PopMode() returns (ok: bool)
      requires Valid()
      modifies `mode, `modeStack
      ensures Outcome(ok, State()) == Spec.PopMode(old(State()))
    {
      if modeStack == [] {
        return false;
      }
      mode := modeStack[|modeStack| - 1];
      modeStack := modeStack[..|modeStack| - 1];
      return true;
    }

    method ReadPropertyName(initial: byte) returns (ok: bool)
      requires Valid()
      modifies this, stream, stream.buffer, stream.source
      ensures Valid()
      ensures Outcome(ok, State()) == Spec.ReadPropertyName(old(State()), initial)
    {
      tokenType := PropertyNameToken;
      ok := ReadString(initial);
      if !ok {
        return false;
      }
      var ch;
      ok, ch := SkipWhitespace();
      if !ok {
        return false;
      }
      return ch == ':' as int;
    }

    method NextInArray(initial: byte) returns (ok: bool)
      requires Valid()
      modifies this, stream, stream.buffer, stream.source
      ensures Valid()
      ensures Outcome(ok, State()) == Spec.NextInArray(old(State()), initial)
    {
      var ch: int := initial;
      if ch == ']' as int {
        tokenType := EndArrayToken;
        ok := PopMode();
        return;
      }
      if tokenType != StartArrayToken {
        if ch != ',' as int {
          return false;
        }
        ok, ch := SkipWhitespace();
        if !ok {
          return false;
        }
      }
      ok := ReadValue(ch);
    }

    method NextInObject(initial: byte) returns (ok: bool)
      requires Valid()
      modifies this, stream, stream.buffer, stream.source
      ensures Valid()
      ensures Outcome(ok, State()) == Spec.NextInObject(old(State()), initial)
    {
      var ch: int := initial;
      if tokenType != PropertyNameToken {
        if ch == '}' as int {
          tokenType := EndObjectToken;
          ok := PopMode();
          return;
        }
        if tokenType != StartObjectToken {
          if ch != ',' as int {
            return false;
          }
          ok, ch := SkipWhitespace();
          if !ok {
            return false;
          }
        }
        ok := ReadPropertyName(ch);
      } else {
        ok := ReadValue(ch);
      }
    }

    /** Moves on to the next token. For a client this takes the head of the token queue, which
        depends on the bytes of the stream and not on how they arrive. */
    method Next() returns (ok: bool)
      requires Valid()
      modifies this, stream, stream.buffer, stream.source
      ensures Valid()
      ensures Outcome(ok, State()) == Spec.Next(old(State()))
      ensures ok == NextView(old(View())).Some?
      ensures ok ==> View() == NextView(old(View())).value
    {
      NextTakesHead(State());
      var ch;
      ok, ch := SkipWhitespace();
      if !ok {
        return false;
      }
      match mode
      case DocumentStart =>
        ok := ReadValue(ch);
      case ArrayMode =>
        ok := NextInArray(ch);
      case ObjectMode =>
        ok := NextInObject(ch);
    }
  }
}
