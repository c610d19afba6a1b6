/** Whatever a run of writer calls has written, in any layout, the reader reads back as exactly
    the tokens of those calls. */
module JsonRoundTrip {
  import opened Base
  import opened Decimal
  import opened HexCodec
  import opened JsonTokens
  import opened JsonReaderSpec
  import opened JsonWriterSpec
  import opened JsonLexemes
  import opened JsonNesting

  /** The token a call stands for. C strings end at their first NUL. */
  function CallEvent(c: Call): Event
    requires !IsPack(c)
  {
    match c
    case CName(s) => PropertyName(CStr(s))
    case CString(s) => String(CStr(s))
    case CInteger(v) => Integer(v, IntText(v))
    case CBoolean(b) => Boolean(b)
    case CNull => Null
    case CBeginArray => StartArray
    case CEndArray => EndArray
    case CBeginObject => StartObject
    case CEndObject => EndObject
  }

  function CallEvents(cs: seq<Call>): seq<Event> {
    if cs == [] then []
    else CallEvents(cs[..|cs| - 1]) + if IsPack(cs[|cs| - 1]) then [] else [CallEvent(cs[|cs| - 1])]
  }

  function ReaderMode(m: WriterMode): JsonMode {
    match m
    case WDocumentStart => DocumentStart
    case WStartArray => ArrayMode
    case WMiddleArray => ArrayMode
    case _ => ObjectMode
  }

  /** The reader has read what the writer has written. */
  predicate Matches(w: WriterState, s: ReaderState) {
    && |w.stack| == |s.stack|
    && (forall i :: 0 <= i < |w.stack| ==>
          ReaderMode(w.stack[i]) == s.stack[i] && w.stack[i] in {WDocumentStart, WPropertyName, WMiddleArray})
    && ReaderMode(w.mode) == s.mode
    && (s.mode == ArrayMode ==> (w.mode == WStartArray <==> s.token == StartArrayToken))
    && (s.mode == ObjectMode ==>
          && (w.mode == WStartObject <==> s.token == StartObjectToken)
          && (w.mode == WPropertyValue <==> s.token == PropertyNameToken))
  }

  lemma NewLineIsSpace(w: WriterState)
    ensures AllSpace(NewLine(w))
  {
  }

  /** Commas are followed by blanks only. */
  lemma CommaShape(w: WriterState)
    ensures Comma(w)[0] == ',' as int && AllSpace(Comma(w)[1..])
  {
  }

  // ---------- the first character of a value decides how the rest is read ----------

  function Core(c: Call): bytes
    requires StartsValue(c)
  {
    match c
    case CString(s) => RawString(s)
    case CInteger(v) => IntText(v)
    case CBoolean(b) => BooleanText(b)
    case CNull => NULL_WORD
    case CBeginArray => ['[' as int]
    case CBeginObject => ['{' as int]
  }

  lemma EmitValue(w: WriterState, c: Call)
    requires StartsValue(c)
    ensures Emit(w, c) == ValuePrefix(w) + Core(c)
    ensures Core(c) != [] && !IsSpace(Core(c)[0]) && Core(c)[0] != ']' as int
    ensures w.mode == WDocumentStart || w.mode == WPropertyValue ==> Emit(w, c) == Core(c)
  {
  }

  /** The reader state once the value of `c` has been read and `t` is left. */
  function Read(s: ReaderState, c: Call, t: bytes): ReaderState
    requires StartsValue(c)
  {
    match c
    case CString(str) => s.(token := StringToken, str := CStr(str), rest := t)
    case CInteger(v) => s.(token := IntegerToken, str := IntText(v), num := v, rest := t)
    case CBoolean(b) => s.(token := BooleanToken, flag := b, rest := t)
    case CNull => s.(token := NullToken, rest := t)
    case CBeginArray => s.(stack := s.stack + [s.mode], token := StartArrayToken, mode := ArrayMode, rest := t)
    case CBeginObject => s.(stack := s.stack + [s.mode], token := StartObjectToken, mode := ObjectMode, rest := t)
  }

  lemma ReadCore(s: ReaderState, c: Call, t: bytes)
    requires StartsValue(c) && s.rest == Core(c)[1..] + t
    requires c.CInteger? ==> EndsNumber(Head(t))
    ensures ReadValue(s, Core(c)[0]) == Outcome(true, Read(s, c, t))
  {
    match c
    case CString(str) =>
      StringRoundTrip(str, t);
    case CInteger(v) =>
      NumberRoundTrip(s, v, t);
    case CBoolean(b) =>
      KeywordRoundTrip(Core(c)[1..], t);
    case CNull =>
      KeywordRoundTrip(Core(c)[1..], t);
    case CBeginArray =>
      assert s.rest == t;
    case CBeginObject =>
      assert s.rest == t;
  }

  lemma ReadMatches(w: WriterState, s: ReaderState, c: Call, t: bytes)
    requires StartsValue(c) && Permitted(w, c) && w.mode != WStartObject && Matches(w, s)
    ensures Matches(After(w, c), Read(s, c, t))
    ensures EventOf(Read(s, c, t)) == CallEvent(c)
  {
  }

  // ---------- one call, one token ----------

  /** Next on blank-padded text, where no comma is due. */
  lemma NextDirect(s: ReaderState, pad: bytes, x: bytes)
    requires AllSpace(pad) && x != [] && !IsSpace(x[0]) && s.rest == pad + x
    ensures
      var inner := s.(rest := x[1..]);
      match s.mode
      case DocumentStart => Next(s) == ReadValue(inner, x[0])
      case ArrayMode => s.token == StartArrayToken && x[0] != ']' as int ==> Next(s) == ReadValue(inner, x[0])
      case ObjectMode =>
        if s.token == PropertyNameToken then Next(s) == ReadValue(inner, x[0])
        else s.token == StartObjectToken && x[0] != '}' as int ==> Next(s) == ReadPropertyName(inner, x[0])
  {
    SkipBlank(pad, x);
  }

  /** Next on blank-padded text that begins with the comma due. */
  lemma NextAfterComma(s: ReaderState, pad: bytes, gap: bytes, x: bytes)
    requires AllSpace(pad) && AllSpace(gap) && x != [] && !IsSpace(x[0])
    requires s.rest == pad + ([',' as int] + (gap + x))
    ensures
      var inner := s.(rest := x[1..]);
      match s.mode
      case DocumentStart => true
      case ArrayMode => s.token != StartArrayToken ==> Next(s) == ReadValue(inner, x[0])
      case ObjectMode => s.token != StartObjectToken && s.token != PropertyNameToken ==>
        Next(s) == ReadPropertyName(inner, x[0])
  {
    SkipBlank(pad, [',' as int] + (gap + x));
    assert ([',' as int] + (gap + x))[1..] == gap + x;
    SkipBlank(gap, x);
  }

  /** A comma, line break and text as one blank-separated run. */
  lemma CommaText(w: WriterState, x: bytes) returns (gap: bytes)
    ensures AllSpace(gap) && Comma(w) + NewLine(w) + x == [',' as int] + (gap + x)
  {
    CommaShape(w);
    NewLineIsSpace(w);
    gap := Comma(w)[1..] + NewLine(w);
    assert Comma(w) == [',' as int] + Comma(w)[1..];
    Assoc([',' as int], Comma(w)[1..], NewLine(w));
    Assoc([',' as int], gap, x);
  }

  /** Where a value is due, Next reads one. */
  lemma NextOnValue(w: WriterState, s: ReaderState, pad: bytes, x: bytes)
    requires Matches(w, s) && w.mode != WStartObject && w.mode != WPropertyName && AllSpace(pad)
    requires x != [] && !IsSpace(x[0]) && x[0] != ']' as int
    requires s.rest == pad + (ValuePrefix(w) + x)
    ensures Next(s) == ReadValue(s.(rest := x[1..]), x[0])
  {
    if w.mode == WMiddleArray {
      var gap := CommaText(w, x);
      NextAfterComma(s, pad, gap, x);
    } else if w.mode == WStartArray {
      NewLineIsSpace(w);
      Assoc(pad, NewLine(w), x);
      NextDirect(s, pad + NewLine(w), x);
    } else {
      assert ValuePrefix(w) + x == x;
      NextDirect(s, pad, x);
    }
  }

  /** The text of a value, from its first character on. */
  lemma ValueText(w: WriterState, c: Call, t: bytes) returns (x: bytes)
    requires StartsValue(c)
    ensures x == Core(c) + t && x[1..] == Core(c)[1..] + t
    ensures x[0] == Core(c)[0] && !IsSpace(x[0]) && x[0] != ']' as int
    ensures Emit(w, c) + t == ValuePrefix(w) + x
  {
    x := Core(c) + t;
    EmitValue(w, c);
    Assoc(ValuePrefix(w), Core(c), t);
  }

  lemma StepValue(w: WriterState, s: ReaderState, c: Call, pad: bytes, t: bytes)
    requires Matches(w, s) && StartsValue(c) && Permitted(w, c) && w.mode != WStartObject
    requires AllSpace(pad) && s.rest == pad + (Emit(w, c) + t)
    requires c.CInteger? ==> EndsNumber(Head(t))
    ensures Next(s) == Outcome(true, Read(s, c, t))
  {
    var x := ValueText(w, c, t);
    ReadCore(s.(rest := x[1..]), c, t);
    NextOnValue(w, s, pad, x);
  }

  function Bracket(c: Call): byte {
    if c.CEndArray? then ']' as int else '}' as int
  }

  /** The text of a closing call. */
  lemma CloseText(w: WriterState, c: Call, pad: bytes, t: bytes) returns (blank: bytes)
    requires (c.CEndArray? || c.CEndObject?) && AllSpace(pad)
    ensures AllSpace(blank) && pad + (Emit(w, c) + t) == blank + ([Bracket(c)] + t)
  {
    var line := NewLine(w.(indent := w.indent - 2));
    NewLineIsSpace(w.(indent := w.indent - 2));
    blank := pad + line;
    assert Emit(w, c) == line + [Bracket(c)];
    Assoc(line, [Bracket(c)], t);
    Assoc(pad, line, [Bracket(c)] + t);
  }

  lemma StepClose(w: WriterState, s: ReaderState, c: Call, pad: bytes, t: bytes)
    requires Matches(w, s) && WriterInvariant(w)
    requires c.CEndArray? || c.CEndObject?
    requires Permitted(w, c) && AllSpace(pad) && s.rest == pad + (Emit(w, c) + t)
    ensures Next(s).ok && Next(s).state.rest == t && EventOf(Next(s).state) == CallEvent(c)
    ensures Matches(After(w, c), Next(s).state)
  {
    var blank := CloseText(w, c, pad, t);
    NextOnClose(w, s, c, blank, t);
  }

  /** Where a bracket may close, Next closes. */
  lemma NextOnClose(w: WriterState, s: ReaderState, c: Call, blank: bytes, t: bytes)
    requires Matches(w, s) && WriterInvariant(w)
    requires c.CEndArray? || c.CEndObject?
    requires Permitted(w, c) && AllSpace(blank) && s.rest == blank + ([Bracket(c)] + t)
    ensures Next(s).ok && Next(s).state.rest == t && EventOf(Next(s).state) == CallEvent(c)
    ensures Matches(After(w, c), Next(s).state)
  {
    SkipBlank(blank, [Bracket(c)] + t);
    assert ([Bracket(c)] + t)[1..] == t;
  }

  lemma ReadName(s: ReaderState, str: bytes, x: bytes)
    requires x != [] && x[0] == ':' as int && s.rest == RawString(str)[1..] + x
    ensures ReadPropertyName(s, QUOTE)
         == Outcome(true, s.(token := PropertyNameToken, str := CStr(str), rest := x[1..]))
  {
    StringRoundTrip(str, x);
    SkipBlank([], x);
    assert [] + x == x;
  }

  lemma Behind<T>(a: seq<T>, b: seq<T>)
    requires a != []
    ensures (a + b)[0] == a[0] && (a + b)[1..] == a[1..] + b
  {
  }

  /** The text of a property name, from the quote on. */
  lemma NameText(w: WriterState, str: bytes, t: bytes) returns (x: bytes, tail: bytes)
    ensures tail == Colon(w) + t && tail[1..] == Colon(w)[1..] + t
    ensures x != [] && x[0] == QUOTE && x[1..] == RawString(str)[1..] + tail
    ensures Emit(w, CName(str)) + t == NamePrefix(w) + NewLine(w) + x
  {
    var raw := RawString(str);
    tail := Colon(w) + t;
    x := raw + tail;
    Behind(raw, tail);
    Behind(Colon(w), t);
    Assoc(NamePrefix(w) + NewLine(w) + raw, Colon(w), t);
    Assoc(NamePrefix(w) + NewLine(w), raw, tail);
  }

  lemma StepName(w: WriterState, s: ReaderState, str: bytes, pad: bytes, t: bytes)
    requires Matches(w, s) && Permitted(w, CName(str)) && AllSpace(pad)
    requires s.rest == pad + (Emit(w, CName(str)) + t)
    ensures Next(s) == Outcome(true,
      s.(token := PropertyNameToken, str := CStr(str), rest := Colon(w)[1..] + t))
  {
    var x, tail := NameText(w, str, t);
    ReadName(s.(rest := x[1..]), str, tail);
    NextOnName(w, s, pad, x);
  }

  /** Where a property name is due, Next reads one. */
  lemma NextOnName(w: WriterState, s: ReaderState, pad: bytes, x: bytes)
    requires Matches(w, s) && (w.mode == WStartObject || w.mode == WPropertyName) && AllSpace(pad)
    requires x != [] && x[0] == QUOTE && s.rest == pad + (NamePrefix(w) + NewLine(w) + x)
    ensures Next(s) == ReadPropertyName(s.(rest := x[1..]), x[0])
  {
    if w.mode == WPropertyName {
      var gap := CommaText(w, x);
      NextAfterComma(s, pad, gap, x);
    } else {
      NewLineIsSpace(w);
      assert NamePrefix(w) + NewLine(w) == NewLine(w);
      Assoc(pad, NewLine(w), x);
      NextDirect(s, pad + NewLine(w), x);
    }
  }

  /** One call that writes a token is one successful call of Next. What is left of the call's
      text is at most the blank behind a colon. */
  lemma Step(w: WriterState, s: ReaderState, c: Call, pad: bytes, t: bytes) returns (pad': bytes)
    requires Matches(w, s) && WriterInvariant(w) && !IsPack(c)
    requires Permitted(w, c) && (StartsValue(c) ==> w.mode != WStartObject)
    requires AllSpace(pad) && s.rest == pad + (Emit(w, c) + t)
    requires c.CInteger? ==> EndsNumber(Head(t))
    ensures AllSpace(pad') && (!c.CName? ==> pad' == [])
    ensures var r := Next(s);
      r.ok && r.state.rest == pad' + t && EventOf(r.state) == CallEvent(c) && Matches(After(w, c), r.state)
  {
    if StartsValue(c) {
      StepValue(w, s, c, pad, t);
      ReadMatches(w, s, c, t);
      pad' := [];
      assert pad' + t == t;
    } else if c.CName? {
      StepName(w, s, c.str, pad, t);
      pad' := Colon(w)[1..];
    } else {
      StepClose(w, s, c, pad, t);
      pad' := [];
      assert pad' + t == t;
    }
  }

  // ---------- whole runs ----------

  /** A number inside a container is always ended by the next token's text. */
  lemma EmitEndsNumber(w: WriterState, c: Call, t: bytes)
    requires !IsPack(c) && Permitted(w, c) && (w.mode == WPropertyName || w.mode == WMiddleArray)
    ensures EndsNumber(Head(Emit(w, c) + t))
  {
    CommaShape(w);
  }

  lemma {:induction false} ModeBehindNumber(w: WriterState, cs: seq<Call>)
    requires SensibleRun(w, cs) && OpenNumber(cs)
    ensures Run(w, cs).mode in {WDocumentStart, WPropertyName, WMiddleArray}
  {
    var n := |cs| - 1;
    if IsPack(cs[n]) {
      ModeBehindNumber(w, cs[..n]);
    }
  }

  lemma {:induction false} SensibleIsPermitted(w: WriterState, cs: seq<Call>)
    requires SensibleRun(w, cs)
    ensures PermittedRun(w, cs)
  {
    if cs != [] {
      SensibleIsPermitted(w, cs[..|cs| - 1]);
    }
  }

  /** The reader has gone from `s` to `s'` over the text of the run `cs`, with `t` behind it. What
      is left of the text is at most the blank behind a colon. */
  predicate IsRead(w: WriterState, s: ReaderState, cs: seq<Call>, s': ReaderState, pad: bytes, t: bytes) {
    && AllSpace(pad) && s'.rest == pad + t && Matches(Run(w, cs), s')
    && Events(s) == CallEvents(cs) + Events(s') && StateAfter(s, |CallEvents(cs)|) == Some(s')
    && (Run(w, cs).mode != WPropertyValue ==> pad == [])
  }

  lemma NothingIsRead(w: WriterState, s: ReaderState, t: bytes)
    requires Matches(w, s) && s.rest == Text(w, []) + t
    ensures IsRead(w, s, [], s, [], t)
  {
    assert Text(w, []) + t == t && [] + t == t;
    assert [] + Events(s) == Events(s);
  }

  lemma HintIsRead(w: WriterState, s: ReaderState, before: seq<Call>, c: Call, s': ReaderState, pad: bytes, t: bytes)
    requires IsPack(c) && IsRead(w, s, before, s', pad, t)
    ensures IsRead(w, s, before + [c], s', pad, t)
  {
    RunSnoc(w, before, c);
    assert (before + [c])[..|before|] == before;
    assert CallEvents(before + [c]) == CallEvents(before);
  }

  lemma EventsSnoc(cs: seq<Call>, c: Call)
    requires !IsPack(c)
    ensures CallEvents(cs + [c]) == CallEvents(cs) + [CallEvent(c)]
  {
    assert (cs + [c])[..|cs|] == cs;
  }

  /** One call more, where the tokens `es` of `s` have been read. */
  lemma ReadOn(s: ReaderState, es: seq<Event>, u: WriterState, m: ReaderState, c: Call, gap: bytes, t: bytes)
      returns (s': ReaderState, pad: bytes)
    requires Matches(u, m) && WriterInvariant(u) && !IsPack(c)
    requires Permitted(u, c) && (StartsValue(c) ==> u.mode != WStartObject)
    requires AllSpace(gap) && m.rest == gap + (Emit(u, c) + t)
    requires c.CInteger? ==> EndsNumber(Head(t))
    requires Events(s) == es + Events(m) && StateAfter(s, |es|) == Some(m)
    ensures AllSpace(pad) && s'.rest == pad + t && Matches(After(u, c), s')
    ensures After(u, c).mode != WPropertyValue ==> pad == []
    ensures Events(s) == es + [CallEvent(c)] + Events(s') && StateAfter(s, |es| + 1) == Some(s')
  {
    pad := Step(u, m, c, gap, t);
    s' := Next(m).state;
    StateAfterSnoc(s, |es|);
    Assoc(es, [CallEvent(c)], Events(s'));
  }

  lemma TokenIsRead(w: WriterState, s: ReaderState, before: seq<Call>, c: Call, m: ReaderState, gap: bytes, t: bytes)
      returns (s': ReaderState, pad: bytes)
    requires PermittedRun(w, before) && WriterInvariant(w) && Sensible(Run(w, before), before, c) && !IsPack(c)
    requires IsRead(w, s, before, m, gap, Emit(Run(w, before), c) + t)
    requires c.CInteger? ==> EndsNumber(Head(t))
    ensures IsRead(w, s, before + [c], s', pad, t)
  {
    RunKeepsInvariant(w, before);
    RunSnoc(w, before, c);
    EventsSnoc(before, c);
    s', pad := ReadOn(s, CallEvents(before), Run(w, before), m, c, gap, t);
  }

  /** A number that the run left open is ended by the next token. */
  lemma OpenNumberEnds(w: WriterState, before: seq<Call>, c: Call, t: bytes)
    requires SensibleRun(w, before) && Sensible(Run(w, before), before, c) && !IsPack(c)
    ensures OpenNumber(before) ==> EndsNumber(Head(Emit(Run(w, before), c) + t))
  {
    if OpenNumber(before) {
      ModeBehindNumber(w, before);
      EmitEndsNumber(Run(w, before), c, t);
    }
  }

  /** The induction: text `t` stands behind that of the run. */
  lemma {:induction false} ReadBack(w: WriterState, s: ReaderState, cs: seq<Call>, t: bytes)
      returns (s': ReaderState, pad: bytes)
    requires Matches(w, s) && WriterInvariant(w) && SensibleRun(w, cs)
    requires s.rest == Text(w, cs) + t
    requires OpenNumber(cs) ==> EndsNumber(Head(t))
    ensures IsRead(w, s, cs, s', pad, t)
  {
    if cs == [] {
      NothingIsRead(w, s, t);
      s', pad := s, [];
    } else {
      var n := |cs| - 1;
      var before, c := cs[..n], cs[n];
      var e := Emit(Run(w, before), c);
      Assoc(Text(w, before), e, t);
      assert cs == before + [c];
      if IsPack(c) {
        assert e + t == t;
        s', pad := ReadBack(w, s, before, t);
        HintIsRead(w, s, before, c, s', pad, t);
      } else {
        OpenNumberEnds(w, before, c, t);
        var m, gap := ReadBack(w, s, before, e + t);
        SensibleIsPermitted(w, before);
        s', pad := TokenIsRead(w, s, before, c, m, gap, t);
      }
    }
  }

  /** The round trip: from a fresh writer, for every run of calls and every layout, the reader
      returns exactly the tokens of the calls and then fails. */
  lemma WriterReaderRoundTrip(indents: bool, cs: seq<Call>)
    requires SensibleRun(InitialWriter(indents), cs)
    ensures Events(InitialState(Text(InitialWriter(indents), cs))) == CallEvents(cs)
  {
    var w := InitialWriter(indents);
    var s := InitialState(Text(w, cs));
    assert Text(w, cs) + [] == Text(w, cs);
    var s', pad := ReadBack(w, s, cs, []);
    SkipOnlyBlank(pad);
    assert pad + [] == pad;
    assert Events(s') == [];
  }

  // ---------- layout ----------

  /** The calls that are not layout hints. */
  function Content(cs: seq<Call>): seq<Call> {
    if cs == [] then []
    else Content(cs[..|cs| - 1]) + if IsPack(cs[|cs| - 1]) then [] else [cs[|cs| - 1]]
  }

  lemma {:induction false} EventsOfContent(cs: seq<Call>)
    ensures CallEvents(Content(cs)) == CallEvents(cs)
  {
    if cs != [] {
      var n := |cs| - 1;
      EventsOfContent(cs[..n]);
      if IsPack(cs[n]) {
        assert Content(cs) == Content(cs[..n]);
      } else {
        assert Content(cs)[..|Content(cs)| - 1] == Content(cs[..n]);
      }
    }
  }

  /** States that differ in layout only. */
  predicate SameContent(v: WriterState, w: WriterState) {
    v.mode == w.mode && v.stack == w.stack
  }

  /** A run and its content, from states that differ in layout only. */
  predicate Alike(w: WriterState, v: WriterState, cs: seq<Call>) {
    && SameContent(Run(v, Content(cs)), Run(w, cs))
    && SensibleRun(v, Content(cs)) == SensibleRun(w, cs)
    && OpenNumber(Content(cs)) == OpenNumber(cs)
  }

  lemma AlikeSnoc(w: WriterState, v: WriterState, cs: seq<Call>, c: Call)
    requires Alike(w, v, cs)
    ensures Alike(w, v, cs + [c])
  {
    var content := Content(cs);
    RunSnoc(w, cs, c);
    SensibleRunSnoc(w, cs, c);
    assert (cs + [c])[..|cs|] == cs;
    if IsPack(c) {
      assert Content(cs + [c]) == content;
    } else {
      assert Content(cs + [c]) == content + [c];
      RunSnoc(v, content, c);
      SensibleRunSnoc(v, content, c);
      SameStep(Run(v, content), Run(w, cs), c);
    }
  }

  /** Layout hints never change which calls are sensible. */
  lemma {:induction false} ContentIsSensible(w: WriterState, v: WriterState, cs: seq<Call>)
    requires SameContent(v, w)
    ensures Alike(w, v, cs)
  {
    if cs != [] {
      var n := |cs| - 1;
      ContentIsSensible(w, v, cs[..n]);
      AlikeSnoc(w, v, cs[..n], cs[n]);
      assert cs == cs[..n] + [cs[n]];
    }
  }

  lemma SameStep(v: WriterState, w: WriterState, c: Call)
    requires SameContent(v, w)
    ensures SameContent(After(v, c), After(w, c)) && Permitted(v, c) == Permitted(w, c)
  {
  }

  /** Layout never changes meaning: runs with the same content are read back alike, whatever
      their indentation flags and wherever BeginPack and EndPack stand, matched or not. */
  lemma LayoutIsIrrelevant(i1: bool, cs1: seq<Call>, i2: bool, cs2: seq<Call>)
    requires Content(cs1) == Content(cs2) && SensibleRun(InitialWriter(i1), cs1)
    ensures SensibleRun(InitialWriter(i2), cs2)
    ensures Events(InitialState(Text(InitialWriter(i1), cs1)))
         == Events(InitialState(Text(InitialWriter(i2), cs2)))
  {
    ContentIsSensible(InitialWriter(i1), InitialWriter(i1), cs1);
    ContentIsSensible(InitialWriter(i2), InitialWriter(i1), cs2);
    WriterReaderRoundTrip(i1, cs1);
    WriterReaderRoundTrip(i2, cs2);
    EventsOfContent(cs1);
    EventsOfContent(cs2);
  }
}
