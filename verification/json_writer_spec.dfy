/** What src/base/json_writer.cc writes, as functions of the writer's fields. */
module JsonWriterSpec {
  import opened Base
  import opened Decimal
  import opened HexCodec
  import opened JsonTokens

  datatype WriterMode =
    | WDocumentStart
    | WStartObject
    | WPropertyName
    | WPropertyValue
    | WStartArray
    | WMiddleArray

  /** The fields of JsonWriter, apart from its stream. */
  datatype WriterState = WriterState(
    indents: bool, mode: WriterMode, stack: seq<WriterMode>, indent: int, pack: int)

  function InitialWriter(indents: bool): WriterState {
    WriterState(indents, WDocumentStart, [], 0, 0)
  }

  /** One call of JsonWriter's interface. */
  datatype Call =
    | CName(str: bytes)
    | CString(str: bytes)
    | CInteger(num: int64)
    | CBoolean(flag: bool)
    | CNull
    | CBeginArray
    | CEndArray
    | CBeginObject
    | CEndObject
    | CBeginPack
    | CEndPack

  predicate IsPack(c: Call) {
    c.CBeginPack? || c.CEndPack?
  }

  predicate StartsValue(c: Call) {
    c.CString? || c.CInteger? || c.CBoolean? || c.CNull? || c.CBeginArray? || c.CBeginObject?
  }

  /** The assertions at the head of the methods. */
  predicate Permitted(w: WriterState, c: Call) {
    match c
    case CName(_) => w.mode == WStartObject || w.mode == WPropertyName
    case CEndObject => w.mode == WStartObject || w.mode == WPropertyName
    case CEndArray => w.mode == WStartArray || w.mode == WMiddleArray
    case _ => IsPack(c) || w.mode != WPropertyName
  }

  // ---------- text ----------

  const QUOTE: byte := '"' as int
  const BACKSLASH: byte := '\\' as int

  /** kSpecialEscapes */
  function SpecialEscape(ch: byte): byte {
    if ch == 8 then 'b' as int
    else if ch == 9 then 't' as int
    else if ch == 10 then 'n' as int
    else if ch == 12 then 'f' as int
    else if ch == 13 then 'r' as int
    else 0
  }

  function EscapeChar(ch: byte): bytes {
    if ch == QUOTE || ch == BACKSLASH then [BACKSLASH, ch]
    else if ch < ' ' as int then
      if SpecialEscape(ch) != 0 then [BACKSLASH, SpecialEscape(ch)]
      else [BACKSLASH, 'u' as int, '0' as int, '0' as int] + HexPair(ch)
    else [ch]
  }

  /** The escaped characters of a C string: writing stops at the first NUL. */
  function EscapeText(str: bytes): bytes {
    if str == [] || str[0] == 0 then [] else EscapeChar(str[0]) + EscapeText(str[1..])
  }

  function RawString(str: bytes): bytes {
    [QUOTE] + EscapeText(str) + [QUOTE]
  }

  function Spaces(n: int): bytes {
    seq(if n < 0 then 0 else n, _ => ' ' as int)
  }

  function NewLine(w: WriterState): bytes {
    if w.indents && w.pack == 0 then ['\n' as int] + Spaces(w.indent) else []
  }

  function Comma(w: WriterState): bytes {
    if w.indents && w.pack != 0 then [',' as int, ' ' as int] else [',' as int]
  }

  /** What BeginValue writes before a value. */
  function ValuePrefix(w: WriterState): bytes {
    match w.mode
    case WMiddleArray => Comma(w) + NewLine(w)
    case WStartArray => NewLine(w)
    case _ => []
  }

  function ModeAfterValue(m: WriterMode): WriterMode {
    match m
    case WPropertyValue => WPropertyName
    case WStartArray => WMiddleArray
    case _ => m
  }

  function BooleanText(flag: bool): bytes {
    if flag then ['t' as int, 'r' as int, 'u' as int, 'e' as int]
    else ['f' as int, 'a' as int, 'l' as int, 's' as int, 'e' as int]
  }

  const NULL_WORD: bytes := ['n' as int, 'u' as int, 'l' as int, 'l' as int]

  function NamePrefix(w: WriterState): bytes {
    if w.mode == WPropertyName then Comma(w) else []
  }

  function Colon(w: WriterState): bytes {
    if w.indents then [':' as int, ' ' as int] else [':' as int]
  }

  /** The bytes one call writes. */
  function Emit(w: WriterState, c: Call): bytes {
    match c
    case CName(s) => NamePrefix(w) + NewLine(w) + RawString(s) + Colon(w)
    case CString(s) => ValuePrefix(w) + RawString(s)
    case CInteger(v) => ValuePrefix(w) + IntText(v)
    case CBoolean(b) => ValuePrefix(w) + BooleanText(b)
    case CNull => ValuePrefix(w) + NULL_WORD
    case CBeginArray => ValuePrefix(w) + ['[' as int]
    case CBeginObject => ValuePrefix(w) + ['{' as int]
    case CEndArray => NewLine(w.(indent := w.indent - 2)) + [']' as int]
    case CEndObject => NewLine(w.(indent := w.indent - 2)) + ['}' as int]
    case CBeginPack => []
    case CEndPack => []
  }

  function Push(w: WriterState, mode: WriterMode): WriterState {
    w.(stack := w.stack + [ModeAfterValue(w.mode)], mode := mode, indent := w.indent + 2)
  }

  /** The mode a closing call returns to. */
  function TopMode(stack: seq<WriterMode>): WriterMode {
    if stack == [] then WDocumentStart else stack[|stack| - 1]
  }

  function Below(stack: seq<WriterMode>): seq<WriterMode> {
    if stack == [] then [] else stack[..|stack| - 1]
  }

  function Pop(w: WriterState): WriterState {
    w.(mode := TopMode(w.stack), stack := Below(w.stack), indent := w.indent - 2)
  }

  /** The fields after one call. */
  function After(w: WriterState, c: Call): WriterState {
    match c
    case CName(_) => w.(mode := WPropertyValue)
    case CBeginArray => Push(w, WStartArray)
    case CBeginObject => Push(w, WStartObject)
    case CEndArray => Pop(w)
    case CEndObject => Pop(w)
    case CBeginPack => w.(pack := w.pack + 1)
    case CEndPack => w.(pack := w.pack - 1)
    case _ => w.(mode := ModeAfterValue(w.mode))
  }

  // ---------- runs of calls ----------

  function Run(w: WriterState, cs: seq<Call>): WriterState {
    if cs == [] then w else After(Run(w, cs[..|cs| - 1]), cs[|cs| - 1])
  }

  /** Everything a run of calls writes. */
  function Text(w: WriterState, cs: seq<Call>): bytes {
    if cs == [] then []
    else Text(w, cs[..|cs| - 1]) + Emit(Run(w, cs[..|cs| - 1]), cs[|cs| - 1])
  }

  /** No assertion fails anywhere in the run. */
  predicate PermittedRun(w: WriterState, cs: seq<Call>) {
    cs != [] ==>
      PermittedRun(w, cs[..|cs| - 1]) && Permitted(Run(w, cs[..|cs| - 1]), cs[|cs| - 1])
  }

  /** The stack is empty exactly outside all arrays and objects, the document is at its bottom
      and nowhere else, and the indentation is two columns per open container. */
  predicate WriterInvariant(w: WriterState) {
    && w.indent == 2 * |w.stack|
    && (w.stack == [] <==> w.mode == WDocumentStart)
    && forall i :: 0 <= i < |w.stack| ==> (w.stack[i] == WDocumentStart <==> i == 0)
  }

  lemma CallKeepsInvariant(w: WriterState, c: Call)
    requires WriterInvariant(w) && Permitted(w, c)
    ensures WriterInvariant(After(w, c))
  {
  }

  /** As long as no assertion fails, closing calls find a container to close. */
  lemma {:induction false} RunKeepsInvariant(w: WriterState, cs: seq<Call>)
    requires WriterInvariant(w) && PermittedRun(w, cs)
    ensures WriterInvariant(Run(w, cs))
  {
    if cs != [] {
      var n := |cs| - 1;
      RunKeepsInvariant(w, cs[..n]);
      CallKeepsInvariant(Run(w, cs[..n]), cs[n]);
    }
  }

  /** One more call at the end of a run. */
  lemma RunSnoc(w: WriterState, cs: seq<Call>, c: Call)
    ensures Run(w, cs + [c]) == After(Run(w, cs), c)
    ensures Text(w, cs + [c]) == Text(w, cs) + Emit(Run(w, cs), c)
    ensures PermittedRun(w, cs + [c]) == (PermittedRun(w, cs) && Permitted(Run(w, cs), c))
  {
    assert (cs + [c])[..|cs|] == cs;
  }

  // ---------- well-formed text ----------

  /** The last token written is a number, which only the text behind it can end. */
  predicate OpenNumber(cs: seq<Call>) {
    cs != [] &&
      var c := cs[|cs| - 1];
      c.CInteger? || (IsPack(c) && OpenNumber(cs[..|cs| - 1]))
  }

  /** A call the writer asserts on, a value where a property name belongs, or anything behind a
      top-level number has no well-formed text. */
  predicate Sensible(w: WriterState, before: seq<Call>, c: Call) {
    && Permitted(w, c)
    && (StartsValue(c) ==> w.mode != WStartObject)
    && (OpenNumber(before) && w.mode == WDocumentStart ==> IsPack(c))
  }

  /** A value may be written without spoiling the text. */
  predicate ValueFits(mode: WriterMode, before: seq<Call>) {
    mode != WStartObject && (mode == WDocumentStart ==> !OpenNumber(before))
  }

  predicate SensibleRun(w: WriterState, cs: seq<Call>) {
    cs != [] ==>
      && SensibleRun(w, cs[..|cs| - 1])
      && Sensible(Run(w, cs[..|cs| - 1]), cs[..|cs| - 1], cs[|cs| - 1])
  }

  /** One more call at the end of a sensible run. */
  lemma SensibleRunSnoc(w: WriterState, cs: seq<Call>, c: Call)
    ensures SensibleRun(w, cs + [c]) == (SensibleRun(w, cs) && Sensible(Run(w, cs), cs, c))
  {
    assert (cs + [c])[..|cs|] == cs;
  }
}
