/** What src/base/json_reader.cc computes, as functions of the reader's fields and the bytes
    still to come. */
module JsonReaderSpec {
  import opened Base
  import opened Decimal
  import opened HexCodec
  import opened JsonTokens

  datatype JsonMode = DocumentStart | ArrayMode | ObjectMode

  /** The fields of JsonReader, and the bytes its stream has not handed out yet. */
  datatype ReaderState = ReaderState(
    mode: JsonMode, stack: seq<JsonMode>, token: JsonToken,
    str: bytes, num: int, flag: bool, rest: bytes)

  function InitialState(text: bytes): ReaderState {
    ReaderState(DocumentStart, [], NoToken, [], 0, false, text)
  }

  /** The return value of a reader function and the state it leaves. */
  datatype Outcome = Outcome(ok: bool, state: ReaderState)

  // ---------- lexical pieces ----------

  datatype Skipped = Exhausted | Found(ch: byte, rest: bytes)

  function SkipWhitespace(rest: bytes): (r: Skipped)
    ensures r.Found? ==> |r.rest| < |rest|
  {
    if rest == [] then Exhausted
    else if IsSpace(rest[0]) then SkipWhitespace(rest[1..])
    else Found(rest[0], rest[1..])
  }

  datatype Keyword = Keyword(ok: bool, rest: bytes)

  /** Matches the remaining characters of a keyword; the character that breaks the match is
      consumed too. */
  function MatchKeyword(remaining: bytes, rest: bytes): (r: Keyword)
    ensures |r.rest| <= |rest|
  {
    if remaining == [] then Keyword(true, rest)
    else if rest == [] then Keyword(false, [])
    else if rest[0] != remaining[0] then Keyword(false, rest[1..])
    else MatchKeyword(remaining[1..], rest[1..])
  }

  /** UTF-8 encoding of a code point, as AppendCharacterAsUtf8 appends it. */
  function Utf8(ch: nat): bytes {
    if ch <= 0x7F then
      [ch]
    else if ch <= 0x7FF then
      [0xC0 + (ch / 0x40) % 0x20, 0x80 + ch % 0x40]
    else if ch <= 0xFFFF then
      [0xE0 + (ch / 0x1000) % 0x10, 0x80 + (ch / 0x40) % 0x40, 0x80 + ch % 0x40]
    else if ch <= 0x1FFFFF then
      [0xF0 + (ch / 0x40000) % 8, 0x80 + (ch / 0x1000) % 0x40, 0x80 + (ch / 0x40) % 0x40, 0x80 + ch % 0x40]
    else []
  }

  datatype Unicode = Unicode(ok: bool, value: nat, rest: bytes)

  /** Reads the remaining `digits` hex digits of a \u escape. */
  function ReadUnicode(digits: nat, value: nat, rest: bytes): (r: Unicode)
    ensures |r.rest| <= |rest|
    decreases rest, digits
  {
    if digits == 0 then Unicode(true, value, rest)
    else if rest == [] then Unicode(false, value, [])
    else if HexValue(rest[0]) == -1 then Unicode(false, value, rest[1..])
    else ReadUnicode(digits - 1, value * 16 + HexValue(rest[0]), rest[1..])
  }

  /** The character a one-letter escape stands for. */
  function Unescape(ch: byte): Option<byte> {
    if ch == '"' as int || ch == '/' as int || ch == '\\' as int then Some(ch)
    else if ch == 'b' as int then Some(8)
    else if ch == 'f' as int then Some(12)
    else if ch == 'n' as int then Some(10)
    else if ch == 'r' as int then Some(13)
    else if ch == 't' as int then Some(9)
    else None
  }

  datatype StringScan = StringScan(ok: bool, str: bytes, rest: bytes)

  /** Reads a string up to its closing `quote`; `str` is what has been read so far. */
  function ScanString(quote: byte, str: bytes, rest: bytes): (r: StringScan)
    ensures |r.rest| <= |rest|
    decreases |rest|
  {
    if rest == [] then StringScan(false, str, [])
    else if rest[0] == quote then StringScan(true, str, rest[1..])
    else if rest[0] == '\\' as int then
      if rest[1..] == [] then StringScan(false, str, [])
      else if rest[1] == 'u' as int then
        var u := ReadUnicode(4, 0, rest[2..]);
        if !u.ok then StringScan(false, str, u.rest)
        else ScanString(quote, str + Utf8(u.value), u.rest)
      else if Unescape(rest[1]).None? then StringScan(false, str, rest[2..])
      else ScanString(quote, str + [Unescape(rest[1]).value], rest[2..])
    else ScanString(quote, str + [rest[0]], rest[1..])
  }

  /** Where ReadNumber stands: `ch` is the character under inspection, already consumed in the
      first round and merely peeked at later on. */
  datatype NumberScan = NumberScan(
    first: bool, ch: int, str: bytes, dot: bool, exponent: bool, zero: bool, rest: bytes)
  {
    predicate Consistent() {
      -1 <= ch < 256 && (!first ==> ch == Head(rest))
    }

    /** Bytes not inspected yet, counting `ch`. */
    function Size(): nat {
      |rest| + if first then 1 else 0
    }
  }

  function Head(rest: bytes): int {
    if rest == [] then -1 else rest[0]
  }

  predicate EndsNumber(ch: int) {
    ch == -1 || ch == '}' as int || ch == ']' as int || ch == ',' as int || IsSpace(ch)
  }

  /** Characters ReadNumber gives up on. */
  predicate BreaksNumber(n: NumberScan) {
    || (n.ch == '.' as int && (n.dot || n.exponent))
    || (IsDigit(n.ch) && !(n.ch == '0' as int && n.first) && n.zero && !n.dot)
  }

  /** One round of the loop. Characters that mean nothing in a number are passed over. */
  function AdvanceNumber(n: NumberScan): (r: NumberScan)
    requires n.Consistent() && !EndsNumber(n.ch)
    ensures r.Consistent() && !r.first && r.Size() < n.Size()
  {
    var kept := n.ch == '.' as int || n.ch == 'e' as int || n.ch == 'E' as int || IsDigit(n.ch);
    var rest := if n.first then n.rest else n.rest[1..];
    NumberScan(false, Head(rest),
               if kept then n.str + [n.ch as byte] else n.str,
               n.dot || n.ch == '.' as int,
               n.exponent || n.ch == 'e' as int || n.ch == 'E' as int,
               n.zero || (n.ch == '0' as int && n.first),
               rest)
  }

  datatype NumberResult = NumberResult(ok: bool, scan: NumberScan)

  function ScanNumber(n: NumberScan): (r: NumberResult)
    requires n.Consistent()
    ensures |r.scan.rest| <= |n.rest|
    decreases n.Size()
  {
    if EndsNumber(n.ch) then NumberResult(|n.str| > 0, n)
    else if BreaksNumber(n) then NumberResult(false, n)
    else ScanNumber(AdvanceNumber(n))
  }

  /** The value strtoll returns, clamped when the text is out of range. */
  function ClampInt64(v: int): int {
    if v < INT64_MIN then INT64_MIN else if v > INT64_MAX then INT64_MAX else v
  }

  function StartNumber(initial: byte, rest: bytes): (n: NumberScan)
    ensures n.Consistent() && |n.rest| <= |rest|
  {
    if initial == MINUS then
      NumberScan(true, Head(rest), [MINUS], false, false, false, if rest == [] then [] else rest[1..])
    else
      NumberScan(true, initial, [], false, false, false, rest)
  }

  function ReadNumber(s: ReaderState, initial: byte): (r: Outcome)
    ensures |r.state.rest| <= |s.rest|
  {
    var n := ScanNumber(StartNumber(initial, s.rest));
    var s1 := s.(str := n.scan.str, rest := n.scan.rest);
    if !n.ok then Outcome(false, s1)
    else if n.scan.dot || n.scan.exponent then Outcome(true, s1.(token := FloatToken))
    else
      var v := IntValue(n.scan.str);
      Outcome(INT64_MIN <= v <= INT64_MAX, s1.(token := IntegerToken, num := ClampInt64(v)))
  }

  function ReadString(s: ReaderState, initial: byte): (r: Outcome)
    ensures |r.state.rest| <= |s.rest|
  {
    if initial != '"' as int && initial != '\'' as int then
      Outcome(false, s.(str := []))
    else
      var scan := ScanString(initial, [], s.rest);
      Outcome(scan.ok, s.(str := scan.str, rest := scan.rest))
  }

  function ReadKeyword(s: ReaderState, keyword: bytes): (r: Outcome)
    requires keyword != []
    ensures |r.state.rest| <= |s.rest|
  {
    var k := MatchKeyword(keyword[1..], s.rest);
    Outcome(k.ok, s.(rest := k.rest))
  }

  const NULL_TEXT: bytes := ['n' as int, 'u' as int, 'l' as int, 'l' as int]
  const TRUE_TEXT: bytes := ['t' as int, 'r' as int, 'u' as int, 'e' as int]
  const FALSE_TEXT: bytes := ['f' as int, 'a' as int, 'l' as int, 's' as int, 'e' as int]

  // ---------- the automaton ----------

  function ReadValue(s: ReaderState, initial: byte): (r: Outcome)
    ensures |r.state.rest| <= |s.rest|
  {
    if initial == '{' as int then
      Outcome(true, s.(stack := s.stack + [s.mode], token := StartObjectToken, mode := ObjectMode))
    else if initial == '[' as int then
      Outcome(true, s.(stack := s.stack + [s.mode], token := StartArrayToken, mode := ArrayMode))
    else if initial == '"' as int || initial == '\'' as int then
      ReadString(s.(token := StringToken), initial)
    else if initial == MINUS || IsDigit(initial) then
      ReadNumber(s, initial)
    else if initial == 'n' as int then
      ReadKeyword(s.(token := NullToken), NULL_TEXT)
    else if initial == 't' as int then
      ReadKeyword(s.(token := BooleanToken, flag := true), TRUE_TEXT)
    else if initial == 'f' as int then
      ReadKeyword(s.(token := BooleanToken, flag := false), FALSE_TEXT)
    else
      Outcome(false, s)
  }

  function PopMode(s: ReaderState): (r: Outcome)
    ensures r.state.rest == s.rest
  {
    if s.stack == [] then Outcome(false, s)
    else Outcome(true, s.(mode := s.stack[|s.stack| - 1], stack := s.stack[..|s.stack| - 1]))
  }

  /** Reads a property name whose first character is `ch`, and the colon behind it. */
  function ReadPropertyName(s: ReaderState, ch: byte): (r: Outcome)
    ensures |r.state.rest| <= |s.rest|
  {
    var name := ReadString(s.(token := PropertyNameToken), ch);
    if !name.ok then name
    else
      match SkipWhitespace(name.state.rest)
      case Exhausted => Outcome(false, name.state.(rest := []))
      case Found(colon, rest) => Outcome(colon == ':' as int, name.state.(rest := rest))
  }

  function NextInArray(s: ReaderState, ch: byte): (r: Outcome)
    ensures |r.state.rest| <= |s.rest|
  {
    if ch == ']' as int then PopMode(s.(token := EndArrayToken))
    else if s.token == StartArrayToken then ReadValue(s, ch)
    else if ch != ',' as int then Outcome(false, s)
    else
      match SkipWhitespace(s.rest)
      case Exhausted => Outcome(false, s.(rest := []))
      case Found(first, rest) => ReadValue(s.(rest := rest), first)
  }

  function NextInObject(s: ReaderState, ch: byte): (r: Outcome)
    ensures |r.state.rest| <= |s.rest|
  {
    if s.token == PropertyNameToken then ReadValue(s, ch)
    else if ch == '}' as int then PopMode(s.(token := EndObjectToken))
    else if s.token == StartObjectToken then ReadPropertyName(s, ch)
    else if ch != ',' as int then Outcome(false, s)
    else
      match SkipWhitespace(s.rest)
      case Exhausted => Outcome(false, s.(rest := []))
      case Found(first, rest) => ReadPropertyName(s.(rest := rest), first)
  }

  /** JsonReader::Next. A call that succeeds uses up at least one byte. */
  function Next(s: ReaderState): (r: Outcome)
    ensures |r.state.rest| <= |s.rest|
    ensures r.ok ==> |r.state.rest| < |s.rest|
  {
    match SkipWhitespace(s.rest)
    case Exhausted => Outcome(false, s.(rest := []))
    case Found(ch, rest) =>
      var s1 := s.(rest := rest);
      match s.mode
      case DocumentStart => ReadValue(s1, ch)
      case ArrayMode => NextInArray(s1, ch)
      case ObjectMode => NextInObject(s1, ch)
  }

  /** The current token with its value. */
  function EventOf(s: ReaderState): Event {
    match s.token
    case StartArrayToken => StartArray
    case EndArrayToken => EndArray
    case StartObjectToken => StartObject
    case EndObjectToken => EndObject
    case PropertyNameToken => PropertyName(s.str)
    case StringToken => String(s.str)
    case IntegerToken => Integer(s.num, s.str)
    case FloatToken => Float(s.str)
    case BooleanToken => Boolean(s.flag)
    case _ => Null
  }

  /** Everything Next returns before it first fails. */
  function Events(s: ReaderState): seq<Event>
    decreases |s.rest|
  {
    var r := Next(s);
    if r.ok then [EventOf(r.state)] + Events(r.state) else []
  }
}
