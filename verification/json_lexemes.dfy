/** Each piece of text the writer produces is read back as the value it stands for, whatever
    follows it. */
module JsonLexemes {
  import opened Base
  import opened Decimal
  import opened HexCodec
  import opened JsonTokens
  import opened JsonReaderSpec
  import opened JsonWriterSpec

  predicate AllSpace(s: bytes) {
    forall i :: 0 <= i < |s| ==> IsSpace(s[i])
  }

  lemma {:induction false} SkipBlank(pad: bytes, x: bytes)
    requires AllSpace(pad) && x != [] && !IsSpace(x[0])
    ensures SkipWhitespace(pad + x) == Found(x[0], x[1..])
  {
    if pad == [] {
      assert pad + x == x;
    } else {
      assert (pad + x)[1..] == pad[1..] + x;
      SkipBlank(pad[1..], x);
    }
  }

  lemma {:induction false} SkipOnlyBlank(pad: bytes)
    requires AllSpace(pad)
    ensures SkipWhitespace(pad) == Exhausted
  {
    if pad != [] {
      SkipOnlyBlank(pad[1..]);
    }
  }

  // ---------- strings ----------

  lemma ReadHexEscape(acc: bytes, ch: byte, x: bytes)
    requires 0 < ch < ' ' as int
    ensures ScanString(QUOTE, acc, ([BACKSLASH, 'u' as int, '0' as int, '0' as int] + HexPair(ch)) + x)
         == ScanString(QUOTE, acc + [ch], x)
  {
    var text := ([BACKSLASH, 'u' as int, '0' as int, '0' as int] + HexPair(ch)) + x;
    var a, b := HexChar(ch / 16), HexChar(ch % 16);
    assert HexValue(a) == ch / 16 && HexValue(b) == ch % 16;
    var r2, r3, r4, r5 := text[2..], text[3..], text[4..], text[5..];
    assert r2[1..] == r3 && r3[1..] == r4 && r4[1..] == r5 && r5[1..] == x;
    assert ReadUnicode(0, ch, x) == Unicode(true, ch, x);
    assert ReadUnicode(1, ch / 16, r5) == Unicode(true, ch, x);
    assert ReadUnicode(2, 0, r4) == Unicode(true, ch, x);
    assert ReadUnicode(3, 0, r3) == Unicode(true, ch, x);
    assert ReadUnicode(4, 0, r2) == Unicode(true, ch, x);
    assert Utf8(ch) == [ch];
  }

  lemma ReadEscapedChar(acc: bytes, ch: byte, x: bytes)
    requires ch != 0
    ensures ScanString(QUOTE, acc, EscapeChar(ch) + x) == ScanString(QUOTE, acc + [ch], x)
  {
    var text := EscapeChar(ch) + x;
    if ch == QUOTE || ch == BACKSLASH || (ch < ' ' as int && SpecialEscape(ch) != 0) {
      assert text[2..] == x;
      assert text[1] != 'u' as int;
      assert Unescape(text[1]) == Some(ch);
    } else if ch < ' ' as int {
      ReadHexEscape(acc, ch, x);
    } else {
      assert text[1..] == x;
    }
  }

  lemma {:induction false} ReadEscapedText(acc: bytes, str: bytes, x: bytes)
    ensures ScanString(QUOTE, acc, EscapeText(str) + x) == ScanString(QUOTE, acc + CStr(str), x)
    decreases |str|
  {
    if str == [] || str[0] == 0 {
      assert EscapeText(str) + x == x && acc + CStr(str) == acc;
    } else {
      var rest := EscapeText(str[1..]) + x;
      Assoc(EscapeChar(str[0]), EscapeText(str[1..]), x);
      ReadEscapedChar(acc, str[0], rest);
      ReadEscapedText(acc + [str[0]], str[1..], x);
      Assoc(acc, [str[0]], CStr(str[1..]));
    }
  }

  /** Escaping and unescaping any string, up to its first NUL, is the identity. */
  lemma StringRoundTrip(str: bytes, x: bytes)
    ensures RawString(str)[0] == QUOTE
    ensures ScanString(QUOTE, [], RawString(str)[1..] + x) == StringScan(true, CStr(str), x)
  {
    assert RawString(str)[1..] == EscapeText(str) + [QUOTE];
    Assoc(EscapeText(str), [QUOTE], x);
    ReadEscapedText([], str, [QUOTE] + x);
    assert ([QUOTE] + x)[1..] == x;
    assert [] + CStr(str) == CStr(str);
  }

  // ---------- numbers ----------

  /** The state of the number loop after the digits `acc`, with `x` still to come. */
  function Midway(acc: bytes, zero: bool, x: bytes): NumberScan {
    NumberScan(false, Head(x), acc, false, false, zero, x)
  }

  lemma ScanDigit(acc: bytes, d: byte, x: bytes)
    requires IsDigit(d)
    ensures ScanNumber(Midway(acc, false, [d] + x)) == ScanNumber(Midway(acc + [d], false, x))
  {
    assert ([d] + x)[1..] == x;
    assert AdvanceNumber(Midway(acc, false, [d] + x)) == Midway(acc + [d], false, x);
  }

  lemma {:induction false} ScanDigits(acc: bytes, ds: bytes, x: bytes)
    requires AllDigits(ds)
    ensures ScanNumber(Midway(acc, false, ds + x)) == ScanNumber(Midway(acc + ds, false, x))
    decreases |ds|
  {
    if ds == [] {
      assert ds + x == x && acc + ds == acc;
    } else {
      var first, others := [ds[0]], ds[1..];
      assert ds == first + others;
      Assoc(first, others, x);
      Assoc(acc, first, others);
      ScanDigit(acc, ds[0], others + x);
      ScanDigits(acc + first, others, x);
    }
  }

  lemma ScanFromFirst(acc: bytes, n: nat, x: bytes)
    ensures var ds := Digits(n);
      ScanNumber(NumberScan(true, ds[0], acc, false, false, false, ds[1..] + x))
      == ScanNumber(Midway(acc + ds, ds[0] == '0' as int, x))
  {
    var ds := Digits(n);
    var start := NumberScan(true, ds[0], acc, false, false, false, ds[1..] + x);
    var zero := ds[0] == '0' as int;
    assert AdvanceNumber(start) == Midway(acc + [ds[0]], zero, ds[1..] + x);
    if zero {
      assert ds[1..] + x == x && acc + [ds[0]] == acc + ds;
    } else {
      ScanDigits(acc + [ds[0]], ds[1..], x);
      assert acc + [ds[0]] + ds[1..] == acc + ds;
    }
  }

  /** Behind a number's digits the loop ends at once, or uses up at least one character more. */
  lemma StopsOrSwallows(acc: bytes, zero: bool, x: bytes)
    requires acc != []
    ensures var r := ScanNumber(Midway(acc, zero, x));
      if EndsNumber(Head(x)) then r == NumberResult(true, Midway(acc, zero, x)) else !r.ok || |r.scan.rest| < |x|
  {
    var n := Midway(acc, zero, x);
    if !EndsNumber(Head(x)) && !BreaksNumber(n) {
      assert AdvanceNumber(n).rest == x[1..];
    }
  }

  /** The text of an integer, up to its last digit. */
  lemma ScanInteger(v: int64, rest: bytes, x: bytes) returns (zero: bool)
    requires rest == IntText(v)[1..] + x
    ensures IntText(v)[0] == MINUS || IsDigit(IntText(v)[0])
    ensures ScanNumber(StartNumber(IntText(v)[0], rest)) == ScanNumber(Midway(IntText(v), zero, x))
  {
    var text := IntText(v);
    IntRoundTrip(v);
    if v < 0 {
      var magnitude: nat := 0 - v as int;
      var ds := Digits(magnitude);
      zero := ds[0] == '0' as int;
      assert text[1..] == ds;
      assert (ds + x)[1..] == ds[1..] + x;
      assert StartNumber(text[0], rest) == NumberScan(true, ds[0], [MINUS], false, false, false, ds[1..] + x);
      ScanFromFirst([MINUS], magnitude, x);
    } else {
      zero := text[0] == '0' as int;
      ScanFromFirst([], v, x);
      assert [] + text == text;
    }
  }

  /** A 64-bit integer printed is read back, and what follows is left alone, exactly if what
      follows ends a number. Anything else is swallowed at least in part, or refused. */
  lemma NumberRoundTrip(s: ReaderState, v: int64, x: bytes)
    requires s.rest == IntText(v)[1..] + x
    ensures IntText(v)[0] == MINUS || IsDigit(IntText(v)[0])
    ensures var r := ReadNumber(s, IntText(v)[0]);
      && (r == Outcome(true, s.(str := IntText(v), token := IntegerToken, num := v, rest := x))
          <==> EndsNumber(Head(x)))
      && (!EndsNumber(Head(x)) ==> !r.ok || |r.state.rest| < |x|)
  {
    var zero := ScanInteger(v, s.rest, x);
    IntRoundTrip(v);
    StopsOrSwallows(IntText(v), zero, x);
  }

  // ---------- keywords ----------

  lemma {:induction false} KeywordRoundTrip(word: bytes, x: bytes)
    ensures MatchKeyword(word, word + x) == Keyword(true, x)
  {
    if word == [] {
      assert word + x == x;
    } else {
      assert (word + x)[1..] == word[1..] + x;
      KeywordRoundTrip(word[1..], x);
    }
  }
}
