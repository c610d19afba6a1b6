/** The hex dump of src/base/common.cc: FormatHex and its reader ParseHex. */
module HexCodec {
  import opened Base

  /** kHexChars */
  function HexChar(nibble: int): byte
    requires 0 <= nibble < 16
  {
    if nibble < 10 then '0' as int + nibble else 'a' as int + (nibble - 10)
  }

  /** kHexValues: -1 for every byte that is not a hex digit. */
  function HexValue(c: byte): int {
    if '0' as int <= c <= '9' as int then c - '0' as int
    else if 'A' as int <= c <= 'F' as int then c - 'A' as int + 10
    else if 'a' as int <= c <= 'f' as int then c - 'a' as int + 10
    else -1
  }

  predicate IsBlank(c: byte) {
    c == '\t' as int || c == '\r' as int || c == '\n' as int || c == ' ' as int
  }

  function HexPair(b: byte): bytes {
    [HexChar(b / 16), HexChar(b % 16)]
  }

  /** The separator written once `line_position` has been advanced to `position`. */
  function Separator(position: nat): bytes {
    (if position == 8 then [' ' as int] else []) +
    (if position == 16 then ['\n' as int] else [' ' as int])
  }

  function NextPosition(position: nat): nat {
    if position + 1 == 16 then 0 else position + 1
  }

  /** The text FormatHex writes for `data` from line position `position` on. */
  function HexText(data: bytes, position: nat): bytes {
    if data == [] then []
    else if |data| == 1 then HexPair(data[0])
    else HexPair(data[0]) + (Separator(position + 1) + HexText(data[1..], NextPosition(position)))
  }

  datatype Parsed = Parsed(ok: bool, out: bytes)

  predicate AtEnd(s: bytes) {
    s == [] || s[0] == 0
  }

  /** What ParseHex does with C string `s` when its destination already holds `out`. */
  function HexParse(s: bytes, out: bytes): Parsed
  {
    if AtEnd(s) then Parsed(true, out)
    else if IsBlank(s[0]) then HexParse(s[1..], out)
    else if AtEnd(s[1..]) then Parsed(false, out)
    else if HexValue(s[0]) == -1 || HexValue(s[1]) == -1 then Parsed(false, out)
    else HexParse(s[2..], out + [HexValue(s[0]) * 16 + HexValue(s[1])])
  }

  method FormatHex(data: bytes) returns (result: bytes)
    ensures result == HexText(data, 0)
  {
    result := [];
    var linePosition := 0;
    var p := 0;
    while p < |data|
      invariant p <= |data|
      invariant result + HexText(data[p..], linePosition) == HexText(data, 0)
    {
      ghost var before, position := result, linePosition;
      result := result + [HexChar(data[p] / 16)];
      result := result + [HexChar(data[p] % 16)];
      assert result == before + HexPair(data[p]);
      if p + 1 < |data| {
        linePosition := linePosition + 1;
        if linePosition == 8 {
          result := result + [' ' as int];
        }
        if linePosition == 16 {
          result := result + ['\n' as int];
          linePosition := 0;
        } else {
          result := result + [' ' as int];
        }
        assert result == before + HexPair(data[p]) + Separator(position + 1);
      }
      UnfoldHexText(before, data, p, position);
      p := p + 1;
    }
    assert result + [] == result;
  }

  lemma UnfoldHexText(before: bytes, data: bytes, p: nat, position: nat)
    requires p < |data|
    ensures before + HexText(data[p..], position) ==
      if p + 1 < |data|
        then before + HexPair(data[p]) + Separator(position + 1) + HexText(data[p + 1..], NextPosition(position))
        else before + HexPair(data[p]) + HexText(data[p + 1..], NextPosition(position))
  {
    assert data[p..][1..] == data[p + 1..];
    var rest := HexText(data[p + 1..], NextPosition(position));
    if p + 1 < |data| {
      assert HexText(data[p..], position) == HexPair(data[p]) + (Separator(position + 1) + rest);
    } else {
      assert HexText(data[p..], position) == HexPair(data[p]);
      assert rest == [];
    }
  }

  method ParseHex(str: bytes, destination: bytes) returns (ok: bool, out: bytes)
    ensures Parsed(ok, out) == HexParse(str, destination)
  {
    out := destination;
    var p := 0;
    while p < |str| && str[p] != 0
      invariant p <= |str|
      invariant HexParse(str[p..], out) == HexParse(str, destination)
    {
      if IsBlank(str[p]) {
        p := p + 1;
        assert str[p - 1..][1..] == str[p..];
        continue;
      }
      var nibble1 := HexValue(str[p]);
      p := p + 1;
      assert str[p - 1..][1..] == str[p..];
      if !(p < |str| && str[p] != 0) {
        return false, out;
      }
      var nibble2 := HexValue(str[p]);
      if nibble1 == -1 || nibble2 == -1 {
        return false, out;
      }
      out := out + [nibble1 * 16 + nibble2];
      p := p + 1;
      assert str[p - 2..][2..] == str[p..];
    }
    return true, out;
  }

  lemma SkipSeparator(position: nat, t: bytes, out: bytes)
    ensures HexParse(Separator(position) + t, out) == HexParse(t, out)
  {
    var s := Separator(position);
    assert (s + t)[1..] == s[1..] + t;
    if |s| == 2 {
      assert (s[1..] + t)[1..] == t;
    } else {
      assert s[1..] + t == t;
    }
  }

  lemma ReadPair(b: byte, t: bytes, out: bytes)
    ensures HexParse(HexPair(b) + t, out) == HexParse(t, out + [b])
  {
    var s := HexPair(b) + t;
    assert s[2..] == t;
    assert HexValue(HexChar(b / 16)) == b / 16 && HexValue(HexChar(b % 16)) == b % 16;
    assert s[1..] != [] && s[1..][0] == s[1];
  }

  /** Dumped bytes are read back exactly, at any line position, whatever text follows. */
  lemma {:induction false} HexRoundTripThen(data: bytes, position: nat, t: bytes, out: bytes)
    ensures HexParse(HexText(data, position) + t, out) == HexParse(t, out + data)
  {
    if data == [] {
      assert HexText(data, position) + t == t && out + data == out;
    } else if |data| == 1 {
      ReadPair(data[0], t, out);
      assert out + [data[0]] == out + data;
    } else {
      var tail := HexText(data[1..], NextPosition(position));
      Assoc(HexPair(data[0]), Separator(position + 1) + tail, t);
      Assoc(Separator(position + 1), tail, t);
      ReadPair(data[0], Separator(position + 1) + (tail + t), out);
      SkipSeparator(position + 1, tail + t, out + [data[0]]);
      HexRoundTripThen(data[1..], NextPosition(position), t, out + [data[0]]);
      Assoc(out, [data[0]], data[1..]);
      assert [data[0]] + data[1..] == data;
    }
  }

  function Concat(parts: seq<bytes>): bytes {
    if parts == [] then [] else parts[0] + Concat(parts[1..])
  }

  /** The dumps of consecutive chunks, written one after the other. */
  function HexTexts(chunks: seq<bytes>): bytes {
    if chunks == [] then [] else HexText(chunks[0], 0) + HexTexts(chunks[1..])
  }

  /** However the bytes are cut into separately dumped chunks, ParseHex of the joined dumps
      appends exactly the bytes. */
  lemma {:induction false} HexChunksRoundTrip(chunks: seq<bytes>, out: bytes)
    ensures HexParse(HexTexts(chunks), out) == Parsed(true, out + Concat(chunks))
  {
    if chunks == [] {
    } else {
      HexRoundTripThen(chunks[0], 0, HexTexts(chunks[1..]), out);
      HexChunksRoundTrip(chunks[1..], out + chunks[0]);
      var rest := Concat(chunks[1..]);
      assert Concat(chunks) == chunks[0] + rest;
      assert (out + chunks[0]) + rest == out + (chunks[0] + rest);
    }
  }
}
