/** Reading back single properties, flags and options out of the tokens of a list of writer
    calls. */
module PacketFeed {
  import opened Base
  import opened JsonTokens
  import opened JsonWriterSpec
  import opened JsonRoundTrip
  import opened JsonTrees
  import opened EventViews
  import opened Wire
  import opened IpText
  import opened TcpOptions
  import opened PacketTables
  import opened PacketFormat
  import opened PacketCalls

  /** The tokens of the calls from the `k`-th on, and `rest` behind them. */
  function Feed(cs: seq<Call>, k: nat, rest: seq<Event>): seq<Event>
    decreases |cs| - k
  {
    if k >= |cs| then rest
    else if IsPack(cs[k]) then Feed(cs, k + 1, rest)
    else [CallEvent(cs[k])] + Feed(cs, k + 1, rest)
  }

  lemma FeedStep(cs: seq<Call>, k: nat, rest: seq<Event>, c: Call)
    requires k < |cs| && cs[k] == c
    ensures Feed(cs, k, rest)
         == if IsPack(c) then Feed(cs, k + 1, rest) else [CallEvent(c)] + Feed(cs, k + 1, rest)
  {
  }

  lemma {:induction false} FeedSuffix(a: seq<Call>, b: seq<Call>, k: nat, rest: seq<Event>)
    ensures Feed(a + b, |a| + k, rest) == Feed(b, k, rest)
    decreases |b| - k
  {
    if k < |b| {
      FeedStep(b, k, rest, b[k]);
      FeedStep(a + b, |a| + k, rest, b[k]);
      FeedSuffix(a, b, k + 1, rest);
    }
  }

  lemma {:induction false} FeedConcatFrom(a: seq<Call>, b: seq<Call>, k: nat, rest: seq<Event>)
    requires k <= |a|
    ensures Feed(a + b, k, rest) == Feed(a, k, Feed(b, 0, rest))
    decreases |a| - k
  {
    if k < |a| {
      FeedStep(a, k, Feed(b, 0, rest), a[k]);
      FeedStep(a + b, k, rest, a[k]);
      FeedConcatFrom(a, b, k + 1, rest);
    } else {
      FeedSuffix(a, b, 0, rest);
    }
  }

  lemma FeedConcat(a: seq<Call>, b: seq<Call>, rest: seq<Event>)
    ensures Feed(a + b, 0, rest) == Feed(a, 0, Feed(b, 0, rest))
  {
    FeedConcatFrom(a, b, 0, rest);
  }

  lemma {:induction false} FeedIsCallEvents(cs: seq<Call>, k: nat, rest: seq<Event>)
    requires k <= |cs|
    ensures Feed(cs, k, rest) == CallEvents(cs[k..]) + rest
    decreases |cs| - k
  {
    if k < |cs| {
      FeedIsCallEvents(cs, k + 1, rest);
      assert cs[k..] == [cs[k]] + cs[k + 1..];
      CallEventsConcat([cs[k]], cs[k + 1..]);
      if IsPack(cs[k]) {
        assert [cs[k]][..0] == [];
        assert CallEvents([cs[k]]) == [] + [];
      } else {
        CallEventsOne(cs[k]);
        Assoc([CallEvent(cs[k])], CallEvents(cs[k + 1..]), rest);
      }
      assert [] + CallEvents(cs[k + 1..]) == CallEvents(cs[k + 1..]);
    } else {
      assert cs[k..] == [] && [] + rest == rest;
    }
  }

  // ---------- the queue as seen by the proofs below ----------

  /** `pending` is what the calls from the `k`-th on stand for, and `rest`. Kept under a lock, so
      that only the step lemmas unfold Feed. */
  ghost predicate Queue(pending: seq<Event>, cs: seq<Call>, k: nat, rest: seq<Event>) {
    forall key: int {:trigger Unlock(key)} :: Unlock(key) ==> pending == Feed(cs, k, rest)
  }

  ghost predicate Unlock(key: int) {
    true
  }

  lemma Open(pending: seq<Event>, cs: seq<Call>, k: nat, rest: seq<Event>)
    requires Queue(pending, cs, k, rest)
    ensures pending == Feed(cs, k, rest)
  {
    assert Unlock(0);
  }

  lemma Close(cs: seq<Call>, k: nat, rest: seq<Event>)
    ensures Queue(Feed(cs, k, rest), cs, k, rest)
  {
  }

  /** Two lists of calls, one behind the other. */
  lemma Split(pending: seq<Event>, a: seq<Call>, b: seq<Call>, rest: seq<Event>) returns (mid: seq<Event>)
    requires Queue(pending, a + b, 0, rest)
    ensures Queue(pending, a, 0, mid) && Queue(mid, b, 0, rest)
  {
    Open(pending, a + b, 0, rest);
    mid := Feed(b, 0, rest);
    FeedConcat(a, b, rest);
    Close(a, 0, mid);
    Close(b, 0, rest);
  }

  lemma SplitThree(pending: seq<Event>, a: seq<Call>, b: seq<Call>, c: seq<Call>, rest: seq<Event>)
      returns (r1: seq<Event>, r2: seq<Event>)
    requires Queue(pending, a + b + c, 0, rest)
    ensures Queue(pending, a, 0, r1) && Queue(r1, b, 0, r2) && Queue(r2, c, 0, rest)
  {
    r2 := Split(pending, a + b, c, rest);
    r1 := Split(pending, a, b, r2);
  }

  lemma SplitFour(pending: seq<Event>, a: seq<Call>, b: seq<Call>, c: seq<Call>, d: seq<Call>, rest: seq<Event>)
      returns (r1: seq<Event>, r2: seq<Event>, r3: seq<Event>)
    requires Queue(pending, a + b + c + d, 0, rest)
    ensures Queue(pending, a, 0, r1) && Queue(r1, b, 0, r2) && Queue(r2, c, 0, r3) && Queue(r3, d, 0, rest)
  {
    r3 := Split(pending, a + b + c, d, rest);
    r1, r2 := SplitThree(pending, a, b, c, r3);
  }

  lemma Join(pending: seq<Event>, a: seq<Call>, mid: seq<Event>, b: seq<Call>, rest: seq<Event>)
    requires Queue(pending, a, 0, mid) && Queue(mid, b, 0, rest)
    ensures Queue(pending, a + b, 0, rest)
  {
    Open(pending, a, 0, mid);
    Open(mid, b, 0, rest);
    FeedConcat(a, b, rest);
    Close(a + b, 0, rest);
  }

  lemma Done(pending: seq<Event>, cs: seq<Call>, k: nat, rest: seq<Event>)
    requires Queue(pending, cs, k, rest) && k >= |cs|
    ensures pending == rest
  {
    Open(pending, cs, k, rest);
  }

  /** Layout hints are no tokens. */
  lemma SkipPack(pending: seq<Event>, cs: seq<Call>, k: nat, rest: seq<Event>)
    requires k < |cs| && IsPack(cs[k]) && Queue(pending, cs, k, rest)
    ensures Queue(pending, cs, k + 1, rest)
  {
    Open(pending, cs, k, rest);
    Close(cs, k + 1, rest);
  }

  lemma NameEvent(name: string)
    ensures CallEvent(Name(name)) == PropertyName(Ascii(name))
    ensures CallEvent(Word(name)) == String(Ascii(name))
  {
    AsciiIsCStr(name);
  }

  /** One call that is not a layout hint is one token. */
  lemma Step(v: View, cs: seq<Call>, k: nat, rest: seq<Event>) returns (w: View)
    requires k < |cs| && !IsPack(cs[k]) && Queue(v.pending, cs, k, rest)
    ensures NextView(v) == Some(w) && w == Show(v, CallEvent(cs[k]), w.pending)
    ensures Queue(w.pending, cs, k + 1, rest)
  {
    Open(v.pending, cs, k, rest);
    Close(cs, k + 1, rest);
    w := Show(v, CallEvent(cs[k]), Feed(cs, k + 1, rest));
    assert v.pending[1..] == Feed(cs, k + 1, rest);
  }

  /** The last token of a list. */
  lemma StepLast(v: View, cs: seq<Call>, k: nat, rest: seq<Event>) returns (w: View)
    requires k + 1 == |cs| && !IsPack(cs[k]) && Queue(v.pending, cs, k, rest)
    ensures NextView(v) == Some(w) && w == Show(v, CallEvent(cs[k]), rest)
  {
    w := Step(v, cs, k, rest);
    Done(w.pending, cs, k + 1, rest);
  }

  /** A bracket. */
  lemma StepBracket(v: View, cs: seq<Call>, k: nat, rest: seq<Event>, c: Call) returns (w: View)
    requires k < |cs| && cs[k] == c && Queue(v.pending, cs, k, rest)
    requires c.CBeginObject? || c.CEndObject? || c.CBeginArray? || c.CEndArray?
    ensures ExpectToken(v, TokenOf(CallEvent(c))) == Some(w) && Queue(w.pending, cs, k + 1, rest)
  {
    w := Step(v, cs, k, rest);
  }

  /** A list that is one bracket. */
  lemma OnlyBracket(v: View, rest: seq<Event>, c: Call) returns (w: View)
    requires Queue(v.pending, [c], 0, rest)
    requires c.CBeginObject? || c.CEndObject? || c.CBeginArray? || c.CEndArray?
    ensures ExpectToken(v, TokenOf(CallEvent(c))) == Some(w) && w.pending == rest
  {
    w := StepLast(v, [c], 0, rest);
  }

  lemma StepName(v: View, cs: seq<Call>, k: nat, rest: seq<Event>, name: string) returns (w: View)
    requires k < |cs| && cs[k] == Name(name) && Queue(v.pending, cs, k, rest)
    ensures ExpectName(v, name) == Some(w) && Queue(w.pending, cs, k + 1, rest)
    ensures AtName(w, name)
  {
    NameEvent(name);
    w := Step(v, cs, k, rest);
  }

  lemma StepInt(v: View, cs: seq<Call>, k: nat, rest: seq<Event>, value: int64, lo: int, hi: int) returns (w: View)
    requires k < |cs| && cs[k] == CInteger(value) && Queue(v.pending, cs, k, rest) && lo <= value <= hi
    ensures ExpectInt(v, lo, hi) == Some((value, w)) && Queue(w.pending, cs, k + 1, rest)
  {
    w := Step(v, cs, k, rest);
  }

  /** A name, perhaps a layout hint, and a number. */
  lemma StepProperty(v: View, cs: seq<Call>, k: nat, rest: seq<Event>,
                     name: string, packed: bool, value: int64, lo: int, hi: int) returns (w: View)
    requires Queue(v.pending, cs, k, rest) && lo <= value <= hi
    requires k + (if packed then 2 else 1) < |cs| && cs[k] == Name(name)
    requires packed ==> cs[k + 1] == CBeginPack
    requires cs[k + (if packed then 2 else 1)] == CInteger(value)
    ensures ExpectProperty(v, name, lo, hi) == Some((value, w))
    ensures Queue(w.pending, cs, k + (if packed then 3 else 2), rest)
  {
    var u := StepName(v, cs, k, rest, name);
    if packed {
      SkipPack(u.pending, cs, k + 1, rest);
    }
    w := StepInt(u, cs, k + (if packed then 2 else 1), rest, value, lo, hi);
  }

  /** A table entry that can be written and looked up again. */
  predicate Named(t: Table, n: nat, value: byte)
    requires n <= 256
  {
    t(value).Some? && CStr(t(value).value) == t(value).value && Lookup(t, n, t(value).value) == Some(value)
  }

  lemma StepEnumProperty(v: View, cs: seq<Call>, k: nat, rest: seq<Event>,
                         name: string, packed: bool, t: Table, n: nat, value: byte) returns (w: View)
    requires Queue(v.pending, cs, k, rest) && n <= 256 && Named(t, n, value)
    requires k + (if packed then 2 else 1) < |cs| && cs[k] == Name(name)
    requires packed ==> cs[k + 1] == CBeginPack
    requires cs[k + (if packed then 2 else 1)] == Friendly(t, value)
    ensures ExpectEnumProperty(v, name, t, n) == Some((value, w))
    ensures Queue(w.pending, cs, k + (if packed then 3 else 2), rest)
  {
    var u := StepName(v, cs, k, rest, name);
    if packed {
      SkipPack(u.pending, cs, k + 1, rest);
    }
    w := Step(u, cs, k + (if packed then 2 else 1), rest);
  }

  lemma StepIp4Property(v: View, cs: seq<Call>, k: nat, rest: seq<Event>,
                        name: string, packed: bool, a: Ip4) returns (w: View)
    requires Queue(v.pending, cs, k, rest)
    requires k + (if packed then 2 else 1) < |cs| && cs[k] == Name(name)
    requires packed ==> cs[k + 1] == CBeginPack
    requires cs[k + (if packed then 2 else 1)] == CString(DottedQuad(a))
    ensures ExpectIp4Property(v, name) == Some((a, w))
    ensures Queue(w.pending, cs, k + (if packed then 3 else 2), rest)
  {
    var u := StepName(v, cs, k, rest, name);
    if packed {
      SkipPack(u.pending, cs, k + 1, rest);
    }
    DottedQuadNulFree(a);
    Ip4RoundTrip(a);
    w := Step(u, cs, k + (if packed then 2 else 1), rest);
  }

  // ---------- flags ----------

  lemma StepFlag(v: View, isSet: bool, name: string, bit: nat, t: FlagTable, mask: nat, rest: seq<Event>)
      returns (w: View)
    requires t(Ascii(name)) == Some(bit)
    requires Queue(v.pending, Optional(isSet, [Word(name)]), 0, rest)
    ensures TakeFlags(v, t, mask) == TakeFlags(w, t, if isSet then OrBit(mask, bit) else mask)
    ensures w.pending == rest
  {
    if isSet {
      NameEvent(name);
      w := StepLast(v, [Word(name)], 0, rest);
    } else {
      Done(v.pending, [], 0, rest);
      w := v;
    }
  }

  lemma StepFlagsEnd(v: View, t: FlagTable, mask: nat, rest: seq<Event>) returns (w: View)
    requires Queue(v.pending, [CEndArray], 0, rest)
    ensures TakeFlags(v, t, mask) == Some((mask, w)) && w.pending == rest
  {
    w := StepLast(v, [CEndArray], 0, rest);
  }

  lemma FlagNames()
    ensures IpFlag(Ascii("DF")) == Some(IP_DF) && IpFlag(Ascii("MF")) == Some(IP_MF)
    ensures TcpFlag(Ascii("FIN")) == Some(1) && TcpFlag(Ascii("SYN")) == Some(2)
    ensures TcpFlag(Ascii("RST")) == Some(4) && TcpFlag(Ascii("PSH")) == Some(8)
    ensures TcpFlag(Ascii("ACK")) == Some(16) && TcpFlag(Ascii("URG")) == Some(32)
  {
    AsciiAt("DF", 0);
    AsciiAt("MF", 0);
    AsciiAt("FIN", 0);
    AsciiAt("SYN", 0);
    AsciiAt("RST", 0);
    AsciiAt("PSH", 0);
    AsciiAt("ACK", 0);
    AsciiAt("URG", 0);
  }

  lemma JoinedFragment(frag: uint16)
    requires frag < 0x8000
    ensures var df := if HasBit(frag, IP_DF) then OrBit(0, IP_DF) else 0;
      var mask := if HasBit(frag, IP_MF) then OrBit(df, IP_MF) else df;
      JoinFragment(FragmentOffset(frag), mask) == frag
  {
    var q := frag / 0x2000;
    assert frag == q * 0x2000 + frag % 0x2000 && q < 4;
    assert frag / 0x4000 == q / 2;
  }

  lemma TakeIpFlags(v: View, frag: uint16, r1: seq<Event>, r2: seq<Event>, rest: seq<Event>)
      returns (w: View, mask: nat)
    requires frag < 0x8000
    requires Queue(v.pending, Optional(HasBit(frag, IP_DF), [Word("DF")]), 0, r1)
    requires Queue(r1, Optional(HasBit(frag, IP_MF), [Word("MF")]), 0, r2) && Queue(r2, [CEndArray], 0, rest)
    ensures TakeFlags(v, IpFlag, 0) == Some((mask, w)) && w.pending == rest
    ensures JoinFragment(FragmentOffset(frag), mask) == frag
  {
    FlagNames();
    var u1 := StepFlag(v, HasBit(frag, IP_DF), "DF", IP_DF, IpFlag, 0, r1);
    var m1 := if HasBit(frag, IP_DF) then OrBit(0, IP_DF) else 0;
    var u2 := StepFlag(u1, HasBit(frag, IP_MF), "MF", IP_MF, IpFlag, m1, r2);
    mask := if HasBit(frag, IP_MF) then OrBit(m1, IP_MF) else m1;
    w := StepFlagsEnd(u2, IpFlag, mask, rest);
    JoinedFragment(frag);
  }

  lemma ReadIpFlags(v: View, frag: uint16, rest: seq<Event>) returns (w: View, mask: nat)
    requires frag < 0x8000 && Queue(v.pending, IpFlagCalls(frag), 0, rest)
    ensures ExpectFlags(v, IpFlag) == Some((mask, w)) && w.pending == rest
    ensures JoinFragment(FragmentOffset(frag), mask) == frag
  {
    var df, mf := Optional(HasBit(frag, IP_DF), [Word("DF")]), Optional(HasBit(frag, IP_MF), [Word("MF")]);
    var r0, r1, r2 := SplitFour(v.pending, [CBeginArray], df, mf, [CEndArray], rest);
    var u := OnlyBracket(v, r0, CBeginArray);
    w, mask := TakeIpFlags(u, frag, r1, r2, rest);
  }

  /** The bits of `flags` from bit `low` on. */
  function HighBits(flags: byte, low: nat): nat
    requires low > 0
  {
    flags / low * low
  }

  lemma OrFresh(k: nat, bit: nat)
    requires bit in {1, 2, 4, 8, 16, 32}
    ensures OrBit(2 * k * bit, bit) == 2 * k * bit + bit
  {
    if bit == 1 {
      assert 2 * k / 1 % 2 == 0;
    } else if bit == 2 {
      assert 4 * k / 2 == 2 * k;
    } else if bit == 4 {
      assert 8 * k / 4 == 2 * k;
    } else if bit == 8 {
      assert 16 * k / 8 == 2 * k;
    } else if bit == 16 {
      assert 32 * k / 16 == 2 * k;
    } else {
      assert 64 * k / 32 == 2 * k;
    }
  }

  lemma HalveAgain(flags: byte, bit: nat)
    requires bit in {1, 2, 4, 8, 16, 32}
    ensures flags / (2 * bit) == flags / bit / 2
  {
    if bit == 1 {
    } else if bit == 2 {
      assert flags / 4 == flags / 2 / 2;
    } else if bit == 4 {
      assert flags / 8 == flags / 4 / 2;
    } else if bit == 8 {
      assert flags / 16 == flags / 8 / 2;
    } else if bit == 16 {
      assert flags / 32 == flags / 16 / 2;
    } else {
      assert flags / 64 == flags / 32 / 2;
    }
  }

  lemma TwiceHalf(h: nat, bit: nat)
    ensures h * (2 * bit) == 2 * h * bit && (2 * h + 1) * bit == 2 * h * bit + bit
  {
  }

  lemma OrNextBit(flags: byte, bit: nat)
    requires bit in {1, 2, 4, 8, 16, 32}
    ensures HighBits(flags, bit)
         == if HasBit(flags, bit) then OrBit(HighBits(flags, 2 * bit), bit) else HighBits(flags, 2 * bit)
  {
    var q := flags / bit;
    var h := q / 2;
    HalveAgain(flags, bit);
    OrFresh(h, bit);
    TwiceHalf(h, bit);
    assert HighBits(flags, 2 * bit) == 2 * h * bit;
    if q % 2 == 1 {
      assert q == 2 * h + 1;
    } else {
      assert q == 2 * h;
    }
  }

  lemma StepTcpFlag(v: View, flags: byte, bit: nat, name: string, rest: seq<Event>) returns (w: View)
    requires bit in {1, 2, 4, 8, 16, 32} && TcpFlag(Ascii(name)) == Some(bit)
    requires Queue(v.pending, FlagCall(flags, bit, name), 0, rest)
    ensures TakeFlags(v, TcpFlag, HighBits(flags, 2 * bit)) == TakeFlags(w, TcpFlag, HighBits(flags, bit))
    ensures w.pending == rest
  {
    OrNextBit(flags, bit);
    w := StepFlag(v, HasBit(flags, bit), name, bit, TcpFlag, HighBits(flags, 2 * bit), rest);
  }

  /** Where the tokens of each flag end. */
  lemma SplitFlags(pending: seq<Event>, flags: byte, rest: seq<Event>)
      returns (r0: seq<Event>, r1: seq<Event>, r2: seq<Event>, r3: seq<Event>, r4: seq<Event>, r5: seq<Event>,
               r6: seq<Event>)
    requires Queue(pending, TcpFlagCalls(flags), 0, rest)
    ensures Queue(pending, [CBeginArray], 0, r0) && Queue(r0, FlagCall(flags, 32, "URG"), 0, r1)
    ensures Queue(r1, FlagCall(flags, 16, "ACK"), 0, r2) && Queue(r2, FlagCall(flags, 8, "PSH"), 0, r3)
    ensures Queue(r3, FlagCall(flags, 4, "RST"), 0, r4) && Queue(r4, FlagCall(flags, 2, "SYN"), 0, r5)
    ensures Queue(r5, FlagCall(flags, 1, "FIN"), 0, r6) && Queue(r6, [CEndArray], 0, rest)
  {
    var a := [CBeginArray];
    var b := a + FlagCall(flags, 32, "URG");
    var c := b + FlagCall(flags, 16, "ACK");
    var d := c + FlagCall(flags, 8, "PSH");
    var e := d + FlagCall(flags, 4, "RST");
    var f := e + FlagCall(flags, 2, "SYN");
    r6 := Split(pending, f + FlagCall(flags, 1, "FIN"), [CEndArray], rest);
    r5 := Split(pending, f, FlagCall(flags, 1, "FIN"), r6);
    r4 := Split(pending, e, FlagCall(flags, 2, "SYN"), r5);
    r3 := Split(pending, d, FlagCall(flags, 4, "RST"), r4);
    r2 := Split(pending, c, FlagCall(flags, 8, "PSH"), r3);
    r1 := Split(pending, b, FlagCall(flags, 16, "ACK"), r2);
    r0 := Split(pending, a, FlagCall(flags, 32, "URG"), r1);
  }

  lemma TakeTcpFlags(v: View, flags: byte, r1: seq<Event>, r2: seq<Event>, r3: seq<Event>, r4: seq<Event>,
                     r5: seq<Event>, r6: seq<Event>, rest: seq<Event>) returns (w: View)
    requires Queue(v.pending, FlagCall(flags, 32, "URG"), 0, r1)
    requires Queue(r1, FlagCall(flags, 16, "ACK"), 0, r2) && Queue(r2, FlagCall(flags, 8, "PSH"), 0, r3)
    requires Queue(r3, FlagCall(flags, 4, "RST"), 0, r4) && Queue(r4, FlagCall(flags, 2, "SYN"), 0, r5)
    requires Queue(r5, FlagCall(flags, 1, "FIN"), 0, r6) && Queue(r6, [CEndArray], 0, rest)
    ensures TakeFlags(v, TcpFlag, HighBits(flags, 64)) == Some((HighBits(flags, 1), w)) && w.pending == rest
  {
    FlagNames();
    var v1 := StepTcpFlag(v, flags, 32, "URG", r1);
    var v2 := StepTcpFlag(v1, flags, 16, "ACK", r2);
    var v3 := StepTcpFlag(v2, flags, 8, "PSH", r3);
    var v4 := StepTcpFlag(v3, flags, 4, "RST", r4);
    var v5 := StepTcpFlag(v4, flags, 2, "SYN", r5);
    var v6 := StepTcpFlag(v5, flags, 1, "FIN", r6);
    w := StepFlagsEnd(v6, TcpFlag, HighBits(flags, 1), rest);
  }

  lemma SixBits(flags: byte)
    requires flags < 64
    ensures HighBits(flags, 64) == 0 && HighBits(flags, 1) == flags
  {
  }

  lemma ReadTcpFlags(v: View, flags: byte, rest: seq<Event>) returns (w: View)
    requires flags < 64 && Queue(v.pending, TcpFlagCalls(flags), 0, rest)
    ensures ExpectFlags(v, TcpFlag) == Some((flags as nat, w)) && w.pending == rest
  {
    var r0, r1, r2, r3, r4, r5, r6 := SplitFlags(v.pending, flags, rest);
    var u := OnlyBracket(v, r0, CBeginArray);
    w := TakeTcpFlags(u, flags, r1, r2, r3, r4, r5, r6, rest);
    SixBits(flags);
  }

  // ---------- TCP options ----------

  lemma OptionNames()
    ensures Named(TcpOptionName, TCP_OPTION_COUNT, TCPOPT_EOL) && TcpOptionName(TCPOPT_EOL) == Some(Ascii("EOL"))
    ensures Named(TcpOptionName, TCP_OPTION_COUNT, TCPOPT_NOP) && TcpOptionName(TCPOPT_NOP) == Some(Ascii("NOP"))
    ensures Named(TcpOptionName, TCP_OPTION_COUNT, TCPOPT_MAXSEG)
         && TcpOptionName(TCPOPT_MAXSEG) == Some(Ascii("maxSegmentSize"))
    ensures Named(TcpOptionName, TCP_OPTION_COUNT, TCPOPT_WINDOW)
         && TcpOptionName(TCPOPT_WINDOW) == Some(Ascii("windowScale"))
    ensures Named(TcpOptionName, TCP_OPTION_COUNT, TCPOPT_SACK_PERMITTED)
         && TcpOptionName(TCPOPT_SACK_PERMITTED) == Some(Ascii("sackPermitted"))
    ensures Named(TcpOptionName, TCP_OPTION_COUNT, TCPOPT_TIMESTAMP)
         && TcpOptionName(TCPOPT_TIMESTAMP) == Some(Ascii("timestamp"))
  {
    OptionInitials();
    LookupFrom(TcpOptionName, TCP_OPTION_COUNT, TCPOPT_EOL);
    LookupFrom(TcpOptionName, TCP_OPTION_COUNT, TCPOPT_NOP);
    LookupFrom(TcpOptionName, TCP_OPTION_COUNT, TCPOPT_MAXSEG);
    LookupFrom(TcpOptionName, TCP_OPTION_COUNT, TCPOPT_WINDOW);
    LookupFrom(TcpOptionName, TCP_OPTION_COUNT, TCPOPT_SACK_PERMITTED);
    LookupFrom(TcpOptionName, TCP_OPTION_COUNT, TCPOPT_TIMESTAMP);
    AsciiIsCStr("EOL");
    AsciiIsCStr("NOP");
    AsciiIsCStr("maxSegmentSize");
    AsciiIsCStr("windowScale");
    AsciiIsCStr("sackPermitted");
    AsciiIsCStr("timestamp");
  }

  /** The option names differ within their first two characters. */
  lemma OptionInitials()
    ensures forall i: nat, j: nat :: i < j < TCP_OPTION_COUNT && TcpOptionName(i).Some? ==>
      TcpOptionName(j) != TcpOptionName(i)
  {
    AsciiAt("EOL", 1);
    AsciiAt("NOP", 1);
    AsciiAt("maxSegmentSize", 1);
    AsciiAt("windowScale", 1);
    AsciiAt("sackPermitted", 1);
    AsciiAt("selectedAck", 1);
    AsciiAt("timestamp", 1);
    AsciiAt("EOL", 0);
    AsciiAt("NOP", 0);
    AsciiAt("maxSegmentSize", 0);
    AsciiAt("windowScale", 0);
    AsciiAt("sackPermitted", 0);
    AsciiAt("selectedAck", 0);
    AsciiAt("timestamp", 0);
  }

  /** An entry without a later namesake is found again. */
  lemma {:induction false} LookupFrom(t: Table, n: nat, i: nat)
    requires i < n <= 256 && t(i).Some? && forall j :: i < j < n ==> t(j) != t(i)
    ensures Lookup(t, n, t(i).value) == Some(i)
    decreases n
  {
    if n - 1 != i {
      LookupFrom(t, n - 1, i);
    }
  }

  lemma StepOptionType(v: View, cs: seq<Call>, k: nat, rest: seq<Event>, name: string, t: byte) returns (w: View)
    requires k < |cs| && cs[k] == Word(name) && Queue(v.pending, cs, k, rest)
    requires TcpOptionName(t) == Some(Ascii(name)) && Named(TcpOptionName, TCP_OPTION_COUNT, t)
    ensures ExpectEnum(v, TcpOptionName, TCP_OPTION_COUNT) == Some((t, w)) && Queue(w.pending, cs, k + 1, rest)
  {
    NameEvent(name);
    w := Step(v, cs, k, rest);
  }

  function OptionKind(o: TcpOption): byte {
    match o
    case EndOfList => TCPOPT_EOL
    case NoOperation => TCPOPT_NOP
    case MaxSegmentSize(_) => TCPOPT_MAXSEG
    case WindowScale(_) => TCPOPT_WINDOW
    case SackPermitted => TCPOPT_SACK_PERMITTED
    case Timestamp(_, _) => TCPOPT_TIMESTAMP
  }

  function OptionWord(o: TcpOption): string {
    match o
    case EndOfList => "EOL"
    case NoOperation => "NOP"
    case MaxSegmentSize(_) => "maxSegmentSize"
    case WindowScale(_) => "windowScale"
    case SackPermitted => "sackPermitted"
    case Timestamp(_, _) => "timestamp"
  }

  lemma ReadOptionType(v: View, o: TcpOption, rest: seq<Event>) returns (w: View)
    requires Queue(v.pending, OptionCalls(o), 1, rest)
    ensures ExpectEnum(v, TcpOptionName, TCP_OPTION_COUNT) == Some((OptionKind(o), w))
    ensures Queue(w.pending, OptionCalls(o), 2, rest)
  {
    OptionNames();
    w := StepOptionType(v, OptionCalls(o), 1, rest, OptionWord(o), OptionKind(o));
  }

  lemma ReadOptionValue(v: View, o: TcpOption, rest: seq<Event>) returns (w: View)
    requires Queue(v.pending, OptionCalls(o), 2, rest)
    ensures TakeOptionValue(v, OptionKind(o)) == Some((o, w))
    ensures Queue(w.pending, OptionCalls(o), |OptionCalls(o)| - 1, rest)
  {
    var cs := OptionCalls(o);
    match o
    case MaxSegmentSize(x) =>
      w := StepInt(v, cs, 2, rest, x, 0, 0xffff);
    case WindowScale(x) =>
      w := StepInt(v, cs, 2, rest, x, 0, 0xffff);
    case Timestamp(x, y) =>
      var u := StepInt(v, cs, 2, rest, x, 0, 0xffff_ffff);
      w := StepInt(u, cs, 3, rest, y, 0, 0xffff_ffff);
    case _ =>
      w := v;
  }

  /** One option, from behind its opening bracket up to its closing one. */
  lemma ReadOption(v: View, o: TcpOption, rest: seq<Event>) returns (u: View, w: View)
    requires Queue(v.pending, OptionCalls(o), 1, rest)
    ensures TakeOption(v) == Some((o, u)) && ExpectToken(u, EndArrayToken) == Some(w) && w.pending == rest
  {
    var u1 := ReadOptionType(v, o, rest);
    u := ReadOptionValue(u1, o, rest);
    w := StepLast(u, OptionCalls(o), |OptionCalls(o)| - 1, rest);
  }

  lemma {:induction false} FeedNotEmpty(cs: seq<Call>, k: nat, rest: seq<Event>)
    requires rest != []
    ensures Feed(cs, k, rest) != []
    decreases |cs| - k
  {
    if k < |cs| {
      FeedNotEmpty(cs, k + 1, rest);
    }
  }

  /** A list in front of the end of an array is not empty. */
  lemma QueueNotEmpty(pending: seq<Event>, cs: seq<Call>, rest: seq<Event>)
    requires Queue(pending, cs + [CEndArray], 0, rest)
    ensures pending != []
  {
    var mid := Split(pending, cs, [CEndArray], rest);
    Open(mid, [CEndArray], 0, rest);
    Open(pending, cs, 0, mid);
    FeedNotEmpty(cs, 0, mid);
  }

  /** The first element of the option array, closing bracket included. */
  lemma ReadFirstOption(v: View, o: TcpOption, others: seq<Call>, rest: seq<Event>)
      returns (v1: View, v2: View, v3: View)
    requires Queue(v.pending, OptionCalls(o) + (others + [CEndArray]), 0, rest)
    ensures NextView(v) == Some(v1) && v1.token == StartArrayToken
    ensures TakeOption(v1) == Some((o, v2)) && ExpectToken(v2, EndArrayToken) == Some(v3)
    ensures Queue(v3.pending, others + [CEndArray], 0, rest) && v3.pending != []
  {
    var r := Split(v.pending, OptionCalls(o), others + [CEndArray], rest);
    v1 := Step(v, OptionCalls(o), 0, r);
    v2, v3 := ReadOption(v1, o, r);
    QueueNotEmpty(r, others, rest);
  }

  /** The option array from the token in front of its first element on. */
  lemma {:induction false} ReadOptions(v: View, os: seq<TcpOption>, rest: seq<Event>) returns (w: View)
    requires Queue(v.pending, OptionListCalls(os) + [CEndArray], 0, rest)
    ensures NextView(v).Some? && TakeOptions(NextView(v).value) == Some((os, w)) && w.pending == rest
    decreases |os|
  {
    if os == [] {
      w := ReadNoOptions(v, rest);
    } else {
      var others := OptionListCalls(os[1..]);
      Assoc(OptionCalls(os[0]), others, [CEndArray]);
      var v1, v2, v3 := ReadFirstOption(v, os[0], others, rest);
      w := ReadOptions(v3, os[1..], rest);
      TakeOneMore(v1, os[0], v2, v3, os[1..], w);
      assert [os[0]] + os[1..] == os;
    }
  }

  lemma ReadNoOptions(v: View, rest: seq<Event>) returns (w: View)
    requires Queue(v.pending, OptionListCalls([]) + [CEndArray], 0, rest)
    ensures NextView(v).Some? && TakeOptions(NextView(v).value) == Some(([], w)) && w.pending == rest
  {
    assert OptionListCalls([]) + [CEndArray] == [CEndArray];
    w := StepLast(v, [CEndArray], 0, rest);
  }

  lemma TakeOneMore(v: View, o: TcpOption, v1: View, v2: View, os: seq<TcpOption>, w: View)
    requires v.token == StartArrayToken && TakeOption(v) == Some((o, v1))
    requires ExpectToken(v1, EndArrayToken) == Some(v2) && NextView(v2).Some?
    requires TakeOptions(NextView(v2).value) == Some((os, w))
    ensures TakeOptions(v) == Some(([o] + os, w))
  {
    TakeOptionIsShorter(v);
  }
}
