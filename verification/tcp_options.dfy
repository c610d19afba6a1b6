/** The TCP option area: what DeserializeTcpHeaderOptions appends, and the walk over it in
    WriteTcpHeader. */
module TcpOptions {
  import opened Base
  import opened Wire

  // netinet/tcp.h
  const TCPOPT_EOL := 0
  const TCPOPT_NOP := 1
  const TCPOPT_MAXSEG := 2
  const TCPOPT_WINDOW := 3
  const TCPOPT_SACK_PERMITTED := 4
  const TCPOPT_TIMESTAMP := 8
  const TCPOLEN_MAXSEG := 4
  const TCPOLEN_WINDOW := 3
  const TCPOLEN_SACK_PERMITTED := 2
  const TCPOLEN_TIMESTAMP := 10

  datatype TcpOption =
    | EndOfList
    | NoOperation
    | MaxSegmentSize(size: uint16)
    | WindowScale(shift: uint16)
    | SackPermitted
    | Timestamp(value: uint32, echo: uint32)

  /** The bytes the deserializer appends for an option. */
  function Encode(o: TcpOption): bytes {
    match o
    case EndOfList => [TCPOPT_EOL]
    case NoOperation => [TCPOPT_NOP]
    case MaxSegmentSize(v) => [TCPOPT_MAXSEG, 4] + Put16(v)
    case WindowScale(v) => [TCPOPT_WINDOW, 4] + Put16(v)
    case SackPermitted => [TCPOPT_SACK_PERMITTED, TCPOLEN_SACK_PERMITTED]
    case Timestamp(a, b) => [TCPOPT_TIMESTAMP, TCPOLEN_TIMESTAMP] + (Put32(a) + Put32(b))
  }

  function EncodeAll(os: seq<TcpOption>): bytes {
    if os == [] then [] else Encode(os[0]) + EncodeAll(os[1..])
  }

  /** The walk gets to its end: it never meets an option that claims length zero. */
  predicate WalkEnds(a: bytes)
  {
    if a == [] || a[0] == TCPOPT_EOL then true
    else if a[0] == TCPOPT_NOP then WalkEnds(a[1..])
    else if |a| < 2 || a[1] > |a| then true
    else a[1] != 0 && WalkEnds(a[a[1]..])
  }

  /** The option at the head of `a`, if the walk writes one for it. */
  function Recognise(a: bytes): Option<TcpOption>
    requires |a| >= 2 && a[1] <= |a|
  {
    if a[0] == TCPOPT_MAXSEG && a[1] == TCPOLEN_MAXSEG then Some(MaxSegmentSize(U16(a, 2)))
    else if a[0] == TCPOPT_WINDOW && a[1] == TCPOLEN_WINDOW then Some(WindowScale(a[2]))
    else if a[0] == TCPOPT_SACK_PERMITTED && a[1] == TCPOLEN_SACK_PERMITTED then Some(SackPermitted)
    else if a[0] == TCPOPT_TIMESTAMP && a[1] == TCPOLEN_TIMESTAMP then Some(Timestamp(U32(a, 2), U32(a, 6)))
    else None
  }

  /** The options the walk writes. */
  function Walk(a: bytes): seq<TcpOption>
    requires WalkEnds(a)
  {
    if a == [] then []
    else if a[0] == TCPOPT_NOP then [NoOperation] + Walk(a[1..])
    else if a[0] == TCPOPT_EOL then [EndOfList]
    else if |a| < 2 || a[1] > |a| then []
    else
      var rest := Walk(a[a[1]..]);
      match Recognise(a)
      case Some(o) => [o] + rest
      case None => rest
  }

  /** Where one round of the walk moves the pointer, or None if the loop is left. */
  function Advance(a: bytes, p: nat): (r: Option<nat>)
    ensures r.Some? ==> p <= r.value <= |a|
  {
    if p >= |a| then None
    else if a[p] == TCPOPT_NOP then Some(p + 1)
    else if a[p] == TCPOPT_EOL || p + 1 >= |a| || p + a[p + 1] > |a| then None
    else Some(p + a[p + 1])
  }

  /** The pointer after `n` rounds, or None once the loop has been left. */
  function Rounds(a: bytes, p: nat, n: nat): Option<nat>
    decreases n
  {
    if n == 0 then Some(p)
    else
      var q :- Advance(a, p);
      Rounds(a, q, n - 1)
  }

  /** One round against the recursion of WalkEnds. */
  lemma AdvanceWalks(a: bytes, p: nat)
    requires p <= |a|
    ensures Advance(a, p).None? ==> WalkEnds(a[p..])
    ensures Advance(a, p) == Some(p) ==> !WalkEnds(a[p..])
    ensures Advance(a, p).Some? && Advance(a, p).value != p ==> WalkEnds(a[p..]) == WalkEnds(a[Advance(a, p).value..])
  {
    if Advance(a, p).Some? {
      var q := Advance(a, p).value;
      assert a[p..][q - p..] == a[q..];
    }
  }

  /** The loop is left after finitely many rounds if no option met claims length zero, and
      otherwise never. */
  lemma {:induction false} WalkEndsExactly(a: bytes, p: nat, n: nat)
    requires p <= |a|
    ensures WalkEnds(a[p..]) && n > |a| - p ==> Rounds(a, p, n).None?
    ensures !WalkEnds(a[p..]) ==> Rounds(a, p, n).Some?
    decreases n
  {
    AdvanceWalks(a, p);
    if n > 0 && Advance(a, p).Some? {
      WalkEndsExactly(a, Advance(a, p).value, n - 1);
    }
  }

  /** What is left of a list after writing and walking it: the walk stops behind the first EOL,
      and it does not accept the length under which window scales are written. */
  function Visible(os: seq<TcpOption>): seq<TcpOption> {
    if os == [] then []
    else if os[0].EndOfList? then [EndOfList]
    else if os[0].WindowScale? then Visible(os[1..])
    else [os[0]] + Visible(os[1..])
  }

  lemma PutGet(v: uint32)
    ensures v < WORD ==> |Put16(v)| == 2 && U16(Put16(v), 0) == v
    ensures |Put32(v)| == 4 && U32(Put32(v), 0) == v
  {
  }

  /** The walk over one written option and anything behind it. */
  lemma WalkOne(o: TcpOption, x: bytes)
    requires !o.EndOfList? && WalkEnds(x)
    ensures WalkEnds(Encode(o) + x)
    ensures Walk(Encode(o) + x) == if o.WindowScale? then Walk(x) else [o] + Walk(x)
  {
    var a := Encode(o) + x;
    match o
    case NoOperation =>
      assert a[1..] == x;
    case SackPermitted =>
      assert a[a[1]..] == x;
    case MaxSegmentSize(v) =>
      assert a[a[1]..] == x;
      assert U16(a, 2) == v;
    case WindowScale(v) =>
      assert a[a[1]..] == x;
    case Timestamp(v, w) =>
      assert a[a[1]..] == x;
      assert a[2..6] == Put32(v) && a[6..10] == Put32(w);
      assert U32(a, 2) == U32(Put32(v), 0) && U32(a, 6) == U32(Put32(w), 0);
      PutGet(v);
      PutGet(w);
  }

  /** TCP option codec: for every list of options, the walk over its bytes ends and writes the
      visible part of that list. */
  lemma {:induction false} WalkOfEncoded(os: seq<TcpOption>)
    ensures WalkEnds(EncodeAll(os)) && Walk(EncodeAll(os)) == Visible(os)
  {
    if os != [] && !os[0].EndOfList? {
      WalkOfEncoded(os[1..]);
      WalkOne(os[0], EncodeAll(os[1..]));
    }
  }

  /** An area made of the options that survive, with at most one EOL at its very end. */
  predicate CleanArea(a: bytes)
  {
    || a == []
    || a == [TCPOPT_EOL]
    || (a[0] == TCPOPT_NOP && CleanArea(a[1..]))
    || (|a| >= 4 && a[0] == TCPOPT_MAXSEG && a[1] == 4 && CleanArea(a[4..]))
    || (|a| >= 2 && a[0] == TCPOPT_SACK_PERMITTED && a[1] == 2 && CleanArea(a[2..]))
    || (|a| >= 10 && a[0] == TCPOPT_TIMESTAMP && a[1] == 10 && CleanArea(a[10..]))
  }

  lemma Put16OfGet(a: bytes, i: nat)
    requires i + 2 <= |a|
    ensures Put16(U16(a, i)) == a[i..i + 2]
  {
  }

  lemma HalvesOf32(high: uint16, low: uint16)
    ensures (high * 0x1_0000 + low) / 0x1_0000 == high && (high * 0x1_0000 + low) % 0x1_0000 == low
  {
  }

  lemma PutOfGet(a: bytes, i: nat)
    ensures i + 2 <= |a| ==> Put16(U16(a, i)) == a[i..i + 2]
    ensures i + 4 <= |a| ==> Put32(U32(a, i)) == a[i..i + 4]
  {
    if i + 4 <= |a| {
      HalvesOf32(U16(a, i), U16(a, i + 2));
      Put16OfGet(a, i);
      Put16OfGet(a, i + 2);
      assert a[i..i + 2] + a[i + 2..i + 4] == a[i..i + 4];
    } else if i + 2 <= |a| {
      Put16OfGet(a, i);
    }
  }

  /** Writing back what the walk recognised restores the bytes, except for window scales. */
  lemma EncodeRecognised(a: bytes)
    requires |a| >= 2 && a[1] <= |a| && Recognise(a).Some? && !Recognise(a).value.WindowScale?
    ensures Encode(Recognise(a).value) == a[..a[1]]
  {
    PutOfGet(a, 2);
    PutOfGet(a, 6);
    if a[0] == TCPOPT_TIMESTAMP {
      assert a[2..6] + a[6..10] == a[2..10];
      assert [a[0], a[1]] + a[2..10] == a[..10];
    } else if a[0] == TCPOPT_MAXSEG {
      assert [a[0], a[1]] + a[2..4] == a[..4];
    }
  }

  lemma {:induction false} CleanAreaWalks(a: bytes)
    requires CleanArea(a)
    ensures WalkEnds(a) && EncodeAll(Walk(a)) == a
  {
    if a == [] {
    } else if a[0] == TCPOPT_EOL {
    } else if a[0] == TCPOPT_NOP {
      CleanAreaWalks(a[1..]);
    } else {
      CleanAreaWalks(a[a[1]..]);
      EncodeRecognised(a);
      assert a == a[..a[1]] + a[a[1]..];
    }
  }

  lemma {:induction false} VisibleLength(os: seq<TcpOption>)
    ensures |Visible(os)| <= |os|
  {
    if os != [] {
      VisibleLength(os[1..]);
    }
  }

  lemma {:induction false} AllVisibleIsClean(os: seq<TcpOption>)
    requires Visible(os) == os
    ensures CleanArea(EncodeAll(os))
  {
    if os == [] {
    } else if os[0].EndOfList? {
      assert os == [EndOfList];
    } else if os[0].WindowScale? {
      VisibleLength(os[1..]);
      assert false;
    } else {
      assert Visible(os)[1..] == Visible(os[1..]);
      AllVisibleIsClean(os[1..]);
      var e, x := Encode(os[0]), EncodeAll(os[1..]);
      assert (e + x)[|e|..] == x;
    }
  }

  /** Exactly the clean areas are restored by walking them and writing the result back. */
  lemma CleanExactly(a: bytes)
    requires WalkEnds(a)
    ensures EncodeAll(Walk(a)) == a <==> CleanArea(a)
  {
    if CleanArea(a) {
      CleanAreaWalks(a);
    }
    if EncodeAll(Walk(a)) == a {
      WalkOfEncoded(Walk(a));
      AllVisibleIsClean(Walk(a));
    }
  }

  /** Cutting written options off anywhere leaves an area the walk gets through. */
  lemma {:induction false} WalkEndsOnPrefix(os: seq<TcpOption>, n: nat)
    requires n <= |EncodeAll(os)|
    ensures WalkEnds(EncodeAll(os)[..n])
  {
    if os != [] && n > 0 && !os[0].EndOfList? {
      var e, x := Encode(os[0]), EncodeAll(os[1..]);
      var a := (e + x)[..n];
      if |e| <= n {
        WalkEndsOnPrefix(os[1..], n - |e|);
        assert a == e + x[..n - |e|];
        WalkOne(os[0], x[..n - |e|]);
      } else {
        assert a == e[..n];
      }
    }
  }
}
