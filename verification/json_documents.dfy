/** Top-level values written back to back: exactly when each is read from its own text. */
module JsonDocuments {
  import opened Base
  import opened Decimal
  import opened JsonTokens
  import opened JsonReaderSpec
  import opened JsonWriterSpec
  import opened JsonLexemes
  import opened JsonNesting
  import opened JsonRoundTrip
  import opened JsonTrees

  // ---------- runs in parts ----------

  function Joined(parts: seq<seq<Call>>): seq<Call> {
    if parts == [] then [] else parts[0] + Joined(parts[1..])
  }

  lemma {:induction false} JoinedSplit(parts: seq<seq<Call>>, k: nat)
    requires k <= |parts|
    ensures Joined(parts) == Joined(parts[..k]) + Joined(parts[k..])
  {
    if k == 0 {
      assert parts[0..] == parts && [] + Joined(parts) == Joined(parts);
    } else {
      assert parts[..k][1..] == parts[1..][..k - 1] && parts[k..] == parts[1..][k - 1..];
      JoinedSplit(parts[1..], k - 1);
      Assoc(parts[0], Joined(parts[1..][..k - 1]), Joined(parts[k..]));
    }
  }

  lemma {:induction false} ContentConcat(a: seq<Call>, b: seq<Call>)
    ensures Content(a + b) == Content(a) + Content(b)
  {
    if b == [] {
      assert a + b == a && Content(a) + [] == Content(a);
    } else {
      var n := |b| - 1;
      assert (a + b)[..|a + b| - 1] == a + b[..n];
      ContentConcat(a, b[..n]);
      Assoc(Content(a), Content(b[..n]), if IsPack(b[n]) then [] else [b[n]]);
    }
  }

  lemma {:induction false} TextConcat(w: WriterState, a: seq<Call>, b: seq<Call>)
    ensures Run(w, a + b) == Run(Run(w, a), b)
    ensures Text(w, a + b) == Text(w, a) + Text(Run(w, a), b)
  {
    if b == [] {
      assert a + b == a && Text(w, a) + [] == Text(w, a);
    } else {
      var n := |b| - 1;
      assert (a + b)[..|a + b| - 1] == a + b[..n];
      TextConcat(w, a, b[..n]);
      Assoc(Text(w, a), Text(Run(w, a), b[..n]), Emit(Run(Run(w, a), b[..n]), b[n]));
    }
  }

  // ---------- documents ----------

  /** `parts[i]` writes the tree `vs[i]`, with layout hints anywhere. */
  predicate Writes(parts: seq<seq<Call>>, vs: seq<Json>) {
    |parts| == |vs| && forall i :: 0 <= i < |vs| ==> Content(parts[i]) == TreeCalls(vs[i])
  }

  lemma {:induction false} ContentOfParts(parts: seq<seq<Call>>, vs: seq<Json>)
    requires Writes(parts, vs)
    ensures Content(Joined(parts)) == ItemsCalls(vs)
  {
    if parts != [] {
      assert Writes(parts[1..], vs[1..]);
      ContentOfParts(parts[1..], vs[1..]);
      ContentConcat(parts[0], Joined(parts[1..]));
    }
  }

  /** After the tokens of the first `k` parts, the bytes not read yet are those of the others. */
  predicate ReadsUpTo(w: WriterState, parts: seq<seq<Call>>, k: nat)
    requires k <= |parts|
  {
    var text, done := Text(w, Joined(parts)), Joined(parts[..k]);
    var t := StateAfter(InitialState(text), |CallEvents(done)|);
    t.Some? && t.value.rest == Text(Run(w, done), Joined(parts[k..]))
  }

  predicate EachFromItsOwnText(w: WriterState, parts: seq<seq<Call>>) {
    forall k :: 0 <= k <= |parts| ==> ReadsUpTo(w, parts, k)
  }

  /** Up to the first number that is not last, every document is read from its own text. */
  lemma PrefixReads(indents: bool, parts: seq<seq<Call>>, vs: seq<Json>, k: nat)
    requires Writes(parts, vs) && k <= |vs| && Separable(vs[..k])
    requires k > 0 && vs[k - 1].JInteger? ==> k == |vs|
    ensures var w, done := InitialWriter(indents), Joined(parts[..k]);
      && ReadsUpTo(w, parts, k)
      && Run(w, done).mode == WDocumentStart
      && StateAfter(InitialState(Text(w, Joined(parts))), |CallEvents(done)|).value.mode == DocumentStart
  {
    var w, done, others := InitialWriter(indents), Joined(parts[..k]), Joined(parts[k..]);
    var t := Text(Run(w, done), others);
    JoinedSplit(parts, k);
    TextConcat(w, done, others);
    PrefixIsSensible(indents, parts, vs, k);
    var s', pad := ReadBack(w, InitialState(Text(w, Joined(parts))), done, t);
    assert [] + t == t;
  }

  lemma PrefixIsSensible(indents: bool, parts: seq<seq<Call>>, vs: seq<Json>, k: nat)
    requires Writes(parts, vs) && k <= |vs| && Separable(vs[..k])
    requires k > 0 && vs[k - 1].JInteger? ==> k == |vs|
    ensures var w, done := InitialWriter(indents), Joined(parts[..k]);
      && SensibleRun(w, done) && Run(w, done).mode == WDocumentStart
      && (OpenNumber(done) ==> EndsNumber(Head(Text(Run(w, done), Joined(parts[k..])))))
  {
    assert Writes(parts[..k], vs[..k]);
    ContentOfParts(parts[..k], vs[..k]);
    LaidOutDocuments(indents, Joined(parts[..k]), vs[..k]);
    if OpenNumber(Joined(parts[..k])) {
      assert parts[k..] == [];
    }
  }

  lemma {:induction false} OnlyHints(w: WriterState, cs: seq<Call>)
    requires Content(cs) == []
    ensures Text(w, cs) == [] && Run(w, cs).mode == w.mode
  {
    if cs != [] {
      OnlyHints(w, cs[..|cs| - 1]);
    }
  }

  lemma FirstOfValue(w: WriterState, c: Call)
    requires w.mode == WDocumentStart && StartsValue(c)
    ensures Emit(w, c) != [] && !EndsNumber(Emit(w, c)[0])
  {
    EmitValue(w, c);
  }

  /** A document begins with a character that does not end a number. */
  lemma {:induction false} FirstCharacter(w: WriterState, cs: seq<Call>)
    requires w.mode == WDocumentStart && Content(cs) != [] && StartsValue(Content(cs)[0])
    ensures Text(w, cs) != [] && !EndsNumber(Head(Text(w, cs)))
  {
    var n := |cs| - 1;
    var before, c := cs[..n], cs[n];
    if Content(before) == [] {
      OnlyHints(w, before);
      FirstOfValue(Run(w, before), c);
      assert Text(w, cs) == [] + Emit(Run(w, before), c) == Emit(Run(w, before), c);
    } else {
      assert Content(cs)[0] == Content(before)[0];
      FirstCharacter(w, before);
      assert Text(w, cs)[0] == Text(w, before)[0];
    }
  }

  lemma {:induction false} NumberText(w: WriterState, cs: seq<Call>, v: int64)
    requires w.mode == WDocumentStart && Content(cs) == [CInteger(v)]
    ensures Text(w, cs) == IntText(v) && Run(w, cs).mode == WDocumentStart
  {
    var n := |cs| - 1;
    var before, c := cs[..n], cs[n];
    if IsPack(c) {
      NumberText(w, before, v);
      assert Text(w, before) + [] == Text(w, before);
    } else {
      assert Content(cs)[|Content(before)|] == c && Content(before) == [];
      OnlyHints(w, before);
      EmitValue(Run(w, before), c);
      assert Text(w, cs) == [] + IntText(v) == IntText(v);
    }
  }

  /** The reader on a number with another document's text behind it. */
  lemma NumberSwallows(s: ReaderState, v: int64, x: bytes)
    requires s.mode == DocumentStart && s.rest == IntText(v) + x && !EndsNumber(Head(x))
    ensures !Next(s).ok || |Next(s).state.rest| < |x|
  {
    var text := IntText(v);
    IntRoundTrip(v);
    var y := text + x;
    assert y[1..] == text[1..] + x && y[0] == text[0];
    assert [] + y == y;
    NumberRoundTrip(s.(rest := y[1..]), v, x);
    NextDirect(s, [], y);
  }

  /** What is left of the text from a document on. */
  lemma RestOfParts(w: WriterState, parts: seq<seq<Call>>, i: nat)
    requires i < |parts|
    ensures Joined(parts[..i + 1]) == Joined(parts[..i]) + parts[i]
    ensures var u := Run(w, Joined(parts[..i]));
      && Text(u, Joined(parts[i..])) == Text(u, parts[i]) + Text(Run(u, parts[i]), Joined(parts[i + 1..]))
      && Run(w, Joined(parts[..i + 1])) == Run(u, parts[i])
  {
    JoinedSplit(parts[..i + 1], i);
    assert parts[..i + 1][..i] == parts[..i] && parts[..i + 1][i..] == [parts[i]];
    assert [parts[i]][1..] == [] && parts[i] + [] == parts[i];
    assert Joined([parts[i]]) == parts[i];
    TextConcat(w, Joined(parts[..i]), parts[i]);
    assert parts[i..][1..] == parts[i + 1..];
    TextConcat(Run(w, Joined(parts[..i])), parts[i], Joined(parts[i + 1..]));
  }

  lemma OneToken(done: seq<Call>, part: seq<Call>, v: int64)
    requires Content(part) == [CInteger(v)]
    ensures |CallEvents(done + part)| == |CallEvents(done)| + 1
  {
    CallEventsConcat(done, part);
    EventsOfContent(part);
    CallEventsOne(CInteger(v));
  }

  lemma NextIsOpened(w: WriterState, parts: seq<seq<Call>>, vs: seq<Json>, i: nat)
    requires Writes(parts, vs) && i < |vs| && w.mode == WDocumentStart
    ensures !EndsNumber(Head(Text(w, Joined(parts[i..]))))
  {
    assert Writes(parts[i..], vs[i..]);
    ContentOfParts(parts[i..], vs[i..]);
    assert StartsValue(TreeCalls(vs[i])[0]);
    FirstCharacter(w, Joined(parts[i..]));
  }

  /** The first number that is not last is not read from its own text. */
  lemma NumberInFront(indents: bool, parts: seq<seq<Call>>, vs: seq<Json>, i: nat)
    requires Writes(parts, vs) && i + 1 < |vs| && vs[i].JInteger?
    requires forall j :: 0 <= j < i ==> !vs[j].JInteger?
    ensures !ReadsUpTo(InitialWriter(indents), parts, i + 1)
  {
    var w, done, v := InitialWriter(indents), Joined(parts[..i]), vs[i].num;
    var start := InitialState(Text(w, Joined(parts)));
    PrefixReads(indents, parts, vs, i);
    var s, u := StateAfter(start, |CallEvents(done)|).value, Run(w, done);
    RestOfParts(w, parts, i);
    NumberText(u, parts[i], v);
    NextIsOpened(Run(u, parts[i]), parts, vs, i + 1);
    NumberSwallows(s, v, Text(Run(u, parts[i]), Joined(parts[i + 1..])));
    StateAfterSnoc(start, |CallEvents(done)|);
    OneToken(done, parts[i], v);
  }

  lemma {:induction false} FirstNumber(vs: seq<Json>, n: nat) returns (i: nat)
    requires n < |vs| && vs[n].JInteger?
    ensures i <= n && vs[i].JInteger? && forall j :: 0 <= j < i ==> !vs[j].JInteger?
  {
    if j :| 0 <= j < n && vs[j].JInteger? {
      i := FirstNumber(vs, j);
    } else {
      i := n;
    }
  }

  /** Trees written back to back, in any layout, are each read from exactly their own text if and
      only if no number is followed by anything. */
  lemma DocumentsExactly(indents: bool, parts: seq<seq<Call>>, vs: seq<Json>)
    requires Writes(parts, vs)
    ensures EachFromItsOwnText(InitialWriter(indents), parts) <==> Separable(vs)
  {
    var w := InitialWriter(indents);
    if Separable(vs) {
      forall k | 0 <= k <= |parts|
        ensures ReadsUpTo(w, parts, k)
      {
        PrefixReads(indents, parts, vs, k);
      }
    } else {
      var n :| 0 <= n < |vs| - 1 && vs[n].JInteger?;
      var i := FirstNumber(vs, n);
      NumberInFront(indents, parts, vs, i);
    }
  }

  /** And the tokens may change: 1 and 2 are written like 12. */
  lemma AdjacentNumbersMerge()
    ensures Text(InitialWriter(false), [CInteger(1), CInteger(2)]) == Text(InitialWriter(false), [CInteger(12)])
  {
    var w := InitialWriter(false);
    var one, two, twelve := CInteger(1), CInteger(2), CInteger(12);
    assert [one, two][..1] == [one] && [one][..0] == [] && [twelve][..0] == [];
    assert Text(w, [one]) == IntText(1);
    assert Text(w, [one, two]) == IntText(1) + IntText(2);
    assert IntText(12) == Digits(1) + ['2' as int];
  }
}
