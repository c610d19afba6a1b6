/** Well-nested JSON token streams, defined without the reader, and the proof that the reader
    produces nothing else. */
module JsonNesting {
  import opened Base
  import opened JsonTokens
  import opened JsonReaderSpec

  /** Where a token stream stands: outside everything, in an array, in an object where a name or
      the end may follow, or behind a property name. */
  datatype Context = Top | InArray | InObject | AwaitValue

  /** Innermost context last. */
  type Contexts = seq<Context>

  predicate AllowsValue(c: Context) {
    c != InObject
  }

  function AfterValue(c: Context): Context {
    if c == AwaitValue then InObject else c
  }

  /** The contexts after one more token, or None if the token may not come here. */
  function NestStep(ctx: Contexts, e: Event): Option<Contexts> {
    if ctx == [] then None
    else
      var outer, c := ctx[..|ctx| - 1], ctx[|ctx| - 1];
      match e
      case PropertyName(_) => if c == InObject then Some(outer + [AwaitValue]) else None
      case EndObject => if c == InObject then Some(outer) else None
      case EndArray => if c == InArray then Some(outer) else None
      case StartArray => if AllowsValue(c) then Some(outer + [AfterValue(c), InArray]) else None
      case StartObject => if AllowsValue(c) then Some(outer + [AfterValue(c), InObject]) else None
      case _ => if AllowsValue(c) then Some(outer + [AfterValue(c)]) else None
  }

  function NestRun(ctx: Contexts, es: seq<Event>): Option<Contexts>
    decreases |es|
  {
    if es == [] then Some(ctx)
    else
      var next :- NestStep(ctx, es[0]);
      NestRun(next, es[1..])
  }

  lemma {:induction false} NestRunConcat(ctx: Contexts, a: seq<Event>, b: seq<Event>)
    ensures NestRun(ctx, a + b) ==
      if NestRun(ctx, a).None? then None else NestRun(NestRun(ctx, a).value, b)
    decreases |a|
  {
    if a == [] {
      assert a + b == b;
    } else {
      assert (a + b)[1..] == a[1..] + b;
      if NestStep(ctx, a[0]).Some? {
        NestRunConcat(NestStep(ctx, a[0]).value, a[1..], b);
      }
    }
  }

  predicate ProperContexts(ctx: Contexts) {
    ctx != [] && forall i :: 0 <= i < |ctx| ==> (ctx[i] == Top <==> i == 0)
  }

  /** Tokens that close everything still open. */
  function Closing(ctx: Contexts): seq<Event> {
    if |ctx| <= 1 then []
    else
      (match ctx[|ctx| - 1]
       case AwaitValue => [Null, EndObject]
       case InObject => [EndObject]
       case _ => [EndArray]) + Closing(ctx[..|ctx| - 1])
  }

  /** One more token in front of a completion. */
  lemma CompleteStep(ctx: Contexts, e: Event, es: seq<Event>)
    requires NestStep(ctx, e).Some? && NestRun(NestStep(ctx, e).value, es) == Some([Top])
    ensures NestRun(ctx, [e] + es) == Some([Top])
  {
    assert ([e] + es)[1..] == es;
  }

  /** Every stream that got this far can be completed. */
  lemma {:induction false} ClosingCompletes(ctx: Contexts)
    requires ProperContexts(ctx)
    ensures NestRun(ctx, Closing(ctx)) == Some([Top])
  {
    var n := |ctx| - 1;
    if n == 0 {
      assert ctx == [Top];
    } else {
      var outer := ctx[..n];
      ClosingCompletes(outer);
      match ctx[n]
      case AwaitValue =>
        assert (outer + [InObject])[..n] == outer;
        CompleteStep(outer + [InObject], EndObject, Closing(outer));
        CompleteStep(ctx, Null, [EndObject] + Closing(outer));
        assert Closing(ctx) == [Null] + ([EndObject] + Closing(outer));
      case InObject =>
        CompleteStep(ctx, EndObject, Closing(outer));
      case InArray =>
        CompleteStep(ctx, EndArray, Closing(outer));
    }
  }

  // ---------- the reader ----------

  function ContextOf(m: JsonMode): Context {
    match m
    case DocumentStart => Top
    case ArrayMode => InArray
    case ObjectMode => InObject
  }

  /** The nesting a reader state stands for. */
  function Nesting(s: ReaderState): Contexts {
    Outer(s) + [if s.mode == ObjectMode && s.token == PropertyNameToken then AwaitValue else ContextOf(s.mode)]
  }

  /** The mode stack is empty exactly in DocumentStart mode. */
  predicate ReaderInvariant(s: ReaderState) {
    && (s.stack == [] <==> s.mode == DocumentStart)
    && forall i :: 0 <= i < |s.stack| ==> (s.stack[i] == DocumentStart <==> i == 0)
  }

  predicate IsScalar(e: Event) {
    e.String? || e.Integer? || e.Float? || e.Boolean? || e.Null?
  }

  lemma ReadValueShape(s: ReaderState, ch: byte)
    requires ReadValue(s, ch).ok
    ensures var t := ReadValue(s, ch).state; var e := EventOf(t);
      || (e.StartObject? && t.mode == ObjectMode && t.stack == s.stack + [s.mode])
      || (e.StartArray? && t.mode == ArrayMode && t.stack == s.stack + [s.mode])
      || (IsScalar(e) && t.token != PropertyNameToken && t.mode == s.mode && t.stack == s.stack)
  {
  }

  function Outer(s: ReaderState): Contexts {
    seq(|s.stack|, i requires 0 <= i < |s.stack| => ContextOf(s.stack[i]))
  }

  lemma ReadValueNests(s: ReaderState, ch: byte)
    requires ReaderInvariant(s) && ReadValue(s, ch).ok
    requires s.mode == ObjectMode ==> s.token == PropertyNameToken
    ensures ReaderInvariant(ReadValue(s, ch).state)
    ensures NestStep(Nesting(s), EventOf(ReadValue(s, ch).state)) == Some(Nesting(ReadValue(s, ch).state))
  {
    ReadValueShape(s, ch);
    ValueNests(s, ReadValue(s, ch).state);
  }

  lemma ValueNests(s: ReaderState, t: ReaderState)
    requires ReaderInvariant(s) && (s.mode == ObjectMode ==> s.token == PropertyNameToken)
    requires var e := EventOf(t);
      || (e.StartObject? && t.mode == ObjectMode && t.stack == s.stack + [s.mode])
      || (e.StartArray? && t.mode == ArrayMode && t.stack == s.stack + [s.mode])
      || (IsScalar(e) && t.token != PropertyNameToken && t.mode == s.mode && t.stack == s.stack)
    ensures ReaderInvariant(t)
    ensures NestStep(Nesting(s), EventOf(t)) == Some(Nesting(t))
  {
    var ctx := Nesting(s);
    var n := |s.stack|;
    assert ctx[..n] == Outer(s);
    if IsScalar(EventOf(t)) {
      assert Nesting(t) == Outer(s) + [AfterValue(ctx[n])];
    } else {
      assert Nesting(t)[..n + 1] == Outer(s) + [AfterValue(ctx[n])];
      assert Nesting(t) == ctx[..n] + [AfterValue(ctx[n]), ContextOf(t.mode)];
    }
  }

  lemma PopNests(s: ReaderState, token: JsonToken)
    requires ReaderInvariant(s) && s.mode != DocumentStart
    requires token == EndArrayToken || token == EndObjectToken
    ensures var r := PopMode(s.(token := token));
      && r.ok && ReaderInvariant(r.state)
      && Nesting(r.state) == Nesting(s)[..|s.stack|]
  {
    var t := PopMode(s.(token := token)).state;
    var n := |s.stack| - 1;
    assert Nesting(s)[..n + 1] == Nesting(t);
  }

  lemma NameNests(s: ReaderState, t: ReaderState)
    requires ReaderInvariant(s) && s.mode == ObjectMode && s.token != PropertyNameToken
    requires t.stack == s.stack && t.mode == s.mode && t.token == PropertyNameToken
    ensures ReaderInvariant(t) && NestStep(Nesting(s), EventOf(t)) == Some(Nesting(t))
  {
    var ctx := Nesting(s);
    assert Nesting(t) == ctx[..|ctx| - 1] + [AwaitValue];
  }

  /** The mode stack and the nesting of the tokens move together, and PopMode never fails. */
  lemma NextNests(s: ReaderState)
    requires ReaderInvariant(s) && Next(s).ok
    ensures ReaderInvariant(Next(s).state)
    ensures NestStep(Nesting(s), EventOf(Next(s).state)) == Some(Nesting(Next(s).state))
  {
    var found := SkipWhitespace(s.rest);
    var ch, s1 := found.ch, s.(rest := found.rest);
    assert Nesting(s1) == Nesting(s);
    match s.mode
    case DocumentStart =>
      ReadValueNests(s1, ch);
    case ArrayMode =>
      if ch == ']' as int {
        PopNests(s1, EndArrayToken);
      } else if s.token == StartArrayToken {
        ReadValueNests(s1, ch);
      } else {
        var second := SkipWhitespace(found.rest);
        ReadValueNests(s1.(rest := second.rest), second.ch);
      }
    case ObjectMode =>
      if s.token == PropertyNameToken {
        ReadValueNests(s1, ch);
      } else if ch == '}' as int {
        PopNests(s1, EndObjectToken);
      } else {
        NameNests(s, Next(s).state);
      }
  }

  /** The state after `k` calls that all succeeded. */
  function StateAfter(s: ReaderState, k: nat): Option<ReaderState>
    decreases k
  {
    if k == 0 then Some(s)
    else
      var r := Next(s);
      if r.ok then StateAfter(r.state, k - 1) else None
  }

  lemma {:induction false} StateAfterSnoc(s: ReaderState, k: nat)
    requires StateAfter(s, k).Some?
    ensures var r := Next(StateAfter(s, k).value);
      StateAfter(s, k + 1) == if r.ok then Some(r.state) else None
    decreases k
  {
    if k > 0 {
      StateAfterSnoc(Next(s).state, k - 1);
    }
  }

  /** In every reachable state of every run, on every input. */
  lemma {:induction false} EveryStateIsSafe(s: ReaderState, k: nat)
    requires ReaderInvariant(s) && StateAfter(s, k).Some?
    ensures var t := StateAfter(s, k).value;
      && (t.stack == [] <==> t.mode == DocumentStart)
      && (t.mode != DocumentStart ==> PopMode(t).ok)
      && ReaderInvariant(t)
    decreases k
  {
    if k > 0 {
      NextNests(s);
      EveryStateIsSafe(Next(s).state, k - 1);
    }
  }

  lemma {:induction false} EventsNest(s: ReaderState)
    requires ReaderInvariant(s)
    ensures NestRun(Nesting(s), Events(s)).Some?
    decreases |s.rest|
  {
    if Next(s).ok {
      NextNests(s);
      EventsNest(Next(s).state);
      assert Events(s)[1..] == Events(Next(s).state);
    }
  }

  /** No token closes the outermost context. */
  lemma {:induction false} NestRunStaysProper(ctx: Contexts, es: seq<Event>)
    requires ProperContexts(ctx) && NestRun(ctx, es).Some?
    ensures ProperContexts(NestRun(ctx, es).value)
    decreases |es|
  {
    if es != [] {
      NestRunStaysProper(NestStep(ctx, es[0]).value, es[1..]);
    }
  }

  /** Reader safety: whatever the input, the tokens returned before the first failure can be
      extended to a complete well-nested token stream. */
  lemma TokensFormNestedPrefix(text: bytes) returns (closing: seq<Event>)
    ensures NestRun([Top], Events(InitialState(text)) + closing) == Some([Top])
  {
    var s := InitialState(text);
    var es := Events(s);
    assert Nesting(s) == [Top];
    EventsNest(s);
    var ctx := NestRun([Top], es).value;
    NestRunStaysProper([Top], es);
    closing := Closing(ctx);
    ClosingCompletes(ctx);
    NestRunConcat([Top], es, closing);
  }
}
