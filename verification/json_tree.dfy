/** JSON documents as trees: writing one and reading it back gives its token sequence. */
module JsonTrees {
  import opened Base
  import opened Decimal
  import opened JsonTokens
  import opened JsonReaderSpec
  import opened JsonWriterSpec
  import opened JsonRoundTrip
  import opened JsonNesting

  datatype Json =
    | JObject(members: seq<Member>)
    | JArray(items: seq<Json>)
    | JString(str: bytes)
    | JInteger(num: int64)
    | JBoolean(flag: bool)
    | JNull

  datatype Member = Member(name: bytes, value: Json)

  /** The writer calls that a client makes to write a tree. */
  function TreeCalls(v: Json): seq<Call> {
    match v
    case JObject(ms) => [CBeginObject] + MembersCalls(ms) + [CEndObject]
    case JArray(vs) => [CBeginArray] + ItemsCalls(vs) + [CEndArray]
    case JString(s) => [CString(s)]
    case JInteger(n) => [CInteger(n)]
    case JBoolean(b) => [CBoolean(b)]
    case JNull => [CNull]
  }

  function MembersCalls(ms: seq<Member>): seq<Call> {
    if ms == [] then []
    else [CName(ms[0].name)] + TreeCalls(ms[0].value) + MembersCalls(ms[1..])
  }

  function ItemsCalls(vs: seq<Json>): seq<Call> {
    if vs == [] then [] else TreeCalls(vs[0]) + ItemsCalls(vs[1..])
  }

  /** The tokens of a tree. */
  function TreeEvents(v: Json): seq<Event> {
    match v
    case JObject(ms) => [StartObject] + MembersEvents(ms) + [EndObject]
    case JArray(vs) => [StartArray] + ItemsEvents(vs) + [EndArray]
    case JString(s) => [String(s)]
    case JInteger(n) => [Integer(n, IntText(n))]
    case JBoolean(b) => [Boolean(b)]
    case JNull => [Null]
  }

  function MembersEvents(ms: seq<Member>): seq<Event> {
    if ms == [] then []
    else [PropertyName(ms[0].name)] + TreeEvents(ms[0].value) + MembersEvents(ms[1..])
  }

  function ItemsEvents(vs: seq<Json>): seq<Event> {
    if vs == [] then [] else TreeEvents(vs[0]) + ItemsEvents(vs[1..])
  }

  /** All names and strings are C strings without a NUL. */
  predicate NulFreeTree(v: Json) {
    match v
    case JObject(ms) => forall m | m in ms :: NulFree(m.name) && NulFreeTree(m.value)
    case JArray(vs) => forall x | x in vs :: NulFreeTree(x)
    case JString(s) => NulFree(s)
    case _ => true
  }

  // ---------- tokens of the calls ----------

  lemma {:induction false} CallEventsConcat(a: seq<Call>, b: seq<Call>)
    ensures CallEvents(a + b) == CallEvents(a) + CallEvents(b)
  {
    if b == [] {
      assert a + b == a && CallEvents(a) + [] == CallEvents(a);
    } else {
      var n := |b| - 1;
      var last: seq<Event> := if IsPack(b[n]) then [] else [CallEvent(b[n])];
      assert (a + b)[..|a + b| - 1] == a + b[..n];
      CallEventsConcat(a, b[..n]);
      Assoc(CallEvents(a), CallEvents(b[..n]), last);
    }
  }

  lemma CallEventsOne(c: Call)
    requires !IsPack(c)
    ensures CallEvents([c]) == [CallEvent(c)]
  {
    assert [c][..0] == [];
    assert CallEvents([c]) == [] + [CallEvent(c)];
  }

  lemma ContainerEvents(open: Call, inner: seq<Call>, close: Call)
    requires !IsPack(open) && !IsPack(close)
    ensures CallEvents([open] + inner + [close]) == [CallEvent(open)] + CallEvents(inner) + [CallEvent(close)]
  {
    CallEventsConcat([open] + inner, [close]);
    CallEventsConcat([open], inner);
    CallEventsOne(open);
    CallEventsOne(close);
  }

  lemma {:induction false} TreeEventsAreCallEvents(v: Json)
    requires NulFreeTree(v)
    ensures CallEvents(TreeCalls(v)) == TreeEvents(v)
    decreases v
  {
    match v
    case JObject(ms) =>
      MembersEventsAreCallEvents(ms);
      ContainerEvents(CBeginObject, MembersCalls(ms), CEndObject);
    case JArray(vs) =>
      ItemsEventsAreCallEvents(vs);
      ContainerEvents(CBeginArray, ItemsCalls(vs), CEndArray);
    case _ =>
      LeafEvents(v);
  }

  lemma LeafEvents(v: Json)
    requires !v.JObject? && !v.JArray? && NulFreeTree(v)
    ensures CallEvents(TreeCalls(v)) == TreeEvents(v)
  {
    if v.JString? {
      CStrOfNulFree(v.str);
    }
    CallEventsOne(TreeCalls(v)[0]);
  }

  lemma {:induction false} MembersEventsAreCallEvents(ms: seq<Member>)
    requires forall m | m in ms :: NulFree(m.name) && NulFreeTree(m.value)
    ensures CallEvents(MembersCalls(ms)) == MembersEvents(ms)
    decreases ms
  {
    if ms != [] {
      var m := ms[0];
      assert m in ms;
      CStrOfNulFree(m.name);
      CallEventsOne(CName(m.name));
      TreeEventsAreCallEvents(m.value);
      MembersEventsAreCallEvents(ms[1..]);
      CallEventsConcat([CName(m.name)], TreeCalls(m.value));
      CallEventsConcat([CName(m.name)] + TreeCalls(m.value), MembersCalls(ms[1..]));
    }
  }

  lemma {:induction false} ItemsEventsAreCallEvents(vs: seq<Json>)
    requires forall x | x in vs :: NulFreeTree(x)
    ensures CallEvents(ItemsCalls(vs)) == ItemsEvents(vs)
    decreases vs
  {
    if vs != [] {
      assert vs[0] in vs;
      TreeEventsAreCallEvents(vs[0]);
      ItemsEventsAreCallEvents(vs[1..]);
      CallEventsConcat(TreeCalls(vs[0]), ItemsCalls(vs[1..]));
    }
  }

  // ---------- the calls are sensible ----------

  lemma SensibleSnoc(w: WriterState, cs: seq<Call>, c: Call)
    requires SensibleRun(w, cs) && Sensible(Run(w, cs), cs, c)
    ensures SensibleRun(w, cs + [c]) && Run(w, cs + [c]) == After(Run(w, cs), c)
    ensures OpenNumber(cs + [c]) == (c.CInteger? || (IsPack(c) && OpenNumber(cs)))
  {
    assert (cs + [c])[..|cs|] == cs;
  }

  /** A value may be written next. */
  predicate AwaitsValue(w: WriterState, cs: seq<Call>) {
    && SensibleRun(w, cs)
    && Run(w, cs).mode in {WDocumentStart, WPropertyValue, WStartArray, WMiddleArray}
    && (Run(w, cs).mode == WDocumentStart ==> !OpenNumber(cs))
  }

  /** Writing a tree ends where writing one value ends. */
  predicate WroteValue(w: WriterState, cs: seq<Call>, after: seq<Call>) {
    && SensibleRun(w, after)
    && Run(w, after).stack == Run(w, cs).stack
    && Run(w, after).mode == ModeAfterValue(Run(w, cs).mode)
  }

  /** Opening a container, writing its contents and closing it writes one value. */
  lemma ContainerIsSensible(w: WriterState, cs: seq<Call>, open: Call, inner: seq<Call>, close: Call)
    requires AwaitsValue(w, cs)
    requires (open == CBeginObject && close == CEndObject) || (open == CBeginArray && close == CEndArray)
    requires SensibleRun(w, cs + [open] + inner)
    requires Run(w, cs + [open] + inner).stack == Run(w, cs + [open]).stack
    requires Permitted(Run(w, cs + [open] + inner), close)
    ensures WroteValue(w, cs, cs + ([open] + inner + [close]))
    ensures !OpenNumber(cs + ([open] + inner + [close]))
  {
    SensibleSnoc(w, cs, open);
    var inside := cs + [open] + inner;
    assert !StartsValue(close) && Run(w, inside).mode != WDocumentStart;
    SensibleSnoc(w, inside, close);
    Assoc(cs, [open], inner);
    Assoc(cs, [open] + inner, [close]);
  }

  lemma {:induction false} TreeIsSensible(w: WriterState, cs: seq<Call>, v: Json)
    requires AwaitsValue(w, cs)
    ensures WroteValue(w, cs, cs + TreeCalls(v))
    ensures OpenNumber(cs + TreeCalls(v)) ==> v.JInteger?
    decreases v
  {
    match v
    case JObject(ms) =>
      SensibleSnoc(w, cs, CBeginObject);
      MembersAreSensible(w, cs + [CBeginObject], ms);
      ContainerIsSensible(w, cs, CBeginObject, MembersCalls(ms), CEndObject);
    case JArray(vs) =>
      SensibleSnoc(w, cs, CBeginArray);
      ItemsAreSensible(w, cs + [CBeginArray], vs);
      ContainerIsSensible(w, cs, CBeginArray, ItemsCalls(vs), CEndArray);
    case _ =>
      SensibleSnoc(w, cs, TreeCalls(v)[0]);
  }

  lemma {:induction false} MemberIsSensible(w: WriterState, cs: seq<Call>, m: Member)
    requires SensibleRun(w, cs) && Run(w, cs).mode in {WStartObject, WPropertyName}
    ensures var after := cs + ([CName(m.name)] + TreeCalls(m.value));
      SensibleRun(w, after) && Run(w, after).stack == Run(w, cs).stack && Run(w, after).mode == WPropertyName
    decreases m
  {
    var name := CName(m.name);
    SensibleSnoc(w, cs, name);
    TreeIsSensible(w, cs + [name], m.value);
    Assoc(cs, [name], TreeCalls(m.value));
  }

  lemma {:induction false} MembersAreSensible(w: WriterState, cs: seq<Call>, ms: seq<Member>)
    requires SensibleRun(w, cs) && Run(w, cs).mode in {WStartObject, WPropertyName}
    ensures SensibleRun(w, cs + MembersCalls(ms))
    ensures Run(w, cs + MembersCalls(ms)).stack == Run(w, cs).stack
    ensures Run(w, cs + MembersCalls(ms)).mode in {WStartObject, WPropertyName}
    decreases ms
  {
    if ms == [] {
      assert cs + MembersCalls(ms) == cs;
    } else {
      var first := [CName(ms[0].name)] + TreeCalls(ms[0].value);
      MemberIsSensible(w, cs, ms[0]);
      MembersAreSensible(w, cs + first, ms[1..]);
      Assoc(cs, first, MembersCalls(ms[1..]));
    }
  }

  lemma {:induction false} ItemsAreSensible(w: WriterState, cs: seq<Call>, vs: seq<Json>)
    requires SensibleRun(w, cs) && Run(w, cs).mode in {WStartArray, WMiddleArray}
    ensures SensibleRun(w, cs + ItemsCalls(vs))
    ensures Run(w, cs + ItemsCalls(vs)).stack == Run(w, cs).stack
    ensures Run(w, cs + ItemsCalls(vs)).mode in {WStartArray, WMiddleArray}
    decreases vs
  {
    if vs == [] {
      assert cs + ItemsCalls(vs) == cs;
    } else {
      TreeIsSensible(w, cs, vs[0]);
      ItemsAreSensible(w, cs + TreeCalls(vs[0]), vs[1..]);
      Assoc(cs, TreeCalls(vs[0]), ItemsCalls(vs[1..]));
    }
  }

  /** Top-level values written back to back, with numbers last. JsonDocuments shows that no other
      values are each read from their own text. */
  predicate Separable(vs: seq<Json>) {
    forall i :: 0 <= i < |vs| - 1 ==> !vs[i].JInteger?
  }

  lemma {:induction false} DocumentsAreSensible(w: WriterState, cs: seq<Call>, vs: seq<Json>)
    requires SensibleRun(w, cs) && Run(w, cs).mode == WDocumentStart && !OpenNumber(cs) && Separable(vs)
    ensures SensibleRun(w, cs + ItemsCalls(vs)) && Run(w, cs + ItemsCalls(vs)).mode == WDocumentStart
    ensures OpenNumber(cs + ItemsCalls(vs)) ==> vs != [] && vs[|vs| - 1].JInteger?
    decreases vs
  {
    if vs == [] {
      assert cs + ItemsCalls(vs) == cs;
    } else {
      TreeIsSensible(w, cs, vs[0]);
      var rest := ItemsCalls(vs[1..]);
      Assoc(cs, TreeCalls(vs[0]), rest);
      if vs[1..] == [] {
        assert cs + TreeCalls(vs[0]) + rest == cs + TreeCalls(vs[0]);
      } else {
        DocumentsAreSensible(w, cs + TreeCalls(vs[0]), vs[1..]);
      }
    }
  }

  lemma LaidOutDocuments(indents: bool, cs: seq<Call>, vs: seq<Json>)
    requires Content(cs) == ItemsCalls(vs) && Separable(vs)
    ensures var w := InitialWriter(indents); SensibleRun(w, cs) && Run(w, cs).mode == WDocumentStart
    ensures OpenNumber(cs) ==> vs != [] && vs[|vs| - 1].JInteger?
  {
    var w := InitialWriter(indents);
    DocumentsAreSensible(w, [], vs);
    assert [] + ItemsCalls(vs) == ItemsCalls(vs);
    ContentIsSensible(w, w, cs);
  }

  /** Writing any trees back to back, with layout hints anywhere in between, and reading until
      the first failure gives exactly their tokens with the same values. */
  lemma DocumentsRoundTrip(vs: seq<Json>, indents: bool, cs: seq<Call>)
    requires Separable(vs) && (forall v | v in vs :: NulFreeTree(v))
    requires Content(cs) == ItemsCalls(vs)
    ensures Events(InitialState(Text(InitialWriter(indents), cs))) == ItemsEvents(vs)
  {
    LaidOutDocuments(indents, cs, vs);
    WriterReaderRoundTrip(indents, cs);
    EventsOfContent(cs);
    ItemsEventsAreCallEvents(vs);
  }

  // ---------- trees and well-nested streams ----------

  /** The tokens of a tree form one complete value, wherever a value may stand. */
  lemma {:induction false} TreeEventsNest(v: Json, ctx: Contexts)
    requires ctx != [] && AllowsValue(ctx[|ctx| - 1])
    ensures NestRun(ctx, TreeEvents(v)) == Some(ctx[..|ctx| - 1] + [AfterValue(ctx[|ctx| - 1])])
    decreases v
  {
    var outer, done := ctx[..|ctx| - 1], ctx[..|ctx| - 1] + [AfterValue(ctx[|ctx| - 1])];
    match v
    case JObject(ms) =>
      var inside := outer + [AfterValue(ctx[|ctx| - 1]), InObject];
      MembersEventsNest(ms, inside);
      NestRunConcat(ctx, [StartObject] + MembersEvents(ms), [EndObject]);
      NestRunConcat(ctx, [StartObject], MembersEvents(ms));
      assert inside[..|inside| - 1] == done;
    case JArray(vs) =>
      var inside := outer + [AfterValue(ctx[|ctx| - 1]), InArray];
      ItemsEventsNest(vs, inside);
      NestRunConcat(ctx, [StartArray] + ItemsEvents(vs), [EndArray]);
      NestRunConcat(ctx, [StartArray], ItemsEvents(vs));
      assert inside[..|inside| - 1] == done;
    case _ =>
  }

  lemma {:induction false} MembersEventsNest(ms: seq<Member>, ctx: Contexts)
    requires ctx != [] && ctx[|ctx| - 1] == InObject
    ensures NestRun(ctx, MembersEvents(ms)) == Some(ctx)
    decreases ms
  {
    if ms != [] {
      var named := ctx[..|ctx| - 1] + [AwaitValue];
      NestRunConcat(ctx, [PropertyName(ms[0].name)] + TreeEvents(ms[0].value), MembersEvents(ms[1..]));
      NestRunConcat(ctx, [PropertyName(ms[0].name)], TreeEvents(ms[0].value));
      TreeEventsNest(ms[0].value, named);
      assert named[..|named| - 1] + [InObject] == ctx;
      MembersEventsNest(ms[1..], ctx);
    }
  }

  lemma {:induction false} ItemsEventsNest(vs: seq<Json>, ctx: Contexts)
    requires ctx != [] && (ctx[|ctx| - 1] == InArray || ctx[|ctx| - 1] == Top)
    ensures NestRun(ctx, ItemsEvents(vs)) == Some(ctx)
    decreases vs
  {
    if vs != [] {
      NestRunConcat(ctx, TreeEvents(vs[0]), ItemsEvents(vs[1..]));
      TreeEventsNest(vs[0], ctx);
      assert ctx[..|ctx| - 1] + [ctx[|ctx| - 1]] == ctx;
      ItemsEventsNest(vs[1..], ctx);
    }
  }
}
