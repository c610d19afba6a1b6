/** DeserializePacket consumes exactly one balanced object whenever it succeeds, although it looks
    enumeration values up without checking the token's type. */
module PacketBalance {
  import opened Base
  import opened JsonTokens
  import opened JsonReaderSpec
  import opened JsonNesting
  import opened EventViews
  import opened TcpOptions
  import opened PacketTables
  import opened PacketFormat

  /** Where reading starts: a view, the nesting of its tokens, and a nesting depth not to be
      left meanwhile. */
  datatype Start = Start(view: View, ctx: Contexts, floor: nat)

  /** No token of `es` takes the nesting below `floor`. */
  predicate StaysAbove(ctx: Contexts, es: seq<Event>, floor: nat)
    decreases |es|
  {
    es == [] ||
      var next := NestStep(ctx, es[0]);
      next.Some? && |next.value| >= floor && StaysAbove(next.value, es[1..], floor)
  }

  predicate ReachedBody(s: Start, w: View, ctx: Contexts) {
    var n := |s.view.pending| - |w.pending|;
    && 0 <= n
    && w.pending == s.view.pending[n..]
    && NestRun(s.ctx, s.view.pending[..n]) == Some(ctx)
    && StaysAbove(s.ctx, s.view.pending[..n], s.floor)
    && NestRun(ctx, w.pending).Some?
    && w.depth - |ctx| == s.view.depth - |s.ctx|
  }

  ghost predicate Unlock(key: int) {
    true
  }

  /** `w` lies further on in the tokens of `s`, at nesting `ctx`. Kept under a lock. */
  ghost predicate Reached(s: Start, w: View, ctx: Contexts) {
    forall key: int {:trigger Unlock(key)} :: Unlock(key) ==> ReachedBody(s, w, ctx)
  }

  lemma Open(s: Start, w: View, ctx: Contexts)
    requires Reached(s, w, ctx)
    ensures ReachedBody(s, w, ctx)
  {
    assert Unlock(0);
  }

  lemma Begin(s: Start)
    requires NestRun(s.ctx, s.view.pending).Some?
    ensures Reached(s, s.view, s.ctx)
  {
    assert s.view.pending[..0] == [];
    assert s.view.pending[0..] == s.view.pending;
  }

  lemma {:induction false} StaysAboveSnoc(ctx: Contexts, es: seq<Event>, e: Event, floor: nat)
    requires StaysAbove(ctx, es, floor) && NestRun(ctx, es).Some?
    requires var next := NestStep(NestRun(ctx, es).value, e); next.Some? && |next.value| >= floor
    ensures StaysAbove(ctx, es + [e], floor)
    decreases |es|
  {
    if es == [] {
      assert es + [e] == [e];
    } else {
      assert (es + [e])[1..] == es[1..] + [e];
      StaysAboveSnoc(NestStep(ctx, es[0]).value, es[1..], e, floor);
    }
  }

  lemma StepDepth(ctx: Contexts, e: Event)
    requires NestStep(ctx, e).Some?
    ensures |NestStep(ctx, e).value| == |ctx| + DepthChange(TokenOf(e))
  {
  }

  /** One token further. */
  lemma Extend(s: Start, v: View, ctx: Contexts, w: View) returns (next: Contexts)
    requires Reached(s, v, ctx) && NextView(v) == Some(w)
    ensures NestStep(ctx, v.pending[0]) == Some(next)
    ensures |next| >= s.floor ==> Reached(s, w, next)
  {
    Open(s, v, ctx);
    var all := s.view.pending;
    var n := |all| - |v.pending|;
    var e := v.pending[0];
    next := NestStep(ctx, e).value;
    if |next| >= s.floor {
      assert all[..n + 1] == all[..n] + [e];
      NestRunConcat(s.ctx, all[..n], [e]);
      StaysAboveSnoc(s.ctx, all[..n], e, s.floor);
      StepDepth(ctx, e);
      assert w.pending == all[n + 1..];
      assert ReachedBody(s, w, next);
    }
  }

  // ---------- single tokens ----------

  ghost predicate At(s: Start, v: View, base: Contexts, c: Context) {
    |base| + 1 >= s.floor && Reached(s, v, base + [c])
  }

  predicate IsScalarToken(t: JsonToken) {
    t in {StringToken, IntegerToken, FloatToken, BooleanToken, NullToken}
  }

  lemma NameStep(s: Start, v: View, base: Contexts, c: Context, w: View)
    requires At(s, v, base, c) && NextView(v) == Some(w) && w.token == PropertyNameToken
    ensures c == InObject && At(s, w, base, AwaitValue)
  {
    var next := Extend(s, v, base + [c], w);
    assert next == base + [AwaitValue];
  }

  lemma ScalarStep(s: Start, v: View, base: Contexts, c: Context, w: View)
    requires At(s, v, base, c) && NextView(v) == Some(w) && IsScalarToken(w.token)
    ensures AllowsValue(c) && At(s, w, base, AfterValue(c))
  {
    var next := Extend(s, v, base + [c], w);
    assert next == base + [AfterValue(c)];
  }

  lemma OpenStep(s: Start, v: View, base: Contexts, c: Context, w: View)
    requires At(s, v, base, c) && NextView(v) == Some(w)
    requires w.token == StartObjectToken || w.token == StartArrayToken
    ensures AllowsValue(c)
    ensures At(s, w, base + [AfterValue(c)], if w.token == StartObjectToken then InObject else InArray)
  {
    var next := Extend(s, v, base + [c], w);
    assert next == base + [AfterValue(c)] + [if w.token == StartObjectToken then InObject else InArray];
  }

  lemma CloseStep(s: Start, v: View, base: Contexts, c: Context, w: View)
    requires At(s, v, base, c) && NextView(v) == Some(w)
    requires w.token == EndObjectToken || w.token == EndArrayToken
    ensures c == if w.token == EndObjectToken then InObject else InArray
    ensures |base| >= s.floor ==> Reached(s, w, base)
  {
    var next := Extend(s, v, base + [c], w);
    assert next == base;
  }

  /** Behind a property name only a value may come. */
  lemma ValueToken(s: Start, v: View, base: Contexts, w: View)
    requires At(s, v, base, AwaitValue) && NextView(v) == Some(w)
    ensures IsScalarToken(w.token) || w.token == StartObjectToken || w.token == StartArrayToken
  {
    var next := Extend(s, v, base + [AwaitValue], w);
  }

  // ---------- properties ----------

  lemma PropertyStep(s: Start, v: View, base: Contexts, name: string, lo: int, hi: int)
    requires At(s, v, base, InObject) && ExpectProperty(v, name, lo, hi).Some?
    ensures At(s, ExpectProperty(v, name, lo, hi).value.1, base, InObject)
  {
    var u := ExpectName(v, name).value;
    NameStep(s, v, base, InObject, u);
    ScalarStep(s, u, base, AwaitValue, NextView(u).value);
  }

  /** A property whose own name is no enumeration value must have a scalar value: under any
      bracket the reader still holds the property's name. */
  lemma EnumStep(s: Start, v: View, base: Contexts, name: string, t: Table, n: nat)
    requires At(s, v, base, InObject) && n <= 256 && ExpectEnumProperty(v, name, t, n).Some?
    requires forall i :: 0 <= i < n ==> t(i) != Some(Ascii(name))
    ensures At(s, ExpectEnumProperty(v, name, t, n).value.1, base, InObject)
  {
    var u := ExpectName(v, name).value;
    var w := NextView(u).value;
    NameStep(s, v, base, InObject, u);
    ValueToken(s, u, base, w);
    LookupInverts(t, n, w.str);
    ScalarStep(s, u, base, AwaitValue, w);
  }

  lemma Ip4Step(s: Start, v: View, base: Contexts, name: string)
    requires At(s, v, base, InObject) && ExpectIp4Property(v, name).Some?
    ensures At(s, ExpectIp4Property(v, name).value.1, base, InObject)
  {
    var u := ExpectName(v, name).value;
    NameStep(s, v, base, InObject, u);
    ScalarStep(s, u, base, AwaitValue, NextView(u).value);
  }

  lemma {:induction false} TakeFlagsStep(s: Start, v: View, base: Contexts, t: FlagTable, mask: nat)
    requires At(s, v, base, InArray) && |base| >= s.floor && TakeFlags(v, t, mask).Some?
    ensures Reached(s, TakeFlags(v, t, mask).value.1, base)
    decreases |v.pending|
  {
    var w := NextView(v).value;
    if w.token == EndArrayToken {
      CloseStep(s, v, base, InArray, w);
    } else {
      ScalarStep(s, v, base, InArray, w);
      TakeFlagsStep(s, w, base, t, OrBit(mask, t(w.str).value));
    }
  }

  lemma FlagsStep(s: Start, v: View, base: Contexts, t: FlagTable)
    requires At(s, v, base, AwaitValue) && ExpectFlags(v, t).Some?
    ensures At(s, ExpectFlags(v, t).value.1, base, InObject)
  {
    var w := ExpectToken(v, StartArrayToken).value;
    OpenStep(s, v, base, AwaitValue, w);
    TakeFlagsStep(s, w, base + [InObject], t, 0);
  }

  // ---------- the tables do not contain the names of their properties ----------

  lemma ProtocolNames()
    ensures forall i :: 0 <= i < PROTOCOL_COUNT ==> ProtocolName(i) != Some(Ascii("protocol"))
  {
    forall i | 0 <= i < PROTOCOL_COUNT
      ensures ProtocolName(i) != Some(Ascii("protocol"))
    {
      if ProtocolText(i).Some? {
        ProtocolInitial(i);
        Differ(ProtocolText(i).value, "protocol", 0);
      }
    }
  }

  /** No protocol name begins with a small p. */
  predicate OtherInitial(name: Option<string>) {
    name.Some? ==> |name.value| > 0 && name.value[0] != 'p' && 0 < name.value[0] as int < 256
  }

  lemma ProtocolInitial(i: nat)
    ensures OtherInitial(ProtocolText(i))
  {
    ProtocolInitial0(i);
    ProtocolInitial32(i);
    ProtocolInitial64(i);
    ProtocolInitial96(i);
    ProtocolInitial120(i);
  }

  lemma ProtocolInitial0(i: nat)
    ensures OtherInitial(ProtocolText0(i))
  {
  }

  lemma ProtocolInitial32(i: nat)
    ensures OtherInitial(ProtocolText32(i))
  {
  }

  lemma ProtocolInitial64(i: nat)
    ensures OtherInitial(ProtocolText64(i))
  {
  }

  lemma ProtocolInitial96(i: nat)
    ensures OtherInitial(ProtocolText96(i))
  {
  }

  lemma ProtocolInitial120(i: nat)
    ensures OtherInitial(ProtocolText120(i))
  {
  }

  lemma IcmpNames()
    ensures forall i :: 0 <= i < ICMP_TYPE_COUNT ==> IcmpTypeName(i) != Some(Ascii("type"))
  {
    forall i | 0 <= i < ICMP_TYPE_COUNT
      ensures IcmpTypeName(i) != Some(Ascii("type"))
    {
      if IcmpTypeText(i).Some? {
        IcmpSecond(i);
        Differ(IcmpTypeText(i).value, "type", 1);
      }
    }
  }

  /** No ICMP type name has y for its second letter. */
  lemma IcmpSecond(i: nat)
    requires IcmpTypeText(i).Some?
    ensures var name := IcmpTypeText(i).value;
      |name| > 1 && name[1] != 'y' && 0 < name[0] as int < 256 && 0 < name[1] as int < 256
  {
  }

  lemma CodeNames()
    ensures forall i :: 0 <= i < UNREACHABLE_CODE_COUNT ==> UnreachableCodeName(i) != Some(Ascii("code"))
    ensures forall i :: 0 <= i < REDIRECT_CODE_COUNT ==> RedirectCodeName(i) != Some(Ascii("code"))
    ensures forall i :: 0 <= i < BAD_HEADER_CODE_COUNT ==> BadHeaderCodeName(i) != Some(Ascii("code"))
  {
    UnreachableCodeNames();
    forall i | 0 <= i < REDIRECT_CODE_COUNT
      ensures RedirectCodeName(i) != Some(Ascii("code"))
    {
      if RedirectCodeText(i).Some? {
        Differ(RedirectCodeText(i).value, "code", 0);
      }
    }
    forall i | 0 <= i < BAD_HEADER_CODE_COUNT
      ensures BadHeaderCodeName(i) != Some(Ascii("code"))
    {
      if BadHeaderCodeText(i).Some? {
        Differ(BadHeaderCodeText(i).value, "code", 0);
      }
    }
  }

  lemma UnreachableCodeNames()
    ensures forall i :: 0 <= i < UNREACHABLE_CODE_COUNT ==> UnreachableCodeName(i) != Some(Ascii("code"))
  {
    forall i | 0 <= i < UNREACHABLE_CODE_COUNT
      ensures UnreachableCodeName(i) != Some(Ascii("code"))
    {
      if i == 12 {
        Differ(UnreachableCodeText(12).value, "code", 2);
      } else if UnreachableCodeText(i).Some? {
        UnreachableInitial(i);
        Differ(UnreachableCodeText(i).value, "code", 0);
      }
    }
  }

  lemma UnreachableInitial(i: nat)
    requires i != 12 && UnreachableCodeText(i).Some?
    ensures var name := UnreachableCodeText(i).value; |name| > 0 && name[0] != 'c' && 0 < name[0] as int < 256
  {
  }

  // ---------- headers ----------

  lemma IpFrontStep(s: Start, v: View, base: Contexts)
    requires At(s, v, base, InObject) && TakeIpFront(v).Some?
    ensures At(s, TakeIpFront(v).value.3, base, InObject)
  {
    PropertyStep(s, v, base, "version", 4, 4);
    var v1 := ExpectProperty(v, "version", 4, 4).value.1;
    PropertyStep(s, v1, base, "tos", 0, 255);
    var v2 := ExpectProperty(v1, "tos", 0, 255).value.1;
    PropertyStep(s, v2, base, "id", 0, 0xffff);
    var v3 := ExpectProperty(v2, "id", 0, 0xffff).value.1;
    var v4 := ExpectName(v3, "flags").value;
    NameStep(s, v3, base, InObject, v4);
    FlagsStep(s, v4, base, IpFlag);
  }

  lemma IpMiddleStep(s: Start, v: View, base: Contexts, mask: nat)
    requires At(s, v, base, InObject) && TakeIpMiddle(v, mask).Some?
    ensures At(s, TakeIpMiddle(v, mask).value.3, base, InObject)
  {
    PropertyStep(s, v, base, "fragmentOffset", 0, 8191);
    var v1 := ExpectProperty(v, "fragmentOffset", 0, 8191).value.1;
    PropertyStep(s, v1, base, "ttl", 0, 255);
    var v2 := ExpectProperty(v1, "ttl", 0, 255).value.1;
    ProtocolNames();
    EnumStep(s, v2, base, "protocol", ProtocolName, PROTOCOL_COUNT);
  }

  lemma AddressesStep(s: Start, v: View, base: Contexts)
    requires At(s, v, base, InObject) && TakeAddresses(v).Some?
    ensures At(s, TakeAddresses(v).value.2, base, InObject)
  {
    Ip4Step(s, v, base, "source");
    Ip4Step(s, ExpectIp4Property(v, "source").value.1, base, "destination");
  }

  lemma IpStep(s: Start, v: View, base: Contexts)
    requires At(s, v, base, AwaitValue) && TakeIpFields(v).Some?
    ensures At(s, TakeIpFields(v).value.1, base, InObject)
  {
    var inner := base + [InObject];
    var v1 := ExpectToken(v, StartObjectToken).value;
    OpenStep(s, v, base, AwaitValue, v1);
    var (_, _, mask, v2) := TakeIpFront(v1).value;
    IpFrontStep(s, v1, inner);
    var (_, _, _, v3) := TakeIpMiddle(v2, mask).value;
    IpMiddleStep(s, v2, inner, mask);
    var (_, _, v4) := TakeAddresses(v3).value;
    AddressesStep(s, v3, inner);
    CloseStep(s, v4, inner, InObject, ExpectToken(v4, EndObjectToken).value);
  }

  lemma PortsStep(s: Start, v: View, base: Contexts)
    requires At(s, v, base, InObject) && TakePorts(v).Some?
    ensures At(s, TakePorts(v).value.2, base, InObject)
  {
    PropertyStep(s, v, base, "sourcePort", 0, 0xffff);
    PropertyStep(s, ExpectProperty(v, "sourcePort", 0, 0xffff).value.1, base, "destPort", 0, 0xffff);
  }

  lemma UdpStep(s: Start, v: View, base: Contexts)
    requires At(s, v, base, AwaitValue) && DecodeUdp(v).Some?
    ensures At(s, DecodeUdp(v).value.1, base, InObject)
  {
    var v1 := ExpectToken(v, StartObjectToken).value;
    OpenStep(s, v, base, AwaitValue, v1);
    PortsStep(s, v1, base + [InObject]);
    var v2 := TakePorts(v1).value.2;
    CloseStep(s, v2, base + [InObject], InObject, ExpectToken(v2, EndObjectToken).value);
  }

  lemma IcmpCodeStep(s: Start, v: View, base: Contexts, kind: byte)
    requires At(s, v, base, InObject) && DecodeIcmpCode(v, kind).Some?
    ensures At(s, DecodeIcmpCode(v, kind).value.1, base, InObject)
  {
    CodeNames();
    if kind == ICMP_DEST_UNREACH {
      EnumStep(s, v, base, "code", UnreachableCodeName, UNREACHABLE_CODE_COUNT);
    } else if kind == ICMP_REDIRECT {
      EnumStep(s, v, base, "code", RedirectCodeName, REDIRECT_CODE_COUNT);
    } else if kind == ICMP_PARAMETERPROB {
      EnumStep(s, v, base, "code", BadHeaderCodeName, BAD_HEADER_CODE_COUNT);
    } else {
      PropertyStep(s, v, base, "code", 0, 255);
    }
  }

  lemma IcmpRestStep(s: Start, v: View, base: Contexts, kind: byte)
    requires At(s, v, base, InObject) && DecodeIcmpRest(v, kind).Some?
    ensures At(s, DecodeIcmpRest(v, kind).value.1, base, InObject)
  {
    if HasEchoFields(kind) {
      PropertyStep(s, v, base, "identifier", 0, 0xffff);
      PropertyStep(s, ExpectProperty(v, "identifier", 0, 0xffff).value.1, base, "sequenceNumber", 0, 0xffff);
    } else if kind == ICMP_DEST_UNREACH {
      PropertyStep(s, v, base, "nextHopMtu", 0, 0xffff);
    } else if kind == ICMP_REDIRECT {
      Ip4Step(s, v, base, "gateway");
    }
  }

  lemma IcmpStep(s: Start, v: View, base: Contexts)
    requires At(s, v, base, AwaitValue) && DecodeIcmp(v).Some?
    ensures At(s, DecodeIcmp(v).value.1, base, InObject)
  {
    var inner := base + [InObject];
    var v1 := ExpectToken(v, StartObjectToken).value;
    OpenStep(s, v, base, AwaitValue, v1);
    IcmpNames();
    EnumStep(s, v1, inner, "type", IcmpTypeName, ICMP_TYPE_COUNT);
    var (kind, v2) := ExpectEnumProperty(v1, "type", IcmpTypeName, ICMP_TYPE_COUNT).value;
    IcmpCodeStep(s, v2, inner, kind);
    var v3 := DecodeIcmpCode(v2, kind).value.1;
    IcmpRestStep(s, v3, inner, kind);
    var v4 := DecodeIcmpRest(v3, kind).value.1;
    CloseStep(s, v4, inner, InObject, ExpectToken(v4, EndObjectToken).value);
  }

  // ---------- TCP options ----------

  /** In `m` arrays within the TCP object. The reader may be deeper in them than the code
      believes: a bracket in place of an option's name passes for the previous name. */
  function Deep(base: Contexts, m: nat): Contexts {
    base + [InObject] + seq(m, _ => InArray)
  }

  lemma DeepArray(base: Contexts, m: nat)
    requires m > 0
    ensures Deep(base, m) == Deep(base, m - 1) + [InArray]
  {
  }

  lemma DeepObject(base: Contexts)
    ensures Deep(base, 0) == base + [InObject]
  {
  }

  /** A token between the elements of an array, as far as it leads on to success. */
  lemma DeepStep(s: Start, v: View, base: Contexts, m: nat, w: View) returns (m': nat)
    requires |base| + 1 >= s.floor && Reached(s, v, Deep(base, m)) && NextView(v) == Some(w)
    requires w.token != EndObjectToken && w.token != PropertyNameToken
    ensures m > 0
    ensures w.token == StartArrayToken ==> m' == m + 1
    ensures w.token == EndArrayToken ==> m' == m - 1
    ensures IsScalarToken(w.token) ==> m' == m
    ensures w.token != StartObjectToken ==> Reached(s, w, Deep(base, m'))
    ensures w.token == StartObjectToken ==> Reached(s, w, Deep(base, m) + [InObject])
  {
    if m == 0 {
      DeepObject(base);
      NotAValue(s, v, base, w);
    } else {
      DeepArray(base, m);
      var outer := Deep(base, m - 1);
      if w.token == EndArrayToken {
        m' := m - 1;
        CloseStep(s, v, outer, InArray, w);
      } else if IsScalarToken(w.token) {
        m' := m;
        ScalarStep(s, v, outer, InArray, w);
      } else {
        m' := m + 1;
        OpenStep(s, v, outer, InArray, w);
        if w.token == StartArrayToken {
          DeepArray(base, m + 1);
        }
      }
    }
  }

  /** Between the members of an object only a name or the end may come. */
  lemma NotAValue(s: Start, v: View, base: Contexts, w: View)
    requires |base| + 1 >= s.floor && Reached(s, v, base + [InObject]) && NextView(v) == Some(w)
    ensures w.token == EndObjectToken || w.token == PropertyNameToken
  {
    var next := Extend(s, v, base + [InObject], w);
  }

  /** In an array neither. */
  lemma OnlyValues(s: Start, v: View, base: Contexts, m: nat, w: View)
    requires |base| + 1 >= s.floor && m > 0 && Reached(s, v, Deep(base, m)) && NextView(v) == Some(w)
    ensures w.token != EndObjectToken && w.token != PropertyNameToken
  {
    DeepArray(base, m);
    var next := Extend(s, v, Deep(base, m - 1) + [InArray], w);
  }

  /** What follows the word of an option, and the bracket behind it. */
  lemma OptionValueStep(s: Start, v: View, base: Contexts, m: nat, kind: byte) returns (m': nat)
    requires |base| + 1 >= s.floor && Reached(s, v, Deep(base, m)) && TakeOptionValue(v, kind).Some?
    ensures m' == m && Reached(s, TakeOptionValue(v, kind).value.1, Deep(base, m))
  {
    m' := m;
    if kind == TCPOPT_MAXSEG || kind == TCPOPT_WINDOW {
      var k := DeepStep(s, v, base, m, NextView(v).value);
    } else if kind == TCPOPT_TIMESTAMP {
      var w := NextView(v).value;
      var k := DeepStep(s, v, base, m, w);
      var j := DeepStep(s, w, base, m, NextView(w).value);
    }
  }

  /** No option's value fits into an object opened in place of its name. */
  lemma ObjectForOption(s: Start, v: View, ctx: Contexts, kind: byte)
    requires |ctx| >= s.floor && Reached(s, v, ctx + [InObject])
    ensures TakeOptionValue(v, kind).Some? ==> ExpectToken(TakeOptionValue(v, kind).value.1, EndArrayToken).None?
  {
    if NextView(v).Some? {
      NotAValue(s, v, ctx, NextView(v).value);
    }
  }

  /** One option from behind its opening bracket to its closing one, as the code sees them. */
  lemma OptionStep(s: Start, v: View, base: Contexts, m: nat) returns (m': nat)
    requires |base| + 1 >= s.floor && m >= 2 && Reached(s, v, Deep(base, m)) && TakeOption(v).Some?
    requires ExpectToken(TakeOption(v).value.1, EndArrayToken).Some?
    ensures Reached(s, ExpectToken(TakeOption(v).value.1, EndArrayToken).value, Deep(base, m'))
  {
    var (kind, w) := ExpectEnum(v, TcpOptionName, TCP_OPTION_COUNT).value;
    OnlyValues(s, v, base, m, w);
    var k := DeepStep(s, v, base, m, w);
    if w.token == StartObjectToken {
      ObjectForOption(s, w, Deep(base, m), kind);
    }
    var j := OptionValueStep(s, w, base, k, kind);
    var u := TakeOption(v).value.1;
    m' := DeepStep(s, u, base, k, ExpectToken(u, EndArrayToken).value);
  }

  /** The option array from the token in front of its first element on. */
  lemma {:induction false} OptionsStep(s: Start, u: View, base: Contexts, m: nat, v: View) returns (m': nat)
    requires |base| + 1 >= s.floor && Reached(s, u, Deep(base, m)) && NextView(u) == Some(v)
    requires TakeOptions(v).Some?
    ensures Reached(s, TakeOptions(v).value.1, Deep(base, m'))
    decreases |v.pending|
  {
    var k := DeepStep(s, u, base, m, v);
    if v.token == EndArrayToken {
      m' := k;
    } else {
      TakeOptionIsShorter(v);
      var (o, v1) := TakeOption(v).value;
      var v2 := ExpectToken(v1, EndArrayToken).value;
      var j := OptionStep(s, v, base, k);
      m' := OptionsStep(s, v2, base, j, NextView(v2).value);
    }
  }

  /** The options property if there is one, and the end of the TCP object. */
  lemma DecodeOptionsStep(s: Start, u: View, base: Contexts, v: View)
    requires |base| >= s.floor && Reached(s, u, base + [InObject]) && NextView(u) == Some(v)
    requires DecodeOptions(v).Some?
    ensures Reached(s, DecodeOptions(v).value.1, base)
  {
    if v.token == EndObjectToken {
      CloseStep(s, u, base, InObject, v);
    } else {
      NameStep(s, u, base, InObject, v);
      var v1 := ExpectToken(v, StartArrayToken).value;
      OpenStep(s, v, base, AwaitValue, v1);
      DeepObject(base);
      DeepArray(base, 1);
      var v2 := NextView(v1).value;
      var (os, v3) := TakeOptions(v2).value;
      var m := OptionsStep(s, v1, base, 1, v2);
      var w := ExpectToken(v3, EndObjectToken).value;
      if m > 0 {
        OnlyValues(s, v3, base, m, w);
      }
      CloseStep(s, v3, base, InObject, w);
    }
  }

  // ---------- TCP ----------

  lemma AckNumberStep(s: Start, v: View, base: Contexts)
    requires At(s, v, base, InObject) && TakeAckNumber(v).Some?
    ensures At(s, TakeAckNumber(v).value.1, base, AwaitValue)
  {
    var v1 := ExpectToken(v, PropertyNameToken).value;
    NameStep(s, v, base, InObject, v1);
    if v1.str == Ascii("ackNumber") {
      var v2 := ExpectInt(v1, 0, 0xffff_ffff).value.1;
      ScalarStep(s, v1, base, AwaitValue, v2);
      NameStep(s, v2, base, InObject, ExpectToken(v2, PropertyNameToken).value);
    }
  }

  lemma TcpControlStep(s: Start, v: View, base: Contexts)
    requires At(s, v, base, AwaitValue) && TakeTcpControl(v).Some?
    ensures At(s, TakeTcpControl(v).value.3, base, InObject)
  {
    FlagsStep(s, v, base, TcpFlag);
    var (flags, v1) := ExpectFlags(v, TcpFlag).value;
    PropertyStep(s, v1, base, "windowSize", 0, 0xffff);
    var v2 := ExpectProperty(v1, "windowSize", 0, 0xffff).value.1;
    if HasBit(flags, URG_BIT) {
      PropertyStep(s, v2, base, "urgentPointer", 0, 0xffff);
    }
  }

  lemma TcpFieldsStep(s: Start, v: View, base: Contexts)
    requires At(s, v, base, AwaitValue) && TakeTcpFields(v).Some?
    ensures At(s, TakeTcpFields(v).value.1, base + [InObject], InObject)
  {
    var inner := base + [InObject];
    var v1 := ExpectToken(v, StartObjectToken).value;
    OpenStep(s, v, base, AwaitValue, v1);
    PortsStep(s, v1, inner);
    var v2 := TakePorts(v1).value.2;
    PropertyStep(s, v2, inner, "seqNumber", 0, 0xffff_ffff);
    var v3 := ExpectProperty(v2, "seqNumber", 0, 0xffff_ffff).value.1;
    AckNumberStep(s, v3, inner);
    TcpControlStep(s, TakeAckNumber(v3).value.1, inner);
  }

  lemma TcpStep(s: Start, v: View, base: Contexts)
    requires At(s, v, base, AwaitValue) && DecodeTcp(v).Some?
    ensures At(s, DecodeTcp(v).value.1, base, InObject)
  {
    TcpFieldsStep(s, v, base);
    var v1 := TakeTcpFields(v).value.1;
    var v2 := NextView(v1).value;
    DecodeOptionsStep(s, v1, base + [InObject], v2);
  }

  // ---------- the packet ----------

  lemma TransportStep(s: Start, v: View, base: Contexts, protocol: byte)
    requires At(s, v, base, InObject) && DecodeTransport(v, protocol).Some?
    ensures At(s, DecodeTransport(v, protocol).value.1, base, InObject)
  {
    if protocol == PROTOCOL_TCP {
      var w := ExpectName(v, "tcp").value;
      NameStep(s, v, base, InObject, w);
      TcpStep(s, w, base);
    } else if protocol == PROTOCOL_UDP {
      var w := ExpectName(v, "udp").value;
      NameStep(s, v, base, InObject, w);
      UdpStep(s, w, base);
    } else if protocol == PROTOCOL_ICMP {
      var w := ExpectName(v, "icmp").value;
      NameStep(s, v, base, InObject, w);
      IcmpStep(s, w, base);
    }
  }

  lemma HeadersStep(s: Start, v: View, base: Contexts)
    requires At(s, v, base, InObject) && DecodeHeaders(v).Some?
    ensures At(s, DecodeHeaders(v).value.1, base, InObject)
  {
    var v1 := ExpectName(v, "ip").value;
    NameStep(s, v, base, InObject, v1);
    var (ip, v2) := DecodeIp(v1).value;
    IpStep(s, v1, base);
    TransportStep(s, v2, base, ip[9]);
  }

  lemma {:induction false} LinesStep(s: Start, v: View, base: Contexts)
    requires At(s, v, base, InArray) && |base| >= s.floor && TakeLines(v).Some?
    ensures Reached(s, TakeLines(v).value.1, base)
    decreases |v.pending|
  {
    var w := NextView(v).value;
    if w.token == EndArrayToken {
      CloseStep(s, v, base, InArray, w);
    } else {
      ScalarStep(s, v, base, InArray, w);
      LinesStep(s, w, base);
    }
  }

  lemma PayloadStep(s: Start, v: View, base: Contexts)
    requires At(s, v, base, AwaitValue) && TakePayload(v).Some?
    ensures At(s, TakePayload(v).value.2, base + [InObject], InObject)
  {
    var inner := base + [InObject];
    var v1 := ExpectToken(v, StartObjectToken).value;
    OpenStep(s, v, base, AwaitValue, v1);
    var v2 := ExpectName(v1, "type").value;
    NameStep(s, v1, inner, InObject, v2);
    var v3 := ExpectToken(v2, StringToken).value;
    ScalarStep(s, v2, inner, AwaitValue, v3);
    var v4 := ExpectName(v3, "data").value;
    NameStep(s, v3, inner, InObject, v4);
    var v5 := ExpectToken(v4, StartArrayToken).value;
    OpenStep(s, v4, inner, AwaitValue, v5);
    LinesStep(s, v5, inner + [InObject]);
  }

  /** Up to the token in front of the one that ends the packet. */
  lemma DataStep(s: Start, v: View, base: Contexts) returns (u: View)
    requires At(s, v, base, InObject) && DecodeData(v).Some?
    ensures At(s, u, base, InObject) && ExpectToken(u, EndObjectToken) == Some(DecodeData(v).value.1)
  {
    var v1 := NextView(v).value;
    if v1.token == EndObjectToken {
      u := v;
    } else {
      NameStep(s, v, base, InObject, v1);
      PayloadStep(s, v1, base);
      var v2 := TakePayload(v1).value.2;
      u := ExpectToken(v2, EndObjectToken).value;
      CloseStep(s, v2, base + [InObject], InObject, u);
    }
  }

  /** `es` is the rest of the object whose contents have the nesting `ctx`: it ends with the first
      token that leaves that nesting. */
  predicate ClosesObject(ctx: Contexts, es: seq<Event>)
    requires ctx != []
  {
    && es != [] && es[|es| - 1] == EndObject
    && StaysAbove(ctx, es[..|es| - 1], |ctx|)
    && NestRun(ctx, es) == Some(ctx[..|ctx| - 1])
  }

  /** Whenever DeserializePacket succeeds behind the opening bracket of an object, it has read up
      to the bracket that closes this object. */
  lemma DecodeIsBalanced(v: View, base: Contexts)
    requires NestRun(base + [InObject], v.pending).Some? && Decode(v).Some?
    ensures var w := Decode(v).value.1;
      var n := |v.pending| - |w.pending|;
      && 0 <= n && w.pending == v.pending[n..]
      && ClosesObject(base + [InObject], v.pending[..n])
      && w.token == EndObjectToken && w.depth == v.depth - 1
  {
    var ctx := base + [InObject];
    var s := Start(v, ctx, |ctx|);
    Begin(s);
    var u := PacketStep(s, base);
    LastStep(s, u, base, Decode(v).value.1);
  }

  /** Up to the token in front of the last one. */
  lemma PacketStep(s: Start, base: Contexts) returns (u: View)
    requires At(s, s.view, base, InObject) && Decode(s.view).Some?
    ensures At(s, u, base, InObject) && ExpectToken(u, EndObjectToken) == Some(Decode(s.view).value.1)
  {
    HeadersStep(s, s.view, base);
    u := DataStep(s, DecodeHeaders(s.view).value.1, base);
  }

  lemma LastStep(s: Start, u: View, base: Contexts, w: View)
    requires s.ctx == base + [InObject] && s.floor == |s.ctx| && Reached(s, u, base + [InObject])
    requires ExpectToken(u, EndObjectToken) == Some(w)
    ensures var n := |s.view.pending| - |w.pending|;
      && 0 <= n && w.pending == s.view.pending[n..]
      && ClosesObject(s.ctx, s.view.pending[..n])
      && w.depth == s.view.depth - 1
  {
    Open(s, u, base + [InObject]);
    var all := s.view.pending;
    var n := |all| - |u.pending|;
    assert u.pending[0] == EndObject;
    assert all[..n + 1] == all[..n] + [EndObject];
    assert all[..n + 1][..n] == all[..n];
    NestRunConcat(s.ctx, all[..n], [EndObject]);
    assert (base + [InObject])[..|base|] == base;
  }

  /** Behind a bracket that opens an object the reader's nesting ends in that object. */
  lemma BehindBracket(before: ReaderState, s: ReaderState)
    requires ReaderInvariant(before) && Next(before) == Outcome(true, s) && s.token == StartObjectToken
    ensures NestRun(Nesting(s), Events(s)).Some?
    ensures var n := |Nesting(s)| - 1; Nesting(s) == Nesting(s)[..n] + [InObject]
  {
    NextNests(before);
    EventsNest(s);
    assert EventOf(s) == StartObject;
  }

  /** So the reader ends on the matching bracket, with its mode stack one shorter than where the
      packet began. */
  lemma ReaderEndsOnMatchingObject(before: ReaderState, s: ReaderState, t: ReaderState)
    requires ReaderInvariant(before) && Next(before) == Outcome(true, s)
    requires Decode(ViewOf(s)).Some? && Decode(ViewOf(s)).value.1 == ViewOf(t)
    ensures t.token == EndObjectToken && |t.stack| == |s.stack| - 1
    ensures var n := |Events(s)| - |Events(t)|;
      0 <= n && Events(t) == Events(s)[n..] && ClosesObject(Nesting(s), Events(s)[..n])
  {
    BehindBracket(before, s);
    DecodeIsBalanced(ViewOf(s), Nesting(s)[..|Nesting(s)| - 1]);
  }
}
