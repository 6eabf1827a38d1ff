// Two programs whose releases can be noticed: one overflows the symbol table, one the frame.
module ReleaseOverflows {
  import opened Ast
  import opened Values
  import opened Bytecode
  import opened CodeShape
  import opened CodeTree
  import opened CodeRuns
  import opened Ssa
  import opened Programs
  import opened Release
  import ReleaseLimits
  import Divergence
  import Scoping

  // ---- Filling the tables ----

  function Name(i: nat): string {
    seq(i + 1, _ => 'a')
  }

  /** `k` declarations of different names, all kept in the environment. */
  function Filler(k: nat): (ss: seq<Stmt>)
    ensures |ss| == k
  {
    if k == 0 then [] else Filler(k - 1) + [Let(Name(k - 1), Number(0.0), true)]
  }

  /** A variable that is assigned and printed, the filler, and more. */
  function Opening(version: int, lastUse: bool, k: nat): seq<Stmt> {
    [Assign("x", Number(1.0)), Print(Ident("x", version, lastUse)), Block(Filler(k))]
  }

  lemma FillerSplits(k: nat)
    requires k > 0
    ensures Filler(k)[..k - 1] == Filler(k - 1) && Filler(k)[k - 1] == Let(Name(k - 1), Number(0.0), true)
  {
  }

  lemma NamesDiffer(i: nat)
    ensures Name(i) != "x" && forall j: nat :: Name(i) == Name(j) ==> i == j
  {
    assert Name(i)[0] == 'a';
    forall j: nat | Name(i) == Name(j)
      ensures i == j
    {
      assert |Name(i)| == i + 1 && |Name(j)| == j + 1;
    }
  }

  lemma {:induction false} FillerIsPlain(k: nat)
    ensures StraightSs(Filler(k)) && StripSs(Filler(k)) == Filler(k) && EventsSs(Filler(k)) == DefsOf(k)
    ensures MentionsSs(Filler(k)) == NamesTo(k) && ReleaseLimits.OneClassSs(Filler(k), true)
    decreases k
  {
    if k > 0 {
      var last := Let(Name(k - 1), Number(0.0), true);
      FillerIsPlain(k - 1);
      Snoc(Filler(k - 1), last);
      assert EventsS(last) == [Def(Name(k - 1))] && MentionsS(last) == [Name(k - 1)];
    }
  }

  function DefsOf(k: nat): seq<Event> {
    if k == 0 then [] else DefsOf(k - 1) + [Def(Name(k - 1))]
  }

  function NamesTo(k: nat): (names: seq<string>)
    ensures |names| == k
  {
    if k == 0 then [] else NamesTo(k - 1) + [Name(k - 1)]
  }

  // ---- One statement more ----

  lemma {:induction false} Snoc(ss: seq<Stmt>, s: Stmt)
    ensures StraightSs(ss + [s]) <==> StraightSs(ss) && Straight(s)
    ensures StripSs(ss + [s]) == StripSs(ss) + [StripS(s)]
    ensures EventsSs(ss + [s]) == EventsSs(ss) + EventsS(s)
    ensures MentionsSs(ss + [s]) == MentionsSs(ss) + MentionsS(s)
    ensures SymsSs(ss + [s], []) == SymsS(s, SymsSs(ss, []))
    ensures ReleaseLimits.OneClassSs(ss + [s], true)
            <==> ReleaseLimits.OneClassSs(ss, true) && ReleaseLimits.OneClass(s, true)
  {
    assert (ss + [s])[..|ss|] == ss;
  }

  lemma {:induction false} NumberSnoc(ss: seq<Stmt>, s: Stmt, t: Table)
    ensures var (front, t') := NumberSs(ss, t);
            NumberSs(ss + [s], t) == (front + [NumberS(s, t').0], NumberS(s, t').1)
  {
    assert (ss + [s])[..|ss|] == ss;
  }

  lemma {:induction false} MarkSnoc(ss: seq<Stmt>, s: Stmt, name: string, version: nat)
    ensures var (last, found) := MarkS(s, name, version, false);
            var (front, found') := MarkSs(ss, name, version, found);
            MarkSs(ss + [s], name, version, false) == (front + [last], found')
  {
    assert (ss + [s])[..|ss|] == ss;
  }

  // ---- The symbol table ----

  lemma {:induction false} FillerIsGlobal(k: nat, m: string)
    ensures !IsLocal(SymsSs(Filler(k), []), m)
    decreases k
  {
    if k > 0 {
      FillerSplits(k);
      FillerIsGlobal(k - 1, m);
      Scoping.AddSymbolAnyway(SymsSs(Filler(k - 1), []), Name(k - 1), false, m);
    }
  }

  lemma {:induction false} FillerIsListed(k: nat, m: string)
    requires k <= MAX_SYMBOLS
    ensures var syms := SymsSs(Filler(k), []); |syms| == k && (Scoping.Listed(syms, m) <==> m in NamesTo(k))
    decreases k
  {
    if k > 0 {
      var syms, name := SymsSs(Filler(k - 1), []), Name(k - 1);
      FillerSplits(k);
      FillerIsListed(k - 1, m);
      FillerIsListed(k - 1, name);
      NotAmong(k - 1, k - 1);
      assert [] + syms == syms && SymsSs(Filler(k), []) == AddSymbol(syms, name, false);
      Scoping.AddSymbolFromIsUpdate([], syms, name, false, m);
    }
  }

  lemma {:induction false} NotAmong(k: nat, j: nat)
    requires k <= j
    ensures Name(j) !in NamesTo(k) && "x" !in NamesTo(k)
    decreases k
  {
    if k > 0 {
      NotAmong(k - 1, j);
      NamesDiffer(k - 1);
    }
  }

  // ---- Numbering and marking ----

  /** After `x` and the first `k` fillers. */
  ghost predicate Registered(t: Table, k: nat) {
    && |t| == 1 + (if k < MAX_SSA_VARS then k else MAX_SSA_VARS - 1)
    && t[0] == SsaVar("x", [0], 1)
    && forall i :: 1 <= i < |t| ==> t[i].name == Name(i - 1)
  }

  lemma RegisteredFinds(t: Table, k: nat, j: nat)
    requires Registered(t, k)
    ensures Find(t, "x") == 0
    ensures j + 1 >= |t| ==> Find(t, Name(j)) == |t|
  {
    forall i | 0 <= i < |t|
      ensures j + 1 >= |t| ==> t[i].name != Name(j)
    {
      NamesDiffer(j);
      if i > 0 {
        assert t[i].name == Name(i - 1);
      }
    }
  }

  lemma {:induction false} FillerNumbered(k: nat, t: Table)
    requires Registered(t, 0)
    ensures NumberSs(Filler(k), t).0 == Filler(k) && Registered(NumberSs(Filler(k), t).1, k)
    decreases k
  {
    if k > 0 {
      var last, t' := Let(Name(k - 1), Number(0.0), true), NumberSs(Filler(k - 1), t).1;
      FillerNumbered(k - 1, t);
      NumberSnoc(Filler(k - 1), last, t);
      FillerPushed(t', k);
      assert NumberS(last, t') == (last, Ssa.Push(t', Name(k - 1)));
    }
  }

  lemma FillerPushed(t: Table, k: nat)
    requires k > 0 && Registered(t, k - 1)
    ensures Registered(Ssa.Push(t, Name(k - 1)), k)
  {
    var name := Name(k - 1);
    RegisteredFinds(t, k - 1, k - 1);
    if |t| < MAX_SSA_VARS {
      var t' := t + [SsaVar(name, [], 0)];
      FindLast(t, SsaVar(name, [], 0));
      assert Find(t', name) == |t|;
    }
  }

  lemma {:induction false} FindLast(t: Table, v: SsaVar)
    requires Find(t, v.name) == |t|
    ensures Find(t + [v], v.name) == |t|
    decreases |t|
  {
    assert (t + [v])[|t|].name == v.name;
    forall i | 0 <= i < |t|
      ensures (t + [v])[i].name != v.name
    {
      assert t[i].name != v.name;
    }
  }

  /** Nothing below carries a version of that name. */
  ghost predicate Unversioned(ev: seq<Event>, name: string) {
    forall i :: 0 <= i < |ev| && ev[i].Use? && ev[i].name == name ==> ev[i].version < 0
  }

  lemma UnversionedParts(a: seq<Event>, b: seq<Event>, name: string)
    requires Unversioned(a + b, name)
    ensures Unversioned(a, name) && Unversioned(b, name)
  {
    forall i | 0 <= i < |a| && a[i].Use? && a[i].name == name
      ensures a[i].version < 0
    {
      assert (a + b)[i] == a[i];
    }
    forall i | 0 <= i < |b| && b[i].Use? && b[i].name == name
      ensures b[i].version < 0
    {
      assert (a + b)[|a| + i] == b[i];
    }
  }

  lemma {:induction false} MarkENothing(e: Expr, name: string, version: nat)
    requires Unversioned(EventsE(e), name)
    ensures MarkE(e, name, version, false) == (e, false)
    decreases e
  {
    match e
    case Ident(_, _, _) => assert EventsE(e)[0].Use?;
    case Binary(l, _, r) =>
      UnversionedParts(EventsE(l), EventsE(r), name);
      MarkENothing(l, name, version);
      MarkENothing(r, name, version);
    case _ =>
  }

  lemma {:induction false} MarkNothing(s: Stmt, name: string, version: nat)
    requires Straight(s) && Unversioned(EventsS(s), name)
    ensures MarkS(s, name, version, false) == (s, false)
    decreases s
  {
    match s
    case Let(n, value, _) =>
      UnversionedParts(EventsE(value), [Def(n)], name);
      MarkENothing(value, name, version);
    case Assign(n, source) =>
      UnversionedParts(EventsE(source), [Def(n)], name);
      MarkENothing(source, name, version);
    case Print(e) => MarkENothing(e, name, version);
    case Block(ss) => MarkSsNothing(ss, name, version);
  }

  lemma {:induction false} MarkSsNothing(ss: seq<Stmt>, name: string, version: nat)
    requires StraightSs(ss) && Unversioned(EventsSs(ss), name)
    ensures MarkSs(ss, name, version, false) == (ss, false)
    decreases ss
  {
    if ss != [] {
      var front, last := ss[..|ss| - 1], ss[|ss| - 1];
      UnversionedParts(EventsSs(front), EventsS(last), name);
      MarkNothing(last, name, version);
      MarkSsNothing(front, name, version);
      assert front + [last] == ss;
    }
  }

  lemma {:induction false} MarkVersionsNothing(s: Stmt, name: string, n: nat)
    requires Straight(s) && Unversioned(EventsS(s), name)
    ensures MarkVersions(s, name, n) == s
    decreases n
  {
    if n > 0 {
      MarkVersionsNothing(s, name, n - 1);
      MarkNothing(s, name, n - 1);
    }
  }

  /** Only the sweeps for the first variable of the table do anything. */
  lemma {:induction false} MarkVarsFirst(s: Stmt, t: Table, marked: Stmt)
    requires Straight(s) && t != [] && MarkVersions(s, t[0].name, t[0].totalVersions) == marked
    requires forall i :: 1 <= i < |t| ==> Unversioned(EventsS(marked), t[i].name)
    ensures MarkVars(s, t) == marked
    decreases |t|
  {
    if |t| == 1 {
      assert t[..0] == [];
      assert MarkVars(s, []) == s;
    } else {
      MarkVarsFirst(s, t[..|t| - 1], marked);
      MarkVersionsNothing(marked, t[|t| - 1].name, t[|t| - 1].totalVersions);
    }
  }

  // ---- Running ----

  /** The code runs through and leaves nothing on the stack. */
  ghost predicate At(x: Outcome, env: map<string, Value>, out: seq<Value>) {
    x.Ran? && x.m.stack == [] && x.m.env == env && x.m.out == out
  }

  lemma {:induction false} DoAppend(vars: seq<string>, fmt: Format, a: seq<Item>, b: seq<Item>, m: Memory)
    ensures var first := DoItems(vars, fmt, a, m);
            DoItems(vars, fmt, a + b, m) == if first.Ran? then DoItems(vars, fmt, b, first.m) else first
    decreases |b|
  {
    if b == [] {
      assert a + b == a;
    } else {
      assert (a + b)[..|a + b| - 1] == a + b[..|b| - 1];
      DoAppend(vars, fmt, a, b[..|b| - 1], m);
    }
  }

  lemma {:induction false} DoOne(vars: seq<string>, fmt: Format, item: Item, m: Memory)
    ensures DoItems(vars, fmt, [item], m) == DoItem(vars, fmt, item, m)
  {
    assert [item][..0] == [];
  }

  lemma {:induction false} StoreAt(vars: seq<string>, fmt: Format, m: Memory, c: real, name: string, isLocal: bool)
    requires m.stack == [] && (isLocal ==> Place(vars, name) < REGISTERS)
    ensures At(DoItems(vars, fmt, [Push(Num(c))] + [Store(name, isLocal)], m),
               if isLocal then m.env else Bind(m.env, name, Num(c)), m.out)
  {
    DoAppend(vars, fmt, [Push(Num(c))], [Store(name, isLocal)], m);
    DoOne(vars, fmt, Push(Num(c)), m);
    var next := m.(stack := m.stack + [Num(c)]);
    assert next.stack == [Num(c)];
    DoOne(vars, fmt, Store(name, isLocal), next);
  }

  lemma {:induction false} ShowAt(vars: seq<string>, fmt: Format, m: Memory, v: Value)
    requires m.stack == [v]
    ensures At(DoItems(vars, fmt, [Exact(PrintTop)] + [Exact(Pop)], m), m.env, m.out + [v])
  {
    DoAppend(vars, fmt, [Exact(PrintTop)], [Exact(Pop)], m);
    DoOne(vars, fmt, Exact(PrintTop), m);
    DoOne(vars, fmt, Exact(Pop), m.(out := m.out + [v]));
  }

  lemma {:induction false} UseAt(vars: seq<string>, fmt: Format, m: Memory, e: Expr, syms: Symbols)
    requires e.Ident? && !IsLocal(syms, e.name)
    ensures var x := DoItems(vars, fmt, ItemsE(e, syms), m);
            && x.Ran? && x.m.stack == m.stack + [Lookup(m.env, e.name)] && x.m.out == m.out
            && x.m.env == if e.lastUse then m.env - {e.name} else m.env
  {
    DoOne(vars, fmt, Load(e.name, false), m);
    if e.lastUse {
      DoAppend(vars, fmt, [Load(e.name, false)], [Free(e.name)], m);
      DoOne(vars, fmt, Free(e.name), m.(stack := m.stack + [Lookup(m.env, e.name)]));
    } else {
      assert ItemsE(e, syms) == [Load(e.name, false)];
    }
  }

  lemma {:induction false} PrintAt(vars: seq<string>, fmt: Format, m: Memory, e: Expr, syms: Symbols, fuel: nat)
    requires e.Ident? && m.stack == [] && !IsLocal(syms, e.name)
    ensures At(Do(vars, fmt, CodeOf(Print(e), syms), m, fuel), if e.lastUse then m.env - {e.name} else m.env,
               m.out + [Lookup(m.env, e.name)])
  {
    var items := ItemsE(e, syms);
    UseAt(vars, fmt, m, e, syms);
    assert items + [Exact(PrintTop), Exact(Pop)] == items + ([Exact(PrintTop)] + [Exact(Pop)]);
    DoAppend(vars, fmt, items, [Exact(PrintTop)] + [Exact(Pop)], m);
    ShowAt(vars, fmt, DoItems(vars, fmt, items, m).m, Lookup(m.env, e.name));
  }

  lemma {:induction false} LetAt(vars: seq<string>, fmt: Format, m: Memory, s: Stmt, syms: Symbols, fuel: nat)
    requires s.Let? && s.value.Number? && m.stack == [] && (!s.escapes ==> Place(vars, s.variable) < REGISTERS)
    ensures At(Do(vars, fmt, CodeOf(s, syms), m, fuel),
               if s.escapes then Bind(m.env, s.variable, Num(s.value.number)) else m.env, m.out)
  {
    StoreAt(vars, fmt, m, s.value.number, s.variable, !s.escapes);
  }

  /** One statement more. */
  lemma {:induction false} DoSnoc(vars: seq<string>, fmt: Format, ss: seq<Stmt>, s: Stmt, syms: Symbols, m: Memory,
                                  fuel: nat)
    ensures var first := Do(vars, fmt, CodeOfSs(ss, syms), m, fuel);
            Do(vars, fmt, CodeOfSs(ss + [s], syms), m, fuel)
            == if first.Ran? then Do(vars, fmt, CodeOf(s, SymsSs(ss, syms)), first.m, fuel) else first
  {
    assert (ss + [s])[..|ss|] == ss;
  }

  /** The environment after the filler. */
  function BindAll(env: map<string, Value>, k: nat): map<string, Value> {
    if k == 0 then env else Bind(BindAll(env, k - 1), Name(k - 1), Num(0.0))
  }

  lemma {:induction false} FillerAt(vars: seq<string>, fmt: Format, m: Memory, k: nat, syms: Symbols, fuel: nat)
    requires m.stack == []
    ensures At(Do(vars, fmt, CodeOfSs(Filler(k), syms), m, fuel), BindAll(m.env, k), m.out)
    decreases k
  {
    if k == 0 {
      assert DoItems(vars, fmt, [], m) == Ran(m);
    } else {
      var last := Let(Name(k - 1), Number(0.0), true);
      FillerAt(vars, fmt, m, k - 1, syms, fuel);
      DoSnoc(vars, fmt, Filler(k - 1), last, syms, m, fuel);
      LetAt(vars, fmt, Do(vars, fmt, CodeOfSs(Filler(k - 1), syms), m, fuel).m, last, SymsSs(Filler(k - 1), syms),
            fuel);
    }
  }

  lemma {:induction false} BeginningAt(vars: seq<string>, fmt: Format, version: int, lastUse: bool, fuel: nat)
    ensures At(Do(vars, fmt, CodeOfSs(Beginning(version, lastUse), []), Blank(), fuel),
               if lastUse then map[] else map["x" := Num(1.0)], [Num(1.0)])
  {
    var assign, use, x := Assign("x", Number(1.0)), Ident("x", version, lastUse), map["x" := Num(1.0)];
    OpeningSnoc(version, lastUse, 0);
    DoSnoc(vars, fmt, [], assign, [], Blank(), fuel);
    DoSnoc(vars, fmt, [assign], Print(use), [], Blank(), fuel);
    AssignIsPlain();
    assert DoItems(vars, fmt, [], Blank()) == Ran(Blank()) && SymsSs([], []) == [];
    StoreAt(vars, fmt, Blank(), 1.0, "x", false);
    assert Bind(map[], "x", Num(1.0)) == x;
    PrintAt(vars, fmt, Do(vars, fmt, CodeOf(assign, []), Blank(), fuel).m, use, [], fuel);
    assert x - {"x"} == map[] && [] + [Num(1.0)] == [Num(1.0)];
  }

  lemma {:induction false} OpeningAt(vars: seq<string>, fmt: Format, version: int, lastUse: bool, k: nat, fuel: nat)
    ensures At(Do(vars, fmt, CodeOfSs(Opening(version, lastUse, k), []), Blank(), fuel), Afterwards(lastUse, k),
               [Num(1.0)])
  {
    var ss := Beginning(version, lastUse);
    OpeningSnoc(version, lastUse, k);
    BeginningAt(vars, fmt, version, lastUse, fuel);
    BeginningIsPlain(version, lastUse);
    DoSnoc(vars, fmt, ss, Block(Filler(k)), [], Blank(), fuel);
    FillerAt(vars, fmt, Do(vars, fmt, CodeOfSs(ss, []), Blank(), fuel).m, k, [], fuel);
  }

  /** What the opening leaves in the environment. */
  function Afterwards(released: bool, k: nat): map<string, Value> {
    BindAll(if released then map[] else map["x" := Num(1.0)], k)
  }

  // ---- What the environment holds ----

  lemma {:induction false} OthersStay(env: map<string, Value>, k: nat)
    ensures Lookup(BindAll(env, k), "x") == Lookup(env, "x")
    decreases k
  {
    if k > 0 {
      OthersStay(env, k - 1);
      NamesDiffer(k - 1);
    }
  }

  lemma {:induction false} FillerFits(env: map<string, Value>, k: nat)
    requires |env| + k <= FRAME_SLOTS && forall m :: m in env ==> m == "x"
    ensures |BindAll(env, k)| == |env| + k
    ensures forall m :: m in BindAll(env, k) <==> m in env || m in NamesTo(k)
    decreases k
  {
    if k > 0 {
      FillerFits(env, k - 1);
      NotAmong(k - 1, k - 1);
      NamesDiffer(k - 1);
    }
  }

  // ---- What the opening becomes ----

  function Beginning(version: int, lastUse: bool): seq<Stmt> {
    [Assign("x", Number(1.0))] + [Print(Ident("x", version, lastUse))]
  }

  lemma {:induction false} OpeningSnoc(version: int, lastUse: bool, k: nat)
    ensures Opening(version, lastUse, k) == Beginning(version, lastUse) + [Block(Filler(k))]
    ensures [Assign("x", Number(1.0))] == [] + [Assign("x", Number(1.0))]
  {
  }

  lemma {:induction false} BeginningIsPlain(version: int, lastUse: bool)
    ensures StraightSs(Beginning(version, lastUse)) && ReleaseLimits.OneClassSs(Beginning(version, lastUse), true)
    ensures version == -1 && !lastUse ==> StripSs(Beginning(version, lastUse)) == Beginning(version, lastUse)
    ensures EventsSs(Beginning(version, lastUse)) == [Def("x"), Use("x", version, lastUse)]
    ensures MentionsSs(Beginning(version, lastUse)) == ["x", "x"]
    ensures SymsSs(Beginning(version, lastUse), []) == []
  {
    var use := Print(Ident("x", version, lastUse));
    AssignIsPlain();
    Snoc([Assign("x", Number(1.0))], use);
    assert EventsS(use) == [Use("x", version, lastUse)] && MentionsS(use) == ["x"];
  }

  lemma {:induction false} AssignIsPlain()
    ensures var ss := [Assign("x", Number(1.0))];
            && StraightSs(ss) && ReleaseLimits.OneClassSs(ss, true) && StripSs(ss) == ss
            && EventsSs(ss) == [Def("x")] && MentionsSs(ss) == ["x"] && SymsSs(ss, []) == []
  {
    var assign := Assign("x", Number(1.0));
    assert [assign][..0] == [];
    assert EventsS(assign) == [Def("x")] && MentionsS(assign) == ["x"];
  }

  lemma {:induction false} OpeningIsPlain(version: int, lastUse: bool, k: nat)
    ensures StraightSs(Opening(version, lastUse, k)) && ReleaseLimits.OneClassSs(Opening(version, lastUse, k), true)
    ensures version == -1 && !lastUse ==> StripSs(Opening(version, lastUse, k)) == Opening(version, lastUse, k)
    ensures EventsSs(Opening(version, lastUse, k)) == [Def("x"), Use("x", version, lastUse)] + DefsOf(k)
    ensures MentionsSs(Opening(version, lastUse, k)) == ["x", "x"] + NamesTo(k)
    ensures SymsSs(Opening(version, lastUse, k), []) == SymsSs(Filler(k), [])
  {
    OpeningSnoc(version, lastUse, k);
    BeginningIsPlain(version, lastUse);
    FillerIsPlain(k);
    Snoc(Beginning(version, lastUse), Block(Filler(k)));
  }

  lemma {:induction false} OpeningNumbered(k: nat) returns (t: Table)
    ensures NumberSs(Opening(-1, false, k), []) == (Opening(0, false, k), t) && Registered(t, k)
  {
    OpeningSnoc(-1, false, k);
    OpeningSnoc(0, false, k);
    var t1 := BeginningNumbered();
    NumberSnoc(Beginning(-1, false), Block(Filler(k)), []);
    FillerNumbered(k, t1);
    t := NumberSs(Filler(k), t1).1;
  }

  lemma FirstPush(t: Table)
    requires t == []
    ensures Ssa.Push(t, "x") == [SsaVar("x", [0], 1)]
  {
    var t' := FindOrCreate(t, "x");
    assert t' == [SsaVar("x", [], 0)] && Find(t', "x") == 0;
    assert t'[0].versionStack + [0] == [0];
  }

  lemma {:induction false} BeginningNumbered() returns (t: Table)
    ensures NumberSs(Beginning(-1, false), []) == (Beginning(0, false), t) && t == [SsaVar("x", [0], 1)]
  {
    var use, assign := Print(Ident("x", -1, false)), Assign("x", Number(1.0));
    t := [SsaVar("x", [0], 1)];
    FirstPush([]);
    NumberSnoc([], assign, []);
    OpeningSnoc(-1, false, 0);
    NumberSnoc([assign], use, []);
    assert NumberS(use, t) == (Print(Ident("x", 0, false)), t);
  }

  lemma {:induction false} DefsOnly(k: nat, name: string)
    ensures Unversioned(DefsOf(k), name)
    decreases k
  {
    if k > 0 {
      DefsOnly(k - 1, name);
    }
  }

  lemma UnversionedJoin(a: seq<Event>, b: seq<Event>, name: string)
    requires Unversioned(a, name) && Unversioned(b, name)
    ensures Unversioned(a + b, name)
  {
  }

  lemma {:induction false} OpeningMarked(k: nat)
    requires StraightSs(Opening(0, false, k))
    ensures MarkSs(Opening(0, false, k), "x", 0, false) == (Opening(0, true, k), true)
  {
    var use, assign := Print(Ident("x", 0, false)), Assign("x", Number(1.0));
    OpeningSnoc(0, false, k);
    OpeningSnoc(0, true, k);
    FillerIsPlain(k);
    DefsOnly(k, "x");
    BeginningIsPlain(0, false);
    MarkNothing(Block(Filler(k)), "x", 0);
    MarkSnoc(Beginning(0, false), Block(Filler(k)), "x", 0);
    Snoc([], assign);
    MarkSnoc([assign], use, "x", 0);
    MarkFoundIsIdentity([assign], "x", 0);
    assert MarkS(use, "x", 0, false) == (Print(Ident("x", 0, true)), true);
  }

  // ---- The variable table ----

  /** `x` comes first, then the fillers. */
  lemma {:induction false} OpeningNames(k: nat)
    ensures FirstMentions(["x", "x"] + NamesTo(k)) == ["x"] + NamesTo(k)
    decreases k
  {
    if k == 0 {
      assert ["x", "x"] + NamesTo(0) == ["x", "x"] && ["x", "x"][..1] == ["x"] && ["x"][..0] == [];
      assert FirstMentions(["x"]) == ["x"];
    } else {
      OpeningNames(k - 1);
      NamesDiffer(k - 1);
      NotAmong(k - 1, k - 1);
      assert (["x", "x"] + NamesTo(k))[..k + 1] == ["x", "x"] + NamesTo(k - 1);
      assert Name(k - 1) !in ["x"] + NamesTo(k - 1);
    }
  }

  lemma FirstMentionsSnoc(ms: seq<string>, name: string)
    ensures FirstMentions(ms + [name]) == AddName(FirstMentions(ms), name)
  {
    assert (ms + [name])[..|ms|] == ms;
  }

  // ---- A declaration turned away ----

  /** A hundred names fill the symbol table; then `x` is declared for a register. */
  function TurnedAway(v: int, m: bool, v': int, m': bool): seq<Stmt> {
    Opening(v, m, MAX_SYMBOLS) + [Redeclared()] + [Print(Ident("x", v', m'))]
  }

  function Redeclared(): Stmt {
    Let("x", Number(2.0), false)
  }

  lemma {:induction false} TurnedAwayIsPlain(v: int, m: bool, v': int, m': bool)
    ensures Straight(Block(TurnedAway(v, m, v', m')))
    ensures EventsSs(TurnedAway(v, m, v', m'))
         == [Def("x"), Use("x", v, m)] + DefsOf(MAX_SYMBOLS) + [Def("x")] + [Use("x", v', m')]
    ensures v == v' == -1 && !m && !m' ==> StripSs(TurnedAway(v, m, v', m')) == TurnedAway(v, m, v', m')
  {
    var o, use := Opening(v, m, MAX_SYMBOLS), Print(Ident("x", v', m'));
    OpeningIsPlain(v, m, MAX_SYMBOLS);
    Snoc(o, Redeclared());
    Snoc(o + [Redeclared()], use);
    assert EventsS(Redeclared()) == [Def("x")] && EventsS(use) == [Use("x", v', m')];
  }

  lemma {:induction false} TurnedAwayNumbered() returns (t: Table)
    ensures NumberSs(TurnedAway(-1, false, -1, false), []) == (TurnedAway(0, false, 1, false), t)
    ensures t != [] && t[0] == SsaVar("x", [0, 1], 2) && forall i :: 1 <= i < |t| ==> t[i].name == Name(i - 1)
  {
    var o, use := Opening(-1, false, MAX_SYMBOLS), Print(Ident("x", -1, false));
    var t0 := OpeningNumbered(MAX_SYMBOLS);
    NumberSnoc(o, Redeclared(), []);
    NumberSnoc(o + [Redeclared()], use, []);
    RegisteredFinds(t0, MAX_SYMBOLS, 0);
    t := Ssa.Push(t0, "x");
    assert [0] + [1] == [0, 1];
    assert t == t0[0 := SsaVar("x", [0, 1], 2)];
    assert NumberS(Redeclared(), t0) == (Redeclared(), t);
    assert Find(t, "x") == 0;
    assert NumberS(use, t) == (Print(Ident("x", 1, false)), t);
  }

  lemma {:induction false} TurnedAwayMarkedOnce()
    requires StraightSs(TurnedAway(0, false, 1, false))
    ensures MarkSs(TurnedAway(0, false, 1, false), "x", 0, false) == (TurnedAway(0, true, 1, false), true)
  {
    var o, use := Opening(0, false, MAX_SYMBOLS), Print(Ident("x", 1, false));
    OpeningIsPlain(0, false, MAX_SYMBOLS);
    OpeningMarked(MAX_SYMBOLS);
    MarkSnoc(o, Redeclared(), "x", 0);
    MarkSnoc(o + [Redeclared()], use, "x", 0);
    assert MarkS(Redeclared(), "x", 0, false) == (Redeclared(), false);
    assert MarkS(use, "x", 0, false) == (use, false);
  }

  lemma {:induction false} TurnedAwayMarkedTwice()
    requires StraightSs(TurnedAway(0, true, 1, false))
    ensures MarkSs(TurnedAway(0, true, 1, false), "x", 1, false) == (TurnedAway(0, true, 1, true), true)
  {
    var front, use := Opening(0, true, MAX_SYMBOLS) + [Redeclared()], Print(Ident("x", 1, false));
    OpeningIsPlain(0, true, MAX_SYMBOLS);
    Snoc(Opening(0, true, MAX_SYMBOLS), Redeclared());
    MarkSnoc(front, use, "x", 1);
    MarkFoundIsIdentity(front, "x", 1);
    assert MarkS(use, "x", 1, false) == (Print(Ident("x", 1, true)), true);
  }

  lemma {:induction false} TurnedAwayAnnotated()
    ensures Straight(Block(TurnedAway(-1, false, -1, false)))
    ensures Annotate(Block(TurnedAway(-1, false, -1, false))) == Block(TurnedAway(0, true, 1, true))
  {
    var s, marked := Block(TurnedAway(0, false, 1, false)), Block(TurnedAway(0, true, 1, true));
    TurnedAwayIsPlain(-1, false, -1, false);
    TurnedAwayIsPlain(0, false, 1, false);
    TurnedAwayIsPlain(0, true, 1, true);
    var t := TurnedAwayNumbered();
    TurnedAwaySwept(s, marked);
    forall i | 1 <= i < |t|
      ensures Unversioned(EventsS(marked), t[i].name)
    {
      TurnedAwayUses(i - 1);
    }
    MarkVarsFirst(s, t, marked);
  }

  lemma TurnedAwayUses(i: nat)
    ensures Unversioned(EventsS(Block(TurnedAway(0, true, 1, true))), Name(i))
  {
    TurnedAwayIsPlain(0, true, 1, true);
    NamesDiffer(i);
    DefsOnly(MAX_SYMBOLS, Name(i));
    var opening := [Def("x"), Use("x", 0, true)] + DefsOf(MAX_SYMBOLS);
    UnversionedJoin([Def("x"), Use("x", 0, true)], DefsOf(MAX_SYMBOLS), Name(i));
    UnversionedJoin(opening, [Def("x")], Name(i));
    UnversionedJoin(opening + [Def("x")], [Use("x", 1, true)], Name(i));
  }

  lemma {:induction false} TurnedAwaySwept(s: Stmt, marked: Stmt)
    requires s == Block(TurnedAway(0, false, 1, false)) && marked == Block(TurnedAway(0, true, 1, true))
    requires Straight(s)
    ensures MarkVersions(s, "x", 2) == marked
  {
    TurnedAwayIsPlain(0, true, 1, false);
    TurnedAwayMarkedOnce();
    TurnedAwayMarkedTwice();
    assert MarkVersions(s, "x", 0) == s;
    assert MarkVersions(s, "x", 1) == Block(TurnedAway(0, true, 1, false));
  }

  lemma {:induction false} FirstStaysFirst(ms: seq<string>)
    requires ms != []
    ensures FirstMentions(ms) != [] && FirstMentions(ms)[0] == ms[0]
    decreases |ms|
  {
    if |ms| > 1 {
      FirstStaysFirst(ms[..|ms| - 1]);
    } else {
      assert ms[..0] == [];
    }
  }

  lemma {:induction false} FewerFirstMentions(ms: seq<string>)
    ensures |FirstMentions(ms)| <= |ms|
    decreases |ms|
  {
    if ms != [] {
      FewerFirstMentions(ms[..|ms| - 1]);
    }
  }

  /** `x` has the first register. */
  lemma TurnedAwayVars(p: Program, v: int, m: bool, v': int, m': bool)
    requires p.vars == FirstMentions(MentionsS(Block(TurnedAway(v, m, v', m')))) && Distinct(p.vars)
    ensures |p.vars| <= FRAME_SLOTS && Place(p.vars, "x") == 0
  {
    var o, ms := Opening(v, m, MAX_SYMBOLS), MentionsSs(TurnedAway(v, m, v', m'));
    OpeningIsPlain(v, m, MAX_SYMBOLS);
    Snoc(o, Redeclared());
    Snoc(o + [Redeclared()], Print(Ident("x", v', m')));
    assert |MentionsS(Redeclared())| == 1 && |MentionsS(Print(Ident("x", v', m')))| == 1;
    assert |ms| == 2 + MAX_SYMBOLS + 2 && ms[0] == "x";
    FewerFirstMentions(ms);
    FirstStaysFirst(ms);
  }

  lemma TurnedAwayRuns(vars: seq<string>, fmt: Format, v: int, m: bool, v': int, m': bool, fuel: nat)
    requires Place(vars, "x") == 0
    ensures var x := DoTree(vars, fmt, Block(TurnedAway(v, m, v', m')), fuel);
            x.Ran? && x.m.out == [Num(1.0), if m then Nil else Num(1.0)]
  {
    var o, use, env := Opening(v, m, MAX_SYMBOLS), Ident("x", v', m'), Afterwards(m, MAX_SYMBOLS);
    var syms := SymsSs(Filler(MAX_SYMBOLS), []);
    OpeningIsPlain(v, m, MAX_SYMBOLS);
    OpeningAt(vars, fmt, v, m, MAX_SYMBOLS, fuel);
    TableFull();
    Snoc(o, Redeclared());
    DoSnoc(vars, fmt, o, Redeclared(), [], Blank(), fuel);
    DoSnoc(vars, fmt, o + [Redeclared()], Print(use), [], Blank(), fuel);
    LetAt(vars, fmt, Do(vars, fmt, CodeOfSs(o, []), Blank(), fuel).m, Redeclared(), syms, fuel);
    PrintAt(vars, fmt, Do(vars, fmt, CodeOfSs(o + [Redeclared()], []), Blank(), fuel).m, use, syms, fuel);
    OthersStay(if m then map[] else map["x" := Num(1.0)], MAX_SYMBOLS);
  }

  /** There is no entry left for `x`. */
  lemma TableFull()
    ensures var syms := SymsSs(Filler(MAX_SYMBOLS), []); SymsS(Redeclared(), syms) == syms && !IsLocal(syms, "x")
  {
    FillerIsListed(MAX_SYMBOLS, "x");
    NotAmong(MAX_SYMBOLS, MAX_SYMBOLS);
    Scoping.AddSymbolAnyway(SymsSs(Filler(MAX_SYMBOLS), []), "x", true, "x");
  }

  /** The value that the register declaration stores is never loaded.  The run with releases then prints
      nil, the other the value from before. */
  lemma TurnedAwayIsNoticed(p: Program, q: Program, fmt: Format, s: Stmt)
    requires s == Block(TurnedAway(-1, false, -1, false))
    requires CompiledFrom(p, Annotate(s)) && CompiledFrom(q, s)
    ensures Divergence.Halts(p, fmt, [Num(1.0), Nil]) && Divergence.Halts(q, fmt, [Num(1.0), Num(1.0)])
    ensures Straight(s) && StripS(s) == s && |q.vars| <= FRAME_SLOTS
    ensures !Readable(CodeOf(Annotate(s), []), NOTHING)
  {
    TurnedAwayAnnotated();
    TurnedAwayIsPlain(-1, false, -1, false);
    TurnedAwayVars(p, 0, true, 1, true);
    TurnedAwayVars(q, -1, false, -1, false);
    TurnedAwayRuns(p.vars, fmt, 0, true, 1, true, 0);
    TurnedAwayRuns(q.vars, fmt, -1, false, -1, false, 0);
    TreeRuns(p, fmt, Annotate(s), 0);
    TreeRuns(q, fmt, s, 0);
    NotBoth(q, fmt, [Num(1.0), Nil], [Num(1.0), Num(1.0)]);
    if Readable(CodeOf(Annotate(s), []), NOTHING) {
      ReleasesAreInvisible(p, q, fmt, s);
    }
  }

  /** A machine halts with one output. */
  lemma NotBoth(q: Program, fmt: Format, out: seq<Value>, other: seq<Value>)
    requires Divergence.Halts(q, fmt, other) && out != other
    ensures !Divergence.Halts(q, fmt, out)
  {
    var a := Divergence.Initial();
    var m: nat :| Run(q, fmt, a, m).Halted? && Run(q, fmt, a, m).st.out == other;
    forall n: nat | Run(q, fmt, a, n).Halted?
      ensures Run(q, fmt, a, n).st.out == other
    {
      StopIsFinal(q, fmt, a, m, n);
    }
  }

  // ---- A frame too small for one of the runs ----

  /** One name more than a frame holds. */
  function Overfull(v: int, m: bool): seq<Stmt> {
    Opening(v, m, FRAME_SLOTS) + [LastShown()]
  }

  function LastShown(): Stmt {
    Print(Ident(Name(FRAME_SLOTS - 1), -1, false))
  }

  lemma {:induction false} OverfullIsPlain(v: int, m: bool)
    ensures Straight(Block(Overfull(v, m))) && ReleaseLimits.OneClass(Block(Overfull(v, m)), true)
    ensures EventsSs(Overfull(v, m))
         == [Def("x"), Use("x", v, m)] + DefsOf(FRAME_SLOTS) + [Use(Name(FRAME_SLOTS - 1), -1, false)]
    ensures v == -1 && !m ==> StripSs(Overfull(v, m)) == Overfull(v, m)
  {
    OpeningIsPlain(v, m, FRAME_SLOTS);
    Snoc(Opening(v, m, FRAME_SLOTS), LastShown());
    assert EventsS(LastShown()) == [Use(Name(FRAME_SLOTS - 1), -1, false)];
  }

  lemma {:induction false} OverfullNumbered() returns (t: Table)
    ensures NumberSs(Overfull(-1, false), []) == (Overfull(0, false), t) && Registered(t, FRAME_SLOTS)
  {
    t := OpeningNumbered(FRAME_SLOTS);
    NumberSnoc(Opening(-1, false, FRAME_SLOTS), LastShown(), []);
    RegisteredFinds(t, FRAME_SLOTS, FRAME_SLOTS - 1);
    assert NumberS(LastShown(), t) == (LastShown(), t);
  }

  lemma {:induction false} OverfullAnnotated()
    ensures Straight(Block(Overfull(-1, false)))
    ensures Annotate(Block(Overfull(-1, false))) == Block(Overfull(0, true))
  {
    var s, marked := Block(Overfull(0, false)), Block(Overfull(0, true));
    OverfullIsPlain(-1, false);
    OverfullIsPlain(0, false);
    OverfullIsPlain(0, true);
    var t := OverfullNumbered();
    OverfullSwept(s, marked);
    forall i | 1 <= i < |t|
      ensures Unversioned(EventsS(marked), t[i].name)
    {
      OverfullUses(i - 1);
    }
    MarkVarsFirst(s, t, marked);
  }

  lemma OverfullUses(i: nat)
    ensures Unversioned(EventsS(Block(Overfull(0, true))), Name(i))
  {
    OverfullIsPlain(0, true);
    NamesDiffer(i);
    DefsOnly(FRAME_SLOTS, Name(i));
    UnversionedJoin([Def("x"), Use("x", 0, true)], DefsOf(FRAME_SLOTS), Name(i));
    UnversionedJoin([Def("x"), Use("x", 0, true)] + DefsOf(FRAME_SLOTS), [Use(Name(FRAME_SLOTS - 1), -1, false)],
                    Name(i));
  }

  lemma {:induction false} OverfullSwept(s: Stmt, marked: Stmt)
    requires s == Block(Overfull(0, false)) && marked == Block(Overfull(0, true)) && Straight(s)
    ensures MarkVersions(s, "x", 1) == marked
  {
    OpeningIsPlain(0, false, FRAME_SLOTS);
    OpeningMarked(FRAME_SLOTS);
    NamesDiffer(FRAME_SLOTS - 1);
    MarkSnoc(Opening(0, false, FRAME_SLOTS), LastShown(), "x", 0);
    assert MarkS(LastShown(), "x", 0, false) == (LastShown(), false);
    assert MarkVersions(s, "x", 0) == s;
  }

  lemma OverfullVars(p: Program, v: int, m: bool)
    requires p.vars == FirstMentions(MentionsS(Block(Overfull(v, m))))
    ensures |p.vars| == FRAME_SLOTS + 1
  {
    OpeningIsPlain(v, m, FRAME_SLOTS);
    Snoc(Opening(v, m, FRAME_SLOTS), LastShown());
    var last := Name(FRAME_SLOTS - 1);
    assert MentionsS(LastShown()) == [last];
    OpeningNames(FRAME_SLOTS);
    FirstMentionsSnoc(["x", "x"] + NamesTo(FRAME_SLOTS), last);
    assert last in NamesTo(FRAME_SLOTS);
  }

  lemma {:induction false} LastBound(released: bool)
    ensures Lookup(Afterwards(released, FRAME_SLOTS), Name(FRAME_SLOTS - 1)) == if released then Num(0.0) else Nil
  {
    NotAmong(FRAME_SLOTS - 1, FRAME_SLOTS - 1);
    NamesDiffer(FRAME_SLOTS - 1);
    FillerFits(if released then map[] else map["x" := Num(1.0)], FRAME_SLOTS - 1);
  }

  lemma OverfullRuns(vars: seq<string>, fmt: Format, v: int, m: bool, fuel: nat)
    ensures var x := DoTree(vars, fmt, Block(Overfull(v, m)), fuel);
            x.Ran? && x.m.out == [Num(1.0), if m then Num(0.0) else Nil]
  {
    var o, use := Opening(v, m, FRAME_SLOTS), LastShown().printed;
    OpeningIsPlain(v, m, FRAME_SLOTS);
    FillerIsGlobal(FRAME_SLOTS, use.name);
    OpeningAt(vars, fmt, v, m, FRAME_SLOTS, fuel);
    DoSnoc(vars, fmt, o, LastShown(), [], Blank(), fuel);
    PrintAt(vars, fmt, Do(vars, fmt, CodeOfSs(o, []), Blank(), fuel).m, use, SymsSs(Filler(FRAME_SLOTS), []), fuel);
    LastBound(m);
  }

  /** The release of `x` makes room in the frame, and the last declaration is bound; without it the
      binding is dropped. */
  lemma OverfullIsNoticed(p: Program, q: Program, fmt: Format, s: Stmt)
    requires s == Block(Overfull(-1, false))
    requires CompiledFrom(p, Annotate(s)) && CompiledFrom(q, s)
    ensures Divergence.Halts(p, fmt, [Num(1.0), Num(0.0)]) && Divergence.Halts(q, fmt, [Num(1.0), Nil])
    ensures Straight(s) && StripS(s) == s && |q.vars| == FRAME_SLOTS + 1
    ensures Readable(CodeOf(Annotate(s), []), NOTHING)
  {
    OverfullAnnotated();
    OverfullIsPlain(-1, false);
    OverfullVars(q, -1, false);
    OverfullRuns(p.vars, fmt, 0, true, 0);
    OverfullRuns(q.vars, fmt, -1, false, 0);
    TreeRuns(p, fmt, Annotate(s), 0);
    TreeRuns(q, fmt, s, 0);
    var none: Symbols := [];
    ReleaseLimits.OneClassIsAdmitted(s, none, true);
    ReleaseLimits.AdmittedProgramIsReadable(s);
  }
}
