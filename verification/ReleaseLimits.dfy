// Straight-line programs: which of them the marking pass releases soundly, whatever overflows.
module ReleaseLimits {
  import opened Ast
  import opened Values
  import opened Bytecode
  import opened CodeShape
  import opened CodeTree
  import opened CodeRuns
  import opened Ssa
  import opened Programs
  import opened Release
  import Divergence
  import Scoping

  // ---- Programs whose declarations are all seen by later loads ----

  function LocalNames(syms: Symbols): set<string> {
    set i | 0 <= i < |syms| && IsLocal(syms, syms[i].name) :: syms[i].name
  }

  /** More names with a register than there are registers. */
  predicate Overrun(syms: Symbols) {
    |LocalNames(syms)| > REGISTERS
  }

  /** Every declaration met in the text goes where loads look for it: into the environment, or to a
      register under an entry of the symbol table; or the registers have run out before it. */
  predicate Admitted(s: Stmt, syms: Symbols) {
    match s
    case Let(name, _, escapes) => escapes || IsLocal(AddSymbol(syms, name, true), name) || Overrun(syms)
    case Block(ss) => AdmittedSs(ss, syms)
    case _ => true
  }

  predicate AdmittedSs(ss: seq<Stmt>, syms: Symbols) {
    ss == [] ||
    (AdmittedSs(ss[..|ss| - 1], syms) && Admitted(ss[|ss| - 1], SymsSs(ss[..|ss| - 1], syms)))
  }

  // ---- The marks of such programs ----

  lemma {:induction false} FatesAppend(a: seq<Item>, b: seq<Item>, k: Lapse)
    ensures Fates(a + b, k) == Fates(b, Fates(a, k))
    ensures AllFind(a + b, k) <==> AllFind(a, k) && AllFind(b, Fates(a, k))
    decreases |b|
  {
    if b == [] {
      assert a + b == a;
    } else {
      assert (a + b)[..|a + b| - 1] == a + b[..|b| - 1];
      FatesAppend(a, b[..|b| - 1], k);
    }
  }

  lemma {:induction false} FateOfOne(item: Item, k: Lapse)
    ensures Fates([item], k) == Fate(item, k)
    ensures AllFind([item], k) <==> Finds(item, k) || Crowded(k)
  {
    assert [item][..0] == [];
  }

  /** What the events say is there can be loaded from where the symbol table says. */
  ghost predicate Loadable(k: Lapse, syms: Symbols, dead: set<string>) {
    forall n :: n !in dead ==> n !in if IsLocal(syms, n) then k.regs else k.env
  }

  ghost predicate Stored(k: Lapse, syms: Symbols) {
    forall n :: IsLocal(syms, n) ==> n in k.kept
  }

  ghost predicate Follows(k: Lapse, syms: Symbols, dead: set<string>) {
    Stored(k, syms) && (Crowded(k) || Loadable(k, syms, dead))
  }

  lemma OverrunIsCrowded(k: Lapse, syms: Symbols)
    requires Stored(k, syms) && Overrun(syms)
    ensures Crowded(k)
  {
    var locals := LocalNames(syms);
    assert locals <= k.kept;
    assert k.kept == locals + (k.kept - locals);
  }

  lemma {:induction false} FollowsE(e: Expr, k: Lapse, syms: Symbols, dead: set<string>)
    requires Plain(e) && Follows(k, syms, dead) && Sound(dead, EventsE(e))
    ensures AllFind(ItemsE(e, syms), k)
    ensures Fates(ItemsE(e, syms), k).kept == k.kept
    ensures Follows(Fates(ItemsE(e, syms), k), syms, Dead(dead, EventsE(e)))
    decreases e
  {
    match e
    case Number(n) => FateOfOne(Push(Num(n)), k);
    case Text(t) => FateOfOne(Push(Str(t)), k);
    case Boolean(b) => FateOfOne(Push(Bool(b)), k);
    case Ident(_, _, _) => FollowsIdent(e, k, syms, dead);
    case Binary(l, op, r) =>
      SoundAppend(dead, EventsE(l), EventsE(r));
      FollowsE(l, k, syms, dead);
      FollowsE(r, Fates(ItemsE(l, syms), k), syms, Dead(dead, EventsE(l)));
      FatesOfThree(ItemsE(l, syms), ItemsE(r, syms), Exact(Operate(op)), k);
  }

  lemma {:induction false} FatesOfThree(a: seq<Item>, b: seq<Item>, last: Item, k: Lapse)
    requires AllFind(a, k) && AllFind(b, Fates(a, k)) && last.Exact?
    ensures AllFind(a + b + [last], k) && Fates(a + b + [last], k) == Fates(b, Fates(a, k))
  {
    FatesAppend(a, b, k);
    FatesAppend(a + b, [last], k);
    FateOfOne(last, Fates(b, Fates(a, k)));
  }

  lemma {:induction false} FollowsIdent(e: Expr, k: Lapse, syms: Symbols, dead: set<string>)
    requires e.Ident? && Follows(k, syms, dead) && Sound(dead, EventsE(e))
    ensures AllFind(ItemsE(e, syms), k)
    ensures Fates(ItemsE(e, syms), k).kept == k.kept
    ensures Follows(Fates(ItemsE(e, syms), k), syms, Dead(dead, EventsE(e)))
  {
    var load := Load(e.name, IsLocal(syms, e.name));
    assert EventsE(e)[..0] == [] && Dead(dead, []) == dead;
    FateOfOne(load, k);
    if e.lastUse {
      FatesAppend([load], [Free(e.name)], k);
      FateOfOne(Free(e.name), k);
    } else {
      assert ItemsE(e, syms) == [load];
    }
  }

  lemma DeadAfterDef(dead: set<string>, e: Expr, name: string)
    requires Sound(dead, EventsE(e) + [Def(name)])
    ensures Sound(dead, EventsE(e)) && Dead(dead, EventsE(e) + [Def(name)]) == Dead(dead, EventsE(e)) - {name}
  {
    SoundAppend(dead, EventsE(e), [Def(name)]);
    assert [Def(name)][..0] == [];
  }

  lemma {:induction false} FollowsStore(e: Expr, name: string, isLocal: bool, k: Lapse, syms: Symbols, syms': Symbols,
                                        dead: set<string>)
    requires Plain(e) && Follows(k, syms, dead) && Sound(dead, EventsE(e))
    requires forall n :: IsLocal(syms', n) ==> IsLocal(syms, n) || (n == name && isLocal)
    requires Crowded(k) || forall n :: IsLocal(syms', n) == if n == name then isLocal else IsLocal(syms, n)
    ensures var items := ItemsE(e, syms) + [Store(name, isLocal)];
            AllFind(items, k) && Follows(Fates(items, k), syms', Dead(dead, EventsE(e)) - {name})
  {
    var middle := Fates(ItemsE(e, syms), k);
    FollowsE(e, k, syms, dead);
    FatesAppend(ItemsE(e, syms), [Store(name, isLocal)], k);
    FateOfOne(Store(name, isLocal), middle);
    var after := Fate(Store(name, isLocal), middle);
    if Crowded(k) {
      assert after.kept == middle.kept + (after.kept - middle.kept);
    } else {
      assert Loadable(middle, syms, Dead(dead, EventsE(e)));
      assert Loadable(after, syms', Dead(dead, EventsE(e)) - {name});
    }
  }

  lemma {:induction false} FollowsLet(s: Stmt, k: Lapse, syms: Symbols, dead: set<string>)
    requires s.Let? && Plain(s.value) && Admitted(s, syms) && Follows(k, syms, dead) && Sound(dead, EventsS(s))
    ensures Readable(CodeOf(s, syms), k) && Follows(Later(CodeOf(s, syms), k), SymsS(s, syms), Dead(dead, EventsS(s)))
  {
    var isLocal := !s.escapes;
    DeadAfterDef(dead, s.value, s.variable);
    forall n
      ensures IsLocal(SymsS(s, syms), n) ==> IsLocal(syms, n) || (n == s.variable && isLocal)
      ensures !Overrun(syms) ==>
                IsLocal(SymsS(s, syms), n) == if n == s.variable then isLocal else IsLocal(syms, n)
    {
      Scoping.AddSymbolAnyway(syms, s.variable, isLocal, n);
    }
    if Overrun(syms) {
      OverrunIsCrowded(k, syms);
    }
    FollowsStore(s.value, s.variable, isLocal, k, syms, SymsS(s, syms), dead);
  }

  lemma {:induction false} FollowsAssign(s: Stmt, k: Lapse, syms: Symbols, dead: set<string>)
    requires s.Assign? && Plain(s.source) && Follows(k, syms, dead) && Sound(dead, EventsS(s))
    ensures Readable(CodeOf(s, syms), k) && Follows(Later(CodeOf(s, syms), k), syms, Dead(dead, EventsS(s)))
  {
    DeadAfterDef(dead, s.source, s.target);
    FollowsStore(s.source, s.target, IsLocal(syms, s.target), k, syms, syms, dead);
  }

  lemma {:induction false} FollowsPrint(e: Expr, k: Lapse, syms: Symbols, dead: set<string>)
    requires Plain(e) && Follows(k, syms, dead) && Sound(dead, EventsE(e))
    ensures var items := ItemsE(e, syms) + [Exact(PrintTop), Exact(Pop)];
            AllFind(items, k) && Follows(Fates(items, k), syms, Dead(dead, EventsE(e)))
  {
    var items := ItemsE(e, syms);
    FollowsE(e, k, syms, dead);
    FatesAppend(items, [Exact(PrintTop)], k);
    FateOfOne(Exact(PrintTop), Fates(items, k));
    FatesAppend(items + [Exact(PrintTop)], [Exact(Pop)], k);
    FateOfOne(Exact(Pop), Fates(items, k));
    assert items + [Exact(PrintTop)] + [Exact(Pop)] == items + [Exact(PrintTop), Exact(Pop)];
  }

  lemma {:induction false} AdmittedIsReadable(s: Stmt, k: Lapse, syms: Symbols, dead: set<string>)
    requires Straight(s) && Admitted(s, syms) && Follows(k, syms, dead) && Sound(dead, EventsS(s))
    ensures Readable(CodeOf(s, syms), k)
    ensures Follows(Later(CodeOf(s, syms), k), SymsS(s, syms), Dead(dead, EventsS(s)))
    decreases s
  {
    match s
    case Let(_, _, _) => FollowsLet(s, k, syms, dead);
    case Assign(_, _) => FollowsAssign(s, k, syms, dead);
    case Print(e) => FollowsPrint(e, k, syms, dead);
    case Block(ss) => AdmittedSsAreReadable(ss, k, syms, dead);
  }

  lemma {:induction false} AdmittedSsAreReadable(ss: seq<Stmt>, k: Lapse, syms: Symbols, dead: set<string>)
    requires StraightSs(ss) && AdmittedSs(ss, syms) && Follows(k, syms, dead) && Sound(dead, EventsSs(ss))
    ensures Readable(CodeOfSs(ss, syms), k)
    ensures Follows(Later(CodeOfSs(ss, syms), k), SymsSs(ss, syms), Dead(dead, EventsSs(ss)))
    decreases ss
  {
    if ss == [] {
      assert Fates([], k) == k && AllFind([], k);
    } else {
      var front, last := ss[..|ss| - 1], ss[|ss| - 1];
      SoundAppend(dead, EventsSs(front), EventsS(last));
      AdmittedSsAreReadable(front, k, syms, dead);
      AdmittedIsReadable(last, Later(CodeOfSs(front, syms), k), SymsSs(front, syms), Dead(dead, EventsSs(front)));
    }
  }

  lemma {:induction false} AdmittedStripped(s: Stmt, syms: Symbols)
    requires Straight(s)
    ensures Admitted(StripS(s), syms) <==> Admitted(s, syms)
    decreases s
  {
    if s.Block? {
      AdmittedSsStripped(s.statements, syms);
    }
  }

  lemma {:induction false} AdmittedSsStripped(ss: seq<Stmt>, syms: Symbols)
    requires StraightSs(ss)
    ensures AdmittedSs(StripSs(ss), syms) <==> AdmittedSs(ss, syms)
    decreases ss
  {
    if ss != [] {
      assert StripSs(ss)[..|ss| - 1] == StripSs(ss[..|ss| - 1]);
      StripSymsSs(ss[..|ss| - 1], syms);
      AdmittedSsStripped(ss[..|ss| - 1], syms);
      AdmittedStripped(ss[|ss| - 1], SymsSs(ss[..|ss| - 1], syms));
    }
  }

  lemma {:induction false} StrippedUnmarkedE(e: Expr)
    ensures Unmarked(EventsE(StripE(e)))
    decreases e
  {
    if e.Binary? {
      StrippedUnmarkedE(e.left);
      StrippedUnmarkedE(e.right);
    }
  }

  lemma {:induction false} StrippedUnmarked(s: Stmt)
    requires Straight(s)
    ensures Unmarked(EventsS(StripS(s)))
    decreases s
  {
    match s
    case Let(_, value, _) => StrippedUnmarkedE(value);
    case Assign(_, source) => StrippedUnmarkedE(source);
    case Print(e) => StrippedUnmarkedE(e);
    case Block(ss) => StrippedSsUnmarked(ss);
  }

  lemma {:induction false} StrippedSsUnmarked(ss: seq<Stmt>)
    requires StraightSs(ss)
    ensures Unmarked(EventsSs(StripSs(ss)))
    decreases ss
  {
    if ss != [] {
      assert StripSs(ss)[..|ss| - 1] == StripSs(ss[..|ss| - 1]);
      StrippedSsUnmarked(ss[..|ss| - 1]);
      StrippedUnmarked(ss[|ss| - 1]);
    }
  }

  /** The marking pass is right on straight-line code, whatever its own tables: in an admitted program no
      load finds its variable released. */
  lemma AdmittedProgramIsReadable(s: Stmt)
    requires Straight(s) && StripS(s) == s && Admitted(s, [])
    ensures Readable(CodeOf(Annotate(s), []), NOTHING)
  {
    StripAnnotate(s);
    AdmittedStripped(s, []);
    AdmittedStripped(Annotate(s), []);
    StrippedUnmarked(s);
    AnnotatedLastUsesAreLast(s);
    LastUsesAreSound(EventsS(Annotate(s)));
    assert Follows(NOTHING, [], {});
    AdmittedIsReadable(Annotate(s), NOTHING, [], {});
  }

  // ---- Which programs those are ----

  /** Every declared name is in `all`. */
  predicate DeclaresOnly(s: Stmt, all: set<string>) {
    match s
    case Let(name, _, _) => name in all
    case Block(ss) => DeclareOnly(ss, all)
    case _ => true
  }

  predicate DeclareOnly(ss: seq<Stmt>, all: set<string>) {
    ss == [] || (DeclareOnly(ss[..|ss| - 1], all) && DeclaresOnly(ss[|ss| - 1], all))
  }

  /** Every declaration has the same storage class. */
  predicate OneClass(s: Stmt, escapes: bool) {
    match s
    case Let(_, _, e) => e == escapes
    case Block(ss) => OneClassSs(ss, escapes)
    case _ => true
  }

  predicate OneClassSs(ss: seq<Stmt>, escapes: bool) {
    ss == [] || (OneClassSs(ss[..|ss| - 1], escapes) && OneClass(ss[|ss| - 1], escapes))
  }

  /** The compile-time table is consistent and has room for all of `all`. */
  ghost predicate Roomy(syms: Symbols, all: set<string>) {
    |all| <= MAX_SYMBOLS && exists known :: known <= all && Scoping.Enlists(syms, known)
  }

  lemma {:induction false} FewAreAdmitted(s: Stmt, syms: Symbols, all: set<string>)
    requires Straight(s) && Roomy(syms, all) && DeclaresOnly(s, all)
    ensures Admitted(s, syms) && Roomy(SymsS(s, syms), all)
    decreases s
  {
    match s
    case Let(name, _, escapes) =>
      var known :| known <= all && Scoping.Enlists(syms, known);
      Scoping.AddSymbolEnlists(syms, known, all, name, true);
      Scoping.AddSymbolEnlists(syms, known, all, name, !escapes);
    case Block(ss) => FewSsAreAdmitted(ss, syms, all);
    case _ =>
  }

  lemma {:induction false} FewSsAreAdmitted(ss: seq<Stmt>, syms: Symbols, all: set<string>)
    requires StraightSs(ss) && Roomy(syms, all) && DeclareOnly(ss, all)
    ensures AdmittedSs(ss, syms) && Roomy(SymsSs(ss, syms), all)
    decreases ss
  {
    if ss != [] {
      FewSsAreAdmitted(ss[..|ss| - 1], syms, all);
      FewAreAdmitted(ss[|ss| - 1], SymsSs(ss[..|ss| - 1], syms), all);
    }
  }

  /** Every entry is for a register, and no name has two. */
  ghost predicate AllRegisters(syms: Symbols) {
    exists known :: Registers(syms, known)
  }

  ghost predicate Registers(syms: Symbols, known: set<string>) {
    Scoping.Enlists(syms, known) && |syms| <= MAX_SYMBOLS && forall n :: n in known ==> IsLocal(syms, n)
  }

  lemma RegisterAdded(syms: Symbols, name: string)
    requires AllRegisters(syms)
    ensures AllRegisters(AddSymbol(syms, name, true))
    ensures IsLocal(AddSymbol(syms, name, true), name) || Overrun(syms)
  {
    var known, after :| Registers(syms, known) && after == AddSymbol(syms, name, true);
    if name in known || |syms| < MAX_SYMBOLS {
      var all := known + {name};
      assert name in known ==> all == known;
      assert |all| <= MAX_SYMBOLS;
      Scoping.AddSymbolEnlists(syms, known, all, name, true);
      assert Registers(after, all);
    } else {
      Scoping.AddSymbolAnyway(syms, name, true, name);
      AllLocal(syms, known);
    }
  }

  lemma AllLocal(syms: Symbols, known: set<string>)
    requires Registers(syms, known)
    ensures |LocalNames(syms)| >= |syms|
  {
    var locals := LocalNames(syms);
    forall n | n in known
      ensures n in locals
    {
      assert Scoping.Listed(syms, n);
    }
    assert locals == known + (locals - known);
  }

  /** One class is enough: what escapes needs no entry, and the registers are full before the table. */
  lemma {:induction false} OneClassIsAdmitted(s: Stmt, syms: Symbols, escapes: bool)
    requires Straight(s) && OneClass(s, escapes) && (escapes || AllRegisters(syms))
    ensures Admitted(s, syms) && (escapes || AllRegisters(SymsS(s, syms)))
    decreases s
  {
    match s
    case Let(name, _, _) =>
      if !escapes {
        RegisterAdded(syms, name);
      }
    case Block(ss) => OneClassSsAreAdmitted(ss, syms, escapes);
    case _ =>
  }

  lemma {:induction false} OneClassSsAreAdmitted(ss: seq<Stmt>, syms: Symbols, escapes: bool)
    requires StraightSs(ss) && OneClassSs(ss, escapes) && (escapes || AllRegisters(syms))
    ensures AdmittedSs(ss, syms) && (escapes || AllRegisters(SymsSs(ss, syms)))
    decreases ss
  {
    if ss != [] {
      OneClassSsAreAdmitted(ss[..|ss| - 1], syms, escapes);
      OneClassIsAdmitted(ss[|ss| - 1], SymsSs(ss[..|ss| - 1], syms), escapes);
    }
  }

  lemma NoSymbolsYet(syms: Symbols, known: set<string>)
    requires syms == [] && known == {}
    ensures AllRegisters(syms) && forall all: set<string> :: |all| <= MAX_SYMBOLS ==> Roomy(syms, all)
  {
    assert Registers(syms, known);
  }

  // ---- A load that finds its variable released gets nil ----

  ghost predicate Emptied(vars: seq<string>, k: Lapse, m: Memory) {
    && (forall n :: n in k.env ==> Lookup(m.env, n) == Nil)
    && forall n :: n in k.regs ==> n in vars && EmptyRegister(vars, n, m)
  }

  predicate EmptyRegister(vars: seq<string>, n: string, m: Memory) {
    Place(vars, n) < REGISTERS ==> m.locals[Place(vars, n)] == Nil
  }

  lemma {:induction false} ItemEmpties(vars: seq<string>, fmt: Format, item: Item, k: Lapse, m: Memory)
    requires Named(vars, item) && Emptied(vars, k, m)
    ensures var x := DoItem(vars, fmt, item, m); x.Ran? ==> Emptied(vars, Fate(item, k), x.m)
  {
    var x := DoItem(vars, fmt, item, m);
    if x.Ran? {
      forall n | n in Fate(item, k).regs
        ensures n in vars && EmptyRegister(vars, n, x.m)
      {
        assert n in k.regs ==> EmptyRegister(vars, n, m);
        if item.Store? && item.isLocal {
          PlacesDiffer(vars, n, item.name);
        }
      }
    }
  }

  lemma {:induction false} ItemsEmpty(vars: seq<string>, fmt: Format, items: seq<Item>, k: Lapse, m: Memory)
    requires AllNamed(vars, items) && Emptied(vars, k, m)
    ensures var x := DoItems(vars, fmt, items, m); x.Ran? ==> Emptied(vars, Fates(items, k), x.m)
    decreases |items|
  {
    if items != [] {
      var front, last := items[..|items| - 1], items[|items| - 1];
      ItemsEmpty(vars, fmt, front, k, m);
      var x := DoItems(vars, fmt, front, m);
      if x.Ran? {
        ItemEmpties(vars, fmt, last, Fates(front, k), x.m);
      }
    }
  }

  /** The `i`-th instruction is a load of a released variable; if the run gets there it gets nil. */
  ghost predicate Misses(vars: seq<string>, fmt: Format, items: seq<Item>, i: nat) {
    && i < |items| && items[i].Load? && !Finds(items[i], Fates(items[..i], NOTHING))
    && var x := DoItems(vars, fmt, items[..i], Blank());
       x.Ran? ==>
         var y := DoItem(vars, fmt, items[i], x.m); y.Ran? ==> y.m.stack == x.m.stack + [Nil]
  }

  lemma {:induction false} FirstMiss(vars: seq<string>, fmt: Format, items: seq<Item>) returns (i: nat)
    requires AllNamed(vars, items) && !AllFind(items, NOTHING)
    ensures Misses(vars, fmt, items, i)
    decreases |items|
  {
    var front, last := items[..|items| - 1], items[|items| - 1];
    if AllFind(front, NOTHING) {
      i := |items| - 1;
      assert Emptied(vars, NOTHING, Blank());
      ItemsEmpty(vars, fmt, front, NOTHING, Blank());
      var x := DoItems(vars, fmt, front, Blank());
      if x.Ran? && last.isLocal {
        assert EmptyRegister(vars, last.name, x.m);
      }
    } else {
      i := FirstMiss(vars, fmt, front);
      assert items[..i] == front[..i];
    }
  }

  /** The instructions of code without branches and loops, in a row. */
  function Flat(code: Code): seq<Item> {
    match code
    case Row(items) => items
    case Then(a, b) => Flat(a) + Flat(b)
    case _ => []
  }

  lemma {:induction false} StraightIsFlat(s: Stmt, syms: Symbols, k: Lapse, at: nat)
    requires Straight(s)
    ensures Laid(CodeOf(s, syms), at) == Flat(CodeOf(s, syms))
    ensures Later(CodeOf(s, syms), k) == Fates(Flat(CodeOf(s, syms)), k)
    ensures Readable(CodeOf(s, syms), k) <==> AllFind(Flat(CodeOf(s, syms)), k)
    decreases s
  {
    if s.Block? {
      StraightSsAreFlat(s.statements, syms, k, at);
    }
  }

  lemma {:induction false} StraightSsAreFlat(ss: seq<Stmt>, syms: Symbols, k: Lapse, at: nat)
    requires StraightSs(ss)
    ensures Laid(CodeOfSs(ss, syms), at) == Flat(CodeOfSs(ss, syms))
    ensures Later(CodeOfSs(ss, syms), k) == Fates(Flat(CodeOfSs(ss, syms)), k)
    ensures Readable(CodeOfSs(ss, syms), k) <==> AllFind(Flat(CodeOfSs(ss, syms)), k)
    decreases ss
  {
    if ss != [] {
      var front, last := CodeOfSs(ss[..|ss| - 1], syms), CodeOf(ss[|ss| - 1], SymsSs(ss[..|ss| - 1], syms));
      StraightSsAreFlat(ss[..|ss| - 1], syms, k, at);
      StraightIsFlat(ss[|ss| - 1], SymsSs(ss[..|ss| - 1], syms), Later(front, k), at + |Flat(front)|);
      FatesAppend(Flat(front), Flat(last), k);
    }
  }

  /** A straight-line program is readable exactly if no load is of a released variable, or the registers
      have run out before; such a load gets nil, unless the run stops with an error first. */
  lemma UnreadableLoadsNil(p: Program, fmt: Format, t: Stmt) returns (i: nat)
    requires Straight(t) && CompiledFrom(p, t) && !Readable(CodeOf(t, []), NOTHING)
    ensures Misses(p.vars, fmt, ItemsS(t, 0, []), i)
  {
    LaidIsItems(t, 0, []);
    StraightIsFlat(t, [], NOTHING, 0);
    ItemsNamed(p, ItemsS(t, 0, []), 0);
    i := FirstMiss(p.vars, fmt, ItemsS(t, 0, []));
  }

  // ---- The theorem ----

  lemma {:induction false} StraightEnds(vars: seq<string>, fmt: Format, s: Stmt, syms: Symbols, m: Memory, fuel: nat)
    requires Straight(s)
    ensures !Do(vars, fmt, CodeOf(s, syms), m, fuel).Spent?
    decreases s
  {
    match s
    case Let(name, value, escapes) => ItemsEnd(vars, fmt, ItemsE(value, syms) + [Store(name, !escapes)], m);
    case Assign(name, source) => ItemsEnd(vars, fmt, ItemsE(source, syms) + [Store(name, IsLocal(syms, name))], m);
    case Print(e) => ItemsEnd(vars, fmt, ItemsE(e, syms) + [Exact(PrintTop), Exact(Pop)], m);
    case Block(ss) => StraightSsEnd(vars, fmt, ss, syms, m, fuel);
  }

  lemma {:induction false} ItemsEnd(vars: seq<string>, fmt: Format, items: seq<Item>, m: Memory)
    ensures !DoItems(vars, fmt, items, m).Spent?
    decreases |items|
  {
    if items != [] {
      ItemsEnd(vars, fmt, items[..|items| - 1], m);
    }
  }

  lemma {:induction false} StraightSsEnd(vars: seq<string>, fmt: Format, ss: seq<Stmt>, syms: Symbols, m: Memory,
                                         fuel: nat)
    requires StraightSs(ss)
    ensures !Do(vars, fmt, CodeOfSs(ss, syms), m, fuel).Spent?
    decreases ss
  {
    if ss == [] {
      ItemsEnd(vars, fmt, [], m);
    } else {
      StraightSsEnd(vars, fmt, ss[..|ss| - 1], syms, m, fuel);
      var first := Do(vars, fmt, CodeOfSs(ss[..|ss| - 1], syms), m, fuel);
      if first.Ran? {
        StraightEnds(vars, fmt, ss[|ss| - 1], SymsSs(ss[..|ss| - 1], syms), first.m, fuel);
      }
    }
  }

  /** With at most a hundred declared names, or any number of them in one storage class, the releases
      are invisible, and the two runs come to an end. */
  lemma FewNamesOrOneClass(p: Program, q: Program, fmt: Format, s: Stmt, all: set<string>)
    requires Straight(s) && StripS(s) == s
    requires CompiledFrom(p, Annotate(s)) && CompiledFrom(q, s) && |q.vars| <= FRAME_SLOTS
    requires (DeclaresOnly(s, all) && |all| <= MAX_SYMBOLS) || OneClass(s, true) || OneClass(s, false)
    ensures Indistinct(p, q, fmt)
    ensures exists out :: Divergence.Halts(q, fmt, out) || Fails(q, fmt, Divergence.Initial(), out)
  {
    var none: Symbols := [];
    NoSymbolsYet(none, {});
    if DeclaresOnly(s, all) && |all| <= MAX_SYMBOLS {
      FewAreAdmitted(s, none, all);
    } else {
      OneClassIsAdmitted(s, none, OneClass(s, true));
    }
    AdmittedProgramIsReadable(s);
    ReleasesAreInvisible(p, q, fmt, s);
    StraightEnds(q.vars, fmt, s, none, Blank(), 0);
    TreeRuns(q, fmt, s, 0);
  }
}
