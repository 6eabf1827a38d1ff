// Uses that the marking pass does not see, and rounds that it does not count.
module ReleaseBlindSpots {
  import opened Ast
  import opened Values
  import opened Bytecode
  import opened CodeShape
  import opened CodeTree
  import opened CodeRuns
  import opened Ssa
  import opened Programs
  import opened Release
  import opened ReleaseOverflows
  import Divergence

  lemma {:induction false} BeginningMarked()
    ensures MarkSs(Beginning(0, false), "x", 0, false) == (Beginning(0, true), true)
  {
    var use, assign := Print(Ident("x", 0, false)), Assign("x", Number(1.0));
    MarkSnoc([assign], use, "x", 0);
    MarkFoundIsIdentity([assign], "x", 0);
    assert MarkS(use, "x", 0, false) == (Print(Ident("x", 0, true)), true);
  }

  // ---- Uses below forms that neither pass goes into ----

  /** `x = 1; print(x);` and then `tail`. */
  function Shown(version: int, lastUse: bool, tail: Stmt): Stmt {
    Block(Beginning(version, lastUse) + [tail])
  }

  /** The passes leave the statement as it is, whatever it uses. */
  ghost predicate Unseen(tail: Stmt) {
    && (forall t: Table :: NumberS(tail, t) == (tail, t))
    && forall version: nat :: MarkS(tail, "x", version, false) == (tail, false)
  }

  /** The print before it is taken for the last use. */
  lemma {:induction false} UnseenAnnotated(tail: Stmt)
    requires Unseen(tail)
    ensures Annotate(Shown(-1, false, tail)) == Shown(0, true, tail)
  {
    var t := BeginningNumbered();
    NumberSnoc(Beginning(-1, false), tail, []);
    var s := Shown(0, false, tail);
    assert NumberS(Shown(-1, false, tail), []) == (s, t);
    BeginningMarked();
    MarkSnoc(Beginning(0, false), tail, "x", 0);
    assert MarkVersions(s, "x", 0) == s;
    assert MarkVersions(s, "x", 1) == Shown(0, true, tail);
    assert t[..0] == [] && MarkVars(s, []) == s;
  }

  /** `tail` runs with `x` gone, or with its value. */
  lemma {:induction false} ShownRuns(vars: seq<string>, fmt: Format, version: int, lastUse: bool, tail: Stmt,
                                     fuel: nat) returns (m: Memory)
    ensures m.stack == [] && m.env == (if lastUse then map[] else map["x" := Num(1.0)]) && m.out == [Num(1.0)]
    ensures DoTree(vars, fmt, Shown(version, lastUse, tail), fuel) == Do(vars, fmt, CodeOf(tail, []), m, fuel)
  {
    BeginningAt(vars, fmt, version, lastUse, fuel);
    BeginningIsPlain(version, lastUse);
    DoSnoc(vars, fmt, Beginning(version, lastUse), tail, [], Blank(), fuel);
    m := Do(vars, fmt, CodeOfSs(Beginning(version, lastUse), []), Blank(), fuel).m;
  }

  function Negated(): Stmt {
    Print(Unary(Neg, Ident("x", -1, false)))
  }

  function Conditional(): Stmt {
    If(Boolean(true), Print(Ident("x", -1, false)), None)
  }

  lemma {:induction false} NegatedRuns(vars: seq<string>, fmt: Format, m: Memory, fuel: nat)
    requires m.stack == [] && (Lookup(m.env, "x").Num? || Lookup(m.env, "x").Nil?)
    ensures var x, v := Do(vars, fmt, CodeOf(Negated(), []), m, fuel), Lookup(m.env, "x");
            if v.Num? then x.Ran? && x.m.out == m.out + [Num(-v.n)] else x.Failed? && x.m.out == m.out
  {
    var use, v := Ident("x", -1, false), Lookup(m.env, "x");
    var loaded := m.(stack := [v]);
    assert ItemsE(use, []) == [Load("x", false)] && m.stack + [v] == [v] && Rest([v]) == [];
    DoOne(vars, fmt, Load("x", false), m);
    DoAppend(vars, fmt, [Load("x", false)], [Exact(Negate(Neg))], m);
    DoOne(vars, fmt, Exact(Negate(Neg)), loaded);
    var items := [Load("x", false)] + [Exact(Negate(Neg))];
    assert items + [Exact(PrintTop), Exact(Pop)] == items + ([Exact(PrintTop)] + [Exact(Pop)]);
    DoAppend(vars, fmt, items, [Exact(PrintTop)] + [Exact(Pop)], m);
    if v.Num? {
      assert [] + [Num(-v.n)] == [Num(-v.n)];
      ShowAt(vars, fmt, m.(stack := [Num(-v.n)]), Num(-v.n));
    }
  }

  lemma {:induction false} ConditionalRuns(vars: seq<string>, fmt: Format, m: Memory, fuel: nat)
    requires m.stack == []
    ensures var x := Do(vars, fmt, CodeOf(Conditional(), []), m, fuel);
            x.Ran? && x.m.out == m.out + [Lookup(m.env, "x")]
  {
    var use := Ident("x", -1, false);
    assert CodeOf(Conditional(), []) == Branch([Push(Bool(true))], CodeOf(Print(use), []), None);
    DoOne(vars, fmt, Push(Bool(true)), m);
    var tested := m.(stack := m.stack + [Bool(true)]);
    assert tested.stack == [Bool(true)] && Popped(tested) == m;
    PrintAt(vars, fmt, m, use, [], fuel);
  }

  /** A use below a unary operator comes after a release: the negation fails. */
  lemma NegatedUseIsNoticed(p: Program, q: Program, fmt: Format, s: Stmt)
    requires s == Shown(-1, false, Negated()) && CompiledFrom(p, Annotate(s)) && CompiledFrom(q, s)
    ensures Fails(p, fmt, Divergence.Initial(), [Num(1.0)]) && Divergence.Halts(q, fmt, [Num(1.0), Num(-1.0)])
  {
    UnseenAnnotated(Negated());
    var m := ShownRuns(p.vars, fmt, 0, true, Negated(), 0);
    NegatedRuns(p.vars, fmt, m, 0);
    var n := ShownRuns(q.vars, fmt, -1, false, Negated(), 0);
    NegatedRuns(q.vars, fmt, n, 0);
    TreeRuns(p, fmt, Annotate(s), 0);
    TreeRuns(q, fmt, s, 0);
  }

  /** A use in a branch comes after a release: it finds nil. */
  lemma ConditionalUseIsNoticed(p: Program, q: Program, fmt: Format, s: Stmt)
    requires s == Shown(-1, false, Conditional()) && CompiledFrom(p, Annotate(s)) && CompiledFrom(q, s)
    ensures Divergence.Halts(p, fmt, [Num(1.0), Nil]) && Divergence.Halts(q, fmt, [Num(1.0), Num(1.0)])
  {
    UnseenAnnotated(Conditional());
    var m := ShownRuns(p.vars, fmt, 0, true, Conditional(), 0);
    ConditionalRuns(p.vars, fmt, m, 0);
    var n := ShownRuns(q.vars, fmt, -1, false, Conditional(), 0);
    ConditionalRuns(q.vars, fmt, n, 0);
    TreeRuns(p, fmt, Annotate(s), 0);
    TreeRuns(q, fmt, s, 0);
  }

  // ---- A release in a loop ----

  function Counter(version: int): Expr {
    Ident("i", version, false)
  }

  function Round(version: int, counter: int, lastUse: bool): seq<Stmt> {
    [Print(Ident("x", version, lastUse))] + [Assign("i", Binary(Counter(counter), Add, Number(1.0)))]
  }

  function Test(counter: int): Expr {
    Binary(Counter(counter), Lt, Number(2.0))
  }

  /** `x = 1; i = 0; while (i < 2) { print(x); i = i + 1; }` */
  function Counted(version: int, counter: int, lastUse: bool): seq<Stmt> {
    [Assign("x", Number(1.0))] + [Assign("i", Number(0.0))]
    + [While(Test(counter), Block(Round(version, counter, lastUse)))]
  }

  function Start(): seq<Stmt> {
    [Assign("x", Number(1.0))] + [Assign("i", Number(0.0))]
  }

  /** Before a round, with `c` in the counter. */
  ghost predicate Ready(m: Memory, x: Value, c: real, out: seq<Value>) {
    m.stack == [] && Lookup(m.env, "x") == x && "i" in m.env && m.env["i"] == Num(c) && m.out == out
  }

  lemma {:induction false} TestAt(vars: seq<string>, fmt: Format, m: Memory, counter: int, c: real)
    requires m.stack == [] && "i" in m.env && m.env["i"] == Num(c)
    ensures DoItems(vars, fmt, ItemsE(Test(counter), []), m) == Ran(m.(stack := [Bool(c < 2.0)]))
  {
    var load, push, less := [Load("i", false)], [Push(Num(2.0))], [Exact(Operate(Lt))];
    assert ItemsE(Counter(counter), []) == load && ItemsE(Test(counter), []) == load + push + less;
    DoOne(vars, fmt, load[0], m);
    assert m.stack + [Num(c)] == [Num(c)];
    DoAppend(vars, fmt, load, push, m);
    DoOne(vars, fmt, push[0], m.(stack := [Num(c)]));
    var both := m.(stack := [Num(c)] + [Num(2.0)]);
    assert Rest(both.stack) == [Num(c)] && Rest([Num(c)]) == [] && [] + [Bool(c < 2.0)] == [Bool(c < 2.0)];
    DoAppend(vars, fmt, load + push, less, m);
    DoOne(vars, fmt, less[0], both);
  }

  lemma {:induction false} CountAt(vars: seq<string>, fmt: Format, m: Memory, counter: int, c: real, fuel: nat)
    requires m.stack == [] && "i" in m.env && m.env["i"] == Num(c)
    ensures At(Do(vars, fmt, CodeOf(Assign("i", Binary(Counter(counter), Add, Number(1.0))), []), m, fuel),
               m.env["i" := Num(c + 1.0)], m.out)
  {
    var load, push, add, store := [Load("i", false)], [Push(Num(1.0))], [Exact(Operate(Add))], [Store("i", false)];
    var sumExpr := Binary(Counter(counter), Add, Number(1.0));
    assert ItemsE(Counter(counter), []) == load && ItemsE(sumExpr, []) == load + push + add;
    assert CodeOf(Assign("i", sumExpr), []) == Row(load + push + add + store);
    DoOne(vars, fmt, load[0], m);
    assert m.stack + [Num(c)] == [Num(c)];
    DoAppend(vars, fmt, load, push, m);
    DoOne(vars, fmt, push[0], m.(stack := [Num(c)]));
    var both, sum := m.(stack := [Num(c)] + [Num(1.0)]), m.(stack := [Num(c + 1.0)]);
    assert Rest(both.stack) == [Num(c)] && Rest([Num(c)]) == [] && [] + [Num(c + 1.0)] == [Num(c + 1.0)];
    DoAppend(vars, fmt, load + push, add, m);
    DoOne(vars, fmt, add[0], both);
    DoAppend(vars, fmt, load + push + add, store, m);
    DoOne(vars, fmt, store[0], sum);
  }

  lemma {:induction false} RoundAt(vars: seq<string>, fmt: Format, m: Memory, version: int, counter: int,
                                   lastUse: bool, x: Value, c: real, out: seq<Value>, fuel: nat)
    requires Ready(m, x, c, out)
    ensures var after := Do(vars, fmt, CodeOf(Block(Round(version, counter, lastUse)), []), m, fuel);
            after.Ran? && Ready(after.m, if lastUse then Nil else x, c + 1.0, out + [x])
  {
    var use, count := Print(Ident("x", version, lastUse)), Assign("i", Binary(Counter(counter), Add, Number(1.0)));
    assert [] + [use] == [use] && SymsSs([], []) == [] && DoItems(vars, fmt, [], m) == Ran(m);
    DoSnoc(vars, fmt, [], use, [], m, fuel);
    DoSnoc(vars, fmt, [use], count, [], m, fuel);
    Snoc([], use);
    PrintAt(vars, fmt, m, use.printed, [], fuel);
    CountAt(vars, fmt, Do(vars, fmt, CodeOf(use, []), m, fuel).m, counter, c, fuel);
  }

  /** Two rounds print `x` twice; a release in the first leaves nil for the second. */
  lemma {:induction false} LoopAt(vars: seq<string>, fmt: Format, m: Memory, version: int, counter: int, lastUse: bool,
                                  fuel: nat)
    requires Ready(m, Num(1.0), 0.0, []) && fuel == 3
    ensures var x := Do(vars, fmt, CodeOf(While(Test(counter), Block(Round(version, counter, lastUse))), []), m, fuel);
            x.Ran? && x.m.out == [Num(1.0), if lastUse then Nil else Num(1.0)]
  {
    var round, v := CodeOf(Block(Round(version, counter, lastUse)), []), if lastUse then Nil else Num(1.0);
    assert CodeOf(While(Test(counter), Block(Round(version, counter, lastUse))), [])
        == Loop(Some(ItemsE(Test(counter), [])), round);
    var once := NextRound(vars, fmt, m, round, version, counter, lastUse, Num(1.0), 0.0, [], fuel);
    var twice := NextRound(vars, fmt, once, round, version, counter, lastUse, v, 1.0, [] + [Num(1.0)], fuel - 1);
    NoRound(vars, fmt, twice, round, counter, fuel - 2);
  }

  lemma {:induction false} NoRound(vars: seq<string>, fmt: Format, m: Memory, round: Code, counter: int, fuel: nat)
    requires m.stack == [] && "i" in m.env && m.env["i"] == Num(2.0) && fuel > 0
    ensures Do(vars, fmt, Loop(Some(ItemsE(Test(counter), [])), round), m, fuel) == Ran(m)
  {
    TestAt(vars, fmt, m, counter, 2.0);
    assert Popped(m.(stack := [Bool(false)])) == m;
  }

  lemma {:induction false} NextRound(vars: seq<string>, fmt: Format, m: Memory, round: Code, version: int, counter: int,
                                     lastUse: bool, x: Value, c: real, out: seq<Value>, fuel: nat)
      returns (next: Memory)
    requires Ready(m, x, c, out) && c < 2.0 && fuel > 0
    requires round == CodeOf(Block(Round(version, counter, lastUse)), [])
    ensures Ready(next, if lastUse then Nil else x, c + 1.0, out + [x])
    ensures var code := Loop(Some(ItemsE(Test(counter), [])), round);
            Do(vars, fmt, code, m, fuel) == Do(vars, fmt, code, next, fuel - 1)
  {
    TestAt(vars, fmt, m, counter, c);
    assert Popped(m.(stack := [Bool(true)])) == m;
    RoundAt(vars, fmt, m, version, counter, lastUse, x, c, out, fuel);
    next := Do(vars, fmt, round, m, fuel).m;
  }

  lemma {:induction false} CountedRuns(vars: seq<string>, fmt: Format, version: int, counter: int, lastUse: bool,
                                       fuel: nat)
    requires fuel == 3
    ensures var x := DoTree(vars, fmt, Block(Counted(version, counter, lastUse)), fuel);
            x.Ran? && x.m.out == [Num(1.0), if lastUse then Nil else Num(1.0)]
  {
    var loop := While(Test(counter), Block(Round(version, counter, lastUse)));
    StartRuns(vars, fmt, fuel);
    DoSnoc(vars, fmt, Start(), loop, [], Blank(), fuel);
    LoopAt(vars, fmt, Do(vars, fmt, CodeOfSs(Start(), []), Blank(), fuel).m, version, counter, lastUse, fuel);
  }

  lemma {:induction false} StartRuns(vars: seq<string>, fmt: Format, fuel: nat)
    ensures var x := Do(vars, fmt, CodeOfSs(Start(), []), Blank(), fuel); x.Ran? && Ready(x.m, Num(1.0), 0.0, [])
    ensures SymsSs(Start(), []) == []
  {
    var first, second := Assign("x", Number(1.0)), Assign("i", Number(0.0));
    assert [] + [first] == [first] && SymsSs([], []) == [] && DoItems(vars, fmt, [], Blank()) == Ran(Blank());
    DoSnoc(vars, fmt, [], first, [], Blank(), fuel);
    DoSnoc(vars, fmt, [first], second, [], Blank(), fuel);
    Snoc([], first);
    Snoc([first], second);
    StoreAt(vars, fmt, Blank(), 1.0, "x", false);
    StoreAt(vars, fmt, Do(vars, fmt, CodeOf(first, []), Blank(), fuel).m, 0.0, "i", false);
  }

  /** The pass marks the use in the loop, since the condition does not mention `x`. */
  lemma {:induction false} CountedAnnotated()
    ensures Annotate(Block(Counted(-1, -1, false))) == Block(Counted(0, 0, true))
  {
    var s, marked := Block(Counted(0, 0, false)), Block(Counted(0, 0, true));
    var t := [SsaVar("x", [0], 1), SsaVar("i", [0, 1], 2)];
    CountedNumbered();
    SweptForX();
    SweptForI(0);
    SweptForI(1);
    assert MarkVersions(s, "x", 0) == s && MarkVersions(s, "x", 1) == marked;
    assert MarkVersions(marked, "i", 0) == marked && MarkVersions(marked, "i", 1) == marked;
    assert MarkVersions(marked, "i", 2) == marked;
    assert t[..1] == [SsaVar("x", [0], 1)] && t[..1][..0] == [];
    assert MarkVars(s, []) == s && MarkVars(s, t[..1]) == marked;
  }

  lemma {:induction false} CountedNumbered()
    ensures NumberS(Block(Counted(-1, -1, false)), [])
         == (Block(Counted(0, 0, false)), [SsaVar("x", [0], 1), SsaVar("i", [0, 1], 2)])
  {
    var t := StartNumbered();
    LoopNumbered(t);
    NumberSnoc(Start(), While(Test(-1), Block(Round(-1, -1, false))), []);
  }

  lemma {:induction false} StartNumbered() returns (t: Table)
    ensures NumberSs(Start(), []) == (Start(), t) && t == [SsaVar("x", [0], 1), SsaVar("i", [0], 1)]
    ensures FirstVersions(t) && Ssa.Push(t, "i") == [SsaVar("x", [0], 1), SsaVar("i", [0, 1], 2)]
  {
    var first, second, t1 := Assign("x", Number(1.0)), Assign("i", Number(0.0)), [SsaVar("x", [0], 1)];
    t := [SsaVar("x", [0], 1), SsaVar("i", [0], 1)];
    FirstPush([]);
    SecondPush();
    assert [first][..0] == [] && NumberSs([], []) == ([], []);
    assert NumberS(first, []) == (first, t1) && [] + [first] == [first];
    assert NumberSs([first], []) == ([first], t1);
    assert NumberS(second, t1) == (second, t);
    NumberSnoc([first], second, []);
  }

  lemma SecondPush()
    ensures var t1, t2 := [SsaVar("x", [0], 1)], [SsaVar("x", [0], 1), SsaVar("i", [0], 1)];
            Ssa.Push(t1, "i") == t2 && Ssa.Push(t2, "i") == [SsaVar("x", [0], 1), SsaVar("i", [0, 1], 2)]
    ensures FirstVersions([SsaVar("x", [0], 1), SsaVar("i", [0], 1)])
  {
    var t1, t2 := [SsaVar("x", [0], 1)], [SsaVar("x", [0], 1), SsaVar("i", [0], 1)];
    var made := t1 + [SsaVar("i", [], 0)];
    assert "x" != "i" && Find(t1, "i") == 1 && FindOrCreate(t1, "i") == made && Find(made, "i") == 1;
    assert [] + [0] == [0] && [0] + [1] == [0, 1];
    assert made[1 := SsaVar("i", [0], 1)] == t2;
    assert Find(t2, "i") == 1 && Find(t2, "x") == 0;
    assert t2[1 := SsaVar("i", [0, 1], 2)] == [SsaVar("x", [0], 1), SsaVar("i", [0, 1], 2)];
  }

  lemma {:induction false} LoopNumbered(t: Table)
    requires FirstVersions(t)
    ensures NumberS(While(Test(-1), Block(Round(-1, -1, false))), t)
         == (While(Test(0), Block(Round(0, 0, false))), Ssa.Push(t, "i"))
  {
    RoundNumbered(t);
    assert NumberE(Counter(-1), t) == (Counter(0), t);
    assert NumberE(Test(-1), t) == (Test(0), t);
  }

  /** Both names are in the table, in their first version. */
  predicate FirstVersions(t: Table) {
    && Current(t, "i") == 0 && Current(t, "x") == 0
    && FindOrCreate(t, "i") == t && FindOrCreate(t, "x") == t
  }

  lemma {:induction false} RoundNumbered(t: Table)
    requires FirstVersions(t)
    ensures NumberSs(Round(-1, -1, false), t) == (Round(0, 0, false), Ssa.Push(t, "i"))
  {
    var use, count := Print(Ident("x", -1, false)), Assign("i", Binary(Counter(-1), Add, Number(1.0)));
    assert [] + [use] == [use] && NumberSs([], t) == ([], t);
    NumberSnoc([], use, t);
    NumberSnoc([use], count, t);
    assert NumberS(use, t) == (Print(Ident("x", 0, false)), t);
    assert NumberE(Counter(-1), t) == (Counter(0), t);
    assert [] + [Print(Ident("x", 0, false))] == [Print(Ident("x", 0, false))];
    assert NumberSs([use], t) == ([Print(Ident("x", 0, false))], t);
    assert NumberE(Binary(Counter(-1), Add, Number(1.0)), t) == (Binary(Counter(0), Add, Number(1.0)), t);
    assert NumberS(count, t) == (Assign("i", Binary(Counter(0), Add, Number(1.0))), Ssa.Push(t, "i"));
  }

  /** A sweep for `x` marks the use in the loop. */
  lemma {:induction false} SweptForX()
    ensures MarkS(Block(Counted(0, 0, false)), "x", 0, false).0 == Block(Counted(0, 0, true))
  {
    var loop := While(Test(0), Block(Round(0, 0, false)));
    RoundSwept();
    MarkFoundIsIdentity(Start(), "x", 0);
    MarkSnoc(Start(), loop, "x", 0);
    assert MarkE(Test(0), "x", 0, true) == (Test(0), true);
    assert MarkS(loop, "x", 0, false) == (While(Test(0), Block(Round(0, 0, true))), true);
  }

  /** The loop is closed to sweeps for `i`. */
  lemma {:induction false} SweptForI(v: nat)
    ensures MarkS(Block(Counted(0, 0, true)), "i", v, false).0 == Block(Counted(0, 0, true))
  {
    var loop := While(Test(0), Block(Round(0, 0, true)));
    var first, second := Assign("x", Number(1.0)), Assign("i", Number(0.0));
    assert [] + [first] == [first] && MarkSs([], "i", v, false) == ([], false);
    MarkSnoc([], first, "i", v);
    MarkSnoc([first], second, "i", v);
    MarkSnoc(Start(), loop, "i", v);
    assert UsedIn(Test(0), "i") && MarkS(loop, "i", v, false) == (loop, false);
    assert MarkS(first, "i", v, false) == (first, false) && MarkS(second, "i", v, false) == (second, false);
    assert MarkSs([first], "i", v, false) == ([first], false);
    assert MarkSs(Start(), "i", v, false) == (Start(), false);
    assert Counted(0, 0, true) == Start() + [loop];
  }

  lemma {:induction false} RoundSwept()
    ensures MarkS(Block(Round(0, 0, false)), "x", 0, false) == (Block(Round(0, 0, true)), true)
  {
    var use, count := Print(Ident("x", 0, false)), Assign("i", Binary(Counter(0), Add, Number(1.0)));
    MarkSnoc([use], count, "x", 0);
    assert MarkS(count, "x", 0, false) == (count, false);
    assert [] + [use] == [use];
    MarkSnoc([], use, "x", 0);
    assert MarkS(use, "x", 0, false) == (Print(Ident("x", 0, true)), true);
    assert MarkSs([], "x", 0, true) == ([], true);
    assert [] + [Print(Ident("x", 0, true))] == [Print(Ident("x", 0, true))];
    assert MarkSs([use], "x", 0, false) == ([Print(Ident("x", 0, true))], true);
  }

  /** In a loop the last use of one round comes before the first of the next. */
  lemma LoopReleaseIsNoticed(p: Program, q: Program, fmt: Format, s: Stmt)
    requires s == Block(Counted(-1, -1, false)) && CompiledFrom(p, Annotate(s)) && CompiledFrom(q, s)
    ensures Divergence.Halts(p, fmt, [Num(1.0), Nil]) && Divergence.Halts(q, fmt, [Num(1.0), Num(1.0)])
  {
    CountedAnnotated();
    CountedRuns(p.vars, fmt, 0, 0, true, 3);
    CountedRuns(q.vars, fmt, -1, -1, false, 3);
    TreeRuns(p, fmt, Annotate(s), 3);
    TreeRuns(q, fmt, s, 3);
  }
}
