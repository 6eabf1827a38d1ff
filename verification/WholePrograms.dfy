// What compiled programs print, told from their text: the result of an operator, the branch that
// a condition chooses, and the rounds of a counting loop.
module WholePrograms {
  import opened Ast
  import opened Values
  import opened Bytecode
  import opened CodeShape
  import opened Interpreter
  import opened Programs
  import opened Divergence
  import opened OperatorLaws
  import Scoping

  /** The three literals. */
  predicate Literal(e: Expr, v: Value) {
    match v
    case Num(n) => e == Number(n)
    case Str(s) => e == Text(s)
    case Bool(b) => e == Boolean(b)
    case Nil => false
  }

  // ---- Programs over one name ----

  predicate Only(mentions: seq<string>, name: string) {
    forall m :: m in mentions ==> m == name
  }

  lemma {:induction false} FirstOfOne(mentions: seq<string>, name: string)
    requires Only(mentions, name)
    ensures FirstMentions(mentions) == if mentions == [] then [] else [name]
    decreases |mentions|
  {
    if mentions != [] {
      var last := |mentions| - 1;
      assert forall m :: m in mentions[..last] ==> m in mentions;
      FirstOfOne(mentions[..last], name);
      assert mentions[last] in mentions;
    }
  }

  lemma OnlyBoth(a: seq<string>, b: seq<string>, name: string)
    requires Only(a, name) && Only(b, name)
    ensures Only(a + b, name)
  {
  }

  /** A program that finishes and whose only name is `name` prints the same when it is compiled. */
  lemma OneNameHalts(p: Program, fmt: Format, ast: Stmt, name: string, isLocal: bool, fuel: nat)
    requires CompiledFrom(p, ast) && Only(MentionsS(ast), name) && ExecS(fmt, ast, map[], fuel).Done?
    requires Scoping.OrderlyS(ast, {}, {name}, if isLocal then {name} else {})
    ensures Halts(p, fmt, ExecS(fmt, ast, map[], fuel).out)
  {
    var regs := if isLocal then {name} else {};
    FirstOfOne(MentionsS(ast), name);
    assert Scoping.Tabulates([], {}, regs);
    Scoping.OrderlySettlesS(ast, [], {}, {name}, regs);
    MeaningPreserved(p, fmt, regs, ast, fuel);
  }

  // ---- Operators and conditions ----

  lemma {:induction false} OperandsTell(fmt: Format, left: Expr, op: BinaryOp, right: Expr, store: Store, l: Value,
                                        r: Value, v: Value)
    requires Agrees(fmt, left, store) && Evaluate(fmt, left, store) == Some(l)
    requires Agrees(fmt, right, store) && Evaluate(fmt, right, store) == Some(r)
    requires Agreeable(op, l, r) && Gives(fmt, l, op, r, v)
    ensures Agrees(fmt, Binary(left, op, right), store)
    ensures Evaluate(fmt, Binary(left, op, right), store) == Some(v)
  {
    EnginesAgreeExactlyOnAgreeable(fmt, op, l, r);
  }

  lemma {:induction false} LiteralTells(fmt: Format, e: Expr, v: Value, store: Store)
    requires Literal(e, v)
    ensures Agrees(fmt, e, store) && Evaluate(fmt, e, store) == Some(v)
    ensures MentionsE(e) == [] && forall known, all :: Scoping.OrderlyE(e, known, all)
  {
  }

  lemma {:induction false} PrintTells(fmt: Format, e: Expr, v: Value, store: Store, fuel: nat)
    requires Agrees(fmt, e, store) && Evaluate(fmt, e, store) == Some(v)
    ensures ExecS(fmt, Print(e), store, fuel) == Done(store, [v])
  {
  }

  /** `print(l op r);` prints what the operator gives between the two values, wherever the engines agree. */
  lemma PrintsResult(p: Program, fmt: Format, left: Expr, op: BinaryOp, right: Expr, l: Value, r: Value, v: Value)
    requires Literal(left, l) && Literal(right, r) && Agreeable(op, l, r) && Gives(fmt, l, op, r, v)
    requires CompiledFrom(p, Print(Binary(left, op, right)))
    ensures Halts(p, fmt, [v])
  {
    var e := Binary(left, op, right);
    LiteralTells(fmt, left, l, map[]);
    LiteralTells(fmt, right, r, map[]);
    OperandsTell(fmt, left, op, right, map[], l, r, v);
    PrintTells(fmt, e, v, map[], 0);
    assert Scoping.OrderlyE(left, {}, {""}) && Scoping.OrderlyE(right, {}, {""});
    assert MentionsE(e) == [];
    OneNameHalts(p, fmt, Print(e), "", false, 0);
  }

  lemma {:induction false} ChosenRuns(fmt: Format, c: Expr, t: Stmt, f: Stmt, v: Value, shown: Value)
    requires Agrees(fmt, c, map[]) && Evaluate(fmt, c, map[]) == Some(v)
    requires ExecS(fmt, if Truthy(v) then t else f, map[], 0) == Done(map[], [shown])
    ensures ExecS(fmt, If(c, t, Some(f)), map[], 0) == Done(map[], [shown])
  {
  }

  /** `if (c) { print(l); } else { print(r); }` prints one of the two: the second if `!c` is true. */
  lemma ChoosesByTruth(p: Program, fmt: Format, c: Expr, left: Expr, right: Expr, v: Value, l: Value, r: Value)
    requires Literal(c, v) && Literal(left, l) && Literal(right, r)
    requires CompiledFrom(p, If(c, Print(left), Some(Print(right))))
    ensures Halts(p, fmt, [if Prefixed(Not, v) == Some(Bool(true)) then r else l])
  {
    var s := If(c, Print(left), Some(Print(right)));
    var shown := if Prefixed(Not, v) == Some(Bool(true)) then r else l;
    Truths(v);
    LiteralTells(fmt, c, v, map[]);
    LiteralTells(fmt, left, l, map[]);
    LiteralTells(fmt, right, r, map[]);
    PrintTells(fmt, left, l, map[], 0);
    PrintTells(fmt, right, r, map[], 0);
    ChosenRuns(fmt, c, Print(left), Print(right), v, shown);
    assert Scoping.OrderlyS(Print(left), {}, {""}, {}) && Scoping.OrderlyS(Print(right), {}, {""}, {});
    assert MentionsS(Print(left)) == [] && MentionsS(Print(right)) == [];
    assert MentionsS(s) == [];
    OneNameHalts(p, fmt, s, "", false, 0);
  }

  // ---- Loops ----

  function UpTo(n: nat): (shown: seq<Value>) {
    seq(n, k requires 0 <= k < n => Num(k as real))
  }

  function From(k: nat, n: nat): (shown: seq<Value>)
    requires k <= n
  {
    UpTo(n)[k..]
  }

  /** `print(i);` */
  function Show(i: string): Stmt {
    Print(Ident(i, -1, false))
  }

  /** `i = i + 1;` */
  function Increase(i: string): Stmt {
    Assign(i, Binary(Ident(i, -1, false), Add, Number(1.0)))
  }

  /** `i < n` */
  function Below(i: string, n: nat): Expr {
    Binary(Ident(i, -1, false), Lt, Number(n as real))
  }

  /** `while (i < n) { print(i); i = i + 1; }` */
  function Counting(i: string, n: nat): Stmt {
    While(Below(i, n), Block([Show(i), Increase(i)]))
  }

  lemma {:induction false} TwoRun(fmt: Format, s: Stmt, t: Stmt, store: Store, fuel: nat)
    ensures ExecS(fmt, Block([s, t]), store, fuel) ==
            var front := ExecS(fmt, s, store, fuel);
            if front.Done? then Then(front.out, ExecS(fmt, t, front.store, fuel)) else front
  {
    var ss := [s, t];
    assert ss[..1] == [s] && [s][..0] == [];
    assert ExecSs(fmt, [], store, fuel) == Done(store, []);
    var front := ExecS(fmt, s, store, fuel);
    assert front.Done? ==> [] + front.out == front.out;
    assert ExecSs(fmt, [s], store, fuel) == front;
  }

  lemma {:induction false} ShowsAndIncreases(fmt: Format, i: string, k: nat, store: Store, fuel: nat)
    requires i in store && store[i] == Num(k as real)
    ensures ExecS(fmt, Show(i), store, fuel) == Done(store, [Num(k as real)])
    ensures ExecS(fmt, Increase(i), store, fuel) == Done(store[i := Num((k + 1) as real)], [])
  {
    var use := Ident(i, -1, false);
    LiteralTells(fmt, Number(1.0), Num(1.0), store);
    assert Evaluate(fmt, use, store) == Some(Num(k as real)) && Agrees(fmt, use, store);
    OperandsTell(fmt, use, Add, Number(1.0), store, Num(k as real), Num(1.0), Num((k + 1) as real));
  }

  lemma {:induction false} BelowMeans(fmt: Format, i: string, k: nat, n: nat, store: Store)
    requires i in store && store[i] == Num(k as real)
    ensures Agrees(fmt, Below(i, n), store) && Evaluate(fmt, Below(i, n), store) == Some(Bool(k < n))
  {
    var use, bound := Ident(i, -1, false), Number(n as real);
    LiteralTells(fmt, bound, Num(n as real), store);
    assert Evaluate(fmt, use, store) == Some(Num(k as real)) && Agrees(fmt, use, store);
    OperandsTell(fmt, use, Lt, bound, store, Num(k as real), Num(n as real), Bool(k < n));
  }

  lemma {:induction false} CountsOn(fmt: Format, i: string, k: nat, n: nat, store: Store, fuel: nat)
    requires k <= n && i in store && store[i] == Num(k as real) && fuel > n - k
    ensures ExecS(fmt, Counting(i, n), store, fuel) == Done(store[i := Num(n as real)], From(k, n))
    decreases n - k
  {
    BelowMeans(fmt, i, k, n, store);
    if k < n {
      var next := store[i := Num((k + 1) as real)];
      ShowsAndIncreases(fmt, i, k, store, fuel);
      TwoRun(fmt, Show(i), Increase(i), store, fuel);
      CountsOn(fmt, i, k + 1, n, next, fuel - 1);
      assert [Num(k as real)] + [] == [Num(k as real)];
      assert [Num(k as real)] + From(k + 1, n) == From(k, n);
      assert next[i := Num(n as real)] == store[i := Num(n as real)];
    } else {
      assert store[i := Num(n as real)] == store;
    }
  }

  /** `let i = 0; while (i < n) { print(i); i = i + 1; }` */
  function CountingProgram(i: string, n: nat, escapes: bool): Stmt {
    Block([Let(i, Number(0.0), escapes), Counting(i, n)])
  }

  lemma {:induction false} TwoMention(s: Stmt, t: Stmt)
    ensures MentionsS(Block([s, t])) == MentionsS(s) + MentionsS(t)
  {
    var ss := [s, t];
    assert ss[..1] == [s] && [s][..0] == [] && MentionsSs([]) == [];
    assert MentionsSs([s]) == MentionsS(s);
  }

  lemma {:induction false} TwoOrderly(s: Stmt, t: Stmt, known: set<string>, all: set<string>, regs: set<string>)
    requires Scoping.OrderlyS(s, known, all, regs) && Scoping.OrderlyS(t, Scoping.KnownS(s, known), all, regs)
    ensures Scoping.OrderlyS(Block([s, t]), known, all, regs)
  {
    var ss := [s, t];
    assert ss[..1] == [s] && [s][..0] == [];
    assert Scoping.OrderlySs([], known, all, regs) && Scoping.KnownSs([], known) == known;
    assert Scoping.OrderlySs([s], known, all, regs) && Scoping.KnownSs([s], known) == Scoping.KnownS(s, known);
  }

  lemma {:induction false} PartsAreOrderly(i: string, n: nat, regs: set<string>)
    ensures Scoping.OrderlyE(Below(i, n), {i}, {i}) && Only(MentionsE(Below(i, n)), i)
    ensures Scoping.OrderlyS(Show(i), {i}, {i}, regs) && Only(MentionsS(Show(i)), i)
    ensures Scoping.OrderlyS(Increase(i), {i}, {i}, regs) && Only(MentionsS(Increase(i)), i)
  {
    var use := Ident(i, -1, false);
    assert Scoping.OrderlyE(use, {i}, {i}) && Scoping.OrderlyE(Number(n as real), {i}, {i});
    assert MentionsE(use) == [i] && MentionsE(Number(n as real)) == [] && MentionsE(Number(1.0)) == [];
    assert MentionsE(Below(i, n)) == [i] + [] && MentionsE(Binary(use, Add, Number(1.0))) == [i] + [];
  }

  lemma {:induction false} CountingIsOrderly(i: string, n: nat, escapes: bool)
    ensures Scoping.OrderlyS(CountingProgram(i, n, escapes), {}, {i}, if escapes then {} else {i})
    ensures Only(MentionsS(CountingProgram(i, n, escapes)), i)
  {
    var start, body, regs := Let(i, Number(0.0), escapes), Block([Show(i), Increase(i)]), if escapes then {} else {i};
    PartsAreOrderly(i, n, regs);
    TwoOrderly(Show(i), Increase(i), {i}, {i}, regs);
    assert Scoping.KnownS(start, {}) == {i} && Scoping.OrderlyS(Counting(i, n), {i}, {i}, regs);
    TwoOrderly(start, Counting(i, n), {}, {i}, regs);
    TwoMention(Show(i), Increase(i));
    OnlyBoth(MentionsS(Show(i)), MentionsS(Increase(i)), i);
    OnlyBoth(MentionsE(Below(i, n)), MentionsS(body), i);
    TwoMention(start, Counting(i, n));
    OnlyBoth(MentionsS(start), MentionsS(Counting(i, n)), i);
  }

  /** The counting loop prints every number below its bound once, in order, and stops, whether its
      variable is kept in a register or in the environment. */
  lemma CountingHalts(p: Program, fmt: Format, i: string, n: nat, escapes: bool)
    requires CompiledFrom(p, CountingProgram(i, n, escapes))
    ensures Halts(p, fmt, UpTo(n))
  {
    var start := Let(i, Number(0.0), escapes);
    var store := map[i := Num(0.0)];
    assert ExecS(fmt, start, map[], n + 1) == Done(store, []);
    CountsOn(fmt, i, 0, n, store, n + 1);
    assert From(0, n) == UpTo(n) && [] + UpTo(n) == UpTo(n);
    TwoRun(fmt, start, Counting(i, n), map[], n + 1);
    CountingIsOrderly(i, n, escapes);
    OneNameHalts(p, fmt, CountingProgram(i, n, escapes), i, !escapes, n + 1);
  }

  /** `for (let i = 0; i < n; i = i + 1) { print(i); }` */
  function ForProgram(i: string, n: nat, escapes: bool): Stmt {
    For(Some(Let(i, Number(0.0), escapes)), Some(Below(i, n)), Some(Increase(i)), Show(i))
  }

  lemma {:induction false} ForRound(fmt: Format, s: Stmt, i: string, k: nat, store: Store, fuel: nat)
    requires s.For? && s.increment == Some(Increase(i)) && s.forBody == Show(i)
    requires i in store && store[i] == Num(k as real)
    ensures ExecRound(fmt, s, store, fuel) == Done(store[i := Num((k + 1) as real)], [Num(k as real)])
  {
    ShowsAndIncreases(fmt, i, k, store, fuel);
    assert ExecStep(fmt, s.increment, store, fuel) == ExecS(fmt, Increase(i), store, fuel);
    assert [Num(k as real)] + [] == [Num(k as real)];
  }

  lemma {:induction false} LoopsOn(fmt: Format, s: Stmt, i: string, k: nat, n: nat, store: Store, fuel: nat)
    requires s.For? && s.test == Some(Below(i, n)) && s.increment == Some(Increase(i)) && s.forBody == Show(i)
    requires k <= n && i in store && store[i] == Num(k as real) && fuel > n - k
    ensures ExecLoop(fmt, s, store, fuel) == Done(store[i := Num(n as real)], From(k, n))
    decreases n - k
  {
    BelowMeans(fmt, i, k, n, store);
    if k < n {
      var next := store[i := Num((k + 1) as real)];
      ForRound(fmt, s, i, k, store, fuel);
      LoopsOn(fmt, s, i, k + 1, n, next, fuel - 1);
      assert [Num(k as real)] + From(k + 1, n) == From(k, n);
      assert next[i := Num(n as real)] == store[i := Num(n as real)];
    } else {
      assert store[i := Num(n as real)] == store;
    }
  }

  lemma {:induction false} ForIsOrderly(i: string, n: nat, escapes: bool)
    ensures Scoping.OrderlyS(ForProgram(i, n, escapes), {}, {i}, if escapes then {} else {i})
    ensures Only(MentionsS(ForProgram(i, n, escapes)), i)
  {
    var s, regs := ForProgram(i, n, escapes), if escapes then {} else {i};
    PartsAreOrderly(i, n, regs);
    assert Scoping.OrderlyS(s.init.value, {}, {i}, regs) && Scoping.KnownS(s.init.value, {}) == {i};
    assert Scoping.OrderlyO(s.init, {}, {i}, regs) && Scoping.KnownO(s.init, {}) == {i};
    assert Scoping.KnownS(Show(i), {i}) == {i} && Scoping.OrderlyO(s.increment, {i}, {i}, regs);
    assert Scoping.OrderlyLoop(s, {i}, {i}, regs);
    assert MentionsE(Number(0.0)) == [] && MentionsS(s.init.value) == [] + [i];
    assert MentionsO(s.init) == [] + [i] && MentionsO(s.increment) == MentionsS(Increase(i));
    OnlyBoth(MentionsS(Show(i)), MentionsO(s.increment), i);
    OnlyBoth(MentionsE(Below(i, n)), MentionsS(Show(i)) + MentionsO(s.increment), i);
    OnlyBoth(MentionsO(s.init), MentionsE(Below(i, n)) + (MentionsS(Show(i)) + MentionsO(s.increment)), i);
  }

  /** So does the `for` loop. */
  lemma ForHalts(p: Program, fmt: Format, i: string, n: nat, escapes: bool)
    requires CompiledFrom(p, ForProgram(i, n, escapes))
    ensures Halts(p, fmt, UpTo(n))
  {
    var s := ForProgram(i, n, escapes);
    var store := map[i := Num(0.0)];
    assert ExecO(fmt, s.init, map[], n + 1) == Done(store, []);
    LoopsOn(fmt, s, i, 0, n, store, n + 1);
    assert From(0, n) == UpTo(n) && [] + UpTo(n) == UpTo(n);
    ForIsOrderly(i, n, escapes);
    OneNameHalts(p, fmt, s, i, !escapes, n + 1);
  }
}
