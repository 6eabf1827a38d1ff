// What a run over the code of a tree does to the memory of the machine, addresses aside.
module CodeRuns {
  import opened Ast
  import opened Values
  import opened Bytecode
  import opened CodeShape
  import opened CodeTree
  import opened Programs
  import Preservation
  import Divergence

  /** A machine state without its program counter. */
  datatype Memory = Memory(stack: seq<Value>, locals: Registers, env: map<string, Value>, out: seq<Value>)

  /** `Spent` is a run that has used up its rounds. */
  datatype Outcome = Ran(m: Memory) | Failed(m: Memory) | Spent

  function Placed(pc: nat, m: Memory): State {
    State(pc, m.stack, m.locals, m.env, m.out)
  }

  function Place(vars: seq<string>, name: string): (v: nat)
    ensures v <= |vars| && (v < |vars| ==> vars[v] == name) && (name in vars ==> v < |vars|)
  {
    if vars == [] || vars[0] == name then 0 else 1 + Place(vars[1..], name)
  }

  /** One instruction; the jumps are not among them. */
  function DoItem(vars: seq<string>, fmt: Format, item: Item, m: Memory): Outcome {
    match item
    case Push(v) => Ran(m.(stack := m.stack + [v]))
    case Load(name, false) => Ran(m.(stack := m.stack + [Lookup(m.env, name)]))
    case Load(name, true) =>
      if Place(vars, name) >= REGISTERS then Failed(m) else Ran(m.(stack := m.stack + [m.locals[Place(vars, name)]]))
    case Store(name, false) => Ran(m.(stack := Rest(m.stack), env := Bind(m.env, name, Top(m.stack))))
    case Store(name, true) =>
      if Place(vars, name) >= REGISTERS then Failed(m)
      else Ran(m.(stack := Rest(m.stack), locals := m.locals[Place(vars, name) := Top(m.stack)]))
    case Free(name) =>
      Ran(m.(env := m.env - {name},
             locals := if Place(vars, name) < REGISTERS then m.locals[Place(vars, name) := Nil] else m.locals))
    case Exact(Operate(op)) =>
      var rest, result := Rest(Rest(m.stack)), MachineBinary(fmt, op, Top(Rest(m.stack)), Top(m.stack));
      if result.Some? then Ran(m.(stack := rest + [result.value])) else Failed(m.(stack := rest))
    case Exact(Negate(Not)) => Ran(m.(stack := Rest(m.stack) + [Bool(!Truthy(Top(m.stack)))]))
    case Exact(Negate(Neg)) =>
      var v := Top(m.stack);
      if v.Num? then Ran(m.(stack := Rest(m.stack) + [Num(-v.n)])) else Failed(m.(stack := Rest(m.stack)))
    case Exact(PrintTop) => Ran(m.(out := m.out + [Top(m.stack)]))
    case Exact(Pop) => Ran(m.(stack := Rest(m.stack)))
    case _ => Ran(m)
  }

  function DoItems(vars: seq<string>, fmt: Format, items: seq<Item>, m: Memory): Outcome {
    if items == [] then Ran(m)
    else
      var front := DoItems(vars, fmt, items[..|items| - 1], m);
      if front.Ran? then DoItem(vars, fmt, items[|items| - 1], front.m) else front
  }

  function Popped(m: Memory): Memory {
    m.(stack := Rest(m.stack))
  }

  /** `fuel` bounds the rounds of each loop. */
  function Do(vars: seq<string>, fmt: Format, code: Code, m: Memory, fuel: nat): Outcome
    decreases fuel, code
  {
    match code
    case Row(items) => DoItems(vars, fmt, items, m)
    case Then(a, b) =>
      var first := Do(vars, fmt, a, m, fuel);
      if first.Ran? then Do(vars, fmt, b, first.m, fuel) else first
    case Branch(condition, yes, no) =>
      var tested := DoItems(vars, fmt, condition, m);
      if !tested.Ran? then tested
      else if Truthy(Top(tested.m.stack)) then Do(vars, fmt, yes, Popped(tested.m), fuel)
      else if no.Some? then Do(vars, fmt, no.value, Popped(tested.m), fuel)
      else Ran(Popped(tested.m))
    case Loop(test, round) =>
      if fuel == 0 then Spent
      else
        var tested := if test.Some? then DoItems(vars, fmt, test.value, m) else Ran(m);
        if !tested.Ran? then tested
        else if test.Some? && !Truthy(Top(tested.m.stack)) then Ran(Popped(tested.m))
        else
          var once := Do(vars, fmt, round, if test.Some? then Popped(tested.m) else m, fuel);
          if once.Ran? then Do(vars, fmt, code, once.m, fuel - 1) else once
  }

  // ---- The machine does that ----

  /** Instructions that go on to the next one. */
  predicate Falls(item: Item) {
    item.Exact? ==>
      item.i.Operate? || item.i.Negate? || item.i.PrintTop? || item.i.Pop? || item.i.ReturnValue?
  }

  predicate FallAll(items: seq<Item>) {
    forall k :: 0 <= k < |items| ==> Falls(items[k])
  }

  lemma {:induction false} StepIsItem(p: Program, fmt: Format, item: Item, pc: nat, m: Memory)
    requires Holds(p, pc, [item]) && Distinct(p.vars) && Falls(item)
    ensures match DoItem(p.vars, fmt, item, m)
            case Ran(m') => Step(p, fmt, Placed(pc, m)) == Next(Placed(pc + 1, m'))
            case Failed(m') => Step(p, fmt, Placed(pc, m)).Fault? && Step(p, fmt, Placed(pc, m)).st.out == m'.out
            case Spent => false
  {
    HoldsOne(p, pc, item);
    match item
    case Load(name, _) => PlaceIs(p, p.instrs[pc].v, name);
    case Store(name, _) => PlaceIs(p, p.instrs[pc].v, name);
    case Free(name) => PlaceIs(p, p.instrs[pc].v, name);
    case _ =>
  }

  lemma PlaceIs(p: Program, v: nat, name: string)
    requires Names(p, v, name) && Distinct(p.vars)
    ensures Place(p.vars, name) == v
  {
    SamePlace(p.vars, v, Place(p.vars, name));
  }

  /** The machine stops with an error, having printed `out`. */
  ghost predicate Fails(p: Program, fmt: Format, a: State, out: seq<Value>) {
    exists n: nat :: Run(p, fmt, a, n).Fault? && Run(p, fmt, a, n).st.out == out
  }

  lemma FailsFrom(p: Program, fmt: Format, a: State, b: State, out: seq<Value>)
    requires Reaches(p, fmt, a, b) && Fails(p, fmt, b, out)
    ensures Fails(p, fmt, a, out)
  {
    var m: nat :| Run(p, fmt, a, m) == Next(b);
    var n: nat :| Run(p, fmt, b, n).Fault? && Run(p, fmt, b, n).st.out == out;
    RunAppend(p, fmt, a, m, b, n);
  }

  lemma FailsNow(p: Program, fmt: Format, a: State)
    requires Step(p, fmt, a).Fault?
    ensures Fails(p, fmt, a, Step(p, fmt, a).st.out)
  {
    assert Run(p, fmt, a, 1) == Step(p, fmt, a);
  }

  /** A run from `a` ends as `outcome` says, at `end` if it goes through, or lasts `fuel` steps. */
  ghost predicate Ends(p: Program, fmt: Format, a: State, outcome: Outcome, end: nat, fuel: nat) {
    match outcome
    case Ran(m) => Reaches(p, fmt, a, Placed(end, m))
    case Failed(m) => Fails(p, fmt, a, m.out)
    case Spent => Divergence.Lasts(p, fmt, a, fuel)
  }

  lemma EndsFrom(p: Program, fmt: Format, a: State, b: State, outcome: Outcome, end: nat, fuel: nat)
    requires Reaches(p, fmt, a, b) && Ends(p, fmt, b, outcome, end, fuel)
    ensures Ends(p, fmt, a, outcome, end, fuel)
  {
    match outcome
    case Ran(m) => ReachesTransitive(p, fmt, a, b, Placed(end, m));
    case Failed(m) => FailsFrom(p, fmt, a, b, m.out);
    case Spent => Divergence.LastsFrom(p, fmt, a, b, fuel);
  }

  lemma {:induction false} RowRuns(p: Program, fmt: Format, items: seq<Item>, at: nat, m: Memory, fuel: nat)
    requires Distinct(p.vars) && Holds(p, at, items) && FallAll(items)
    ensures Ends(p, fmt, Placed(at, m), DoItems(p.vars, fmt, items, m), at + |items|, fuel)
    ensures !DoItems(p.vars, fmt, items, m).Spent?
    decreases |items|
  {
    var a := Placed(at, m);
    if items == [] {
      ReachesSelf(p, fmt, a);
      return;
    }
    var n := |items| - 1;
    var item := items[n];
    assert items == items[..n] + [item];
    HoldsSplit(p, at, items[..n], [item]);
    RowRuns(p, fmt, items[..n], at, m, fuel);
    var front := DoItems(p.vars, fmt, items[..n], m);
    if front.Ran? {
      ItemRuns(p, fmt, item, at + n, front.m, fuel);
      EndsFrom(p, fmt, a, Placed(at + n, front.m), DoItem(p.vars, fmt, item, front.m), at + n + 1, fuel);
    }
  }

  lemma ItemRuns(p: Program, fmt: Format, item: Item, at: nat, m: Memory, fuel: nat)
    requires Distinct(p.vars) && Holds(p, at, [item]) && Falls(item)
    ensures Ends(p, fmt, Placed(at, m), DoItem(p.vars, fmt, item, m), at + 1, fuel)
    ensures !DoItem(p.vars, fmt, item, m).Spent?
  {
    StepIsItem(p, fmt, item, at, m);
    var outcome := DoItem(p.vars, fmt, item, m);
    if outcome.Ran? {
      ReachesStep(p, fmt, Placed(at, m));
    } else {
      FailsNow(p, fmt, Placed(at, m));
    }
  }

  predicate FallThrough(code: Code) {
    match code
    case Row(items) => FallAll(items)
    case Then(a, b) => FallThrough(a) && FallThrough(b)
    case Branch(condition, yes, no) =>
      FallAll(condition) && FallThrough(yes) && (no.Some? ==> FallThrough(no.value))
    case Loop(test, round) => (test.Some? ==> FallAll(test.value)) && FallThrough(round)
  }

  /** Code laid out in a program is run as its tree says. */
  lemma {:induction false} LaidRuns(p: Program, fmt: Format, code: Code, at: nat, m: Memory, fuel: nat)
    requires Distinct(p.vars) && FallThrough(code) && Holds(p, at, Laid(code, at))
    ensures Ends(p, fmt, Placed(at, m), Do(p.vars, fmt, code, m, fuel), at + |Laid(code, at)|, fuel)
    decreases fuel, code, 1
  {
    match code
    case Row(items) => RowRuns(p, fmt, items, at, m, fuel);
    case Then(a, b) =>
      var first := Laid(a, at);
      HoldsSplit(p, at, first, Laid(b, at + |first|));
      LaidRuns(p, fmt, a, at, m, fuel);
      var half := Do(p.vars, fmt, a, m, fuel);
      if half.Ran? {
        LaidRuns(p, fmt, b, at + |first|, half.m, fuel);
        EndsFrom(p, fmt, Placed(at, m), Placed(at + |first|, half.m), Do(p.vars, fmt, b, half.m, fuel),
                 at + |Laid(code, at)|, fuel);
      }
    case Branch(_, _, no) =>
      if no.Some? {
        IfElseRuns(p, fmt, code, at, m, fuel);
      } else {
        IfRuns(p, fmt, code, at, m, fuel);
      }
    case Loop(_, _) => LoopRuns(p, fmt, code, at, m, fuel);
  }

  /** A condition and the jump after it. */
  ghost predicate Chosen(p: Program, fmt: Format, a: State, tested: Outcome, next: nat, goal: nat, fuel: nat) {
    if tested.Ran? then
      Reaches(p, fmt, a, Placed(if Truthy(Top(tested.m.stack)) then next else goal, Popped(tested.m)))
    else Ends(p, fmt, a, tested, 0, fuel)
  }

  lemma GuardRuns(p: Program, fmt: Format, test: seq<Item>, goal: nat, at: nat, m: Memory, fuel: nat)
    requires Distinct(p.vars) && FallAll(test) && Holds(p, at, test + [Exact(JumpIfFalse(goal))])
    ensures Chosen(p, fmt, Placed(at, m), DoItems(p.vars, fmt, test, m), at + |test| + 1, goal, fuel)
  {
    HoldsSplit(p, at, test, [Exact(JumpIfFalse(goal))]);
    RowRuns(p, fmt, test, at, m, fuel);
    var tested := DoItems(p.vars, fmt, test, m);
    if tested.Ran? {
      var b := Placed(at + |test|, tested.m);
      HoldsOne(p, b.pc, Exact(JumpIfFalse(goal)));
      ReachesStep(p, fmt, b);
      ReachesTransitive(p, fmt, Placed(at, m), b, Step(p, fmt, b).st);
    }
  }

  lemma JumpRuns(p: Program, fmt: Format, a: State, at: nat, goal: nat, m: Memory)
    requires Reaches(p, fmt, a, Placed(at, m)) && Holds(p, at, [Exact(Jump(goal))])
    ensures Reaches(p, fmt, a, Placed(goal, m))
  {
    HoldsOne(p, at, Exact(Jump(goal)));
    ReachesStep(p, fmt, Placed(at, m));
    ReachesTransitive(p, fmt, a, Placed(at, m), Placed(goal, m));
  }

  /** A branch that has been entered, without a jump after it. */
  lemma {:induction false} EnteredRuns(p: Program, fmt: Format, code: Code, a: State, at: nat, m: Memory, fuel: nat)
    requires Distinct(p.vars) && FallThrough(code) && Holds(p, at, Laid(code, at))
    requires Reaches(p, fmt, a, Placed(at, m))
    ensures Ends(p, fmt, a, Do(p.vars, fmt, code, m, fuel), at + |Laid(code, at)|, fuel)
    decreases fuel, code, 2
  {
    LaidRuns(p, fmt, code, at, m, fuel);
    EndsFrom(p, fmt, a, Placed(at, m), Do(p.vars, fmt, code, m, fuel), at + |Laid(code, at)|, fuel);
  }

  lemma {:induction false} IfRuns(p: Program, fmt: Format, code: Code, at: nat, m: Memory, fuel: nat)
    requires code.Branch? && code.no.None? && Distinct(p.vars) && FallThrough(code) && Holds(p, at, Laid(code, at))
    ensures Ends(p, fmt, Placed(at, m), Do(p.vars, fmt, code, m, fuel), at + |Laid(code, at)|, fuel)
    decreases fuel, code, 0
  {
    var yesAt := at + |code.condition| + 1;
    var yes := Laid(code.yes, yesAt);
    var guard := code.condition + [Exact(JumpIfFalse(yesAt + |yes|))];
    assert Laid(code, at) == guard + yes;
    HoldsSplit(p, at, guard, yes);
    GuardRuns(p, fmt, code.condition, yesAt + |yes|, at, m, fuel);
    var tested := DoItems(p.vars, fmt, code.condition, m);
    if tested.Ran? && Truthy(Top(tested.m.stack)) {
      EnteredRuns(p, fmt, code.yes, Placed(at, m), yesAt, Popped(tested.m), fuel);
    }
  }

  /** Where the branches begin, and the jump over the second. */
  lemma BranchSplits(p: Program, code: Code, at: nat) returns (yesAt: nat, noAt: nat)
    requires code.Branch? && code.no.Some? && Holds(p, at, Laid(code, at))
    ensures yesAt == at + |code.condition| + 1 && noAt == yesAt + |Laid(code.yes, yesAt)| + 1
    ensures Holds(p, at, code.condition + [Exact(JumpIfFalse(noAt))]) && Holds(p, yesAt, Laid(code.yes, yesAt))
    ensures var end := noAt + |Laid(code.no.value, noAt)|;
            && end == at + |Laid(code, at)| && Holds(p, noAt, Laid(code.no.value, noAt))
            && Holds(p, noAt - 1, [Exact(Jump(end))])
  {
    yesAt := at + |code.condition| + 1;
    var yes := Laid(code.yes, yesAt);
    noAt := yesAt + |yes| + 1;
    var no := Laid(code.no.value, noAt);
    var guard := code.condition + [Exact(JumpIfFalse(noAt))];
    assert Laid(code, at) == guard + yes + [Exact(Jump(noAt + |no|))] + no;
    Preservation.SplitIfElse(p, at, guard, yes, Exact(Jump(noAt + |no|)), no);
  }

  lemma {:induction false} IfElseRuns(p: Program, fmt: Format, code: Code, at: nat, m: Memory, fuel: nat)
    requires code.Branch? && code.no.Some? && Distinct(p.vars) && FallThrough(code) && Holds(p, at, Laid(code, at))
    ensures Ends(p, fmt, Placed(at, m), Do(p.vars, fmt, code, m, fuel), at + |Laid(code, at)|, fuel)
    decreases fuel, code, 0
  {
    var yesAt, noAt := BranchSplits(p, code, at);
    var a, end, tested := Placed(at, m), at + |Laid(code, at)|, DoItems(p.vars, fmt, code.condition, m);
    GuardRuns(p, fmt, code.condition, noAt, at, m, fuel);
    if tested.Ran? && Truthy(Top(tested.m.stack)) {
      EnteredRuns(p, fmt, code.yes, a, yesAt, Popped(tested.m), fuel);
      JumpedOver(p, fmt, a, Do(p.vars, fmt, code.yes, Popped(tested.m), fuel), noAt - 1, end, fuel);
    } else if tested.Ran? {
      EnteredRuns(p, fmt, code.no.value, a, noAt, Popped(tested.m), fuel);
    }
  }

  lemma JumpedOver(p: Program, fmt: Format, a: State, outcome: Outcome, end: nat, goal: nat, fuel: nat)
    requires Ends(p, fmt, a, outcome, end, fuel) && Holds(p, end, [Exact(Jump(goal))])
    ensures Ends(p, fmt, a, outcome, goal, fuel)
  {
    if outcome.Ran? {
      JumpRuns(p, fmt, a, end, goal, outcome.m);
    }
  }

  /** The test of a loop, if it has one: what it leads to. */
  lemma TestRuns(p: Program, fmt: Format, test: Option<seq<Item>>, exit: nat, at: nat, m: Memory, fuel: nat)
    requires Distinct(p.vars) && (test.Some? ==> FallAll(test.value)) && Holds(p, at, LaidTest(test, exit))
    ensures if test.Some? then
              Chosen(p, fmt, Placed(at, m), DoItems(p.vars, fmt, test.value, m), at + |LaidTest(test, exit)|, exit,
                     fuel)
            else Reaches(p, fmt, Placed(at, m), Placed(at + |LaidTest(test, exit)|, m))
  {
    if test.Some? {
      GuardRuns(p, fmt, test.value, exit, at, m, fuel);
    } else {
      ReachesSelf(p, fmt, Placed(at, m));
    }
  }

  lemma {:induction false} LoopRuns(p: Program, fmt: Format, code: Code, at: nat, m: Memory, fuel: nat)
    requires code.Loop? && Distinct(p.vars) && FallThrough(code) && Holds(p, at, Laid(code, at))
    ensures Ends(p, fmt, Placed(at, m), Do(p.vars, fmt, code, m, fuel), at + |Laid(code, at)|, fuel)
    decreases fuel, code, 0
  {
    var a, test := Placed(at, m), code.test;
    var start := at + |LaidTest(test, 0)|;
    var round := Laid(code.round, start);
    var exit := start + |round| + 1;
    Preservation.SplitLoop(p, at, LaidTest(test, exit), round, Exact(Jump(at)));
    if fuel == 0 {
      Divergence.LastsRuns(p, fmt, a, 0);
      return;
    }
    TestRuns(p, fmt, test, exit, at, m, fuel);
    var tested := if test.Some? then DoItems(p.vars, fmt, test.value, m) else Ran(m);
    if tested.Ran? && (test.Some? ==> Truthy(Top(tested.m.stack))) {
      RoundRuns(p, fmt, code, at, m, if test.Some? then Popped(tested.m) else m, fuel);
    }
  }

  /** From the start of a round on, back to the test and through the rest. */
  lemma {:induction false} RoundRuns(p: Program, fmt: Format, code: Code, at: nat, m: Memory, next: Memory, fuel: nat)
    requires code.Loop? && Distinct(p.vars) && FallThrough(code) && Holds(p, at, Laid(code, at)) && fuel > 0
    requires Reaches(p, fmt, Placed(at, m), Placed(at + |LaidTest(code.test, 0)|, next))
    ensures var once := Do(p.vars, fmt, code.round, next, fuel);
            Ends(p, fmt, Placed(at, m), if once.Ran? then Do(p.vars, fmt, code, once.m, fuel - 1) else once,
                 at + |Laid(code, at)|, fuel)
    decreases fuel, code.round, 3
  {
    var start := at + |LaidTest(code.test, 0)|;
    var round := Laid(code.round, start);
    Preservation.SplitLoop(p, at, LaidTest(code.test, start + |round| + 1), round, Exact(Jump(at)));
    EnteredRuns(p, fmt, code.round, Placed(at, m), start, next, fuel);
    var once := Do(p.vars, fmt, code.round, next, fuel);
    if once.Ran? {
      LaidRuns(p, fmt, code, at, once.m, fuel - 1);
      BackAgain(p, fmt, Placed(at, m), at, start + |round|, once.m, Do(p.vars, fmt, code, once.m, fuel - 1),
                at + |Laid(code, at)|, fuel);
    }
  }

  /** The jump back is a step of its own, so a further round buys one more step. */
  lemma BackAgain(p: Program, fmt: Format, a: State, at: nat, end: nat, m: Memory, outcome: Outcome, exit: nat,
                  fuel: nat)
    requires Reaches(p, fmt, a, Placed(end, m)) && Holds(p, end, [Exact(Jump(at))]) && fuel > 0
    requires Ends(p, fmt, Placed(at, m), outcome, exit, fuel - 1)
    ensures Ends(p, fmt, a, outcome, exit, fuel)
  {
    JumpRuns(p, fmt, a, end, at, m);
    if outcome.Spent? {
      HoldsOne(p, end, Exact(Jump(at)));
      Divergence.LastsRuns(p, fmt, Placed(at, m), fuel - 1);
      Divergence.LastsRuns(p, fmt, Placed(end, m), fuel);
      Divergence.LastsFrom(p, fmt, a, Placed(end, m), fuel);
    } else {
      EndsFrom(p, fmt, a, Placed(at, m), outcome, exit, fuel);
    }
  }

  // ---- Whole programs ----

  lemma {:induction false} ItemsFall(e: Expr, syms: Symbols)
    ensures FallAll(ItemsE(e, syms))
    decreases e
  {
    match e
    case Unary(_, operand) => ItemsFall(operand, syms);
    case Binary(l, _, r) =>
      ItemsFall(l, syms);
      ItemsFall(r, syms);
    case Call(_, args) => ItemsOfAllFall(args, syms);
    case _ =>
  }

  lemma {:induction false} ItemsOfAllFall(es: seq<Expr>, syms: Symbols)
    ensures FallAll(ItemsEs(es, syms))
    decreases es
  {
    if es != [] {
      ItemsOfAllFall(es[..|es| - 1], syms);
      ItemsFall(es[|es| - 1], syms);
    }
  }

  lemma {:induction false} CodeFalls(s: Stmt, syms: Symbols)
    ensures FallThrough(CodeOf(s, syms))
    decreases s, 1
  {
    match s
    case Let(_, value, _) => ItemsFall(value, syms);
    case Assign(_, source) => ItemsFall(source, syms);
    case Print(e) => ItemsFall(e, syms);
    case If(c, t, f) =>
      ItemsFall(c, syms);
      CodeFalls(t, syms);
      CodeFallsO(f, SymsS(t, syms));
    case While(c, b) =>
      ItemsFall(c, syms);
      CodeFalls(b, syms);
    case For(init, _, _, _) =>
      CodeFallsO(init, syms);
      LoopFalls(s, SymsO(init, syms));
    case Block(ss) => CodeFallsSs(ss, syms);
    case Return(Some(e)) => ItemsFall(e, syms);
    case Bare(e) => ItemsFall(e, syms);
    case _ =>
  }

  lemma {:induction false} LoopFalls(s: Stmt, syms: Symbols)
    requires s.For?
    ensures FallThrough(LoopOf(s, syms))
    decreases s, 0
  {
    if s.test.Some? {
      ItemsFall(s.test.value, syms);
    }
    CodeFalls(s.forBody, syms);
    CodeFallsO(s.increment, SymsS(s.forBody, syms));
  }

  lemma {:induction false} CodeFallsO(s: Option<Stmt>, syms: Symbols)
    ensures FallThrough(CodeOfO(s, syms)) && FallThrough(CodeOfStep(s, syms))
    decreases s
  {
    if s.Some? {
      CodeFalls(s.value, syms);
    }
  }

  lemma {:induction false} CodeFallsSs(ss: seq<Stmt>, syms: Symbols)
    ensures FallThrough(CodeOfSs(ss, syms))
    decreases ss
  {
    if ss != [] {
      CodeFallsSs(ss[..|ss| - 1], syms);
      CodeFalls(ss[|ss| - 1], SymsSs(ss[..|ss| - 1], syms));
    }
  }

  function Blank(): Memory {
    Memory([], seq(REGISTERS, _ => Nil), map[], [])
  }

  /** What the code of a whole tree does. */
  function DoTree(vars: seq<string>, fmt: Format, ast: Stmt, fuel: nat): Outcome {
    Do(vars, fmt, CodeOf(ast, []), Blank(), fuel)
  }

  lemma TreeRuns(p: Program, fmt: Format, ast: Stmt, fuel: nat)
    requires CompiledFrom(p, ast)
    ensures var outcome := DoTree(p.vars, fmt, ast, fuel);
            match outcome
            case Ran(m) => Divergence.Halts(p, fmt, m.out)
            case Failed(m) => Fails(p, fmt, Divergence.Initial(), m.out)
            case Spent => Divergence.Lasts(p, fmt, Divergence.Initial(), fuel)
  {
    LaidIsItems(ast, 0, []);
    CodeFalls(ast, []);
    LaidRuns(p, fmt, CodeOf(ast, []), 0, Blank(), fuel);
    var outcome := DoTree(p.vars, fmt, ast, fuel);
    if outcome.Ran? {
      var n := |ItemsS(ast, 0, [])|;
      assert p.instrs[n] == p.instrs[n..][0];
      Divergence.HaltReached(p, fmt, Placed(n, outcome.m));
    }
  }

  lemma StopIsFinal(p: Program, fmt: Format, a: State, m: nat, n: nat)
    requires !Run(p, fmt, a, m).Next? && !Run(p, fmt, a, n).Next?
    ensures Run(p, fmt, a, m) == Run(p, fmt, a, n)
    decreases m
  {
    if Step(p, fmt, a).Next? {
      StopIsFinal(p, fmt, Step(p, fmt, a).st, m - 1, n - 1);
    }
  }

  /** The machine halts, or stops with an error, exactly when the tree's code comes to that end within
      some number of rounds, and having printed the same. */
  lemma StopsAsTheTree(p: Program, fmt: Format, ast: Stmt, out: seq<Value>)
    requires CompiledFrom(p, ast)
    ensures Divergence.Halts(p, fmt, out) <==>
            exists fuel: nat :: DoTree(p.vars, fmt, ast, fuel).Ran? && DoTree(p.vars, fmt, ast, fuel).m.out == out
    ensures Fails(p, fmt, Divergence.Initial(), out) <==>
            exists fuel: nat :: DoTree(p.vars, fmt, ast, fuel).Failed? && DoTree(p.vars, fmt, ast, fuel).m.out == out
  {
    if fuel: nat :| DoTree(p.vars, fmt, ast, fuel).Ran? && DoTree(p.vars, fmt, ast, fuel).m.out == out {
      TreeRuns(p, fmt, ast, fuel);
    }
    if fuel: nat :| DoTree(p.vars, fmt, ast, fuel).Failed? && DoTree(p.vars, fmt, ast, fuel).m.out == out {
      TreeRuns(p, fmt, ast, fuel);
    }
    if Divergence.Halts(p, fmt, out) {
      var n: nat :| Run(p, fmt, Divergence.Initial(), n).Halted? && Run(p, fmt, Divergence.Initial(), n).st.out == out;
      StopFound(p, fmt, ast, n);
    }
    if Fails(p, fmt, Divergence.Initial(), out) {
      var n: nat :| Run(p, fmt, Divergence.Initial(), n).Fault? && Run(p, fmt, Divergence.Initial(), n).st.out == out;
      StopFound(p, fmt, ast, n);
    }
  }

  /** A run that stops within `n` steps is one of the tree's within `n` rounds. */
  lemma StopFound(p: Program, fmt: Format, ast: Stmt, n: nat)
    requires CompiledFrom(p, ast) && !Run(p, fmt, Divergence.Initial(), n).Next?
    ensures var x, outcome := Run(p, fmt, Divergence.Initial(), n), DoTree(p.vars, fmt, ast, n);
            !outcome.Spent? && outcome.m.out == x.st.out && (outcome.Ran? <==> x.Halted?)
  {
    var a, outcome := Divergence.Initial(), DoTree(p.vars, fmt, ast, n);
    TreeRuns(p, fmt, ast, n);
    match outcome
    case Ran(m) =>
      var k: nat :| Run(p, fmt, a, k).Halted? && Run(p, fmt, a, k).st.out == m.out;
      StopIsFinal(p, fmt, a, n, k);
    case Failed(m) =>
      var k: nat :| Run(p, fmt, a, k).Fault? && Run(p, fmt, a, k).st.out == m.out;
      StopIsFinal(p, fmt, a, n, k);
    case Spent => Divergence.LastsRuns(p, fmt, a, n);
  }
}
