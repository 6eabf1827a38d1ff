// The machine runs for exactly as long as the interpreter does.
module Divergence {
  import opened Ast
  import opened Values
  import opened Bytecode
  import opened CodeShape
  import opened Interpreter
  import opened Preservation
  import opened Programs

  /** The machine takes at least `k` steps from `a` without a fault or a halt. */
  ghost predicate Lasts(p: Program, fmt: Format, a: State, k: nat) {
    forall x :: Leads(p, fmt, a, k, x) ==> x.Next?
  }

  lemma LastsRuns(p: Program, fmt: Format, a: State, k: nat)
    ensures Lasts(p, fmt, a, k) <==> Run(p, fmt, a, k).Next?
  {
    assert Leads(p, fmt, a, k, Run(p, fmt, a, k));
  }

  lemma {:induction false} RunsShorter(p: Program, fmt: Format, a: State, m: nat, k: nat)
    requires Run(p, fmt, a, m).Next? && k <= m
    ensures Run(p, fmt, a, k).Next?
    decreases k
  {
    if k > 0 {
      RunsShorter(p, fmt, Step(p, fmt, a).st, m - 1, k - 1);
    }
  }

  lemma LastsFrom(p: Program, fmt: Format, a: State, b: State, k: nat)
    requires Reaches(p, fmt, a, b) && Lasts(p, fmt, b, k)
    ensures Lasts(p, fmt, a, k)
  {
    var n: nat :| Run(p, fmt, a, n) == Next(b);
    LastsRuns(p, fmt, b, k);
    RunAppend(p, fmt, a, n, b, k);
    RunsShorter(p, fmt, a, n + k, k);
  }

  /** A statement whose interpretation is still going on keeps the machine busy. */
  lemma {:induction false} StmtLasts(p: Program, fmt: Format, regs: set<string>, s: Stmt, syms: Symbols,
                                     a: State, store: Store, fuel: nat)
    requires Fit(p, regs) && Represents(p, regs, a, store) && a.stack == []
    requires Holds(p, a.pc, ItemsS(s, a.pc, syms)) && SettledS(s, syms, regs)
    requires ExecS(fmt, s, store, fuel).OutOfFuel?
    ensures Lasts(p, fmt, a, fuel)
    decreases fuel, s, 4
  {
    match s
    case If(_, _, None) => IfLasts(p, fmt, regs, s, syms, a, store, fuel);
    case If(_, _, Some(_)) => IfElseLasts(p, fmt, regs, s, syms, a, store, fuel);
    case While(_, _) => WhileLasts(p, fmt, regs, s, syms, a.pc, a, store, fuel);
    case For(_, _, _, _) => ForLasts(p, fmt, regs, s, syms, a, store, fuel);
    case Block(ss) => BlockLasts(p, fmt, regs, ss, syms, a, store, fuel);
  }

  lemma {:induction false} IfLasts(p: Program, fmt: Format, regs: set<string>, s: Stmt, syms: Symbols,
                                   a: State, store: Store, fuel: nat)
    requires s.If? && s.elseBranch.None? && Fit(p, regs) && Represents(p, regs, a, store) && a.stack == []
    requires Holds(p, a.pc, ItemsIf(s, a.pc, syms)) && SettledS(s, syms, regs)
    requires ExecS(fmt, s, store, fuel).OutOfFuel?
    ensures Lasts(p, fmt, a, fuel)
    decreases fuel, s, 3
  {
    var thenAt := a.pc + |ItemsE(s.condition, syms)| + 1;
    var thenItems := ItemsS(s.thenBranch, thenAt, syms);
    var thenEnd := thenAt + |thenItems|;
    HoldsSplit(p, a.pc, ItemsE(s.condition, syms) + [Exact(JumpIfFalse(thenEnd))], thenItems);
    var b := GuardPreserved(p, fmt, regs, s.condition, syms, thenEnd, a, store);
    StmtLasts(p, fmt, regs, s.thenBranch, syms, b, store, fuel);
    LastsFrom(p, fmt, a, b, fuel);
  }

  lemma {:induction false} IfElseLasts(p: Program, fmt: Format, regs: set<string>, s: Stmt, syms: Symbols,
                                       a: State, store: Store, fuel: nat)
    requires s.If? && s.elseBranch.Some? && Fit(p, regs) && Represents(p, regs, a, store) && a.stack == []
    requires Holds(p, a.pc, ItemsIf(s, a.pc, syms)) && SettledS(s, syms, regs)
    requires ExecS(fmt, s, store, fuel).OutOfFuel?
    ensures Lasts(p, fmt, a, fuel)
    decreases fuel, s, 3
  {
    var test := ItemsE(s.condition, syms);
    var thenAt := a.pc + |test| + 1;
    var thenItems := ItemsS(s.thenBranch, thenAt, syms);
    var elseAt := thenAt + |thenItems| + 1;
    var elseItems := ItemsS(s.elseBranch.value, elseAt, SymsS(s.thenBranch, syms));
    SplitIfElse(p, a.pc, test + [Exact(JumpIfFalse(elseAt))], thenItems, Exact(Jump(elseAt + |elseItems|)), elseItems);
    var b := GuardPreserved(p, fmt, regs, s.condition, syms, elseAt, a, store);
    if Truthy(Evaluate(fmt, s.condition, store).value) {
      StmtLasts(p, fmt, regs, s.thenBranch, syms, b, store, fuel);
    } else {
      StmtLasts(p, fmt, regs, s.elseBranch.value, SymsS(s.thenBranch, syms), b, store, fuel);
    }
    LastsFrom(p, fmt, a, b, fuel);
  }

  /** A loop's back jump is a step of its own, so a further round buys one more step. */
  lemma {:induction false} JumpLasts(p: Program, fmt: Format, regs: set<string>, a: State, d: State, goal: nat,
                                     store: Store, k: nat)
    returns (e: State)
    requires Reaches(p, fmt, a, d) && Represents(p, regs, d, store) && d.stack == []
    requires Holds(p, d.pc, [Exact(Jump(goal))])
    ensures e.pc == goal && e.stack == [] && Represents(p, regs, e, store)
    ensures Lasts(p, fmt, e, k) ==> Lasts(p, fmt, a, k + 1)
  {
    HoldsOne(p, d.pc, Exact(Jump(goal)));
    e := Step(p, fmt, d).st;
    if Lasts(p, fmt, e, k) {
      LastsRuns(p, fmt, e, k);
      LastsRuns(p, fmt, d, k + 1);
      LastsFrom(p, fmt, a, d, k + 1);
    }
  }

  lemma {:induction false} WhileLasts(p: Program, fmt: Format, regs: set<string>, s: Stmt, syms: Symbols,
                                      at: nat, a: State, store: Store, fuel: nat)
    requires s.While? && Fit(p, regs) && Represents(p, regs, a, store) && a.stack == [] && a.pc == at
    requires Holds(p, at, ItemsS(s, at, syms)) && SettledS(s, syms, regs)
    requires ExecS(fmt, s, store, fuel).OutOfFuel?
    ensures Lasts(p, fmt, a, fuel)
    decreases fuel, s, 3
  {
    if fuel > 0 {
      AgreementIsDefined(fmt, s.guard, store);
      var round := ExecS(fmt, s.loopBody, store, fuel);
      if round.Done? {
        var d := WhileOnce(p, fmt, regs, s, syms, at, a, store, fuel);
        var e := JumpLasts(p, fmt, regs, a, d, at, round.store, fuel - 1);
        WhileLasts(p, fmt, regs, s, syms, at, e, round.store, fuel - 1);
      } else {
        WhileRoundLasts(p, fmt, regs, s, syms, a, store, fuel);
      }
    }
  }

  lemma {:induction false} WhileRoundLasts(p: Program, fmt: Format, regs: set<string>, s: Stmt, syms: Symbols,
                                           a: State, store: Store, fuel: nat)
    requires s.While? && Fit(p, regs) && Represents(p, regs, a, store) && a.stack == []
    requires Holds(p, a.pc, ItemsS(s, a.pc, syms)) && SettledS(s, syms, regs)
    requires Agrees(fmt, s.guard, store) && Evaluate(fmt, s.guard, store).Some?
    requires Truthy(Evaluate(fmt, s.guard, store).value) && ExecS(fmt, s.loopBody, store, fuel).OutOfFuel?
    ensures Lasts(p, fmt, a, fuel)
    decreases fuel, s, 2
  {
    var bodyAt := a.pc + |ItemsE(s.guard, syms)| + 1;
    var body := ItemsS(s.loopBody, bodyAt, syms);
    var end := bodyAt + |body| + 1;
    SplitLoop(p, a.pc, ItemsE(s.guard, syms) + [Exact(JumpIfFalse(end))], body, Exact(Jump(a.pc)));
    var b := GuardPreserved(p, fmt, regs, s.guard, syms, end, a, store);
    StmtLasts(p, fmt, regs, s.loopBody, syms, b, store, fuel);
    LastsFrom(p, fmt, a, b, fuel);
  }

  lemma {:induction false} ForLasts(p: Program, fmt: Format, regs: set<string>, s: Stmt, syms: Symbols,
                                    a: State, store: Store, fuel: nat)
    requires s.For? && Fit(p, regs) && Represents(p, regs, a, store) && a.stack == []
    requires Holds(p, a.pc, ItemsS(s, a.pc, syms)) && SettledS(s, syms, regs)
    requires ExecS(fmt, s, store, fuel).OutOfFuel?
    ensures Lasts(p, fmt, a, fuel)
    decreases fuel, s, 3
  {
    var start := ItemsO(s.init, a.pc, syms);
    var loopAt, loopSyms := a.pc + |start|, SymsO(s.init, syms);
    HoldsSplit(p, a.pc, start, ItemsLoop(s, loopAt, loopSyms));
    var first := ExecO(fmt, s.init, store, fuel);
    if first.Done? {
      var c := a;
      if s.init.Some? {
        c := StmtPreserved(p, fmt, regs, s.init.value, syms, a, store, fuel);
      } else {
        ReachesSelf(p, fmt, a);
      }
      LoopLasts(p, fmt, regs, s, loopSyms, loopAt, c, first.store, fuel);
      LastsFrom(p, fmt, a, c, fuel);
    } else {
      StmtLasts(p, fmt, regs, s.init.value, syms, a, store, fuel);
    }
  }

  lemma {:induction false} LoopLasts(p: Program, fmt: Format, regs: set<string>, s: Stmt, syms: Symbols,
                                     at: nat, a: State, store: Store, fuel: nat)
    requires s.For? && Fit(p, regs) && Represents(p, regs, a, store) && a.stack == [] && a.pc == at
    requires Holds(p, at, ItemsLoop(s, at, syms)) && SettledLoop(s, syms, regs)
    requires ExecLoop(fmt, s, store, fuel).OutOfFuel?
    ensures Lasts(p, fmt, a, fuel)
    decreases fuel, s, 2
  {
    if fuel > 0 {
      var round := ExecRound(fmt, s, store, fuel);
      if round.Done? {
        var d := LoopOnce(p, fmt, regs, s, syms, at, a, store, fuel);
        var e := JumpLasts(p, fmt, regs, a, d, at, round.store, fuel - 1);
        LoopLasts(p, fmt, regs, s, syms, at, e, round.store, fuel - 1);
      } else {
        var b := LoopTest(p, fmt, regs, s, syms, at, a, store);
        RoundLasts(p, fmt, regs, s, syms, b, store, fuel);
        LastsFrom(p, fmt, a, b, fuel);
      }
    }
  }

  lemma IncrementEnds(fmt: Format, s: Option<Stmt>, store: Store, fuel: nat)
    ensures !ExecStep(fmt, s, store, fuel).OutOfFuel?
  {
  }

  lemma {:induction false} RoundLasts(p: Program, fmt: Format, regs: set<string>, s: Stmt, syms: Symbols,
                                      a: State, store: Store, fuel: nat)
    requires s.For? && Fit(p, regs) && Represents(p, regs, a, store) && a.stack == []
    requires Holds(p, a.pc, ItemsRound(s, a.pc, syms)) && SettledLoop(s, syms, regs)
    requires ExecRound(fmt, s, store, fuel).OutOfFuel?
    ensures Lasts(p, fmt, a, fuel)
    decreases fuel, s, 1
  {
    var body := ItemsS(s.forBody, a.pc, syms);
    HoldsSplit(p, a.pc, body, ItemsStep(s.increment, a.pc + |body|, SymsS(s.forBody, syms)));
    var first := ExecS(fmt, s.forBody, store, fuel);
    if first.Done? {
      IncrementEnds(fmt, s.increment, first.store, fuel);
    } else {
      StmtLasts(p, fmt, regs, s.forBody, syms, a, store, fuel);
    }
  }

  lemma {:induction false} BlockLasts(p: Program, fmt: Format, regs: set<string>, ss: seq<Stmt>, syms: Symbols,
                                      a: State, store: Store, fuel: nat)
    requires Fit(p, regs) && Represents(p, regs, a, store) && a.stack == []
    requires Holds(p, a.pc, ItemsSs(ss, a.pc, syms)) && SettledSs(ss, syms, regs)
    requires ExecSs(fmt, ss, store, fuel).OutOfFuel?
    ensures Lasts(p, fmt, a, fuel)
    decreases fuel, ss
  {
    var front, last := ss[..|ss| - 1], ss[|ss| - 1];
    var frontItems, lastSyms := ItemsSs(front, a.pc, syms), SymsSs(front, syms);
    HoldsSplit(p, a.pc, frontItems, ItemsS(last, a.pc + |frontItems|, lastSyms));
    var first := ExecSs(fmt, front, store, fuel);
    if first.Done? {
      var c := BlockPreserved(p, fmt, regs, front, syms, a, store, fuel);
      StmtLasts(p, fmt, regs, last, lastSyms, c, first.store, fuel);
      LastsFrom(p, fmt, a, c, fuel);
    } else {
      BlockLasts(p, fmt, regs, front, syms, a, store, fuel);
    }
  }

  // ---- Whole programs ----

  function Initial(): State {
    State(0, [], seq(REGISTERS, _ => Nil), map[], [])
  }

  /** A compiled program whose tables fit the machine and whose mentions are settled. */
  ghost predicate Compiled(p: Program, ast: Stmt, regs: set<string>) {
    CompiledFrom(p, ast) && Fit(p, regs) && SettledS(ast, [], regs)
  }

  /** The machine halts having printed `out`. */
  ghost predicate Halts(p: Program, fmt: Format, out: seq<Value>) {
    exists n: nat :: Run(p, fmt, Initial(), n).Halted? && Run(p, fmt, Initial(), n).st.out == out
  }

  lemma MeaningPreserved(p: Program, fmt: Format, regs: set<string>, ast: Stmt, fuel: nat)
    requires Compiled(p, ast, regs) && ExecS(fmt, ast, map[], fuel).Done?
    ensures Halts(p, fmt, ExecS(fmt, ast, map[], fuel).out)
  {
    var result := ExecS(fmt, ast, map[], fuel);
    InitialRepresents(p, regs);
    var b := StmtPreserved(p, fmt, regs, ast, [], Initial(), map[], fuel);
    assert [] + result.out == result.out;
    assert p.instrs[b.pc] == p.instrs[b.pc..][0];
    HaltReached(p, fmt, b);
  }

  lemma InitialRepresents(p: Program, regs: set<string>)
    ensures Represents(p, regs, Initial(), map[])
  {
  }

  lemma HaltReached(p: Program, fmt: Format, b: State)
    requires Reaches(p, fmt, Initial(), b) && b.pc < |p.instrs| && p.instrs[b.pc] == Halt
    ensures Halts(p, fmt, b.out)
  {
    var n: nat :| Run(p, fmt, Initial(), n) == Next(b);
    assert Run(p, fmt, b, 1) == Halted(b);
    RunAppend(p, fmt, Initial(), n, b, 1);
  }

  lemma {:induction false} HaltIsFinal(p: Program, fmt: Format, a: State, m: nat, n: nat)
    requires Run(p, fmt, a, m).Halted?
    ensures m <= n ==> Run(p, fmt, a, n) == Run(p, fmt, a, m)
    decreases m
  {
    if m <= n && Step(p, fmt, a).Next? {
      HaltIsFinal(p, fmt, Step(p, fmt, a).st, m - 1, n - 1);
    }
  }

  /** For a program that stays inside the shared fragment, the machine halts with some output
      exactly when the interpreter finishes with it: each engine stops if and only if the other
      does, and they print the same. */
  lemma HaltsExactlyWhenInterpreterFinishes(p: Program, fmt: Format, regs: set<string>, ast: Stmt, out: seq<Value>)
    requires Compiled(p, ast, regs)
    requires forall fuel: nat :: !ExecS(fmt, ast, map[], fuel).Outside?
    ensures Halts(p, fmt, out) <==>
            exists fuel: nat :: ExecS(fmt, ast, map[], fuel).Done? && ExecS(fmt, ast, map[], fuel).out == out
  {
    var a := Initial();
    InitialRepresents(p, regs);
    if fuel: nat :| ExecS(fmt, ast, map[], fuel).Done? && ExecS(fmt, ast, map[], fuel).out == out {
      MeaningPreserved(p, fmt, regs, ast, fuel);
    }
    if Halts(p, fmt, out) {
      var n: nat :| Run(p, fmt, a, n).Halted? && Run(p, fmt, a, n).st.out == out;
      if ExecS(fmt, ast, map[], n).OutOfFuel? {
        StmtLasts(p, fmt, regs, ast, [], a, map[], n);
        LastsRuns(p, fmt, a, n);
      } else {
        MeaningPreserved(p, fmt, regs, ast, n);
        var result := ExecS(fmt, ast, map[], n).out;
        var m: nat :| Run(p, fmt, a, m).Halted? && Run(p, fmt, a, m).st.out == result;
        if m <= n {
          HaltIsFinal(p, fmt, a, m, n);
        } else {
          HaltIsFinal(p, fmt, a, n, m);
        }
      }
    }
  }
}
