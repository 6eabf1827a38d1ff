// Compiled code is a closed piece of program: every operand in it is valid and every jump in
// it lands inside, so a worker's slice run leaves only at the end.
module LayoutFacts {
  import opened Ast
  import opened Values
  import opened Bytecode
  import opened CodeShape

  /** No jump of `items` leaves `[lo, hi]`, and none of them stops the machine. */
  ghost predicate Inside(items: seq<Item>, lo: nat, hi: nat) {
    forall k :: 0 <= k < |items| ==> TargetInside(items[k], lo, hi)
  }

  predicate TargetInside(item: Item, lo: nat, hi: nat) {
    item.Exact? ==>
      match item.i
      case Jump(goal) => lo <= goal <= hi
      case JumpIfFalse(goal) => lo <= goal <= hi
      case Operate(_) => true
      case Negate(_) => true
      case ReturnValue => true
      case PrintTop => true
      case Pop => true
      case _ => false
  }

  lemma Widen(items: seq<Item>, lo: nat, hi: nat, from: nat, to: nat)
    requires Inside(items, lo, hi) && from <= lo && hi <= to
    ensures Inside(items, from, to)
  {
    forall k | 0 <= k < |items|
      ensures TargetInside(items[k], from, to)
    {
      assert TargetInside(items[k], lo, hi);
    }
  }

  /** The parts of a loop, each closed over its own stretch, and the jump back. */
  lemma InsideParts(test: seq<Item>, round: seq<Item>, at: nat, end: nat)
    requires end == at + |test| + |round| + 1
    requires Inside(test, at, end) && Inside(round, at + |test|, at + |test| + |round|)
    ensures Inside(test + round + [Exact(Jump(at))], at, end)
  {
    Widen(round, at + |test|, at + |test| + |round|, at, end);
  }

  lemma InsideSequence(a: seq<Item>, b: seq<Item>, at: nat)
    requires Inside(a, at, at + |a|) && Inside(b, at + |a|, at + |a| + |b|)
    ensures Inside(a + b, at, at + |a + b|)
  {
    Widen(a, at, at + |a|, at, at + |a + b|);
    Widen(b, at + |a|, at + |a| + |b|, at, at + |a + b|);
  }

  lemma {:induction false} InsideE(e: Expr, syms: Symbols, lo: nat)
    ensures Inside(ItemsE(e, syms), lo, lo)
    decreases e
  {
    match e
    case Unary(_, operand) => InsideE(operand, syms, lo);
    case Binary(l, _, r) =>
      InsideE(l, syms, lo);
      InsideE(r, syms, lo);
    case Call(_, args) => InsideEs(args, syms, lo);
    case _ =>
  }

  lemma {:induction false} InsideEs(es: seq<Expr>, syms: Symbols, lo: nat)
    ensures Inside(ItemsEs(es, syms), lo, lo)
    decreases es
  {
    if es != [] {
      InsideEs(es[..|es| - 1], syms, lo);
      InsideE(es[|es| - 1], syms, lo);
    }
  }

  /** Every jump emitted for a statement lands inside the statement's own range or at its end. */
  lemma {:induction false} InsideS(s: Stmt, at: nat, syms: Symbols)
    ensures Inside(ItemsS(s, at, syms), at, at + |ItemsS(s, at, syms)|)
    decreases s, 3
  {
    match s
    case Let(_, value, _) => InsideE(value, syms, at);
    case Assign(_, source) => InsideE(source, syms, at);
    case Print(e) => InsideE(e, syms, at);
    case If(_, _, _) => InsideIf(s, at, syms);
    case While(_, _) => InsideWhile(s, at, syms);
    case For(_, _, _, _) => InsideFor(s, at, syms);
    case Block(ss) => InsideSs(ss, at, syms);
    case Return(result) => if result.Some? { InsideE(result.value, syms, at); }
    case Function(_, _, _) =>
    case Bare(e) => InsideE(e, syms, at);
  }

  lemma {:induction false} InsideWhile(s: Stmt, at: nat, syms: Symbols)
    requires s.While?
    ensures Inside(ItemsS(s, at, syms), at, at + |ItemsS(s, at, syms)|)
    decreases s, 0
  {
    var bodyAt := at + |ItemsE(s.guard, syms)| + 1;
    var body := ItemsS(s.loopBody, bodyAt, syms);
    var end := at + |ItemsS(s, at, syms)|;
    InsideE(s.guard, syms, at);
    Widen(ItemsE(s.guard, syms), at, at, at, end);
    InsideS(s.loopBody, bodyAt, syms);
    Widen(body, bodyAt, bodyAt + |body|, at, end);
  }

  lemma {:induction false} InsideIf(s: Stmt, at: nat, syms: Symbols)
    requires s.If?
    ensures Inside(ItemsIf(s, at, syms), at, at + |ItemsIf(s, at, syms)|)
    decreases s, 0
  {
    var end := at + |ItemsIf(s, at, syms)|;
    var thenAt := at + |ItemsE(s.condition, syms)| + 1;
    var thenEnd := thenAt + |ItemsS(s.thenBranch, thenAt, syms)|;
    InsideE(s.condition, syms, at);
    Widen(ItemsE(s.condition, syms), at, at, at, end);
    InsideS(s.thenBranch, thenAt, syms);
    Widen(ItemsS(s.thenBranch, thenAt, syms), thenAt, thenEnd, at, end);
    if s.elseBranch.Some? {
      InsideS(s.elseBranch.value, thenEnd + 1, SymsS(s.thenBranch, syms));
      Widen(ItemsS(s.elseBranch.value, thenEnd + 1, SymsS(s.thenBranch, syms)), thenEnd + 1, end, at, end);
    }
  }

  lemma {:induction false} InsideFor(s: Stmt, at: nat, syms: Symbols)
    requires s.For?
    ensures Inside(ItemsS(s, at, syms), at, at + |ItemsS(s, at, syms)|)
    decreases s, 2
  {
    var start := ItemsO(s.init, at, syms);
    var loop := ItemsLoop(s, at + |start|, SymsO(s.init, syms));
    if s.init.Some? {
      InsideS(s.init.value, at, syms);
    }
    InsideLoop(s, at + |start|, SymsO(s.init, syms));
    InsideSequence(start, loop, at);
  }

  lemma {:induction false} InsideLoop(s: Stmt, at: nat, syms: Symbols)
    requires s.For?
    ensures Inside(ItemsLoop(s, at, syms), at, at + |ItemsLoop(s, at, syms)|)
    decreases s, 1
  {
    var roundAt := at + |ItemsTest(s.test, 0, syms)|;
    var round := ItemsRound(s, roundAt, syms);
    var end := roundAt + |round| + 1;
    InsideTest(s.test, end, syms, at, end);
    InsideRound(s, roundAt, syms);
    InsideParts(ItemsTest(s.test, end, syms), round, at, end);
  }

  lemma {:induction false} InsideRound(s: Stmt, at: nat, syms: Symbols)
    requires s.For?
    ensures var round := ItemsRound(s, at, syms); Inside(round, at, at + |round|)
    decreases s, 0
  {
    var body := ItemsS(s.forBody, at, syms);
    InsideS(s.forBody, at, syms);
    InsideStep(s.increment, at + |body|, SymsS(s.forBody, syms));
    InsideSequence(body, ItemsStep(s.increment, at + |body|, SymsS(s.forBody, syms)), at);
  }

  lemma {:induction false} InsideStep(increment: Option<Stmt>, at: nat, syms: Symbols)
    ensures var step := ItemsStep(increment, at, syms); Inside(step, at, at + |step|)
    decreases increment
  {
    if increment.Some? {
      InsideS(increment.value, at, syms);
      InsideSequence(ItemsS(increment.value, at, syms), [Exact(Pop)], at);
    }
  }

  lemma InsideTest(test: Option<Expr>, exit: nat, syms: Symbols, lo: nat, hi: nat)
    requires lo <= exit <= hi
    ensures Inside(ItemsTest(test, exit, syms), lo, hi)
  {
    if test.Some? {
      InsideE(test.value, syms, lo);
      Widen(ItemsE(test.value, syms), lo, lo, lo, hi);
    }
  }

  lemma {:induction false} InsideSs(ss: seq<Stmt>, at: nat, syms: Symbols)
    ensures Inside(ItemsSs(ss, at, syms), at, at + |ItemsSs(ss, at, syms)|)
    decreases ss
  {
    if ss != [] {
      var front := ss[..|ss| - 1];
      InsideSs(front, at, syms);
      InsideS(ss[|ss| - 1], at + |ItemsSs(front, at, syms)|, SymsSs(front, syms));
    }
  }

  // ---- Running one slice ----

  /** Indices valid in the final tables. */
  predicate ValidOperand(p: Program, i: Instr) {
    match i
    case LoadConst(k) => k < |p.consts|
    case LoadVar(v) => v < |p.vars|
    case StoreVar(v) => v < |p.vars|
    case CallFunction(v) => v < |p.vars|
    case Release(v) => v < |p.vars|
    case StoreLocal(v) => v < |p.vars|
    case LoadLocal(v) => v < |p.vars|
    case _ => true
  }

  lemma StepInside(p: Program, fmt: Format, st: State, at: nat, items: seq<Item>)
    requires Holds(p, at, items) && Inside(items, at, at + |items|)
    requires at <= st.pc < at + |items|
    ensures ValidOperand(p, p.instrs[st.pc]) && !Step(p, fmt, st).Halted?
    ensures Step(p, fmt, st).Next? ==> at <= Step(p, fmt, st).st.pc <= at + |items|
    ensures Step(p, fmt, st).Fault? ==> Step(p, fmt, st).st.pc == st.pc
  {
    var item := items[st.pc - at];
    assert FitsAt(p, at, items, st.pc - at) && TargetInside(item, at, at + |items|);
  }

  /** One turn of a worker's loop over a task's slice: a step that leaves the program counter
      where it was, as a fault does, is followed by a forced advance. */
  function SliceTurn(p: Program, fmt: Format, st: State): State {
    var st' := Step(p, fmt, st).st;
    if st'.pc == st.pc then st'.(pc := st.pc + 1) else st'
  }

  /** The loop itself, cut off after `n` turns. */
  function SliceRun(p: Program, fmt: Format, st: State, end: nat, n: nat): State
    decreases n
  {
    if n == 0 || st.pc >= end then st else SliceRun(p, fmt, SliceTurn(p, fmt, st), end, n - 1)
  }

  /** However long it goes on, a slice run that starts inside the code of a statement never sees
      a program counter outside it, and every operand it meets is valid: it can leave only at
      the end. */
  lemma {:induction false} SliceLeavesOnlyAtItsEnd(p: Program, fmt: Format, s: Stmt, at: nat, syms: Symbols,
                                                   st: State, n: nat)
    requires Holds(p, at, ItemsS(s, at, syms))
    requires at <= st.pc <= at + |ItemsS(s, at, syms)|
    ensures var end := at + |ItemsS(s, at, syms)|;
            var last := SliceRun(p, fmt, st, end, n);
            at <= last.pc <= end && (last.pc < end ==> ValidOperand(p, p.instrs[last.pc]))
    decreases n
  {
    var items := ItemsS(s, at, syms);
    InsideS(s, at, syms);
    if st.pc < at + |items| {
      StepInside(p, fmt, st, at, items);
      if n > 0 {
        SliceLeavesOnlyAtItsEnd(p, fmt, s, at, syms, SliceTurn(p, fmt, st), n - 1);
      }
    }
  }
}
