// Compilation preserves meaning: the machine prints what the interpreter prints.
module Preservation {
  import opened Ast
  import opened Values
  import opened Bytecode
  import opened CodeShape
  import opened Interpreter

  // ---- What is asked of a program ----

  /** Every mention of a name compiles to the store that `regs` assigns to it: a register for the
      names in `regs`, the environment for the others.  No use is marked as the last one. */
  predicate SettledE(e: Expr, syms: Symbols, regs: set<string>) {
    match e
    case Ident(name, _, lastUse) => !lastUse && (IsLocal(syms, name) <==> name in regs)
    case Unary(_, operand) => SettledE(operand, syms, regs)
    case Binary(l, _, r) => SettledE(l, syms, regs) && SettledE(r, syms, regs)
    case Call(_, args) => false
    case _ => true
  }

  predicate SettledS(s: Stmt, syms: Symbols, regs: set<string>)
    decreases s, 1
  {
    match s
    case Let(name, value, escapes) => SettledE(value, syms, regs) && (!escapes <==> name in regs)
    case Assign(name, source) => SettledE(source, syms, regs) && (IsLocal(syms, name) <==> name in regs)
    case Print(e) => SettledE(e, syms, regs)
    case If(c, t, f) => SettledE(c, syms, regs) && SettledS(t, syms, regs) && SettledO(f, SymsS(t, syms), regs)
    case While(c, b) => SettledE(c, syms, regs) && SettledS(b, syms, regs)
    case For(init, _, _, _) => SettledO(init, syms, regs) && SettledLoop(s, SymsO(init, syms), regs)
    case Block(ss) => SettledSs(ss, syms, regs)
    case Bare(e) => SettledE(e, syms, regs)
    case _ => false
  }

  predicate SettledLoop(s: Stmt, syms: Symbols, regs: set<string>)
    requires s.For?
    decreases s, 0
  {
    && (s.test.Some? ==> SettledE(s.test.value, syms, regs))
    && SettledS(s.forBody, syms, regs)
    && SettledO(s.increment, SymsS(s.forBody, syms), regs)
  }

  predicate SettledO(s: Option<Stmt>, syms: Symbols, regs: set<string>)
    decreases s
  {
    s.Some? ==> SettledS(s.value, syms, regs)
  }

  predicate SettledSs(ss: seq<Stmt>, syms: Symbols, regs: set<string>)
    decreases ss
  {
    ss == [] ||
    (SettledSs(ss[..|ss| - 1], syms, regs) && SettledS(ss[|ss| - 1], SymsSs(ss[..|ss| - 1], syms), regs))
  }

  /** The tables fit the machine: registers have low indices, and one frame can hold every name. */
  ghost predicate Fit(p: Program, regs: set<string>) {
    && Distinct(p.vars) && |p.vars| <= FRAME_SLOTS
    && (forall v :: REGISTERS <= v < |p.vars| ==> p.vars[v] !in regs)
  }

  // ---- The relation between the two states ----

  /** Variable `v` has its value in the store where it is kept. */
  ghost predicate Kept(p: Program, regs: set<string>, locals: Registers, env: Store, store: Store, v: nat)
    requires v < |p.vars|
  {
    var name := p.vars[v];
    if name in regs then v < REGISTERS ==> locals[v] == Lookup(store, name)
    else Lookup(env, name) == Lookup(store, name)
  }

  ghost predicate Listed(p: Program, m: Store) {
    forall n :: n in m ==> n in Range(p.vars)
  }

  /** Registers and environment together hold exactly the flat store. */
  ghost predicate Flattened(p: Program, regs: set<string>, locals: Registers, env: Store, store: Store) {
    && Listed(p, env) && Listed(p, store)
    && forall v :: 0 <= v < |p.vars| ==> Kept(p, regs, locals, env, store, v)
  }

  ghost predicate Represents(p: Program, regs: set<string>, st: State, store: Store) {
    Flattened(p, regs, st.locals, st.env, store)
  }

  function Range(vars: seq<string>): set<string> {
    set v | v in vars
  }

  lemma {:induction false} RangeSize(vars: seq<string>)
    ensures |Range(vars)| <= |vars|
  {
    if vars != [] {
      RangeSize(vars[1..]);
      assert Range(vars) == Range(vars[1..]) + {vars[0]};
    }
  }

  /** A map over the table's names has a free slot for a name it does not hold yet. */
  lemma RoomFor(p: Program, m: map<string, Value>, name: string, v: Value)
    requires |p.vars| <= FRAME_SLOTS && name in p.vars && Listed(p, m)
    ensures Bind(m, name, v) == m[name := v]
  {
    if name !in m {
      var names := Range(p.vars);
      RangeSize(p.vars);
      assert name in names - m.Keys;
      assert m.Keys <= names;
      assert |names| == |m.Keys| + |names - m.Keys| by {
        assert names == m.Keys + (names - m.Keys);
      }
    }
  }

  lemma StoreKept(p: Program, regs: set<string>, a: State, store: Store, name: string, v: nat, x: Value, b: State)
    requires Fit(p, regs) && Represents(p, regs, a, store)
    requires Names(p, v, name)
    requires if name in regs then v < REGISTERS && b.locals == a.locals[v := x] && b.env == a.env
             else b.locals == a.locals && b.env == Bind(a.env, name, x)
    ensures Represents(p, regs, b, Bind(store, name, x))
  {
    RoomFor(p, store, name, x);
    RoomFor(p, a.env, name, x);
    forall w | 0 <= w < |p.vars|
      ensures Kept(p, regs, b.locals, b.env, Bind(store, name, x), w)
    {
      assert Kept(p, regs, a.locals, a.env, store, w);
      if p.vars[w] == name {
        SamePlace(p.vars, v, w);
      }
    }
  }

  // ---- Expressions ----

  lemma Stepped(p: Program, fmt: Format, a: State, b: State, c: State)
    requires Reaches(p, fmt, a, b) && Step(p, fmt, b) == Next(c)
    ensures Reaches(p, fmt, a, c)
  {
    ReachesStep(p, fmt, b);
    ReachesTransitive(p, fmt, a, b, c);
  }

  /** The state after the code of `e`: the value on top of the stack, nothing else changed. */
  function Evaluated(fmt: Format, e: Expr, store: Store, st: State, end: nat): State
    requires Agrees(fmt, e, store)
  {
    AgreementIsDefined(fmt, e, store);
    st.(pc := end, stack := st.stack + [Evaluate(fmt, e, store).value])
  }

  lemma {:induction false} ExprPreserved(p: Program, fmt: Format, regs: set<string>, e: Expr, syms: Symbols,
                                         st: State, store: Store)
    requires Fit(p, regs) && Represents(p, regs, st, store)
    requires Holds(p, st.pc, ItemsE(e, syms)) && SettledE(e, syms, regs) && Agrees(fmt, e, store)
    ensures Reaches(p, fmt, st, Evaluated(fmt, e, store, st, st.pc + |ItemsE(e, syms)|))
    decreases e, 1
  {
    match e
    case Unary(_, _) => UnaryPreserved(p, fmt, regs, e, syms, st, store);
    case Binary(_, _, _) => BinaryPreserved(p, fmt, regs, e, syms, st, store);
    case Number(_) => LeafPreserved(p, fmt, regs, e, syms, st, store);
    case Text(_) => LeafPreserved(p, fmt, regs, e, syms, st, store);
    case Boolean(_) => LeafPreserved(p, fmt, regs, e, syms, st, store);
    case Ident(_, _, _) => LeafPreserved(p, fmt, regs, e, syms, st, store);
  }

  lemma LeafPreserved(p: Program, fmt: Format, regs: set<string>, e: Expr, syms: Symbols, st: State, store: Store)
    requires e.Number? || e.Text? || e.Boolean? || e.Ident?
    requires Fit(p, regs) && Represents(p, regs, st, store)
    requires Holds(p, st.pc, ItemsE(e, syms)) && SettledE(e, syms, regs)
    ensures Reaches(p, fmt, st, Evaluated(fmt, e, store, st, st.pc + |ItemsE(e, syms)|))
  {
    assert ItemsE(e, syms) == [ItemsE(e, syms)[0]];
    HoldsOne(p, st.pc, ItemsE(e, syms)[0]);
    if e.Ident? {
      assert Kept(p, regs, st.locals, st.env, store, p.instrs[st.pc].v);
    }
    assert Step(p, fmt, st) == Next(Evaluated(fmt, e, store, st, st.pc + 1));
    ReachesStep(p, fmt, st);
  }

  lemma {:induction false} UnaryPreserved(p: Program, fmt: Format, regs: set<string>, e: Expr, syms: Symbols,
                                          st: State, store: Store)
    requires e.Unary? && Fit(p, regs) && Represents(p, regs, st, store)
    requires Holds(p, st.pc, ItemsE(e, syms)) && SettledE(e, syms, regs) && Agrees(fmt, e, store)
    ensures Reaches(p, fmt, st, Evaluated(fmt, e, store, st, st.pc + |ItemsE(e, syms)|))
    decreases e, 0
  {
    var items := ItemsE(e.operand, syms);
    HoldsSplit(p, st.pc, items, [Exact(Negate(e.unaryOp))]);
    ExprPreserved(p, fmt, regs, e.operand, syms, st, store);
    var b := Evaluated(fmt, e.operand, store, st, st.pc + |items|);
    HoldsOne(p, b.pc, Exact(Negate(e.unaryOp)));
    AgreementIsDefined(fmt, e, store);
    assert Rest(b.stack) == st.stack;
    Stepped(p, fmt, st, b, Evaluated(fmt, e, store, st, b.pc + 1));
  }

  lemma {:induction false} BinaryPreserved(p: Program, fmt: Format, regs: set<string>, e: Expr, syms: Symbols,
                                           st: State, store: Store)
    requires e.Binary? && Fit(p, regs) && Represents(p, regs, st, store)
    requires Holds(p, st.pc, ItemsE(e, syms)) && SettledE(e, syms, regs) && Agrees(fmt, e, store)
    ensures Reaches(p, fmt, st, Evaluated(fmt, e, store, st, st.pc + |ItemsE(e, syms)|))
    decreases e, 0
  {
    var left, right := ItemsE(e.left, syms), ItemsE(e.right, syms);
    HoldsSplit(p, st.pc, left + right, [Exact(Operate(e.op))]);
    HoldsSplit(p, st.pc, left, right);
    ExprPreserved(p, fmt, regs, e.left, syms, st, store);
    var b := Evaluated(fmt, e.left, store, st, st.pc + |left|);
    ExprPreserved(p, fmt, regs, e.right, syms, b, store);
    var c := Evaluated(fmt, e.right, store, b, b.pc + |right|);
    ReachesTransitive(p, fmt, st, b, c);
    HoldsOne(p, c.pc, Exact(Operate(e.op)));
    assert Rest(c.stack) == b.stack && Rest(b.stack) == st.stack;
    var l, r := Evaluate(fmt, e.left, store).value, Evaluate(fmt, e.right, store).value;
    EnginesAgreeExactlyOnAgreeable(fmt, e.op, l, r);
    Stepped(p, fmt, st, c, Evaluated(fmt, e, store, st, c.pc + 1));
  }

  // ---- Statements ----

  /** `b` is where the machine stands once it has printed `out` and arrived at `end`, between
      statements, with its variables in step with `store`. */
  ghost predicate Arrives(p: Program, fmt: Format, regs: set<string>, a: State, b: State, end: nat,
                          out: seq<Value>, store: Store) {
    && Reaches(p, fmt, a, b)
    && b.pc == end && b.stack == [] && b.out == a.out + out
    && Represents(p, regs, b, store)
  }

  lemma ArrivesTwice(p: Program, fmt: Format, regs: set<string>, a: State, b: State, c: State, mid: nat, end: nat,
                     first: seq<Value>, second: seq<Value>, middle: Store, last: Store)
    requires Arrives(p, fmt, regs, a, b, mid, first, middle) && Arrives(p, fmt, regs, b, c, end, second, last)
    ensures Arrives(p, fmt, regs, a, c, end, first + second, last)
  {
    ReachesTransitive(p, fmt, a, b, c);
  }

  /** A run of the interpreter to completion is matched by a run of the machine over the
      statement's code. */
  lemma {:induction false} StmtPreserved(p: Program, fmt: Format, regs: set<string>, s: Stmt, syms: Symbols,
                                         a: State, store: Store, fuel: nat) returns (b: State)
    requires Fit(p, regs) && Represents(p, regs, a, store) && a.stack == []
    requires Holds(p, a.pc, ItemsS(s, a.pc, syms)) && SettledS(s, syms, regs)
    requires ExecS(fmt, s, store, fuel).Done?
    ensures var result := ExecS(fmt, s, store, fuel);
            Arrives(p, fmt, regs, a, b, a.pc + |ItemsS(s, a.pc, syms)|, result.out, result.store)
    decreases fuel, s, 4
  {
    match s
    case Let(name, value, escapes) =>
      b := BindPreserved(p, fmt, regs, name, value, syms, !escapes, a, store);
    case Assign(name, source) =>
      b := BindPreserved(p, fmt, regs, name, source, syms, IsLocal(syms, name), a, store);
    case Print(e) => b := PrintPreserved(p, fmt, regs, e, syms, a, store);
    case If(_, _, None) => b := IfPreserved(p, fmt, regs, s, syms, a, store, fuel);
    case If(_, _, Some(_)) => b := IfElsePreserved(p, fmt, regs, s, syms, a, store, fuel);
    case While(_, _) => b := WhilePreserved(p, fmt, regs, s, syms, a.pc, a, store, fuel);
    case For(_, _, _, _) => b := ForPreserved(p, fmt, regs, s, syms, a, store, fuel);
    case Block(ss) => b := BlockPreserved(p, fmt, regs, ss, syms, a, store, fuel);
  }

  lemma {:induction false} BindPreserved(p: Program, fmt: Format, regs: set<string>, name: string, e: Expr,
                                         syms: Symbols, isLocal: bool, a: State, store: Store) returns (b: State)
    requires Fit(p, regs) && Represents(p, regs, a, store) && a.stack == []
    requires Holds(p, a.pc, ItemsE(e, syms) + [Store(name, isLocal)])
    requires SettledE(e, syms, regs) && (isLocal <==> name in regs)
    requires ExecBind(fmt, name, e, store).Done?
    ensures Arrives(p, fmt, regs, a, b, a.pc + |ItemsE(e, syms)| + 1, [], ExecBind(fmt, name, e, store).store)
  {
    var items := ItemsE(e, syms);
    HoldsSplit(p, a.pc, items, [Store(name, isLocal)]);
    ExprPreserved(p, fmt, regs, e, syms, a, store);
    var c := Evaluated(fmt, e, store, a, a.pc + |items|);
    HoldsOne(p, c.pc, Store(name, isLocal));
    AgreementIsDefined(fmt, e, store);
    b := Step(p, fmt, c).st;
    assert Rest(c.stack) == [];
    Stepped(p, fmt, a, c, b);
    StoreKept(p, regs, a, store, name, p.instrs[c.pc].v, Evaluate(fmt, e, store).value, b);
  }

  lemma {:induction false} PrintPreserved(p: Program, fmt: Format, regs: set<string>, e: Expr, syms: Symbols,
                                          a: State, store: Store) returns (b: State)
    requires Fit(p, regs) && Represents(p, regs, a, store) && a.stack == []
    requires Holds(p, a.pc, ItemsE(e, syms) + [Exact(PrintTop), Exact(Pop)])
    requires SettledE(e, syms, regs) && Agrees(fmt, e, store)
    ensures Evaluate(fmt, e, store).Some?
    ensures Arrives(p, fmt, regs, a, b, a.pc + |ItemsE(e, syms)| + 2, [Evaluate(fmt, e, store).value], store)
  {
    var items := ItemsE(e, syms);
    HoldsSplit(p, a.pc, items, [Exact(PrintTop), Exact(Pop)]);
    ExprPreserved(p, fmt, regs, e, syms, a, store);
    var c := Evaluated(fmt, e, store, a, a.pc + |items|);
    AgreementIsDefined(fmt, e, store);
    assert [Exact(PrintTop), Exact(Pop)] == [Exact(PrintTop)] + [Exact(Pop)];
    HoldsSplit(p, c.pc, [Exact(PrintTop)], [Exact(Pop)]);
    HoldsOne(p, c.pc, Exact(PrintTop));
    HoldsOne(p, c.pc + 1, Exact(Pop));
    var d := Step(p, fmt, c).st;
    Stepped(p, fmt, a, c, d);
    b := Step(p, fmt, d).st;
    Stepped(p, fmt, a, d, b);
    assert Rest(d.stack) == [];
  }

  /** A condition and the jump after it, over `end` when the condition fails. */
  lemma {:induction false} GuardPreserved(p: Program, fmt: Format, regs: set<string>, e: Expr, syms: Symbols,
                                          goal: nat, a: State, store: Store) returns (b: State)
    requires Fit(p, regs) && Represents(p, regs, a, store) && a.stack == []
    requires Holds(p, a.pc, ItemsE(e, syms) + [Exact(JumpIfFalse(goal))])
    requires SettledE(e, syms, regs) && Agrees(fmt, e, store)
    ensures Evaluate(fmt, e, store).Some?
    ensures var holds := Truthy(Evaluate(fmt, e, store).value);
            Arrives(p, fmt, regs, a, b, if holds then a.pc + |ItemsE(e, syms)| + 1 else goal, [], store)
  {
    var items := ItemsE(e, syms);
    HoldsSplit(p, a.pc, items, [Exact(JumpIfFalse(goal))]);
    ExprPreserved(p, fmt, regs, e, syms, a, store);
    var c := Evaluated(fmt, e, store, a, a.pc + |items|);
    AgreementIsDefined(fmt, e, store);
    HoldsOne(p, c.pc, Exact(JumpIfFalse(goal)));
    b := Step(p, fmt, c).st;
    Stepped(p, fmt, a, c, b);
    assert Rest(c.stack) == [];
  }

  lemma JumpPreserved(p: Program, fmt: Format, regs: set<string>, a: State, goal: nat, store: Store)
    returns (b: State)
    requires Represents(p, regs, a, store) && a.stack == [] && Holds(p, a.pc, [Exact(Jump(goal))])
    ensures Arrives(p, fmt, regs, a, b, goal, [], store)
  {
    HoldsOne(p, a.pc, Exact(Jump(goal)));
    b := Step(p, fmt, a).st;
    ReachesStep(p, fmt, a);
  }

  lemma {:induction false} IfPreserved(p: Program, fmt: Format, regs: set<string>, s: Stmt, syms: Symbols,
                                       a: State, store: Store, fuel: nat) returns (b: State)
    requires s.If? && s.elseBranch.None? && Fit(p, regs) && Represents(p, regs, a, store) && a.stack == []
    requires Holds(p, a.pc, ItemsIf(s, a.pc, syms)) && SettledS(s, syms, regs)
    requires ExecS(fmt, s, store, fuel).Done?
    ensures var result := ExecS(fmt, s, store, fuel);
            Arrives(p, fmt, regs, a, b, a.pc + |ItemsIf(s, a.pc, syms)|, result.out, result.store)
    decreases fuel, s, 2
  {
    var result := ExecS(fmt, s, store, fuel);
    var test := ItemsE(s.condition, syms);
    var thenAt := a.pc + |test| + 1;
    var thenItems := ItemsS(s.thenBranch, thenAt, syms);
    var thenEnd := thenAt + |thenItems|;
    HoldsSplit(p, a.pc, test + [Exact(JumpIfFalse(thenEnd))], thenItems);
    b := GuardPreserved(p, fmt, regs, s.condition, syms, thenEnd, a, store);
    if Truthy(Evaluate(fmt, s.condition, store).value) {
      var c := b;
      b := StmtPreserved(p, fmt, regs, s.thenBranch, syms, c, store, fuel);
      ArrivesTwice(p, fmt, regs, a, c, b, thenAt, thenEnd, [], result.out, store, result.store);
    }
  }

  lemma {:induction false} IfElsePreserved(p: Program, fmt: Format, regs: set<string>, s: Stmt, syms: Symbols,
                                           a: State, store: Store, fuel: nat) returns (b: State)
    requires s.If? && s.elseBranch.Some? && Fit(p, regs) && Represents(p, regs, a, store) && a.stack == []
    requires Holds(p, a.pc, ItemsIf(s, a.pc, syms)) && SettledS(s, syms, regs)
    requires ExecS(fmt, s, store, fuel).Done?
    ensures var result := ExecS(fmt, s, store, fuel);
            Arrives(p, fmt, regs, a, b, a.pc + |ItemsIf(s, a.pc, syms)|, result.out, result.store)
    decreases fuel, s, 2
  {
    var result := ExecS(fmt, s, store, fuel);
    var test := ItemsE(s.condition, syms);
    var thenAt := a.pc + |test| + 1;
    var thenItems := ItemsS(s.thenBranch, thenAt, syms);
    var elseAt := thenAt + |thenItems| + 1;
    var elseItems := ItemsS(s.elseBranch.value, elseAt, SymsS(s.thenBranch, syms));
    var end := elseAt + |elseItems|;
    SplitIfElse(p, a.pc, test + [Exact(JumpIfFalse(elseAt))], thenItems, Exact(Jump(end)), elseItems);
    var c := GuardPreserved(p, fmt, regs, s.condition, syms, elseAt, a, store);
    if Truthy(Evaluate(fmt, s.condition, store).value) {
      var d := StmtPreserved(p, fmt, regs, s.thenBranch, syms, c, store, fuel);
      ArrivesTwice(p, fmt, regs, a, c, d, thenAt, elseAt - 1, [], result.out, store, result.store);
      b := JumpPreserved(p, fmt, regs, d, end, result.store);
      ArrivesTwice(p, fmt, regs, a, d, b, elseAt - 1, end, result.out, [], result.store, result.store);
    } else {
      b := StmtPreserved(p, fmt, regs, s.elseBranch.value, SymsS(s.thenBranch, syms), c, store, fuel);
      ArrivesTwice(p, fmt, regs, a, c, b, elseAt, end, [], result.out, store, result.store);
    }
  }

  lemma SplitIfElse(p: Program, at: nat, guard: seq<Item>, first: seq<Item>, jump: Item, second: seq<Item>)
    requires Holds(p, at, guard + first + [jump] + second)
    ensures Holds(p, at, guard) && Holds(p, at + |guard|, first)
    ensures Holds(p, at + |guard| + |first|, [jump]) && Holds(p, at + |guard| + |first| + 1, second)
  {
    HoldsSplit(p, at, guard + first + [jump], second);
    SplitLoop(p, at, guard, first, jump);
  }

  lemma SplitLoop(p: Program, at: nat, guard: seq<Item>, round: seq<Item>, jump: Item)
    requires Holds(p, at, guard + round + [jump])
    ensures Holds(p, at, guard) && Holds(p, at + |guard|, round) && Holds(p, at + |guard| + |round|, [jump])
  {
    HoldsSplit(p, at, guard + round, [jump]);
    HoldsSplit(p, at, guard, round);
  }

  /** From the end of a round at `d` back to the start of the loop. */
  lemma RoundTrip(p: Program, fmt: Format, regs: set<string>, a: State, d: State, out: seq<Value>, next: Store)
    returns (e: State)
    requires Arrives(p, fmt, regs, a, d, d.pc, out, next) && Holds(p, d.pc, [Exact(Jump(a.pc))])
    ensures Arrives(p, fmt, regs, a, e, a.pc, out, next)
  {
    e := JumpPreserved(p, fmt, regs, d, a.pc, next);
    ArrivesTwice(p, fmt, regs, a, d, e, d.pc, a.pc, out, [], next, next);
  }

  lemma {:induction false} WhilePreserved(p: Program, fmt: Format, regs: set<string>, s: Stmt, syms: Symbols,
                                          at: nat, a: State, store: Store, fuel: nat) returns (b: State)
    requires s.While? && Fit(p, regs) && Represents(p, regs, a, store) && a.stack == [] && a.pc == at
    requires Holds(p, at, ItemsS(s, at, syms)) && SettledS(s, syms, regs)
    requires ExecS(fmt, s, store, fuel).Done?
    ensures var result := ExecS(fmt, s, store, fuel);
            Arrives(p, fmt, regs, a, b, at + |ItemsS(s, at, syms)|, result.out, result.store)
    decreases fuel, s, 3
  {
    AgreementIsDefined(fmt, s.guard, store);
    if Truthy(Evaluate(fmt, s.guard, store).value) {
      var round := ExecS(fmt, s.loopBody, store, fuel);
      var rest := ExecS(fmt, s, round.store, fuel - 1);
      var d := WhileOnce(p, fmt, regs, s, syms, at, a, store, fuel);
      var e := RoundTrip(p, fmt, regs, a, d, round.out, round.store);
      b := WhilePreserved(p, fmt, regs, s, syms, at, e, round.store, fuel - 1);
      ArrivesTwice(p, fmt, regs, a, e, b, at, at + |ItemsS(s, at, syms)|, round.out, rest.out, round.store, rest.store);
    } else {
      var bodyAt := at + |ItemsE(s.guard, syms)| + 1;
      var body := ItemsS(s.loopBody, bodyAt, syms);
      var end := bodyAt + |body| + 1;
      SplitLoop(p, at, ItemsE(s.guard, syms) + [Exact(JumpIfFalse(end))], body, Exact(Jump(at)));
      b := GuardPreserved(p, fmt, regs, s.guard, syms, end, a, store);
    }
  }

  /** One successful test and one round, up to the jump back. */
  lemma {:induction false} WhileOnce(p: Program, fmt: Format, regs: set<string>, s: Stmt, syms: Symbols,
                                     at: nat, a: State, store: Store, fuel: nat) returns (d: State)
    requires s.While? && Fit(p, regs) && Represents(p, regs, a, store) && a.stack == [] && a.pc == at
    requires Holds(p, at, ItemsS(s, at, syms)) && SettledS(s, syms, regs)
    requires Agrees(fmt, s.guard, store) && Evaluate(fmt, s.guard, store).Some?
    requires Truthy(Evaluate(fmt, s.guard, store).value) && ExecS(fmt, s.loopBody, store, fuel).Done?
    ensures var round := ExecS(fmt, s.loopBody, store, fuel);
            Arrives(p, fmt, regs, a, d, d.pc, round.out, round.store) && Holds(p, d.pc, [Exact(Jump(at))])
    decreases fuel, s, 2
  {
    var test := ItemsE(s.guard, syms);
    var bodyAt := at + |test| + 1;
    var body := ItemsS(s.loopBody, bodyAt, syms);
    var end := bodyAt + |body| + 1;
    SplitLoop(p, at, test + [Exact(JumpIfFalse(end))], body, Exact(Jump(at)));
    var b := GuardPreserved(p, fmt, regs, s.guard, syms, end, a, store);
    var round := ExecS(fmt, s.loopBody, store, fuel);
    d := StmtPreserved(p, fmt, regs, s.loopBody, syms, b, store, fuel);
    ArrivesTwice(p, fmt, regs, a, b, d, bodyAt, end - 1, [], round.out, store, round.store);
  }

  lemma {:induction false} ForPreserved(p: Program, fmt: Format, regs: set<string>, s: Stmt, syms: Symbols,
                                        a: State, store: Store, fuel: nat) returns (b: State)
    requires s.For? && Fit(p, regs) && Represents(p, regs, a, store) && a.stack == []
    requires Holds(p, a.pc, ItemsS(s, a.pc, syms)) && SettledS(s, syms, regs)
    requires ExecS(fmt, s, store, fuel).Done?
    ensures var result := ExecS(fmt, s, store, fuel);
            Arrives(p, fmt, regs, a, b, a.pc + |ItemsS(s, a.pc, syms)|, result.out, result.store)
    decreases fuel, s, 3
  {
    var start := ItemsO(s.init, a.pc, syms);
    var loopAt, loopSyms := a.pc + |start|, SymsO(s.init, syms);
    var loop := ItemsLoop(s, loopAt, loopSyms);
    HoldsSplit(p, a.pc, start, loop);
    var first := ExecO(fmt, s.init, store, fuel);
    var c := a;
    if s.init.Some? {
      c := StmtPreserved(p, fmt, regs, s.init.value, syms, a, store, fuel);
    } else {
      ReachesSelf(p, fmt, a);
    }
    var rest := ExecLoop(fmt, s, first.store, fuel);
    b := LoopPreserved(p, fmt, regs, s, loopSyms, loopAt, c, first.store, fuel);
    ArrivesTwice(p, fmt, regs, a, c, b, loopAt, loopAt + |loop|, first.out, rest.out, first.store, rest.store);
  }

  lemma {:induction false} LoopPreserved(p: Program, fmt: Format, regs: set<string>, s: Stmt, syms: Symbols,
                                         at: nat, a: State, store: Store, fuel: nat) returns (b: State)
    requires s.For? && Fit(p, regs) && Represents(p, regs, a, store) && a.stack == [] && a.pc == at
    requires Holds(p, at, ItemsLoop(s, at, syms)) && SettledLoop(s, syms, regs)
    requires ExecLoop(fmt, s, store, fuel).Done?
    ensures var result := ExecLoop(fmt, s, store, fuel);
            Arrives(p, fmt, regs, a, b, at + |ItemsLoop(s, at, syms)|, result.out, result.store)
    decreases fuel, s, 2
  {
    if Continues(fmt, s.test, store) {
      var round := ExecRound(fmt, s, store, fuel);
      var rest := ExecLoop(fmt, s, round.store, fuel - 1);
      var d := LoopOnce(p, fmt, regs, s, syms, at, a, store, fuel);
      var e := RoundTrip(p, fmt, regs, a, d, round.out, round.store);
      b := LoopPreserved(p, fmt, regs, s, syms, at, e, round.store, fuel - 1);
      ArrivesTwice(p, fmt, regs, a, e, b, at, at + |ItemsLoop(s, at, syms)|, round.out, rest.out, round.store,
                   rest.store);
    } else {
      b := LoopTest(p, fmt, regs, s, syms, at, a, store);
    }
  }

  lemma {:induction false} LoopOnce(p: Program, fmt: Format, regs: set<string>, s: Stmt, syms: Symbols,
                                    at: nat, a: State, store: Store, fuel: nat) returns (d: State)
    requires s.For? && Fit(p, regs) && Represents(p, regs, a, store) && a.stack == [] && a.pc == at
    requires Holds(p, at, ItemsLoop(s, at, syms)) && SettledLoop(s, syms, regs)
    requires s.test.Some? ==> Agrees(fmt, s.test.value, store)
    requires Continues(fmt, s.test, store) && ExecRound(fmt, s, store, fuel).Done?
    ensures var round := ExecRound(fmt, s, store, fuel);
            Arrives(p, fmt, regs, a, d, d.pc, round.out, round.store) && Holds(p, d.pc, [Exact(Jump(at))])
    decreases fuel, s, 1
  {
    var b := LoopTest(p, fmt, regs, s, syms, at, a, store);
    var round := ExecRound(fmt, s, store, fuel);
    d := RoundPreserved(p, fmt, regs, s, syms, b, store, fuel);
    ArrivesTwice(p, fmt, regs, a, b, d, b.pc, d.pc, [], round.out, store, round.store);
  }

  lemma SplitFor(p: Program, s: Stmt, at: nat, syms: Symbols)
    requires s.For? && Holds(p, at, ItemsLoop(s, at, syms))
    ensures var roundAt := at + |ItemsTest(s.test, 0, syms)|;
            var round := ItemsRound(s, roundAt, syms);
            && Holds(p, at, ItemsTest(s.test, roundAt + |round| + 1, syms))
            && Holds(p, roundAt, round) && Holds(p, roundAt + |round|, [Exact(Jump(at))])
  {
    var roundAt := at + |ItemsTest(s.test, 0, syms)|;
    var round := ItemsRound(s, roundAt, syms);
    var test := ItemsTest(s.test, roundAt + |round| + 1, syms);
    assert ItemsLoop(s, at, syms) == test + round + [Exact(Jump(at))];
    assert at + |test| == roundAt;
    SplitLoop(p, at, test, round, Exact(Jump(at)));
  }

  /** The test of a loop: on into the round if it holds, past the loop if it does not. */
  lemma LoopTest(p: Program, fmt: Format, regs: set<string>, s: Stmt, syms: Symbols, at: nat, a: State, store: Store)
    returns (b: State)
    requires s.For? && Fit(p, regs) && Represents(p, regs, a, store) && a.stack == [] && a.pc == at
    requires Holds(p, at, ItemsLoop(s, at, syms)) && SettledLoop(s, syms, regs)
    requires s.test.Some? ==> Agrees(fmt, s.test.value, store)
    ensures var roundAt := at + |ItemsTest(s.test, 0, syms)|;
            var exit := roundAt + |ItemsRound(s, roundAt, syms)| + 1;
            Arrives(p, fmt, regs, a, b, if Continues(fmt, s.test, store) then roundAt else exit, [], store)
    ensures var round := ItemsRound(s, b.pc, syms);
            Continues(fmt, s.test, store) ==> Holds(p, b.pc, round) && Holds(p, b.pc + |round|, [Exact(Jump(at))])
  {
    var roundAt := at + |ItemsTest(s.test, 0, syms)|;
    SplitFor(p, s, at, syms);
    var exit := roundAt + |ItemsRound(s, roundAt, syms)| + 1;
    TestLength(s.test, exit, syms);
    b := TestPreserved(p, fmt, regs, s.test, syms, roundAt, exit, a, store);
  }

  lemma TestLength(test: Option<Expr>, exit: nat, syms: Symbols)
    ensures |ItemsTest(test, exit, syms)| == |ItemsTest(test, 0, syms)|
  {
  }

  lemma TestPreserved(p: Program, fmt: Format, regs: set<string>, test: Option<Expr>, syms: Symbols, next: nat,
                      exit: nat, a: State, store: Store) returns (b: State)
    requires Fit(p, regs) && Represents(p, regs, a, store) && a.stack == []
    requires Holds(p, a.pc, ItemsTest(test, exit, syms)) && next == a.pc + |ItemsTest(test, exit, syms)|
    requires test.Some? ==> SettledE(test.value, syms, regs) && Agrees(fmt, test.value, store)
    ensures Arrives(p, fmt, regs, a, b, if Continues(fmt, test, store) then next else exit, [], store)
  {
    if test.Some? {
      b := GuardPreserved(p, fmt, regs, test.value, syms, exit, a, store);
    } else {
      b := a;
      ReachesSelf(p, fmt, a);
    }
  }

  lemma {:induction false} RoundPreserved(p: Program, fmt: Format, regs: set<string>, s: Stmt, syms: Symbols,
                                          a: State, store: Store, fuel: nat) returns (b: State)
    requires s.For? && Fit(p, regs) && Represents(p, regs, a, store) && a.stack == []
    requires Holds(p, a.pc, ItemsRound(s, a.pc, syms)) && SettledLoop(s, syms, regs)
    requires ExecRound(fmt, s, store, fuel).Done?
    ensures var result := ExecRound(fmt, s, store, fuel);
            Arrives(p, fmt, regs, a, b, a.pc + |ItemsRound(s, a.pc, syms)|, result.out, result.store)
    decreases fuel, s, 0
  {
    var body := ItemsS(s.forBody, a.pc, syms);
    var stepAt, stepSyms := a.pc + |body|, SymsS(s.forBody, syms);
    var step := ItemsStep(s.increment, stepAt, stepSyms);
    HoldsSplit(p, a.pc, body, step);
    var first := ExecS(fmt, s.forBody, store, fuel);
    var c := StmtPreserved(p, fmt, regs, s.forBody, syms, a, store, fuel);
    var rest := ExecStep(fmt, s.increment, first.store, fuel);
    b := StepPreserved(p, fmt, regs, s.increment, stepSyms, c, first.store, fuel);
    ArrivesTwice(p, fmt, regs, a, c, b, stepAt, stepAt + |step|, first.out, rest.out, first.store, rest.store);
  }

  lemma {:induction false} StepPreserved(p: Program, fmt: Format, regs: set<string>, s: Option<Stmt>, syms: Symbols,
                                         a: State, store: Store, fuel: nat) returns (b: State)
    requires Fit(p, regs) && Represents(p, regs, a, store) && a.stack == []
    requires Holds(p, a.pc, ItemsStep(s, a.pc, syms)) && SettledO(s, syms, regs)
    requires ExecStep(fmt, s, store, fuel).Done?
    ensures var result := ExecStep(fmt, s, store, fuel);
            Arrives(p, fmt, regs, a, b, a.pc + |ItemsStep(s, a.pc, syms)|, result.out, result.store)
    decreases fuel, s
  {
    if s.None? {
      b := a;
      ReachesSelf(p, fmt, a);
      return;
    }
    var result := ExecStep(fmt, s, store, fuel);
    var items := ItemsS(s.value, a.pc, syms);
    HoldsSplit(p, a.pc, items, [Exact(Pop)]);
    var c: State;
    if s.value.Bare? {
      ExprPreserved(p, fmt, regs, s.value.expression, syms, a, store);
      c := Evaluated(fmt, s.value.expression, store, a, a.pc + |items|);
    } else {
      c := StmtPreserved(p, fmt, regs, s.value, syms, a, store, fuel);
    }
    HoldsOne(p, c.pc, Exact(Pop));
    b := Step(p, fmt, c).st;
    Stepped(p, fmt, a, c, b);
    assert Rest(c.stack) == [];
  }

  lemma {:induction false} BlockPreserved(p: Program, fmt: Format, regs: set<string>, ss: seq<Stmt>, syms: Symbols,
                                          a: State, store: Store, fuel: nat) returns (b: State)
    requires Fit(p, regs) && Represents(p, regs, a, store) && a.stack == []
    requires Holds(p, a.pc, ItemsSs(ss, a.pc, syms)) && SettledSs(ss, syms, regs)
    requires ExecSs(fmt, ss, store, fuel).Done?
    ensures var result := ExecSs(fmt, ss, store, fuel);
            Arrives(p, fmt, regs, a, b, a.pc + |ItemsSs(ss, a.pc, syms)|, result.out, result.store)
    decreases fuel, ss
  {
    if ss == [] {
      b := a;
      ReachesSelf(p, fmt, a);
      return;
    }
    var front, last := ss[..|ss| - 1], ss[|ss| - 1];
    var frontItems, lastSyms := ItemsSs(front, a.pc, syms), SymsSs(front, syms);
    var mid := a.pc + |frontItems|;
    var lastItems := ItemsS(last, mid, lastSyms);
    HoldsSplit(p, a.pc, frontItems, lastItems);
    var first := ExecSs(fmt, front, store, fuel);
    var c := BlockPreserved(p, fmt, regs, front, syms, a, store, fuel);
    var rest := ExecS(fmt, last, first.store, fuel);
    b := StmtPreserved(p, fmt, regs, last, lastSyms, c, first.store, fuel);
    ArrivesTwice(p, fmt, regs, a, c, b, mid, mid + |lastItems|, first.out, rest.out, first.store, rest.store);
  }
}
