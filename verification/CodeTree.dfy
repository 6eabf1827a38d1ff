// The code of a tree with its jumps left out: what runs in a row, what is chosen, what is repeated.
module CodeTree {
  import opened Ast
  import opened Values
  import opened Bytecode
  import opened CodeShape

  datatype Code =
    | Row(items: seq<Item>)
    | Then(first: Code, second: Code)
    | Branch(condition: seq<Item>, yes: Code, no: Option<Code>)
    | Loop(test: Option<seq<Item>>, round: Code)

  function CodeOf(s: Stmt, syms: Symbols): Code
    decreases s, 1
  {
    match s
    case Let(name, value, escapes) => Row(ItemsE(value, syms) + [Store(name, !escapes)])
    case Assign(name, source) => Row(ItemsE(source, syms) + [Store(name, IsLocal(syms, name))])
    case Print(e) => Row(ItemsE(e, syms) + [Exact(PrintTop), Exact(Pop)])
    case If(c, t, None) => Branch(ItemsE(c, syms), CodeOf(t, syms), None)
    case If(c, t, Some(f)) => Branch(ItemsE(c, syms), CodeOf(t, syms), Some(CodeOf(f, SymsS(t, syms))))
    case While(c, b) => Loop(Some(ItemsE(c, syms)), CodeOf(b, syms))
    case For(init, _, _, _) => Then(CodeOfO(init, syms), LoopOf(s, SymsO(init, syms)))
    case Block(ss) => CodeOfSs(ss, syms)
    case Return(None) => Row([Push(Nil), Exact(ReturnValue)])
    case Return(Some(e)) => Row(ItemsE(e, syms) + [Exact(ReturnValue)])
    case Function(_, _, _) => Row([])
    case Bare(e) => Row(ItemsE(e, syms))
  }

  /** A `for` loop after its initialisation. */
  function LoopOf(s: Stmt, syms: Symbols): Code
    requires s.For?
    decreases s, 0
  {
    Loop(if s.test.Some? then Some(ItemsE(s.test.value, syms)) else None,
         Then(CodeOf(s.forBody, syms), CodeOfStep(s.increment, SymsS(s.forBody, syms))))
  }

  function CodeOfO(s: Option<Stmt>, syms: Symbols): Code
    decreases s
  {
    if s.Some? then CodeOf(s.value, syms) else Row([])
  }

  function CodeOfStep(s: Option<Stmt>, syms: Symbols): Code
    decreases s
  {
    if s.Some? then Then(CodeOf(s.value, syms), Row([Exact(Pop)])) else Row([])
  }

  function CodeOfSs(ss: seq<Stmt>, syms: Symbols): Code
    decreases ss
  {
    if ss == [] then Row([])
    else Then(CodeOfSs(ss[..|ss| - 1], syms), CodeOf(ss[|ss| - 1], SymsSs(ss[..|ss| - 1], syms)))
  }

  // ---- Laid out from an address on ----

  function Laid(code: Code, at: nat): seq<Item> {
    match code
    case Row(items) => items
    case Then(a, b) => var first := Laid(a, at); first + Laid(b, at + |first|)
    case Branch(test, yes, None) =>
      var first := Laid(yes, at + |test| + 1);
      test + [Exact(JumpIfFalse(at + |test| + 1 + |first|))] + first
    case Branch(test, yes, Some(no)) =>
      var first := Laid(yes, at + |test| + 1);
      var second := Laid(no, at + |test| + 1 + |first| + 1);
      test + [Exact(JumpIfFalse(at + |test| + 1 + |first| + 1))] + first
      + [Exact(Jump(at + |test| + 1 + |first| + 1 + |second|))] + second
    case Loop(test, round) =>
      var start := at + |LaidTest(test, 0)|;
      var body := Laid(round, start);
      LaidTest(test, start + |body| + 1) + body + [Exact(Jump(at))]
  }

  function LaidTest(test: Option<seq<Item>>, exit: nat): seq<Item> {
    if test.Some? then test.value + [Exact(JumpIfFalse(exit))] else []
  }

  /** That is the code which the compiler emits. */
  lemma {:induction false} LaidIsItems(s: Stmt, at: nat, syms: Symbols)
    ensures Laid(CodeOf(s, syms), at) == ItemsS(s, at, syms)
    decreases s, 2
  {
    match s
    case If(_, _, _) => LaidIfIsItems(s, at, syms);
    case While(_, _) => LaidWhileIsItems(s, at, syms);
    case For(_, _, _, _) => LaidForIsItems(s, at, syms);
    case Block(ss) => LaidSsIsItems(ss, at, syms);
    case _ =>
  }

  lemma {:induction false} LaidIfIsItems(s: Stmt, at: nat, syms: Symbols)
    requires s.If?
    ensures Laid(CodeOf(s, syms), at) == ItemsIf(s, at, syms)
    decreases s, 0
  {
    var test := ItemsE(s.condition, syms);
    var thenAt := at + |test| + 1;
    var yes := CodeOf(s.thenBranch, syms);
    LaidIsItems(s.thenBranch, thenAt, syms);
    if s.elseBranch.Some? {
      var elseAt := thenAt + |Laid(yes, thenAt)| + 1;
      LaidIsItems(s.elseBranch.value, elseAt, SymsS(s.thenBranch, syms));
      assert CodeOf(s, syms) == Branch(test, yes, Some(CodeOf(s.elseBranch.value, SymsS(s.thenBranch, syms))));
    } else {
      assert CodeOf(s, syms) == Branch(test, yes, None);
    }
  }

  lemma {:induction false} LaidWhileIsItems(s: Stmt, at: nat, syms: Symbols)
    requires s.While?
    ensures Laid(CodeOf(s, syms), at) == ItemsS(s, at, syms)
    decreases s, 0
  {
    var test := ItemsE(s.guard, syms);
    LaidIsItems(s.loopBody, at + |test| + 1, syms);
    assert CodeOf(s, syms) == Loop(Some(test), CodeOf(s.loopBody, syms));
  }

  lemma {:induction false} LaidForIsItems(s: Stmt, at: nat, syms: Symbols)
    requires s.For?
    ensures Laid(CodeOf(s, syms), at) == ItemsS(s, at, syms)
    decreases s, 1
  {
    LaidOIsItems(s.init, at, syms);
    LaidLoopIsItems(s, at + |ItemsO(s.init, at, syms)|, SymsO(s.init, syms));
  }

  lemma {:induction false} LaidOIsItems(s: Option<Stmt>, at: nat, syms: Symbols)
    ensures Laid(CodeOfO(s, syms), at) == ItemsO(s, at, syms)
    ensures Laid(CodeOfStep(s, syms), at) == ItemsStep(s, at, syms)
    decreases s
  {
    if s.Some? {
      LaidIsItems(s.value, at, syms);
    }
  }

  lemma {:induction false} LaidLoopIsItems(s: Stmt, at: nat, syms: Symbols)
    requires s.For?
    ensures Laid(LoopOf(s, syms), at) == ItemsLoop(s, at, syms)
    decreases s, 0
  {
    var roundAt := at + |ItemsTest(s.test, 0, syms)|;
    LaidIsItems(s.forBody, roundAt, syms);
    LaidOIsItems(s.increment, roundAt + |ItemsS(s.forBody, roundAt, syms)|, SymsS(s.forBody, syms));
  }

  lemma {:induction false} LaidSsIsItems(ss: seq<Stmt>, at: nat, syms: Symbols)
    ensures Laid(CodeOfSs(ss, syms), at) == ItemsSs(ss, at, syms)
    decreases ss
  {
    if ss != [] {
      LaidSsIsItems(ss[..|ss| - 1], at, syms);
      LaidIsItems(ss[|ss| - 1], at + |ItemsSs(ss[..|ss| - 1], at, syms)|, SymsSs(ss[..|ss| - 1], syms));
    }
  }
}
