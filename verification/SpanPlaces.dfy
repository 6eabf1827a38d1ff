// Whose code stands in the ranges that compilation records.
module SpanPlaces {
  import opened Ast
  import opened Bytecode
  import opened CodeShape
  import opened Spans

  /** A node of the tree and the symbol table it is compiled under. */
  datatype Node = ExprNode(e: Expr, syms: Symbols) | StmtNode(s: Stmt, syms: Symbols)

  // ---- The nodes in the order compilation finishes them: parts before the whole ----

  function NodesE(e: Expr, syms: Symbols): seq<Node> {
    match e
    case Absent => []
    case Unary(_, operand) => NodesE(operand, syms) + [ExprNode(e, syms)]
    case Binary(l, _, r) => NodesE(l, syms) + NodesE(r, syms) + [ExprNode(e, syms)]
    case Call(_, args) => NodesEs(args, syms) + [ExprNode(e, syms)]
    case _ => [ExprNode(e, syms)]
  }

  function NodesEs(es: seq<Expr>, syms: Symbols): seq<Node> {
    if es == [] then [] else NodesEs(es[..|es| - 1], syms) + NodesE(es[|es| - 1], syms)
  }

  function NodesS(s: Stmt, syms: Symbols): seq<Node>
    decreases s, 1
  {
    NodesBelow(s, syms) + [StmtNode(s, syms)]
  }

  function NodesBelow(s: Stmt, syms: Symbols): seq<Node>
    decreases s, 0
  {
    match s
    case Let(_, value, _) => NodesE(value, syms)
    case Assign(_, source) => NodesE(source, syms)
    case Print(e) => NodesE(e, syms)
    case If(c, t, f) => NodesE(c, syms) + NodesS(t, syms) + NodesO(f, SymsS(t, syms))
    case While(c, b) => NodesE(c, syms) + NodesS(b, syms)
    case For(init, test, increment, body) =>
      var inside := SymsO(init, syms);
      NodesO(init, syms)
      + ((if test.Some? then NodesE(test.value, inside) else [])
         + (NodesS(body, inside) + NodesO(increment, SymsS(body, inside))))
    case Block(ss) => NodesSs(ss, syms)
    case Return(Some(e)) => NodesE(e, syms)
    case Bare(e) => NodesE(e, syms)
    case _ => []
  }

  function NodesO(s: Option<Stmt>, syms: Symbols): seq<Node>
    decreases s
  {
    if s.Some? then NodesS(s.value, syms) else []
  }

  function NodesSs(ss: seq<Stmt>, syms: Symbols): seq<Node>
    decreases ss
  {
    if ss == [] then []
    else NodesSs(ss[..|ss| - 1], syms) + NodesS(ss[|ss| - 1], SymsSs(ss[..|ss| - 1], syms))
  }

  // ---- Each has its own range ----

  function Code(node: Node, at: nat): seq<Item> {
    match node
    case ExprNode(e, syms) => ItemsE(e, syms)
    case StmtNode(s, syms) => ItemsS(s, at, syms)
  }

  /** The range begins and ends where the code of the node does. */
  ghost predicate Occupies(p: Program, node: Node, span: Span) {
    && span.end == span.start + |Code(node, span.start)|
    && Holds(p, span.start, Code(node, span.start))
  }

  ghost predicate AllOccupy(p: Program, nodes: seq<Node>, spans: seq<Span>) {
    |spans| == |nodes| && forall i :: 0 <= i < |spans| ==> Occupies(p, nodes[i], spans[i])
  }

  lemma OccupyJoin(p: Program, a: seq<Node>, x: seq<Span>, b: seq<Node>, y: seq<Span>)
    requires AllOccupy(p, a, x) && AllOccupy(p, b, y)
    ensures AllOccupy(p, a + b, x + y)
  {
  }

  lemma OccupyClose(p: Program, a: seq<Node>, x: seq<Span>, node: Node, span: Span)
    requires AllOccupy(p, a, x) && Occupies(p, node, span)
    ensures AllOccupy(p, a + [node], x + [span])
  {
  }

  lemma SplitThree(p: Program, at: nat, a: seq<Item>, b: seq<Item>, c: seq<Item>)
    requires Holds(p, at, a + b + c)
    ensures Holds(p, at, a) && Holds(p, at + |a|, b) && Holds(p, at + |a| + |b|, c)
  {
    HoldsSplit(p, at, a + b, c);
    HoldsSplit(p, at, a, b);
  }

  lemma {:induction false} OccupyE(p: Program, e: Expr, at: nat, syms: Symbols)
    requires Holds(p, at, ItemsE(e, syms))
    ensures AllOccupy(p, NodesE(e, syms), SpansE(e, at, syms))
    decreases e
  {
    var here := Span(at, at + |ItemsE(e, syms)|);
    assert !e.Absent? ==> Occupies(p, ExprNode(e, syms), here);
    match e
    case Unary(op, operand) =>
      HoldsSplit(p, at, ItemsE(operand, syms), [Exact(Negate(op))]);
      OccupyE(p, operand, at, syms);
      OccupyClose(p, NodesE(operand, syms), SpansE(operand, at, syms), ExprNode(e, syms), here);
    case Binary(l, op, r) =>
      var mid := at + |ItemsE(l, syms)|;
      SplitThree(p, at, ItemsE(l, syms), ItemsE(r, syms), [Exact(Operate(op))]);
      OccupyE(p, l, at, syms);
      OccupyE(p, r, mid, syms);
      OccupyJoin(p, NodesE(l, syms), SpansE(l, at, syms), NodesE(r, syms), SpansE(r, mid, syms));
      OccupyClose(p, NodesE(l, syms) + NodesE(r, syms), SpansE(l, at, syms) + SpansE(r, mid, syms),
                  ExprNode(e, syms), here);
    case Call(callee, args) =>
      HoldsSplit(p, at, ItemsEs(args, syms), [Invoke(callee)]);
      OccupyEs(p, args, at, syms);
      OccupyClose(p, NodesEs(args, syms), SpansEs(args, at, syms), ExprNode(e, syms), here);
    case _ =>
  }

  lemma {:induction false} OccupyEs(p: Program, es: seq<Expr>, at: nat, syms: Symbols)
    requires Holds(p, at, ItemsEs(es, syms))
    ensures AllOccupy(p, NodesEs(es, syms), SpansEs(es, at, syms))
    decreases es
  {
    if es != [] {
      var front, last := es[..|es| - 1], es[|es| - 1];
      var mid := at + |ItemsEs(front, syms)|;
      HoldsSplit(p, at, ItemsEs(front, syms), ItemsE(last, syms));
      OccupyEs(p, front, at, syms);
      OccupyE(p, last, mid, syms);
      OccupyJoin(p, NodesEs(front, syms), SpansEs(front, at, syms), NodesE(last, syms), SpansE(last, mid, syms));
    }
  }

  /** One range is recorded for each node of a statement, in the order in which they are finished, and the
      program holds the code of that node there and nothing else. */
  lemma {:induction false} OccupyS(p: Program, s: Stmt, at: nat, syms: Symbols)
    requires Holds(p, at, ItemsS(s, at, syms))
    ensures AllOccupy(p, NodesS(s, syms), SpansS(s, at, syms))
    decreases s, 4
  {
    OccupyBelow(p, s, at, syms);
    OccupyClose(p, NodesBelow(s, syms), SpansBelow(s, at, syms), StmtNode(s, syms),
                Span(at, at + |ItemsS(s, at, syms)|));
  }

  lemma {:induction false} OccupyBelow(p: Program, s: Stmt, at: nat, syms: Symbols)
    requires Holds(p, at, ItemsS(s, at, syms))
    ensures AllOccupy(p, NodesBelow(s, syms), SpansBelow(s, at, syms))
    decreases s, 3
  {
    match s
    case Let(name, value, escapes) =>
      HoldsSplit(p, at, ItemsE(value, syms), [Store(name, !escapes)]);
      OccupyE(p, value, at, syms);
    case Assign(name, source) =>
      HoldsSplit(p, at, ItemsE(source, syms), [Store(name, IsLocal(syms, name))]);
      OccupyE(p, source, at, syms);
    case Print(e) =>
      HoldsSplit(p, at, ItemsE(e, syms), [Exact(PrintTop), Exact(Pop)]);
      OccupyE(p, e, at, syms);
    case If(_, _, _) => OccupyIf(p, s, at, syms);
    case While(_, _) => OccupyWhile(p, s, at, syms);
    case For(_, _, _, _) => OccupyFor(p, s, at, syms);
    case Block(ss) => OccupySs(p, ss, at, syms);
    case Return(result) =>
      if result.Some? {
        HoldsSplit(p, at, ItemsE(result.value, syms), [Exact(ReturnValue)]);
        OccupyE(p, result.value, at, syms);
      }
    case Function(_, _, _) =>
    case Bare(e) => OccupyE(p, e, at, syms);
  }

  lemma {:induction false} OccupyIf(p: Program, s: Stmt, at: nat, syms: Symbols)
    requires s.If? && Holds(p, at, ItemsIf(s, at, syms))
    ensures AllOccupy(p, NodesBelow(s, syms), SpansBelow(s, at, syms))
    decreases s, 2
  {
    var test, t := ItemsE(s.condition, syms), s.thenBranch;
    var thenAt := at + |test| + 1;
    var thenItems, after := ItemsS(t, thenAt, syms), SymsS(t, syms);
    var thenEnd := thenAt + |thenItems|;
    var nodes, spans := NodesE(s.condition, syms), SpansE(s.condition, at, syms);
    if s.elseBranch.None? {
      SplitThree(p, at, test, [Exact(JumpIfFalse(thenEnd))], thenItems);
    } else {
      var elseItems := ItemsS(s.elseBranch.value, thenEnd + 1, after);
      var front := test + [Exact(JumpIfFalse(thenEnd + 1))] + thenItems;
      SplitThree(p, at, front, [Exact(Jump(thenEnd + 1 + |elseItems|))], elseItems);
      SplitThree(p, at, test, [Exact(JumpIfFalse(thenEnd + 1))], thenItems);
      OccupyS(p, s.elseBranch.value, thenEnd + 1, after);
    }
    OccupyE(p, s.condition, at, syms);
    OccupyS(p, t, thenAt, syms);
    OccupyJoin(p, nodes, spans, NodesS(t, syms), SpansS(t, thenAt, syms));
    OccupyJoin(p, nodes + NodesS(t, syms), spans + SpansS(t, thenAt, syms), NodesO(s.elseBranch, after),
               SpansO(s.elseBranch, thenEnd + 1, after));
  }

  lemma {:induction false} OccupyWhile(p: Program, s: Stmt, at: nat, syms: Symbols)
    requires s.While? && Holds(p, at, ItemsS(s, at, syms))
    ensures AllOccupy(p, NodesBelow(s, syms), SpansBelow(s, at, syms))
    decreases s, 2
  {
    var test := ItemsE(s.guard, syms);
    var bodyAt := at + |test| + 1;
    var body := ItemsS(s.loopBody, bodyAt, syms);
    var leave := [Exact(JumpIfFalse(bodyAt + |body| + 1))];
    SplitThree(p, at, test + leave, body, [Exact(Jump(at))]);
    HoldsSplit(p, at, test, leave);
    OccupyE(p, s.guard, at, syms);
    OccupyS(p, s.loopBody, bodyAt, syms);
    OccupyJoin(p, NodesE(s.guard, syms), SpansE(s.guard, at, syms), NodesS(s.loopBody, syms),
               SpansS(s.loopBody, bodyAt, syms));
  }

  lemma {:induction false} OccupyFor(p: Program, s: Stmt, at: nat, syms: Symbols)
    requires s.For? && Holds(p, at, ItemsS(s, at, syms))
    ensures AllOccupy(p, NodesBelow(s, syms), SpansBelow(s, at, syms))
    decreases s, 2
  {
    var start, inside := ItemsO(s.init, at, syms), SymsO(s.init, syms);
    var loopAt := at + |start|;
    HoldsSplit(p, at, start, ItemsLoop(s, loopAt, inside));
    OccupyO(p, s.init, at, syms);
    OccupyLoop(p, s, loopAt, inside);
    OccupyJoin(p, NodesO(s.init, syms), SpansO(s.init, at, syms), LoopNodes(s, inside), SpansLoop(s, loopAt, inside));
  }

  function LoopNodes(s: Stmt, syms: Symbols): seq<Node>
    requires s.For?
  {
    (if s.test.Some? then NodesE(s.test.value, syms) else []) + RoundNodes(s, syms)
  }

  function RoundNodes(s: Stmt, syms: Symbols): seq<Node>
    requires s.For?
  {
    NodesS(s.forBody, syms) + NodesO(s.increment, SymsS(s.forBody, syms))
  }

  lemma {:induction false} OccupyLoop(p: Program, s: Stmt, at: nat, syms: Symbols)
    requires s.For? && Holds(p, at, ItemsLoop(s, at, syms))
    ensures AllOccupy(p, LoopNodes(s, syms), SpansLoop(s, at, syms))
    decreases s, 1
  {
    var roundAt := at + |ItemsTest(s.test, 0, syms)|;
    var round := ItemsRound(s, roundAt, syms);
    var test := ItemsTest(s.test, roundAt + |round| + 1, syms);
    SplitThree(p, at, test, round, [Exact(Jump(at))]);
    OccupyRound(p, s, roundAt, syms);
    if s.test.Some? {
      HoldsSplit(p, at, ItemsE(s.test.value, syms), [Exact(JumpIfFalse(roundAt + |round| + 1))]);
      OccupyE(p, s.test.value, at, syms);
      OccupyJoin(p, NodesE(s.test.value, syms), SpansE(s.test.value, at, syms), RoundNodes(s, syms),
                 SpansRound(s, roundAt, syms));
    } else {
      assert [] + RoundNodes(s, syms) == RoundNodes(s, syms);
      assert [] + SpansRound(s, roundAt, syms) == SpansRound(s, roundAt, syms);
    }
  }

  lemma {:induction false} OccupyRound(p: Program, s: Stmt, at: nat, syms: Symbols)
    requires s.For? && Holds(p, at, ItemsRound(s, at, syms))
    ensures AllOccupy(p, RoundNodes(s, syms), SpansRound(s, at, syms))
    decreases s, 0
  {
    var body, after := ItemsS(s.forBody, at, syms), SymsS(s.forBody, syms);
    var mid := at + |body|;
    HoldsSplit(p, at, body, ItemsStep(s.increment, mid, after));
    OccupyS(p, s.forBody, at, syms);
    if s.increment.Some? {
      HoldsSplit(p, mid, ItemsO(s.increment, mid, after), [Exact(Pop)]);
    }
    OccupyO(p, s.increment, mid, after);
    OccupyJoin(p, NodesS(s.forBody, syms), SpansS(s.forBody, at, syms), NodesO(s.increment, after),
               SpansO(s.increment, mid, after));
  }

  lemma {:induction false} OccupyO(p: Program, s: Option<Stmt>, at: nat, syms: Symbols)
    requires Holds(p, at, ItemsO(s, at, syms))
    ensures AllOccupy(p, NodesO(s, syms), SpansO(s, at, syms))
    decreases s
  {
    if s.Some? {
      OccupyS(p, s.value, at, syms);
    }
  }

  lemma {:induction false} OccupySs(p: Program, ss: seq<Stmt>, at: nat, syms: Symbols)
    requires Holds(p, at, ItemsSs(ss, at, syms))
    ensures AllOccupy(p, NodesSs(ss, syms), SpansSs(ss, at, syms))
    decreases ss
  {
    if ss != [] {
      var front, last := ss[..|ss| - 1], ss[|ss| - 1];
      var items, after := ItemsSs(front, at, syms), SymsSs(front, syms);
      var mid := at + |items|;
      HoldsSplit(p, at, items, ItemsS(last, mid, after));
      OccupySs(p, front, at, syms);
      OccupyS(p, last, mid, after);
      OccupyJoin(p, NodesSs(front, syms), SpansSs(front, at, syms), NodesS(last, after), SpansS(last, mid, after));
    }
  }
}
