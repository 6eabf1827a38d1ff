// Edges from a node to itself that no loop stands behind, and programs whose graphs have edges that
// no outcome takes or lack edges that one does.
module FlowSelfEdges {
  import opened Ast
  import opened Values
  import opened Interpreter
  import opened FlowGraph
  import opened FlowPaths
  import opened FlowHooks
  import opened FlowLabels
  import opened FlowEdges
  import opened FlowOutcomes

  // ---- When there are none ----

  /** The statement does not count as entered at the node that it is attached to. */
  predicate Settled(s: Stmt, attached: bool) {
    Starts(s) || !Enters(s, attached)
  }

  predicate SettledO(s: Option<Stmt>, attached: bool) {
    s.Some? ==> Settled(s.value, attached)
  }

  /** That is so of every branch, and of the body, the initialisation and the increment of every loop. */
  predicate Plain(s: Stmt, attached: bool) {
    match s
    case If(_, t, f) => Settled(t, true) && Plain(t, true) && SettledO(f, true) && PlainO(f, true)
    case While(_, b) => Settled(b, true) && Plain(b, true)
    case For(init, _, step, b) =>
      && SettledO(init, attached) && PlainO(init, attached)
      && Settled(b, true) && Plain(b, true) && SettledO(step, true) && PlainO(step, true)
    case Block(ss) => PlainSs(ss, attached)
    case _ => true
  }

  predicate PlainO(s: Option<Stmt>, attached: bool) {
    s.Some? ==> Plain(s.value, attached)
  }

  predicate PlainSs(ss: seq<Stmt>, attached: bool) {
    ss == [] || (PlainSs(ss[..|ss| - 1], attached) && Plain(ss[|ss| - 1], LeavesSs(ss[..|ss| - 1], attached)))
  }

  predicate PlainTop(ss: seq<Stmt>) {
    ss == [] || (PlainTop(ss[..|ss| - 1]) && Plain(ss[|ss| - 1], LeavesTop(ss[..|ss| - 1])))
  }

  /** The only edges from a node to itself go back to a test. */
  ghost predicate Selfless(edges: set<Edge>) {
    forall e :: e in edges && e.from == e.to ==> e.kind == Back
  }

  ghost predicate SelflessStmt(s: Stmt, prev: Option<nat>, c: nat)
    requires NoFunctions(s)
  {
    Selfless(Build(s, prev, c).edges)
  }

  lemma IfSelfless(prev: Option<nat>, c: nat, p: Part, q: Part, hasElse: bool, m: nat, at: nat, n: nat)
    requires at == c + 1 + m && Local(p, Some(c), c + 1, m) && LocalO(q, hasElse, Some(c), at, n) && Earlier(prev, c)
    ensures Selfless(IfEdges(prev, c, p, q, hasElse))
            <==> Selfless(p.edges) && Selfless(q.edges) && p.entry != Some(c) && q.entry != Some(c)
  {
    PartAside(p, true, c, c + 1, m);
    PartAside(q, hasElse, c, at, n);
    var all := IfEdges(prev, c, p, q, hasElse);
    assert p.edges <= all && q.edges <= all;
    assert p.entry == Some(c) ==> Edge(c, c, OnTrue) in all;
    assert q.entry == Some(c) ==> Edge(c, c, OnFalse) in all;
  }

  lemma WhileSelfless(prev: Option<nat>, c: nat, p: Part, m: nat)
    requires Local(p, Some(c + 1), c + 2, m) && Earlier(prev, c)
    ensures Selfless(WhileEdges(prev, c, p)) <==> Selfless(p.edges) && p.entry != Some(c + 1)
  {
    PartAside(p, true, c + 1, c + 2, m);
    assert p.edges <= WhileEdges(prev, c, p);
    assert p.entry == Some(c + 1) ==> Edge(c + 1, c + 1, OnTrue) in WhileEdges(prev, c, p);
  }

  lemma StartSelfless(prev: Option<nat>, c: nat, i: Part, hasInit: bool, k: nat, start: nat)
    requires start == c + k && LocalO(i, hasInit, prev, c, k) && i.next == start && Earlier(prev, c)
    ensures Selfless(StartEdges(prev, i)) <==> Selfless(i.edges) && (prev.None? || i.entry != prev)
  {
    LocalIs(i, prev, c, k);
    assert i.edges <= StartEdges(prev, i);
    assert prev.Some? && i.entry == prev ==> Edge(prev.value, prev.value, Next) in StartEdges(prev, i);
  }

  lemma RoundSelfless(test: nat, at: nat, next: nat, p: Part, q: Part, hasStep: bool, m: nat, n: nat)
    requires at == test + 1 && next == at + m
    requires Local(p, Some(test), at, m) && LocalO(q, hasStep, After(p, test), next, n)
    ensures Selfless(RoundEdges(test, p, q))
            <==> Selfless(p.edges) && Selfless(q.edges) && p.entry != Some(test) && q.entry != After(p, test)
  {
    PartAside(p, true, test, at, m);
    LocalIs(q, After(p, test), next, n);
    var all, last := RoundEdges(test, p, q), After(p, test).value;
    assert p.edges <= all && q.edges <= all;
    assert p.entry == Some(test) ==> Edge(test, test, OnTrue) in all;
    assert q.entry == Some(last) ==> Edge(last, last, Next) in all;
  }

  lemma BothSelfless(a: set<Edge>, b: set<Edge>)
    ensures Selfless(a + b) <==> Selfless(a) && Selfless(b)
  {
    assert a <= a + b && b <= a + b;
  }

  /** The builder draws no edge from a node to itself, other than back to a test, exactly if every branch and every
      part of a loop that has an entry begins with a node. */
  lemma {:induction false} SelflessExactlyWhenPlain(s: Stmt, prev: Option<nat>, c: nat)
    requires NoFunctions(s) && Earlier(prev, c)
    ensures SelflessStmt(s, prev, c) <==> Plain(s, prev.Some?)
    decreases s, 2
  {
    match s
    case If(_, _, _) => IfIsSelfless(s, prev, c);
    case While(_, b) =>
      StmtIsLocal(b, Some(c + 1), c + 2);
      PartsOf(s, prev, c);
      WhileSelfless(prev, c, Build(b, Some(c + 1), c + 2), Size(b));
      PieceIsSelfless(b, c + 1, c + 2);
    case For(_, _, _, _) => ForIsSelfless(s, prev, c);
    case Block(ss) => SsAreSelfless(ss, prev, c);
    case _ =>
  }

  /** What is attached to a node that is there. */
  lemma {:induction false} PieceIsSelfless(s: Stmt, from: nat, c: nat)
    requires NoFunctions(s) && from < c
    ensures SelflessStmt(s, Some(from), c) && Build(s, Some(from), c).entry != Some(from)
            <==> Settled(s, true) && Plain(s, true)
    decreases s, 3
  {
    EntryIs(s, Some(from), c);
    SelflessExactlyWhenPlain(s, Some(from), c);
  }

  lemma {:induction false} PieceOIsSelfless(s: Option<Stmt>, from: nat, c: nat)
    requires (s.Some? ==> NoFunctions(s.value)) && from < c
    ensures Selfless(BuildO(s, Some(from), c).edges) && BuildO(s, Some(from), c).entry != Some(from)
            <==> SettledO(s, true) && PlainO(s, true)
    decreases s
  {
    if s.Some? {
      PieceIsSelfless(s.value, from, c);
    }
  }

  lemma {:induction false} InitIsSelfless(s: Option<Stmt>, prev: Option<nat>, c: nat)
    requires (s.Some? ==> NoFunctions(s.value)) && Earlier(prev, c)
    ensures Selfless(BuildO(s, prev, c).edges) && (prev.None? || BuildO(s, prev, c).entry != prev)
            <==> SettledO(s, prev.Some?) && PlainO(s, prev.Some?)
    decreases s
  {
    if s.Some? {
      EntryIs(s.value, prev, c);
      EntersIs(s.value, prev, c);
      SelflessExactlyWhenPlain(s.value, prev, c);
    }
  }

  lemma {:induction false} IfIsSelfless(s: Stmt, prev: Option<nat>, c: nat)
    requires s.If? && NoFunctions(s) && Earlier(prev, c)
    ensures SelflessStmt(s, prev, c) <==> Plain(s, prev.Some?)
    decreases s, 1
  {
    var t, f, m := s.thenBranch, s.elseBranch, Size(s.thenBranch);
    var at := c + 1 + m;
    StmtIsLocal(t, Some(c), c + 1);
    OIsLocal(f, Some(c), at);
    PartsOf(s, prev, c);
    IfSelfless(prev, c, Build(t, Some(c), c + 1), BuildO(f, Some(c), at), f.Some?, m, at, SizeO(f));
    PieceIsSelfless(t, c, c + 1);
    PieceOIsSelfless(f, c, at);
  }

  lemma {:induction false} ForIsSelfless(s: Stmt, prev: Option<nat>, c: nat)
    requires s.For? && NoFunctions(s) && Earlier(prev, c)
    ensures SelflessStmt(s, prev, c) <==> Plain(s, prev.Some?)
    decreases s, 1
  {
    var start := c + SizeO(s.init);
    ForPiecesLocal(s, prev, c, start);
    ForSelfless(s, prev, c, start);
    StartsAreSelfless(s, prev, c, start);
    RoundsAreSelfless(s, prev, c, start);
  }

  lemma {:induction false} ForSelfless(s: Stmt, prev: Option<nat>, c: nat, start: nat)
    requires s.For? && NoFunctions(s) && BuildO(s.init, prev, c).next == start
    ensures SelflessStmt(s, prev, c)
            <==> Selfless(StartEdges(prev, BuildO(s.init, prev, c))) && Selfless(RoundsOfFor(s, start))
  {
    ForBuilt(s, prev, c, start);
    BothSelfless(StartEdges(prev, BuildO(s.init, prev, c)), RoundsOfFor(s, start));
  }

  lemma {:induction false} StartsAreSelfless(s: Stmt, prev: Option<nat>, c: nat, start: nat)
    requires s.For? && NoFunctions(s) && Earlier(prev, c) && ForPieces(s, prev, c, start)
    ensures Selfless(StartEdges(prev, BuildO(s.init, prev, c)))
            <==> SettledO(s.init, prev.Some?) && PlainO(s.init, prev.Some?)
    decreases s, 0
  {
    StartSelfless(prev, c, BuildO(s.init, prev, c), s.init.Some?, SizeO(s.init), start);
    InitIsSelfless(s.init, prev, c);
  }

  lemma {:induction false} RoundsAreSelfless(s: Stmt, prev: Option<nat>, c: nat, start: nat)
    requires s.For? && NoFunctions(s) && ForPieces(s, prev, c, start)
    ensures Selfless(RoundsOfFor(s, start))
            <==> Settled(s.forBody, true) && Plain(s.forBody, true)
                 && SettledO(s.increment, true) && PlainO(s.increment, true)
    decreases s, 0
  {
    var m, test, p := Size(s.forBody), start + 1, Body(s, start);
    RoundSelfless(test, test + 1, test + 1 + m, p, Increment(s, start), s.increment.Some?, m, SizeO(s.increment));
    LocalIs(p, Some(test), test + 1, m);
    PieceIsSelfless(s.forBody, test, test + 1);
    PieceOIsSelfless(s.increment, After(p, test).value, test + 1 + m);
  }

  lemma {:induction false} SsAreSelfless(ss: seq<Stmt>, prev: Option<nat>, c: nat)
    requires (forall i :: 0 <= i < |ss| ==> NoFunctions(ss[i])) && Earlier(prev, c)
    ensures Selfless(BuildSs(ss, prev, c).edges) <==> PlainSs(ss, prev.Some?)
    decreases ss
  {
    if ss != [] {
      var front, last := ss[..|ss| - 1], ss[|ss| - 1];
      var f := BuildSs(front, prev, c);
      SsAreSelfless(front, prev, c);
      SsIsLocal(front, prev, c);
      LocalIs(f, prev, c, SizeSs(front));
      EntersSsIs(front, prev, c);
      SelflessExactlyWhenPlain(last, f.exit, f.next);
      BothSelfless(f.edges, Build(last, f.exit, f.next).edges);
    }
  }

  lemma {:induction false} TopIsSelflessExactlyWhenPlain(ss: seq<Stmt>)
    requires forall i :: 0 <= i < |ss| ==> NoFunctions(ss[i])
    ensures Selfless(BuildTop(ss).edges) <==> PlainTop(ss)
    decreases ss
  {
    if ss != [] {
      var front, last := ss[..|ss| - 1], ss[|ss| - 1];
      var f := BuildTop(front);
      TopIsSelflessExactlyWhenPlain(front);
      TopIsLocal(front);
      LocalIs(f, None, 0, SizeSs(front));
      CoherentTopIsHooked(front);
      SelflessExactlyWhenPlain(last, f.exit, f.next);
      BothSelfless(f.edges, Build(last, f.exit, f.next).edges);
    }
  }

  // ---- Graphs that show what happens and nothing else ----

  /** A step that some outcome takes, or such a step out of a condition drawn once more. */
  ghost predicate Accounted(edges: set<Edge>, flow: set<Edge>) {
    forall e :: e in edges ==> e in flow || Doubled(e, flow)
  }

  /** In the graph of a hooked program without functions and returns every edge is a step that an outcome takes, with
      its label, or a copy of such a step out of a condition, exactly if the program is plain. */
  lemma NoStrayEdgesExactlyWhenPlain(ss: seq<Stmt>)
    requires StructuredSs(ss) && HookedTop(ss)
    ensures Accounted(BuildTop(ss).edges, FlowSs(ss, 0)) <==> PlainTop(ss)
  {
    NoOtherEdges(ss);
    TopIsSelflessExactlyWhenPlain(ss);
    FlowSsIsShapely(ss, 0);
    ShapelyIs(FlowSs(ss, 0), 0, SizeSs(ss));
    if Selfless(BuildTop(ss).edges) {
      assert Accounted(BuildTop(ss).edges, FlowSs(ss, 0));
    }
  }

  /** What is attached to a node is attached to it by an edge of plain succession as well, so that the way into a
      branch with nodes is drawn twice. */
  lemma {:induction false} BranchesAreAttachedTwice(s: Stmt, prev: Option<nat>, c: nat)
    requires s.If? && NoFunctions(s) && Earlier(prev, c) && Starts(s.thenBranch)
    ensures {Edge(c, c + 1, OnTrue), Edge(c, c + 1, Next)} <= Build(s, prev, c).edges
  {
    var t := s.thenBranch;
    StmtIsLocal(t, Some(c), c + 1);
    LocalIs(Build(t, Some(c), c + 1), Some(c), c + 1, Size(t));
    EntryIs(t, Some(c), c + 1);
    PartsOf(s, prev, c);
  }

  // ---- Graphs that do not ----

  /** A branch that begins with an assignment: the condition leads to itself where it holds, and not into the
      branch. */
  lemma {:induction false} BranchFromAnAssignment(e: Expr, x: string, v: Expr, w: Expr)
    ensures var s := If(e, Block([Assign(x, v), Print(w)]), None);
            && Hooked(s, true) && Edge(0, 1, OnTrue) in Flow(s, 0)
            && Build(s, None, 0).edges
               == {Edge(0, 0, OnTrue), Edge(0, 1, Next), Edge(1, 2, Next), Edge(0, 2, OnFalse)}
  {
    var first, last := Assign(x, v), Print(w);
    var s, body := If(e, Block([first, last]), None), [first, last];
    assert body[..1] == [first] && [first][..0] == [];
    assert LeavesSs([], true) && LeavesSs([first], true) && Hooked(first, true) && Hooked(last, true);
    assert HookedSs([], true) && HookedSs([first], true);
    assert HookedSs(body, true);
    assert BuildSs([first], Some(0), 1) == Part(Some(0), Some(0), {}, 1);
    assert BuildSs(body, Some(0), 1) == Part(Some(0), Some(1), {Edge(0, 1, Next)}, 2);
    assert Build(Block(body), Some(0), 1) == BuildSs(body, Some(0), 1) && BuildO(None, Some(0), 2) == NoPart(2);
    assert NodesSs([]) == 0 && NodesSs([first]) == 0;
    assert NodesSs(body) == NodesSs([first]) + Nodes(last);
    assert Build(s, None, 0) == BuildIf(s, None, 0);
    assert Edge(0, 1, OnTrue) in BranchSteps(0, OnTrue, 1, 1, 2, FlowSs(body, 1));
  }

  /** A branch without statements: the way past it carries no outcome. */
  lemma {:induction false} EmptyBranch(e: Expr)
    ensures var s := If(e, Block([]), None);
            && Edge(0, 1, OnTrue) in Flow(s, 0)
            && Build(s, None, 0).edges == {Edge(0, 1, Next), Edge(0, 1, OnFalse)}
  {
    var s := If(e, Block([]), None);
    assert Build(s, None, 0) == BuildIf(s, None, 0);
    assert Build(Block([]), Some(0), 1) == Part(None, Some(0), {}, 1) && BuildO(None, Some(0), 1) == NoPart(1);
    assert NodesSs([]) == 0;
    assert Edge(0, 1, OnTrue) in BranchSteps(0, OnTrue, 1, 0, 1, FlowSs([], 1));
  }

  /** A `for` that counts by an assignment: the last node of its body leads to itself. */
  lemma {:induction false} CountingByAssignment(test: Option<Expr>, x: string, v: Expr, w: Expr)
    ensures var s := For(None, test, Some(Assign(x, v)), Print(w));
            && NoFunctions(s) && Labelled(s, false) && !Plain(s, false)
            && Edge(2, 2, Next) in Build(s, None, 0).edges && !Fated(2, 2, Flow(s, 0))
  {
    var s := For(None, test, Some(Assign(x, v)), Print(w));
    assert NoFunctions(Assign(x, v)) && NoFunctions(Print(w)) && Labelled(Assign(x, v), true) && Starts(Print(w));
    assert !Settled(Assign(x, v), true);
    assert Build(s, None, 0) == BuildFor(s, None, 0);
    var i, p, q := NoPart(0), Part(Some(2), Some(2), {Edge(1, 2, Next)}, 3), Part(Some(2), Some(2), {}, 3);
    assert BuildO(s.init, None, 0) == i && Build(s.forBody, Some(1), 2) == p && BuildO(s.increment, Some(2), 3) == q;
    assert Edge(2, 2, Next) in Link(After(p, 1), q.entry, Next);
    NoWayToItself(s);
  }

  lemma {:induction false} NoWayToItself(s: Stmt)
    requires s.For? && s.init == None && s.increment.Some? && s.increment.value.Assign? && s.forBody.Print?
    ensures !Fated(2, 2, Flow(s, 0))
  {
    FlowIsShapely(s, 0);
    ShapelyIs(Flow(s, 0), 0, Size(s));
    assert Edge(2, 1, Back) in RoundSteps(1, 1, 0, {}, {});
  }

  /** Some outcome leads from the one node to the other. */
  ghost predicate Fated(from: nat, to: nat, flow: set<Edge>) {
    exists kind :: Edge(from, to, kind) in flow
  }
}
