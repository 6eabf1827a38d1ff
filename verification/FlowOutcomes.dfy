// Runs and the edges by which they go: each step by the edge of its outcome, and no edge that no
// outcome takes.
module FlowOutcomes {
  import opened Ast
  import opened Values
  import opened Interpreter
  import opened FlowGraph
  import opened FlowPaths
  import opened FlowHooks
  import opened FlowLabels
  import opened FlowEdges

  // ---- Runs ----

  /** Where the text is as `Labelled` says, every step of every finished run goes over an edge labelled with the
      outcome that takes it: out of a condition by whether it holds at that moment, and back into a test. */
  lemma RunsGoByTheirOutcomes(fmt: Format, ss: seq<Stmt>, store: Store, fuel: nat)
    requires (forall i :: 0 <= i < |ss| ==> NoFunctions(ss[i])) && LabelledTop(ss)
    requires ExecSs(fmt, ss, store, fuel).Done?
    ensures Goes(BuildTop(ss).edges, None, TraceSs(fmt, ss, store, fuel, 0, Next))
  {
    TopDrawsExactlyWhenLabelled(ss);
    DrawsIs(BuildTop(ss), FlowSs(ss, 0), None, 0, SizeSs(ss));
    RunTakesItsSteps(fmt, ss, store, fuel, Next, BuildTop(ss).edges);
  }

  // ---- Where the builder ends ----

  /** What is hooked ends at its last node. */
  lemma {:induction false} HookedEnds(s: Stmt, prev: Option<nat>, c: nat)
    requires NoFunctions(s) && Earlier(prev, c) && Hooked(s, prev.Some?)
    ensures Build(s, prev, c).exit == Exit(prev, c, Size(s))
    decreases s, 1
  {
    match s
    case If(_, _, _) => ExitBuilt(s, prev, c);
    case While(_, _) => ExitBuilt(s, prev, c);
    case For(_, _, _, _) => ExitBuilt(s, prev, c);
    case Block(ss) => HookedSsEnd(ss, prev, c);
    case _ =>
  }

  lemma {:induction false} BarrenIsEmpty(s: Stmt)
    requires Barren(s)
    ensures Size(s) == 0
    decreases s, 1
  {
    if s.Block? {
      BarrenSsAreEmpty(s.statements);
    }
  }

  lemma {:induction false} BarrenSsAreEmpty(ss: seq<Stmt>)
    requires forall i :: 0 <= i < |ss| ==> Barren(ss[i])
    ensures SizeSs(ss) == 0
    decreases ss, 0
  {
    if ss != [] {
      BarrenSsAreEmpty(ss[..|ss| - 1]);
      BarrenIsEmpty(ss[|ss| - 1]);
      assert SizeSs(ss) == SizeSs(ss[..|ss| - 1]) + Size(ss[|ss| - 1]);
    }
  }

  lemma {:induction false} HookedSsEnd(ss: seq<Stmt>, prev: Option<nat>, c: nat)
    requires (forall i :: 0 <= i < |ss| ==> NoFunctions(ss[i])) && Earlier(prev, c) && HookedSs(ss, prev.Some?)
    ensures BuildSs(ss, prev, c).exit == Exit(prev, c, SizeSs(ss))
    decreases ss, 0
  {
    if ss != [] {
      var front, last := ss[..|ss| - 1], ss[|ss| - 1];
      var m, f := SizeSs(front), BuildSs(front, prev, c);
      HookedSsEnd(front, prev, c);
      SsIsLocal(front, prev, c);
      LocalIs(f, prev, c, m);
      EntersSsIs(front, prev, c);
      HookedEnds(last, f.exit, c + m);
      EntersIs(last, f.exit, c + m);
      StmtIsLocal(last, f.exit, c + m);
      LocalIs(Build(last, f.exit, c + m), f.exit, c + m, Size(last));
      if Barren(last) {
        BarrenIsEmpty(last);
      }
      assert SizeSs(ss) == m + Size(last);
    }
  }

  // ---- Edges that no outcome takes ----

  /** Plain succession from a condition to where one of its outcomes leads. */
  predicate Doubled(e: Edge, flow: set<Edge>) {
    e.kind == Next && (Edge(e.from, e.to, OnTrue) in flow || Edge(e.from, e.to, OnFalse) in flow)
  }

  /** A step by the outcome that takes it, or a step out of a condition once more under the label of plain succession,
      or an edge from a node to itself that does not go back to a test. */
  ghost predicate Fair(e: Edge, flow: set<Edge>) {
    e in flow || Doubled(e, flow) || (e.from == e.to && e.kind != Back)
  }

  /** ... or the edge by which the part is attached. */
  ghost predicate EachFair(edges: set<Edge>, flow: set<Edge>, prev: Option<nat>, c: nat, n: nat) {
    forall e :: e in edges ==> Fair(e, flow) || (n > 0 && prev == Some(e.from) && e.to == c && e.kind == Next)
  }

  ghost predicate AllFair(edges: set<Edge>, flow: set<Edge>, prev: Option<nat>, c: nat, n: nat) {
    forall x :: Alike(x, edges) ==> EachFair(x, flow, prev, c, n)
  }

  lemma AllFairIs(edges: set<Edge>, flow: set<Edge>, prev: Option<nat>, c: nat, n: nat)
    ensures AllFair(edges, flow, prev, c, n) <==> EachFair(edges, flow, prev, c, n)
  {
    assert Alike(edges, edges);
  }

  ghost predicate Fairly(p: Part, flow: set<Edge>, prev: Option<nat>, c: nat, n: nat) {
    forall x :: Equals(x, p) ==> EachFair(x.edges, flow, prev, c, n) && x.exit == Exit(prev, c, n)
  }

  lemma FairlyIs(p: Part, flow: set<Edge>, prev: Option<nat>, c: nat, n: nat)
    ensures Fairly(p, flow, prev, c, n) <==> EachFair(p.edges, flow, prev, c, n) && p.exit == Exit(prev, c, n)
  {
    assert Equals(p, p);
  }

  lemma FairMore(e: Edge, flow: set<Edge>, more: set<Edge>)
    requires Fair(e, flow) && flow <= more
    ensures Fair(e, more)
  {
  }

  /** A branch: entered at its first node, or at the condition, or nowhere, and left at its last. */
  lemma BranchFair(p: Part, a: set<Edge>, c: nat, how: Label, at: nat, n: nat, merge: nat, flow: set<Edge>, e: Edge)
    requires Local(p, Some(c), at, n) && Fairly(p, a, Some(c), at, n) && BranchSteps(c, how, at, n, merge, a) <= flow
    requires how == OnTrue || how == OnFalse
    requires e in p.edges || e in Link(Some(c), p.entry, how) || e in Link(p.exit, Some(merge), Next)
    ensures Fair(e, flow)
  {
    LocalIs(p, Some(c), at, n);
    FairlyIs(p, a, Some(c), at, n);
    var first := Edge(c, if n == 0 then merge else at, how);
    assert first in BranchSteps(c, how, at, n, merge, a);
    assert n > 0 ==> Edge(at + n - 1, merge, Next) in BranchSteps(c, how, at, n, merge, a);
    assert a <= flow;
    if e in a || (Fair(e, a) && e in p.edges) {
      FairMore(e, a, flow);
    }
  }

  lemma IfFair(prev: Option<nat>, c: nat, at: nat, merge: nat, p: Part, q: Part, hasElse: bool, m: nat, n: nat,
               a: set<Edge>, b: set<Edge>, total: nat)
    requires at == c + 1 + m && merge == at + n && Local(p, Some(c), c + 1, m) && LocalO(q, hasElse, Some(c), at, n)
    requires Fairly(p, a, Some(c), c + 1, m) && (hasElse ==> Fairly(q, b, Some(c), at, n)) && total > 0
    ensures AllFair(IfEdges(prev, c, p, q, hasElse),
                    BranchSteps(c, OnTrue, c + 1, m, merge, a) + BranchSteps(c, OnFalse, at, n, merge, b), prev, c,
                    total)
  {
    var flow := BranchSteps(c, OnTrue, c + 1, m, merge, a) + BranchSteps(c, OnFalse, at, n, merge, b);
    PartAside(p, true, c, c + 1, m);
    PartAside(q, hasElse, c, at, n);
    AllFairIs(IfEdges(prev, c, p, q, hasElse), flow, prev, c, total);
    forall e | e in IfEdges(prev, c, p, q, hasElse)
      ensures Fair(e, flow) || (prev == Some(e.from) && e.to == c && e.kind == Next)
    {
      if e in p.edges || e in Link(Some(c), p.entry, OnTrue) || e in Link(p.exit, Some(merge), Next) {
        BranchFair(p, a, c, OnTrue, c + 1, m, merge, flow, e);
      } else if hasElse
                && (e in q.edges || e in Link(Some(c), q.entry, OnFalse) || e in Link(q.exit, Some(merge), Next)) {
        BranchFair(q, b, c, OnFalse, at, n, merge, flow, e);
      } else if !hasElse && e == Edge(c, merge, OnFalse) {
        assert e in BranchSteps(c, OnFalse, at, n, merge, b);
      }
    }
  }

  lemma RoundFair(test: nat, at: nat, next: nat, p: Part, q: Part, hasStep: bool, m: nat, n: nat, a: set<Edge>,
                  b: set<Edge>, flow: set<Edge>)
    requires at == test + 1 && next == at + m && Local(p, Some(test), at, m)
    requires LocalO(q, hasStep, After(p, test), next, n)
    requires Fairly(p, a, Some(test), at, m) && (hasStep ==> Fairly(q, b, After(p, test), next, n))
    requires Includes(flow, RoundSteps(test, m, n, a, b)) && Edge(test, next + n, OnFalse) in flow
    ensures AllFair(RoundEdges(test, p, q), flow, None, test, 0)
  {
    LocalIs(p, Some(test), at, m);
    LocalIs(q, After(p, test), next, n);
    FairlyIs(p, a, Some(test), at, m);
    FairlyIs(q, b, After(p, test), next, n);
    RoundParts(test, at, next, m, n, a, b, flow);
    AllFairIs(RoundEdges(test, p, q), flow, None, test, 0);
    forall e | e in RoundEdges(test, p, q)
      ensures Fair(e, flow)
    {
      if e in p.edges && Fair(e, a) {
        FairMore(e, a, flow);
      } else if e in q.edges && Fair(e, b) {
        FairMore(e, b, flow);
      }
    }
  }

  lemma RoundParts(test: nat, at: nat, next: nat, m: nat, n: nat, a: set<Edge>, b: set<Edge>, flow: set<Edge>)
    requires at == test + 1 && next == at + m && Includes(flow, RoundSteps(test, m, n, a, b))
    ensures a <= flow && b <= flow && (m > 0 && n > 0 ==> Edge(next - 1, next, Next) in flow)
    ensures m + n > 0 ==> Edge(test, at, OnTrue) in flow
    ensures Edge(next + n - 1, test, Back) in flow
  {
    IncludesIs(flow, RoundSteps(test, m, n, a, b));
    RoundUnion(flow, test, m, n, a, b);
  }

  lemma StartFair(prev: Option<nat>, c: nat, i: Part, hasInit: bool, k: nat, start: nat, n: nat, j: set<Edge>,
                  flow: set<Edge>)
    requires start == c + k && LocalO(i, hasInit, prev, c, k) && i.next == start && n > k
    requires hasInit ==> Fairly(i, j, prev, c, k)
    requires Includes(flow, j) && Edge(start, start + 1, Next) in flow
    requires k > 0 ==> Edge(start - 1, start, Next) in flow
    ensures AllFair(StartEdges(prev, i), flow, prev, c, n)
  {
    LocalIs(i, prev, c, k);
    FairlyIs(i, j, prev, c, k);
    IncludesIs(flow, j);
    AllFairIs(StartEdges(prev, i), flow, prev, c, n);
    forall e | e in StartEdges(prev, i)
      ensures Fair(e, flow) || (prev == Some(e.from) && e.to == c && e.kind == Next)
    {
      if e in i.edges && Fair(e, j) {
        FairMore(e, j, flow);
      }
    }
  }

  lemma ForStartFair(prev: Option<nat>, c: nat, i: Part, hasInit: bool, k: nat, start: nat, m: nat, n: nat,
                     j: set<Edge>, a: set<Edge>, b: set<Edge>, total: nat)
    requires start == c + k && LocalO(i, hasInit, prev, c, k) && i.next == start && total > k
    requires hasInit ==> Fairly(i, j, prev, c, k)
    ensures AllFair(StartEdges(prev, i), ForSteps(c, k, start, m, n, j, a, b), prev, c, total)
  {
    ForParts(c, k, start, m, n, j, a, b);
    StartFair(prev, c, i, hasInit, k, start, total, j, ForSteps(c, k, start, m, n, j, a, b));
  }

  lemma ForRoundFair(c: nat, k: nat, start: nat, test: nat, at: nat, next: nat, p: Part, q: Part, hasStep: bool, m: nat,
                     n: nat, j: set<Edge>, a: set<Edge>, b: set<Edge>)
    requires start == c + k && test == start + 1 && at == start + 2 && next == at + m
    requires Local(p, Some(test), at, m) && LocalO(q, hasStep, After(p, test), next, n)
    requires Fairly(p, a, Some(test), at, m) && (hasStep ==> Fairly(q, b, After(p, test), next, n))
    ensures AllFair(RoundEdges(test, p, q), ForSteps(c, k, start, m, n, j, a, b), None, test, 0)
  {
    ForParts(c, k, start, m, n, j, a, b);
    RoundFair(test, at, next, p, q, hasStep, m, n, a, b, ForSteps(c, k, start, m, n, j, a, b));
  }

  lemma ForParts(c: nat, k: nat, start: nat, m: nat, n: nat, j: set<Edge>, a: set<Edge>, b: set<Edge>)
    requires start == c + k
    ensures var flow := ForSteps(c, k, start, m, n, j, a, b);
            && Includes(flow, j) && Includes(flow, RoundSteps(start + 1, m, n, a, b))
            && (k > 0 ==> Edge(start - 1, start, Next) in flow)
            && Edge(start, start + 1, Next) in flow && Edge(start + 1, start + 2 + m + n, OnFalse) in flow
  {
    var flow := ForSteps(c, k, start, m, n, j, a, b);
    ForUnion(flow, c, k, start, m, n, j, a, b);
    IncludesIs(flow, j);
    IncludesIs(flow, RoundSteps(start + 1, m, n, a, b));
  }

  lemma BothFair(first: set<Edge>, rest: set<Edge>, flow: set<Edge>, prev: Option<nat>, c: nat, test: nat, n: nat)
    requires AllFair(first, flow, prev, c, n) && AllFair(rest, flow, None, test, 0)
    ensures AllFair(first + rest, flow, prev, c, n)
  {
    AllFairIs(first, flow, prev, c, n);
    AllFairIs(rest, flow, None, test, 0);
    AllFairIs(first + rest, flow, prev, c, n);
  }

  /** A part that ends at its last node is fair if its edges are. */
  lemma FairEnough(p: Part, flow: set<Edge>, prev: Option<nat>, c: nat, n: nat, edges: set<Edge>, steps: set<Edge>)
    requires p.exit == Exit(prev, c, n) && p.edges == edges && flow == steps && AllFair(edges, steps, prev, c, n)
    ensures Fairly(p, flow, prev, c, n)
  {
    FairlyIs(p, flow, prev, c, n);
    AllFairIs(edges, steps, prev, c, n);
  }

  lemma WhileFair(prev: Option<nat>, c: nat, p: Part, m: nat, a: set<Edge>, flow: set<Edge>, whole: Part, total: nat)
    requires Local(p, Some(c + 1), c + 2, m) && Fairly(p, a, Some(c + 1), c + 2, m) && flow == LoopSteps(c, m, 0, a, {})
    requires whole.edges == WhileEdges(prev, c, p) && whole.exit == Exit(prev, c, total) && total > 0
    ensures Fairly(whole, flow, prev, c, total)
  {
    FairlyIs(whole, flow, prev, c, total);
    IncludesIs(flow, RoundSteps(c + 1, m, 0, a, {}));
    RoundFair(c + 1, c + 2, c + 2 + m, p, NoPart(c + 2 + m), false, m, 0, a, {}, flow);
    LocalIs(p, Some(c + 1), c + 2, m);
    assert forall e :: e in WhileEdges(prev, c, p) ==>
        || e in Link(prev, Some(c), Next) || e == Edge(c, c + 1, Next)
        || e in RoundEdges(c + 1, p, NoPart(c + 2 + m));
  }

  lemma SsFair(f: Part, prev: Option<nat>, c: nat, m: nat, p: Part, at: nat, n: nat, a: set<Edge>, b: set<Edge>)
    requires at == c + m && Fairly(f, a, prev, c, m) && Fairly(p, b, f.exit, at, n)
    ensures AllFair(f.edges + p.edges, a + Join(c, m, n) + b, prev, c, m + n)
  {
    var flow := a + Join(c, m, n) + b;
    FairlyIs(f, a, prev, c, m);
    FairlyIs(p, b, f.exit, at, n);
    assert m > 0 && n > 0 ==> Edge(at - 1, at, Next) in flow;
    AllFairIs(f.edges + p.edges, flow, prev, c, m + n);
    forall e | e in f.edges + p.edges
      ensures Fair(e, flow) || (m + n > 0 && prev == Some(e.from) && e.to == c && e.kind == Next)
    {
      if e in f.edges && Fair(e, a) {
        FairMore(e, a, flow);
      } else if e in p.edges && Fair(e, b) {
        FairMore(e, b, flow);
      }
    }
  }

  // ---- ... there are none where the text is hooked ----

  ghost predicate FairStmt(s: Stmt, prev: Option<nat>, c: nat)
    requires NoFunctions(s)
  {
    Fairly(Build(s, prev, c), Flow(s, c), prev, c, Size(s))
  }

  ghost predicate FairO(s: Option<Stmt>, prev: Option<nat>, c: nat)
    requires s.Some? ==> NoFunctions(s.value)
  {
    s.Some? ==> Fairly(BuildO(s, prev, c), FlowO(s, c), prev, c, SizeO(s))
  }

  lemma {:induction false} StmtFair(s: Stmt, prev: Option<nat>, c: nat)
    requires NoFunctions(s) && Earlier(prev, c) && Hooked(s, prev.Some?)
    ensures FairStmt(s, prev, c)
    decreases s, 1
  {
    match s
    case If(_, _, _) => IfIsFair(s, prev, c);
    case While(_, b) => WhileIsFair(s, prev, c);
    case For(_, _, _, _) => ForIsFair(s, prev, c);
    case Block(ss) =>
      SsAreFair(ss, prev, c);
      HookedEnds(s, prev, c);
      FairlyIs(Build(s, prev, c), Flow(s, c), prev, c, Size(s));
    case _ => FairlyIs(Build(s, prev, c), Flow(s, c), prev, c, Size(s));
  }

  lemma {:induction false} WhileIsFair(s: Stmt, prev: Option<nat>, c: nat)
    requires s.While? && NoFunctions(s) && Earlier(prev, c) && Hooked(s, prev.Some?)
    ensures FairStmt(s, prev, c)
    decreases s, 0
  {
    StmtIsLocal(s.loopBody, Some(c + 1), c + 2);
    StmtFair(s.loopBody, Some(c + 1), c + 2);
    PartsOf(s, prev, c);
    ExitBuilt(s, prev, c);
    WhileFair(prev, c, Build(s.loopBody, Some(c + 1), c + 2), Size(s.loopBody), Flow(s.loopBody, c + 2), Flow(s, c),
              Build(s, prev, c), Size(s));
  }

  lemma {:induction false} OFair(s: Option<Stmt>, prev: Option<nat>, c: nat)
    requires (s.Some? ==> NoFunctions(s.value)) && Earlier(prev, c) && HookedO(s, prev.Some?)
    ensures FairO(s, prev, c)
    decreases s
  {
    if s.Some? {
      StmtFair(s.value, prev, c);
    }
  }

  lemma {:induction false} IfIsFair(s: Stmt, prev: Option<nat>, c: nat)
    requires s.If? && NoFunctions(s) && Earlier(prev, c) && Hooked(s, prev.Some?)
    ensures FairStmt(s, prev, c)
    decreases s, 0
  {
    var at := c + 1 + Size(s.thenBranch);
    var merge := at + SizeO(s.elseBranch);
    StmtFair(s.thenBranch, Some(c), c + 1);
    OFair(s.elseBranch, Some(c), at);
    BranchesFair(s, prev, c, at, merge);
    IfBuilt(s, prev, c, at);
    IfFlow(s, c, at, merge);
    ExitBuilt(s, prev, c);
    FairEnough(Build(s, prev, c), Flow(s, c), prev, c, Size(s), EdgesOfIf(s, prev, c, at), StepsOfIf(s, c, at, merge));
  }

  lemma {:induction false} BranchesFair(s: Stmt, prev: Option<nat>, c: nat, at: nat, merge: nat)
    requires s.If? && NoFunctions(s) && at == c + 1 + Size(s.thenBranch) && merge == at + SizeO(s.elseBranch)
    requires FairStmt(s.thenBranch, Some(c), c + 1) && FairO(s.elseBranch, Some(c), at)
    ensures AllFair(EdgesOfIf(s, prev, c, at), StepsOfIf(s, c, at, merge), prev, c, Size(s))
  {
    var t, f := s.thenBranch, s.elseBranch;
    StmtIsLocal(t, Some(c), c + 1);
    OIsLocal(f, Some(c), at);
    IfFair(prev, c, at, merge, Build(t, Some(c), c + 1), BuildO(f, Some(c), at), f.Some?, Size(t), SizeO(f),
           Flow(t, c + 1), FlowO(f, at), Size(s));
  }

  lemma {:induction false} ForIsFair(s: Stmt, prev: Option<nat>, c: nat)
    requires s.For? && NoFunctions(s) && Earlier(prev, c) && Hooked(s, prev.Some?)
    ensures FairStmt(s, prev, c)
    decreases s, 0
  {
    var start := c + SizeO(s.init);
    ForPiecesLocal(s, prev, c, start);
    PiecesFair(s, prev, c, start);
    FairPiecesJoin(s, prev, c, start);
  }

  ghost predicate FairPieces(s: Stmt, prev: Option<nat>, c: nat, start: nat)
    requires s.For? && NoFunctions(s)
  {
    && FairO(s.init, prev, c)
    && Fairly(Body(s, start), Flow(s.forBody, start + 2), Some(start + 1), start + 2, Size(s.forBody))
    && (s.increment.Some? ==>
          Fairly(Increment(s, start), FlowO(s.increment, start + 2 + Size(s.forBody)), After(Body(s, start), start + 1),
                 start + 2 + Size(s.forBody), SizeO(s.increment)))
  }

  lemma {:induction false} FairPiecesJoin(s: Stmt, prev: Option<nat>, c: nat, start: nat)
    requires s.For? && NoFunctions(s) && ForPieces(s, prev, c, start) && FairPieces(s, prev, c, start)
    ensures FairStmt(s, prev, c)
  {
    ForEdgesFair(s, prev, c, start, Size(s));
    ForBuilt(s, prev, c, start);
    ForFlow(s, c, start);
    ExitBuilt(s, prev, c);
    FairEnough(Build(s, prev, c), Flow(s, c), prev, c, Size(s), EdgesOfFor(s, prev, c, start), StepsOfFor(s, c, start));
  }

  lemma {:induction false} ForEdgesFair(s: Stmt, prev: Option<nat>, c: nat, start: nat, total: nat)
    requires s.For? && NoFunctions(s) && ForPieces(s, prev, c, start) && FairPieces(s, prev, c, start)
    requires total > SizeO(s.init)
    ensures AllFair(EdgesOfFor(s, prev, c, start), StepsOfFor(s, c, start), prev, c, total)
  {
    ForStartsFair(s, prev, c, start, total);
    ForRoundsFair(s, prev, c, start);
    BothFair(StartEdges(prev, BuildO(s.init, prev, c)), RoundsOfFor(s, start), StepsOfFor(s, c, start), prev, c,
             start + 1, total);
  }

  function RoundsOfFor(s: Stmt, start: nat): set<Edge>
    requires s.For? && NoFunctions(s)
  {
    RoundEdges(start + 1, Body(s, start), Increment(s, start))
  }

  lemma {:induction false} ForStartsFair(s: Stmt, prev: Option<nat>, c: nat, start: nat, total: nat)
    requires s.For? && NoFunctions(s) && ForPieces(s, prev, c, start) && FairO(s.init, prev, c) && total > SizeO(s.init)
    ensures AllFair(StartEdges(prev, BuildO(s.init, prev, c)), StepsOfFor(s, c, start), prev, c, total)
  {
    ForStartFair(prev, c, BuildO(s.init, prev, c), s.init.Some?, SizeO(s.init), start, Size(s.forBody),
                 SizeO(s.increment), FlowO(s.init, c), Flow(s.forBody, start + 2),
                 FlowO(s.increment, start + 2 + Size(s.forBody)), total);
  }

  lemma {:induction false} ForRoundsFair(s: Stmt, prev: Option<nat>, c: nat, start: nat)
    requires s.For? && NoFunctions(s) && ForPieces(s, prev, c, start) && FairPieces(s, prev, c, start)
    ensures AllFair(RoundsOfFor(s, start), StepsOfFor(s, c, start), None, start + 1, 0)
  {
    var m := Size(s.forBody);
    ForRoundFair(c, SizeO(s.init), start, start + 1, start + 2, start + 2 + m, Body(s, start), Increment(s, start),
                 s.increment.Some?, m, SizeO(s.increment), FlowO(s.init, c), Flow(s.forBody, start + 2),
                 FlowO(s.increment, start + 2 + m));
  }

  lemma {:induction false} PiecesFair(s: Stmt, prev: Option<nat>, c: nat, start: nat)
    requires s.For? && NoFunctions(s) && Earlier(prev, c) && Hooked(s, prev.Some?) && ForPieces(s, prev, c, start)
    ensures FairPieces(s, prev, c, start)
    decreases s, 0, 0
  {
    var m, test := Size(s.forBody), start + 1;
    LocalIs(Body(s, start), Some(test), start + 2, m);
    OFair(s.init, prev, c);
    StmtFair(s.forBody, Some(test), start + 2);
    OFair(s.increment, After(Body(s, start), test), start + 2 + m);
  }

  lemma {:induction false} SsAreFair(ss: seq<Stmt>, prev: Option<nat>, c: nat)
    requires (forall i :: 0 <= i < |ss| ==> NoFunctions(ss[i])) && Earlier(prev, c) && HookedSs(ss, prev.Some?)
    ensures AllFair(BuildSs(ss, prev, c).edges, FlowSs(ss, c), prev, c, SizeSs(ss))
    decreases ss
  {
    if ss != [] {
      var front, last := ss[..|ss| - 1], ss[|ss| - 1];
      var m, f := SizeSs(front), BuildSs(front, prev, c);
      SsAreFair(front, prev, c);
      HookedSsEnd(front, prev, c);
      FairlyIs(f, FlowSs(front, c), prev, c, m);
      SsIsLocal(front, prev, c);
      LocalIs(f, prev, c, m);
      EntersSsIs(front, prev, c);
      StmtFair(last, f.exit, c + m);
      SsFair(f, prev, c, m, Build(last, f.exit, c + m), c + m, Size(last), FlowSs(front, c), Flow(last, c + m));
      assert SizeSs(ss) == m + Size(last);
    }
  }

  /** A hooked program without functions and returns has no edges but the steps of its runs, each with its outcome,
      the same steps once more under the label of plain succession, and edges from a node to itself. */
  lemma {:induction false} NoOtherEdges(ss: seq<Stmt>)
    requires StructuredSs(ss) && HookedTop(ss)
    ensures forall e :: e in BuildTop(ss).edges ==> Fair(e, FlowSs(ss, 0))
    decreases ss
  {
    if ss != [] {
      var front, last := ss[..|ss| - 1], ss[|ss| - 1];
      var m, f := SizeSs(front), BuildTop(front);
      NoOtherEdges(front);
      HookedTopEnds(front);
      TopIsLocal(front);
      CoherentTopIsHooked(front);
      FairlyIs(f, FlowSs(front, 0), None, 0, m);
      StmtFair(last, f.exit, m);
      SsFair(f, None, 0, m, Build(last, f.exit, m), m, Size(last), FlowSs(front, 0), Flow(last, m));
    }
  }

  lemma {:induction false} HookedTopEnds(ss: seq<Stmt>)
    requires (forall i :: 0 <= i < |ss| ==> NoFunctions(ss[i])) && HookedTop(ss)
    ensures BuildTop(ss).exit == Exit(None, 0, SizeSs(ss)) && BuildTop(ss).next == SizeSs(ss)
    decreases ss
  {
    TopIsLocal(ss);
    CoherentTopIsHooked(ss);
    if ss != [] {
      var front, last := ss[..|ss| - 1], ss[|ss| - 1];
      HookedTopEnds(front);
      CoherentTopIsHooked(front);
      HookedEnds(last, BuildTop(front).exit, SizeSs(front));
      assert SizeSs(ss) == SizeSs(front) + Size(last);
    }
  }
}
