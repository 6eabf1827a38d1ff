// The control-flow graph, and the nodes that a run of the program visits in it.
module FlowGraph {
  import opened Ast
  import opened Values
  import opened Interpreter

  datatype Label = Next | OnTrue | OnFalse | Back

  /** Nodes are numbered in the order of their creation. */
  datatype Edge = Edge(from: nat, to: nat, kind: Label)

  /** What the builder makes of a statement: where control enters and leaves it, its edges, and the
      number of the next node. */
  datatype Part = Part(entry: Option<nat>, exit: Option<nat>, edges: set<Edge>, next: nat)

  function Link(from: Option<nat>, to: Option<nat>, kind: Label): set<Edge> {
    if from.Some? && to.Some? then {Edge(from.value, to.value, kind)} else {}
  }

  /** Statements without function declarations. */
  predicate NoFunctions(s: Stmt) {
    match s
    case If(_, t, f) => NoFunctions(t) && (f.Some? ==> NoFunctions(f.value))
    case While(_, b) => NoFunctions(b)
    case For(init, _, step, b) =>
      (init.Some? ==> NoFunctions(init.value)) && (step.Some? ==> NoFunctions(step.value)) && NoFunctions(b)
    case Block(ss) => forall i :: 0 <= i < |ss| ==> NoFunctions(ss[i])
    case Function(_, _, _) => false
    case _ => true
  }

  /** Where a part ends that is entered from `from`. */
  function After(p: Part, from: nat): Option<nat> {
    if p.exit.Some? then p.exit else Some(from)
  }

  /** The edges of a for loop from those of its initialisation, its body and its increment. */
  function ForEdges(prev: Option<nat>, i: Part, p: Part, q: Part): set<Edge> {
    StartEdges(prev, i) + RoundEdges(i.next + 1, p, q)
  }

  /** Those up to the test. */
  function StartEdges(prev: Option<nat>, i: Part): set<Edge> {
    i.edges + Link(prev, i.entry, Next) + Link(Before(prev, i), Some(i.next), Next)
    + Link(Some(i.next), Some(i.next + 1), Next)
  }

  /** Those that come after the test. */
  function RoundEdges(cond: nat, p: Part, q: Part): set<Edge> {
    var last := After(p, cond);
    p.edges + Link(Some(cond), p.entry, OnTrue) + q.edges + Link(last, q.entry, Next)
    + Link(After(q, last.value), Some(cond), Back) + Link(Some(cond), Some(q.next), OnFalse)
  }

  /** What the entry node of a for loop is attached to. */
  function Before(prev: Option<nat>, i: Part): Option<nat> {
    if i.exit.Some? then i.exit else if i.entry.Some? then i.entry else prev
  }

  function Build(s: Stmt, prev: Option<nat>, c: nat): Part
    requires NoFunctions(s)
    decreases s, 2
  {
    match s
    case Let(_, _, _) => Part(Some(c), Some(c), Link(prev, Some(c), Next), c + 1)
    case Print(_) => Part(Some(c), Some(c), Link(prev, Some(c), Next), c + 1)
    case Return(_) => Part(Some(c), Some(c), Link(prev, Some(c), Next), c + 1)
    case If(_, _, _) => BuildIf(s, prev, c)
    case While(_, _) => BuildWhile(s, prev, c)
    case For(_, _, _, _) => BuildFor(s, prev, c)
    case Block(ss) => BuildSs(ss, prev, c)
    case _ => Part(prev, prev, {}, c)
  }

  function BuildIf(s: Stmt, prev: Option<nat>, c: nat): Part
    requires s.If? && NoFunctions(s)
    decreases s, 1
  {
    var p := Build(s.thenBranch, Some(c), c + 1);
    var q := BuildO(s.elseBranch, Some(c), p.next);
    var merge := q.next;
    Part(Some(c), Some(merge),
         Link(prev, Some(c), Next) + p.edges + Link(Some(c), p.entry, OnTrue)
         + q.edges + Link(Some(c), q.entry, OnFalse)
         + (if p.exit.Some? then Link(p.exit, Some(merge), Next) else Link(Some(c), Some(merge), OnTrue))
         + (if q.exit.Some? then Link(q.exit, Some(merge), Next)
            else if s.elseBranch.None? then Link(Some(c), Some(merge), OnFalse) else {}),
         merge + 1)
  }

  function BuildWhile(s: Stmt, prev: Option<nat>, c: nat): Part
    requires s.While? && NoFunctions(s)
    decreases s, 1
  {
    var cond := c + 1;
    var p := Build(s.loopBody, Some(cond), c + 2);
    Part(Some(c), Some(p.next),
         Link(prev, Some(c), Next) + Link(Some(c), Some(cond), Next) + p.edges + Link(Some(cond), p.entry, OnTrue)
         + Link(After(p, cond), Some(cond), Back) + Link(Some(cond), Some(p.next), OnFalse),
         p.next + 1)
  }

  function BuildFor(s: Stmt, prev: Option<nat>, c: nat): Part
    requires s.For? && NoFunctions(s)
    decreases s, 1
  {
    var i := BuildO(s.init, prev, c);
    var p := Build(s.forBody, Some(i.next + 1), i.next + 2);
    var q := BuildO(s.increment, After(p, i.next + 1), p.next);
    Part(if i.entry.Some? then i.entry else prev, Some(q.next), ForEdges(prev, i, p, q), q.next + 1)
  }

  function BuildO(s: Option<Stmt>, prev: Option<nat>, c: nat): Part
    requires s.Some? ==> NoFunctions(s.value)
    decreases s, 0
  {
    if s.Some? then Build(s.value, prev, c) else Part(None, None, {}, c)
  }

  /** A statement without an entry leaves the place where the next one is attached as it was. */
  function BuildSs(ss: seq<Stmt>, prev: Option<nat>, c: nat): Part
    requires forall i :: 0 <= i < |ss| ==> NoFunctions(ss[i])
    decreases ss, 0
  {
    if ss == [] then Part(None, prev, {}, c)
    else
      var front := BuildSs(ss[..|ss| - 1], prev, c);
      var p := Build(ss[|ss| - 1], front.exit, front.next);
      Part(if |ss| == 1 then p.entry else front.entry, if p.entry.Some? then p.exit else front.exit,
           front.edges + p.edges, p.next)
  }

  /** The outermost statements: here it is the exit that counts. */
  function BuildTop(ss: seq<Stmt>): Part
    requires forall i :: 0 <= i < |ss| ==> NoFunctions(ss[i])
  {
    if ss == [] then Part(None, None, {}, 0)
    else
      var front := BuildTop(ss[..|ss| - 1]);
      var p := Build(ss[|ss| - 1], front.exit, front.next);
      Part(None, if p.exit.Some? then p.exit else front.exit, front.edges + p.edges, p.next)
  }

  // ---- What a run visits ----

  /** How many nodes a statement makes, wherever it is attached. */
  function Nodes(s: Stmt): nat {
    match s
    case Let(_, _, _) => 1
    case Print(_) => 1
    case Return(_) => 1
    case If(_, t, f) => 2 + Nodes(t) + NodesO(f)
    case While(_, b) => 3 + Nodes(b)
    case For(init, _, step, b) => NodesO(init) + 3 + Nodes(b) + NodesO(step)
    case Block(ss) => NodesSs(ss)
    case _ => 0
  }

  function NodesO(s: Option<Stmt>): nat {
    if s.Some? then Nodes(s.value) else 0
  }

  function NodesSs(ss: seq<Stmt>): nat {
    if ss == [] then 0 else NodesSs(ss[..|ss| - 1]) + Nodes(ss[|ss| - 1])
  }

  function Visited(fmt: Format, s: Stmt, store: Store, fuel: nat, c: nat): seq<nat>
    requires ExecS(fmt, s, store, fuel).Done?
    decreases fuel, s, 2
  {
    match s
    case Let(_, _, _) => [c]
    case Print(_) => [c]
    case If(e, t, f) =>
      AgreementIsDefined(fmt, e, store);
      [c]
      + (if Truthy(Evaluate(fmt, e, store).value) then Visited(fmt, t, store, fuel, c + 1)
         else VisitedO(fmt, f, store, fuel, c + 1 + Nodes(t)))
      + [c + 1 + Nodes(t) + NodesO(f)]
    case While(_, b) => [c] + Turns(fmt, s, store, fuel, c) + [c + 2 + Nodes(b)]
    case For(init, _, step, b) =>
      var start := c + NodesO(init);
      VisitedO(fmt, init, store, fuel, c) + [start]
      + Rounds(fmt, s, ExecO(fmt, init, store, fuel).store, fuel, start) + [start + 2 + Nodes(b) + NodesO(step)]
    case Block(ss) => VisitedSs(fmt, ss, store, fuel, c)
    case _ => []
  }

  function VisitedO(fmt: Format, s: Option<Stmt>, store: Store, fuel: nat, c: nat): seq<nat>
    requires ExecO(fmt, s, store, fuel).Done?
    decreases fuel, s
  {
    if s.Some? then Visited(fmt, s.value, store, fuel, c) else []
  }

  /** The test of a while loop, and what its rounds visit between it and the last test. */
  function Turns(fmt: Format, s: Stmt, store: Store, fuel: nat, c: nat): seq<nat>
    requires s.While? && ExecS(fmt, s, store, fuel).Done?
    decreases fuel, s, 1
  {
    AgreementIsDefined(fmt, s.guard, store);
    if !Truthy(Evaluate(fmt, s.guard, store).value) then [c + 1]
    else
      var round := ExecS(fmt, s.loopBody, store, fuel);
      [c + 1] + Visited(fmt, s.loopBody, store, fuel, c + 2) + Turns(fmt, s, round.store, fuel - 1, c)
  }

  /** The same for a for loop whose entry node has the number `start`. */
  function Rounds(fmt: Format, s: Stmt, store: Store, fuel: nat, start: nat): seq<nat>
    requires s.For? && ExecLoop(fmt, s, store, fuel).Done?
    decreases fuel, s, 1
  {
    if !Continues(fmt, s.test, store) then [start + 1]
    else
      var round := ExecRound(fmt, s, store, fuel);
      assert round.Done?;
      [start + 1] + VisitedRound(fmt, s, store, fuel, start) + Rounds(fmt, s, round.store, fuel - 1, start)
  }

  /** One body and one increment. */
  function VisitedRound(fmt: Format, s: Stmt, store: Store, fuel: nat, start: nat): seq<nat>
    requires s.For? && ExecRound(fmt, s, store, fuel).Done?
    decreases fuel, s, 0
  {
    var body := ExecS(fmt, s.forBody, store, fuel);
    Visited(fmt, s.forBody, store, fuel, start + 2)
    + VisitedStep(fmt, s.increment, body.store, fuel, start + 2 + Nodes(s.forBody))
  }

  function VisitedStep(fmt: Format, s: Option<Stmt>, store: Store, fuel: nat, c: nat): seq<nat>
    requires ExecStep(fmt, s, store, fuel).Done?
    decreases fuel, s
  {
    if s.None? || s.value.Bare? then [] else Visited(fmt, s.value, store, fuel, c)
  }

  function VisitedSs(fmt: Format, ss: seq<Stmt>, store: Store, fuel: nat, c: nat): seq<nat>
    requires ExecSs(fmt, ss, store, fuel).Done?
    decreases fuel, ss
  {
    if ss == [] then []
    else
      var front := ss[..|ss| - 1];
      VisitedSs(fmt, front, store, fuel, c)
      + Visited(fmt, ss[|ss| - 1], ExecSs(fmt, front, store, fuel).store, fuel, c + NodesSs(front))
  }

  lemma {:induction false} NextCounts(s: Stmt, prev: Option<nat>, c: nat)
    requires NoFunctions(s)
    ensures Build(s, prev, c).next == c + Nodes(s)
    decreases s, 1
  {
    match s
    case If(_, t, f) =>
      NextCounts(t, Some(c), c + 1);
      NextCountsO(f, Some(c), c + 1 + Nodes(t));
    case While(_, b) => NextCounts(b, Some(c + 1), c + 2);
    case For(_, _, _, _) => NextCountsFor(s, prev, c);
    case Block(ss) => NextCountsSs(ss, prev, c);
    case _ =>
  }

  lemma {:induction false} NextCountsFor(s: Stmt, prev: Option<nat>, c: nat)
    requires s.For? && NoFunctions(s)
    ensures BuildFor(s, prev, c).next == c + Nodes(s)
    decreases s, 0
  {
    NextCountsO(s.init, prev, c);
    var start := c + NodesO(s.init);
    NextCounts(s.forBody, Some(start + 1), start + 2);
    var p := Build(s.forBody, Some(start + 1), start + 2);
    NextCountsO(s.increment, After(p, start + 1), start + 2 + Nodes(s.forBody));
  }

  lemma {:induction false} NextCountsO(s: Option<Stmt>, prev: Option<nat>, c: nat)
    requires s.Some? ==> NoFunctions(s.value)
    ensures BuildO(s, prev, c).next == c + NodesO(s)
    decreases s, 0
  {
    if s.Some? {
      NextCounts(s.value, prev, c);
    }
  }

  lemma {:induction false} NextCountsSs(ss: seq<Stmt>, prev: Option<nat>, c: nat)
    requires forall i :: 0 <= i < |ss| ==> NoFunctions(ss[i])
    ensures BuildSs(ss, prev, c).next == c + NodesSs(ss)
    decreases ss, 0
  {
    if ss != [] {
      var front, last := ss[..|ss| - 1], ss[|ss| - 1];
      NextCountsSs(front, prev, c);
      NextCounts(last, BuildSs(front, prev, c).exit, c + NodesSs(front));
    }
  }
}
