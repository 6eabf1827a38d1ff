// The steps that control can take between the nodes of a program, each with the outcome that takes
// it, told from the text alone; and the steps that a run does take.
module FlowLabels {
  import opened Ast
  import opened Values
  import opened Interpreter
  import opened FlowGraph
  import opened FlowPaths

  /** No functions and no returns: control leaves every statement at its end. */
  predicate Structured(s: Stmt): (b: bool)
    ensures b ==> NoFunctions(s)
  {
    match s
    case If(_, t, f) => Structured(t) && StructuredO(f)
    case While(_, b) => Structured(b)
    case For(init, _, step, b) => StructuredO(init) && StructuredO(step) && Structured(b)
    case Block(ss) => forall i :: 0 <= i < |ss| ==> Structured(ss[i])
    case Function(_, _, _) => false
    case Return(_) => false
    case _ => true
  }

  predicate StructuredO(s: Option<Stmt>): (b: bool)
    ensures b && s.Some? ==> NoFunctions(s.value)
  {
    s.Some? ==> Structured(s.value)
  }

  predicate StructuredSs(ss: seq<Stmt>): (b: bool)
    ensures b ==> forall i :: 0 <= i < |ss| ==> NoFunctions(ss[i])
  {
    forall i :: 0 <= i < |ss| ==> Structured(ss[i])
  }

  // ---- The steps there are ----

  /** How many nodes there are.  These are the counts of the graph under names that recursion does not go
      through, so that sums of them stay as they are written. */
  function Size(s: Stmt): nat {
    Nodes(s)
  }

  function SizeO(s: Option<Stmt>): nat {
    NodesO(s)
  }

  function SizeSs(ss: seq<Stmt>): nat {
    NodesSs(ss)
  }

  /** Between two parts in a row of `m` and `n` nodes, the first of which begins at `c`. */
  function Join(c: nat, m: nat, n: nat): set<Edge> {
    if m > 0 && n > 0 then {Edge(c + m - 1, c + m, Next)} else {}
  }

  /** By the outcome `how` from the condition `c` into a branch of `n` nodes from `at` on, which has the steps `a`, and
      from its last node to `merge`; straight there if the branch has no nodes. */
  function BranchSteps(c: nat, how: Label, at: nat, n: nat, merge: nat, a: set<Edge>): set<Edge> {
    (if n == 0 then {Edge(c, merge, how)} else {Edge(c, at, how), Edge(at + n - 1, merge, Next)}) + a
  }

  /** Round a loop with the test `test`: through a body of `m` nodes, which has the steps `a`, and an increment of
      `n` nodes with the steps `b`, and back. */
  function RoundSteps(test: nat, m: nat, n: nat, a: set<Edge>, b: set<Edge>): set<Edge> {
    (if m + n == 0 then {Edge(test, test, Back)}
     else {Edge(test, test + 1, OnTrue), Edge(test + m + n, test, Back)})
    + (a + Join(test + 1, m, n) + b)
  }

  /** From the entry node of a loop to its test, round, and out. */
  function LoopSteps(start: nat, m: nat, n: nat, a: set<Edge>, b: set<Edge>): set<Edge> {
    {Edge(start, start + 1, Next), Edge(start + 1, start + 2 + m + n, OnFalse)} + RoundSteps(start + 1, m, n, a, b)
  }

  /** The steps inside a statement whose nodes are numbered from `c` on.  It is entered at the first of them and
      left at the last. */
  function Flow(s: Stmt, c: nat): set<Edge>
    decreases s, 1
  {
    match s
    case If(_, t, f) =>
      var at, merge := c + 1 + Size(t), c + 1 + Size(t) + SizeO(f);
      BranchSteps(c, OnTrue, c + 1, Size(t), merge, Flow(t, c + 1))
      + BranchSteps(c, OnFalse, at, SizeO(f), merge, FlowO(f, at))
    case While(_, b) => LoopSteps(c, Size(b), 0, Flow(b, c + 2), {})
    case For(init, _, step, b) =>
      FlowO(init, c) + Join(c, SizeO(init), 3 + Size(b) + SizeO(step)) + FlowLoop(s, c + SizeO(init))
    case Block(ss) => FlowSs(ss, c)
    case _ => {}
  }

  /** The loop of a `for` whose entry node is `start`. */
  function FlowLoop(s: Stmt, start: nat): set<Edge>
    requires s.For?
    decreases s, 0
  {
    LoopSteps(start, Size(s.forBody), SizeO(s.increment), Flow(s.forBody, start + 2),
              FlowO(s.increment, start + 2 + Size(s.forBody)))
  }

  function FlowO(s: Option<Stmt>, c: nat): set<Edge>
    decreases s
  {
    if s.Some? then Flow(s.value, c) else {}
  }

  function FlowSs(ss: seq<Stmt>, c: nat): set<Edge>
    decreases ss
  {
    if ss == [] then {}
    else
      var front, last := ss[..|ss| - 1], ss[|ss| - 1];
      FlowSs(front, c) + Join(c, SizeSs(front), Size(last)) + Flow(last, c + SizeSs(front))
  }

  // ---- For each outcome one ----

  ghost predicate Within(edges: set<Edge>, c: nat, n: nat) {
    forall e :: e in edges ==> c <= e.from < c + n && c <= e.to < c + n
  }

  /** At most one step for a false condition and one for anything else, from each node. */
  ghost predicate OneWay(edges: set<Edge>) {
    forall e, f :: e in edges && f in edges && e.from == f.from && (e.kind == OnFalse <==> f.kind == OnFalse) ==> e == f
  }

  /** No step leaves the last node. */
  ghost predicate Stops(edges: set<Edge>, last: int) {
    forall e :: e in edges ==> e.from != last
  }

  ghost predicate IsShapely(edges: set<Edge>, c: nat, n: nat) {
    && Within(edges, c, n) && OneWay(edges) && Stops(edges, c + n - 1) && (n == 0 ==> edges == {})
    && forall e :: e in edges && e.from == e.to ==> e.kind == Back
  }

  ghost predicate Alike(a: set<Edge>, b: set<Edge>) {
    a == b
  }

  /** The quantifier keeps provers from unfolding what that means where it does not matter. */
  ghost predicate Shapely(edges: set<Edge>, c: nat, n: nat) {
    forall x :: Alike(x, edges) ==> IsShapely(x, c, n)
  }

  lemma ShapelyIs(edges: set<Edge>, c: nat, n: nat)
    ensures Shapely(edges, c, n) <==> IsShapely(edges, c, n)
  {
    assert Alike(edges, edges);
  }

  lemma JoinShapely(a: set<Edge>, b: set<Edge>, c: nat, m: nat, at: nat, n: nat)
    requires Shapely(a, c, m) && Shapely(b, at, n) && at == c + m
    ensures Shapely(a + Join(c, m, n) + b, c, m + n)
  {
    ShapelyIs(a, c, m);
    ShapelyIs(b, at, n);
    ShapelyIs(a + Join(c, m, n) + b, c, m + n);
  }

  /** Steps that leave `c` by the outcome `how`, or lie among the `n` nodes from `at` on, or end at `merge`. */
  ghost predicate IsBranching(edges: set<Edge>, c: nat, how: Label, at: nat, n: nat, merge: nat) {
    && OneWay(edges)
    && forall e :: e in edges ==>
         && ((e.from == c && e.kind == how) || at <= e.from < at + n)
         && (e.to == merge || at <= e.to < at + n)
         && (e.from == e.to ==> e.kind == Back)
  }

  ghost predicate Branching(edges: set<Edge>, c: nat, how: Label, at: nat, n: nat, merge: nat) {
    forall x :: Alike(x, edges) ==> IsBranching(x, c, how, at, n, merge)
  }

  lemma BranchingIs(edges: set<Edge>, c: nat, how: Label, at: nat, n: nat, merge: nat)
    ensures Branching(edges, c, how, at, n, merge) <==> IsBranching(edges, c, how, at, n, merge)
  {
    assert Alike(edges, edges);
  }

  lemma BranchIsBranching(a: set<Edge>, c: nat, how: Label, at: nat, n: nat, merge: nat)
    requires Shapely(a, at, n) && c < at && at + n <= merge
    ensures Branching(BranchSteps(c, how, at, n, merge, a), c, how, at, n, merge)
  {
    ShapelyIs(a, at, n);
    BranchingIs(BranchSteps(c, how, at, n, merge, a), c, how, at, n, merge);
  }

  lemma BranchesJoin(a: set<Edge>, b: set<Edge>, c: nat, m: nat, n: nat)
    requires Branching(a, c, OnTrue, c + 1, m, c + 1 + m + n) && Branching(b, c, OnFalse, c + 1 + m, n, c + 1 + m + n)
    ensures Shapely(a + b, c, m + n + 2)
  {
    BranchingIs(a, c, OnTrue, c + 1, m, c + 1 + m + n);
    BranchingIs(b, c, OnFalse, c + 1 + m, n, c + 1 + m + n);
    ShapelyIs(a + b, c, m + n + 2);
  }

  lemma BranchesShapely(a: set<Edge>, b: set<Edge>, c: nat, at: nat, merge: nat, m: nat, n: nat)
    requires Shapely(a, c + 1, m) && Shapely(b, at, n) && at == c + 1 + m && merge == at + n
    ensures Shapely(BranchSteps(c, OnTrue, c + 1, m, merge, a) + BranchSteps(c, OnFalse, at, n, merge, b), c, m + n + 2)
  {
    BranchIsBranching(a, c, OnTrue, c + 1, m, merge);
    BranchIsBranching(b, c, OnFalse, at, n, merge);
    BranchesJoin(BranchSteps(c, OnTrue, c + 1, m, merge, a), BranchSteps(c, OnFalse, at, n, merge, b), c, m, n);
  }

  lemma CircleShapely(x: set<Edge>, start: nat, n: nat, all: set<Edge>)
    requires Shapely(x, start + 2, n)
    requires all == {Edge(start, start + 1, Next), Edge(start + 1, start + 2 + n, OnFalse)}
                    + ((if n == 0 then {Edge(start + 1, start + 1, Back)}
                        else {Edge(start + 1, start + 2, OnTrue), Edge(start + 1 + n, start + 1, Back)}) + x)
    ensures Shapely(all, start, 3 + n)
  {
    ShapelyIs(x, start + 2, n);
    ShapelyIs(all, start, 3 + n);
  }

  lemma LoopShapely(a: set<Edge>, b: set<Edge>, start: nat, m: nat, n: nat)
    requires Shapely(a, start + 2, m) && Shapely(b, start + 2 + m, n)
    ensures Shapely(LoopSteps(start, m, n, a, b), start, 3 + m + n)
  {
    JoinShapely(a, b, start + 2, m, start + 2 + m, n);
    CircleShapely(a + Join(start + 2, m, n) + b, start, m + n, LoopSteps(start, m, n, a, b));
  }

  /** The steps stay among the nodes of the statement, never leave the last, and from each node there is at most
      one for each outcome. */
  lemma {:induction false} FlowIsShapely(s: Stmt, c: nat)
    ensures Shapely(Flow(s, c), c, Size(s))
    decreases s, 2
  {
    match s
    case If(_, _, _) => FlowIfIsShapely(s, c);
    case While(_, _) => FlowWhileIsShapely(s, c);
    case For(_, _, _, _) => FlowForIsShapely(s, c);
    case Block(ss) => FlowSsIsShapely(ss, c);
    case _ => ShapelyIs({}, c, Size(s));
  }

  lemma {:induction false} FlowIfIsShapely(s: Stmt, c: nat)
    requires s.If?
    ensures Shapely(Flow(s, c), c, Size(s))
    decreases s, 1
  {
    var m, n, at := Size(s.thenBranch), SizeO(s.elseBranch), c + 1 + Size(s.thenBranch);
    FlowIsShapely(s.thenBranch, c + 1);
    FlowOIsShapely(s.elseBranch, at);
    BranchesShapely(Flow(s.thenBranch, c + 1), FlowO(s.elseBranch, at), c, at, at + n, m, n);
  }

  lemma {:induction false} FlowWhileIsShapely(s: Stmt, c: nat)
    requires s.While?
    ensures Shapely(Flow(s, c), c, Size(s))
    decreases s, 1
  {
    FlowIsShapely(s.loopBody, c + 2);
    ShapelyIs({}, c + 2 + Size(s.loopBody), 0);
    LoopShapely(Flow(s.loopBody, c + 2), {}, c, Size(s.loopBody), 0);
  }

  lemma {:induction false} FlowForIsShapely(s: Stmt, c: nat)
    requires s.For?
    ensures Shapely(Flow(s, c), c, Size(s))
    decreases s, 1
  {
    FlowForJoins(s, c, SizeO(s.init), c + SizeO(s.init), 3 + Size(s.forBody) + SizeO(s.increment), Size(s));
    FlowForNamed(s, c, c + SizeO(s.init));
    ShapelyAs(FlowFor(s, c, c + SizeO(s.init)), Flow(s, c), c, Size(s), Size(s));
  }

  function FlowFor(s: Stmt, c: nat, start: nat): set<Edge>
    requires s.For?
  {
    FlowO(s.init, c) + Join(c, SizeO(s.init), 3 + Size(s.forBody) + SizeO(s.increment)) + FlowLoop(s, start)
  }

  lemma FlowForNamed(s: Stmt, c: nat, start: nat)
    requires s.For? && start == c + SizeO(s.init)
    ensures Flow(s, c) == FlowFor(s, c, start)
  {
    FlowForIs(s, c, SizeO(s.init), 3 + Size(s.forBody) + SizeO(s.increment));
  }

  lemma {:induction false} FlowForJoins(s: Stmt, c: nat, k: nat, start: nat, n: nat, total: nat)
    requires s.For? && k == SizeO(s.init) && start == c + k && n == 3 + Size(s.forBody) + SizeO(s.increment)
    requires total == k + n
    ensures Shapely(FlowFor(s, c, start), c, total)
    decreases s, 0, 1
  {
    FlowOIsShapely(s.init, c);
    FlowLoopIsShapely(s, start);
    JoinShapely(FlowO(s.init, c), FlowLoop(s, start), c, k, start, n);
  }

  lemma ShapelyAs(a: set<Edge>, b: set<Edge>, c: nat, m: nat, n: nat)
    requires Shapely(a, c, m) && a == b && m == n
    ensures Shapely(b, c, n)
  {
  }

  lemma FlowForIs(s: Stmt, c: nat, k: nat, n: nat)
    requires s.For? && k == SizeO(s.init) && n == 3 + Size(s.forBody) + SizeO(s.increment)
    ensures Flow(s, c) == FlowO(s.init, c) + Join(c, k, n) + FlowLoop(s, c + k) && Size(s) == k + n
  {
  }

  lemma {:induction false} FlowLoopIsShapely(s: Stmt, start: nat)
    requires s.For?
    ensures Shapely(FlowLoop(s, start), start, 3 + Size(s.forBody) + SizeO(s.increment))
    decreases s, 0, 0
  {
    var m, n := Size(s.forBody), SizeO(s.increment);
    FlowIsShapely(s.forBody, start + 2);
    FlowOIsShapely(s.increment, start + 2 + m);
    LoopShapely(Flow(s.forBody, start + 2), FlowO(s.increment, start + 2 + m), start, m, n);
  }

  lemma {:induction false} FlowOIsShapely(s: Option<Stmt>, c: nat)
    ensures Shapely(FlowO(s, c), c, SizeO(s))
    decreases s
  {
    ShapelyIs({}, c, 0);
    if s.Some? {
      FlowIsShapely(s.value, c);
    }
  }

  lemma {:induction false} FlowSsIsShapely(ss: seq<Stmt>, c: nat)
    ensures Shapely(FlowSs(ss, c), c, SizeSs(ss))
    decreases ss
  {
    ShapelyIs({}, c, 0);
    if ss != [] {
      var front, last := ss[..|ss| - 1], ss[|ss| - 1];
      FlowSsIsShapely(front, c);
      FlowIsShapely(last, c + SizeSs(front));
      JoinShapely(FlowSs(front, c), Flow(last, c + SizeSs(front)), c, SizeSs(front), c + SizeSs(front), Size(last));
    }
  }

  // ---- The steps that a run takes ----

  /** A node, and the outcome by which it is entered. */
  datatype Step = Step(how: Label, node: nat)

  /** How what comes next is entered: by the same outcome if nothing has been visited. */
  function Passed(how: Label, trace: seq<Step>): Label {
    if trace == [] then how else Next
  }

  /** What a run visits, and how: out of a condition by whether it holds in the store at that moment, and into a
      test again by going back. */
  function Trace(fmt: Format, s: Stmt, store: Store, fuel: nat, c: nat, how: Label): seq<Step>
    requires ExecS(fmt, s, store, fuel).Done?
    decreases fuel, s, 3
  {
    match s
    case Let(_, _, _) => [Step(how, c)]
    case Print(_) => [Step(how, c)]
    case If(e, t, f) =>
      AgreementIsDefined(fmt, e, store);
      var holds := Truthy(Evaluate(fmt, e, store).value);
      var outcome := if holds then OnTrue else OnFalse;
      var branch := if holds then Trace(fmt, t, store, fuel, c + 1, OnTrue)
                    else TraceO(fmt, f, store, fuel, c + 1 + Size(t), OnFalse);
      [Step(how, c)] + branch + [Step(Passed(outcome, branch), c + 1 + Size(t) + SizeO(f))]
    case While(_, b) => [Step(how, c)] + TraceTurns(fmt, s, store, fuel, c, Next) + [Step(OnFalse, c + 2 + Size(b))]
    case For(init, _, _, _) =>
      var first := TraceO(fmt, init, store, fuel, c, how);
      first + TraceLoop(fmt, s, ExecO(fmt, init, store, fuel).store, fuel, c + SizeO(init), Passed(how, first))
    case Block(ss) => TraceSs(fmt, ss, store, fuel, c, how)
    case _ => []
  }

  function TraceO(fmt: Format, s: Option<Stmt>, store: Store, fuel: nat, c: nat, how: Label): seq<Step>
    requires ExecO(fmt, s, store, fuel).Done?
    decreases fuel, s
  {
    if s.Some? then Trace(fmt, s.value, store, fuel, c, how) else []
  }

  function TraceTurns(fmt: Format, s: Stmt, store: Store, fuel: nat, c: nat, how: Label): seq<Step>
    requires s.While? && ExecS(fmt, s, store, fuel).Done?
    decreases fuel, s, 1
  {
    AgreementIsDefined(fmt, s.guard, store);
    if !Truthy(Evaluate(fmt, s.guard, store).value) then [Step(how, c + 1)]
    else
      var round := ExecS(fmt, s.loopBody, store, fuel);
      [Step(how, c + 1)] + Trace(fmt, s.loopBody, store, fuel, c + 2, OnTrue)
      + TraceTurns(fmt, s, round.store, fuel - 1, c, Back)
  }

  /** A for loop from its entry node `start` to its exit. */
  function TraceLoop(fmt: Format, s: Stmt, store: Store, fuel: nat, start: nat, how: Label): seq<Step>
    requires s.For? && ExecLoop(fmt, s, store, fuel).Done?
    decreases fuel, s, 2
  {
    [Step(how, start)] + TraceRounds(fmt, s, store, fuel, start, Next)
    + [Step(OnFalse, start + 2 + Size(s.forBody) + SizeO(s.increment))]
  }

  function TraceRounds(fmt: Format, s: Stmt, store: Store, fuel: nat, start: nat, how: Label): seq<Step>
    requires s.For? && ExecLoop(fmt, s, store, fuel).Done?
    decreases fuel, s, 1
  {
    if !Continues(fmt, s.test, store) then [Step(how, start + 1)]
    else
      var round := ExecRound(fmt, s, store, fuel);
      assert round.Done?;
      [Step(how, start + 1)] + TraceRound(fmt, s, store, fuel, start)
      + TraceRounds(fmt, s, round.store, fuel - 1, start, Back)
  }

  function TraceRound(fmt: Format, s: Stmt, store: Store, fuel: nat, start: nat): seq<Step>
    requires s.For? && ExecRound(fmt, s, store, fuel).Done?
    decreases fuel, s, 0
  {
    var body := Trace(fmt, s.forBody, store, fuel, start + 2, OnTrue);
    body + TraceStep(fmt, s.increment, ExecS(fmt, s.forBody, store, fuel).store, fuel, start + 2 + Size(s.forBody),
                     Passed(OnTrue, body))
  }

  function TraceStep(fmt: Format, s: Option<Stmt>, store: Store, fuel: nat, c: nat, how: Label): seq<Step>
    requires ExecStep(fmt, s, store, fuel).Done?
    decreases fuel, s
  {
    if s.None? || s.value.Bare? then [] else Trace(fmt, s.value, store, fuel, c, how)
  }

  function TraceSs(fmt: Format, ss: seq<Stmt>, store: Store, fuel: nat, c: nat, how: Label): seq<Step>
    requires ExecSs(fmt, ss, store, fuel).Done?
    decreases fuel, ss
  {
    if ss == [] then []
    else
      var front := TraceSs(fmt, ss[..|ss| - 1], store, fuel, c, how);
      front + Trace(fmt, ss[|ss| - 1], ExecSs(fmt, ss[..|ss| - 1], store, fuel).store, fuel,
                    c + SizeSs(ss[..|ss| - 1]), Passed(how, front))
  }

  // ---- Every step of a run is one of those, with its outcome ----

  ghost predicate Taken(edges: set<Edge>, from: Option<nat>, step: Step) {
    from.Some? ==> Edge(from.value, step.node, step.how) in edges
  }

  function Last(from: Option<nat>, trace: seq<Step>): Option<nat> {
    if trace == [] then from else Some(trace[|trace| - 1].node)
  }

  /** Each step is taken from the node before it. */
  ghost predicate Goes(edges: set<Edge>, from: Option<nat>, trace: seq<Step>) {
    trace == [] ||
    (Goes(edges, from, trace[..|trace| - 1]) && Taken(edges, Last(from, trace[..|trace| - 1]), trace[|trace| - 1]))
  }

  lemma {:induction false} GoesOn(edges: set<Edge>, from: Option<nat>, u: seq<Step>, v: seq<Step>)
    requires Goes(edges, from, u) && Goes(edges, Last(from, u), v)
    ensures Goes(edges, from, u + v) && Last(from, u + v) == Last(Last(from, u), v)
    decreases |v|
  {
    if v == [] {
      assert u + v == u;
    } else {
      GoesOn(edges, from, u, v[..|v| - 1]);
      assert (u + v)[..|u + v| - 1] == u + v[..|v| - 1];
    }
  }

  lemma GoesOnce(edges: set<Edge>, from: Option<nat>, step: Step)
    requires Taken(edges, from, step)
    ensures Goes(edges, from, [step]) && Last(from, [step]) == Some(step.node)
  {
    assert [step][..0] == [];
  }

  /** Over edges of the graph, to the last of `n` nodes from `c` on; nowhere if there are none. */
  ghost predicate Through(edges: set<Edge>, from: Option<nat>, trace: seq<Step>, c: nat, n: nat) {
    && Goes(edges, from, trace)
    && (trace == [] <==> n == 0) && Last(from, trace) == if n == 0 then from else Some(c + n - 1)
  }

  lemma ThroughNothing(edges: set<Edge>, from: Option<nat>, c: nat)
    ensures Through(edges, from, [], c, 0)
  {
  }

  lemma ThroughOne(edges: set<Edge>, from: Option<nat>, step: Step)
    requires Taken(edges, from, step)
    ensures Through(edges, from, [step], step.node, 1)
  {
    GoesOnce(edges, from, step);
  }

  /** All of `part` is there. */
  ghost predicate Includes(all: set<Edge>, part: set<Edge>) {
    forall x :: Alike(x, part) ==> x <= all
  }

  lemma IncludesIs(all: set<Edge>, part: set<Edge>)
    ensures Includes(all, part) <==> part <= all
  {
    assert Alike(part, part);
  }

  /** From a condition over one branch of `n` nodes to the node after both. */
  ghost predicate Branches(all: set<Edge>, c: nat, how: Label, at: nat, n: nat, merge: nat) {
    if n == 0 then Edge(c, merge, how) in all else Edge(c, at, how) in all && Edge(at + n - 1, merge, Next) in all
  }

  /** From a test through `n` nodes back to it. */
  ghost predicate Circles(all: set<Edge>, test: nat, n: nat) {
    if n == 0 then Edge(test, test, Back) in all
    else Edge(test, test + 1, OnTrue) in all && Edge(test + n, test, Back) in all
  }

  /** Between two parts of `m` and `n` nodes, the second of which begins at `at`. */
  ghost predicate Joined(all: set<Edge>, at: nat, m: nat, n: nat) {
    m > 0 && n > 0 && at > 0 ==> Edge(at - 1, at, Next) in all
  }

  lemma IncludesIf(all: set<Edge>, s: Stmt, c: nat)
    requires s.If? && Includes(all, Flow(s, c))
    ensures var m, n := Size(s.thenBranch), SizeO(s.elseBranch);
            && Includes(all, Flow(s.thenBranch, c + 1)) && Includes(all, FlowO(s.elseBranch, c + 1 + m))
            && Branches(all, c, OnTrue, c + 1, m, c + 1 + m + n)
            && Branches(all, c, OnFalse, c + 1 + m, n, c + 1 + m + n)
  {
    var m, n := Size(s.thenBranch), SizeO(s.elseBranch);
    IncludesIs(all, Flow(s, c));
    IncludesIs(all, Flow(s.thenBranch, c + 1));
    IncludesIs(all, FlowO(s.elseBranch, c + 1 + m));
    assert BranchSteps(c, OnTrue, c + 1, m, c + 1 + m + n, Flow(s.thenBranch, c + 1)) <= all;
    assert BranchSteps(c, OnFalse, c + 1 + m, n, c + 1 + m + n, FlowO(s.elseBranch, c + 1 + m)) <= all;
  }

  lemma IncludesWhile(all: set<Edge>, s: Stmt, c: nat)
    requires s.While? && Includes(all, Flow(s, c))
    ensures Edge(c, c + 1, Next) in all && Edge(c + 1, c + 2 + Size(s.loopBody), OnFalse) in all
    ensures Includes(all, Flow(s.loopBody, c + 2)) && Circles(all, c + 1, Size(s.loopBody))
  {
    IncludesIs(all, Flow(s, c));
    IncludesIs(all, Flow(s.loopBody, c + 2));
    assert RoundSteps(c + 1, Size(s.loopBody), 0, Flow(s.loopBody, c + 2), {}) <= all;
  }

  lemma IncludesFor(all: set<Edge>, s: Stmt, c: nat)
    requires s.For? && Includes(all, Flow(s, c))
    ensures var start := c + SizeO(s.init);
            && Includes(all, FlowO(s.init, c)) && Joined(all, start, SizeO(s.init), 1)
            && Includes(all, FlowLoop(s, start))
  {
    var start := c + SizeO(s.init);
    IncludesIs(all, Flow(s, c));
    IncludesIs(all, FlowO(s.init, c));
    IncludesIs(all, FlowLoop(s, start));
    assert Join(c, SizeO(s.init), 3 + Size(s.forBody) + SizeO(s.increment)) <= all;
  }

  /** The steps of the rounds of a `for` with the test `test`, the body from `at` on, and the increment from `next`. */
  ghost predicate HasRounds(all: set<Edge>, s: Stmt, test: nat, at: nat, next: nat)
    requires s.For?
  {
    && test > 0 && at == test + 1 && next == at + Size(s.forBody)
    && Includes(all, Flow(s.forBody, at)) && Includes(all, FlowO(s.increment, next))
    && Circles(all, test, Size(s.forBody) + SizeO(s.increment))
    && Joined(all, next, Size(s.forBody), SizeO(s.increment))
  }

  lemma IncludesLoop(all: set<Edge>, s: Stmt, start: nat)
    requires s.For? && Includes(all, FlowLoop(s, start))
    ensures Edge(start, start + 1, Next) in all
    ensures HasRounds(all, s, start + 1, start + 2, start + 2 + Size(s.forBody))
    ensures Edge(start + 1, start + 2 + Size(s.forBody) + SizeO(s.increment), OnFalse) in all
  {
    var m, n, test, next := Size(s.forBody), SizeO(s.increment), start + 1, start + 2 + Size(s.forBody);
    IncludesIs(all, FlowLoop(s, start));
    IncludesIs(all, Flow(s.forBody, start + 2));
    IncludesIs(all, FlowO(s.increment, next));
    assert RoundSteps(test, m, n, Flow(s.forBody, start + 2), FlowO(s.increment, next)) <= all;
    assert Join(test + 1, m, n) <= all;
  }

  lemma IncludesLast(all: set<Edge>, ss: seq<Stmt>, c: nat)
    requires ss != [] && Includes(all, FlowSs(ss, c))
    ensures var front, last := ss[..|ss| - 1], ss[|ss| - 1];
            var at := c + SizeSs(front);
            && Includes(all, FlowSs(front, c)) && Includes(all, Flow(last, at))
            && Joined(all, at, SizeSs(front), Size(last))
  {
    var front, last := ss[..|ss| - 1], ss[|ss| - 1];
    IncludesIs(all, FlowSs(ss, c));
    IncludesIs(all, FlowSs(front, c));
    IncludesIs(all, Flow(last, c + SizeSs(front)));
    assert Join(c, SizeSs(front), Size(last)) <= all;
  }

  lemma {:induction false} TraceGoes(fmt: Format, s: Stmt, store: Store, fuel: nat, c: nat, how: Label,
                                     from: Option<nat>, all: set<Edge>) returns (trace: seq<Step>, n: nat)
    requires ExecS(fmt, s, store, fuel).Done? && Includes(all, Flow(s, c))
    requires Size(s) > 0 ==> Taken(all, from, Step(how, c))
    ensures trace == Trace(fmt, s, store, fuel, c, how) && n == Size(s) && Through(all, from, trace, c, n)
    decreases fuel, s, 4
  {
    trace, n := Trace(fmt, s, store, fuel, c, how), Size(s);
    match s
    case Let(_, _, _) => ThroughOne(all, from, Step(how, c));
    case Print(_) => ThroughOne(all, from, Step(how, c));
    case If(_, _, _) => trace, n := IfGoes(fmt, s, store, fuel, c, how, from, all);
    case While(_, _) => trace, n := WhileGoes(fmt, s, store, fuel, c, how, from, all);
    case For(_, _, _, _) => trace, n := ForGoes(fmt, s, store, fuel, c, how, from, all);
    case Block(ss) => trace, n := SsGo(fmt, ss, store, fuel, c, how, from, all);
    case _ => ThroughNothing(all, from, c);
  }

  lemma {:induction false} OGoes(fmt: Format, s: Option<Stmt>, store: Store, fuel: nat, c: nat, how: Label,
                                 from: Option<nat>, all: set<Edge>) returns (trace: seq<Step>, n: nat)
    requires ExecO(fmt, s, store, fuel).Done? && Includes(all, FlowO(s, c))
    requires SizeO(s) > 0 ==> Taken(all, from, Step(how, c))
    ensures trace == TraceO(fmt, s, store, fuel, c, how) && n == SizeO(s) && Through(all, from, trace, c, n)
    decreases fuel, s
  {
    if s.Some? {
      trace, n := TraceGoes(fmt, s.value, store, fuel, c, how, from, all);
    } else {
      trace, n := [], 0;
      ThroughNothing(all, from, c);
    }
  }

  /** Two parts in a row. */
  lemma InARow(all: set<Edge>, from: Option<nat>, u: seq<Step>, c: nat, m: nat, at: nat, v: seq<Step>, n: nat)
    requires Through(all, from, u, c, m) && Through(all, Last(from, u), v, at, n) && at == c + m
    ensures Through(all, from, u + v, c, m + n)
  {
    GoesOn(all, from, u, v);
  }

  /** How the second of two parts in a row is entered. */
  lemma Entered(all: set<Edge>, from: Option<nat>, how: Label, u: seq<Step>, c: nat, m: nat, at: nat, n: nat)
    requires Through(all, from, u, c, m) && (m + n > 0 ==> Taken(all, from, Step(how, c)))
    requires at == c + m && Joined(all, at, m, n)
    ensures n > 0 ==> Taken(all, Last(from, u), Step(Passed(how, u), at))
  {
  }

  /** A part between two nodes, `n` nodes with them. */
  lemma BetweenGoes(all: set<Edge>, from: Option<nat>, first: Step, part: seq<Step>, last: Step, n: nat)
    requires Taken(all, from, first) && Goes(all, Some(first.node), part)
    requires Taken(all, Last(Some(first.node), part), last) && n > 0 && last.node == first.node + n - 1
    ensures Through(all, from, [first] + part + [last], first.node, n)
  {
    GoesOnce(all, from, first);
    GoesOn(all, from, [first], part);
    GoesOnce(all, Last(from, [first] + part), last);
    GoesOn(all, from, [first] + part, [last]);
  }

  lemma BranchGoes(all: set<Edge>, from: Option<nat>, first: Step, how: Label, part: seq<Step>, at: nat, m: nat,
                   merge: nat, n: nat)
    requires Taken(all, from, first) && Branches(all, first.node, how, at, m, merge)
    requires Through(all, Some(first.node), part, at, m) && n > 0 && merge == first.node + n - 1
    ensures Through(all, from, [first] + part + [Step(Passed(how, part), merge)], first.node, n)
  {
    BetweenGoes(all, from, first, part, Step(Passed(how, part), merge), n);
  }

  lemma {:induction false} IfGoes(fmt: Format, s: Stmt, store: Store, fuel: nat, c: nat, how: Label,
                                  from: Option<nat>, all: set<Edge>) returns (trace: seq<Step>, n: nat)
    requires s.If? && ExecS(fmt, s, store, fuel).Done? && Includes(all, Flow(s, c)) && Taken(all, from, Step(how, c))
    ensures trace == Trace(fmt, s, store, fuel, c, how) && n == Size(s) && Through(all, from, trace, c, n)
    decreases fuel, s, 3
  {
    AgreementIsDefined(fmt, s.condition, store);
    IncludesIf(all, s, c);
    if Truthy(Evaluate(fmt, s.condition, store).value) {
      trace, n := ThenGoes(fmt, s, store, fuel, c, how, from, all);
    } else {
      trace, n := ElseGoes(fmt, s, store, fuel, c, how, from, all);
    }
  }

  lemma {:induction false} ThenGoes(fmt: Format, s: Stmt, store: Store, fuel: nat, c: nat, how: Label,
                                    from: Option<nat>, all: set<Edge>) returns (trace: seq<Step>, n: nat)
    requires s.If? && ExecS(fmt, s, store, fuel).Done? && Taken(all, from, Step(how, c))
    requires Evaluate(fmt, s.condition, store).Some? && Truthy(Evaluate(fmt, s.condition, store).value)
    requires var m := Size(s.thenBranch);
             && Includes(all, Flow(s.thenBranch, c + 1))
             && Branches(all, c, OnTrue, c + 1, m, c + 1 + m + SizeO(s.elseBranch))
    ensures trace == Trace(fmt, s, store, fuel, c, how) && n == Size(s) && Through(all, from, trace, c, n)
    decreases fuel, s, 2
  {
    var m, merge := Size(s.thenBranch), c + 1 + Size(s.thenBranch) + SizeO(s.elseBranch);
    n := 2 + m + SizeO(s.elseBranch);
    var branch, k := TraceGoes(fmt, s.thenBranch, store, fuel, c + 1, OnTrue, Some(c), all);
    BranchGoes(all, from, Step(how, c), OnTrue, branch, c + 1, m, merge, n);
    trace := [Step(how, c)] + branch + [Step(Passed(OnTrue, branch), merge)];
  }

  lemma {:induction false} ElseGoes(fmt: Format, s: Stmt, store: Store, fuel: nat, c: nat, how: Label,
                                    from: Option<nat>, all: set<Edge>) returns (trace: seq<Step>, n: nat)
    requires s.If? && ExecS(fmt, s, store, fuel).Done? && Taken(all, from, Step(how, c))
    requires Evaluate(fmt, s.condition, store).Some? && !Truthy(Evaluate(fmt, s.condition, store).value)
    requires var m := Size(s.thenBranch);
             && Includes(all, FlowO(s.elseBranch, c + 1 + m))
             && Branches(all, c, OnFalse, c + 1 + m, SizeO(s.elseBranch), c + 1 + m + SizeO(s.elseBranch))
    ensures trace == Trace(fmt, s, store, fuel, c, how) && n == Size(s) && Through(all, from, trace, c, n)
    decreases fuel, s, 2
  {
    var m, k := Size(s.thenBranch), SizeO(s.elseBranch);
    var merge := c + 1 + m + k;
    n := 2 + m + k;
    var branch, k' := OGoes(fmt, s.elseBranch, store, fuel, c + 1 + m, OnFalse, Some(c), all);
    BranchGoes(all, from, Step(how, c), OnFalse, branch, c + 1 + m, k, merge, n);
    trace := [Step(how, c)] + branch + [Step(Passed(OnFalse, branch), merge)];
  }

  lemma {:induction false} WhileGoes(fmt: Format, s: Stmt, store: Store, fuel: nat, c: nat, how: Label,
                                     from: Option<nat>, all: set<Edge>) returns (trace: seq<Step>, n: nat)
    requires s.While? && ExecS(fmt, s, store, fuel).Done? && Includes(all, Flow(s, c)) && Taken(all, from, Step(how, c))
    ensures trace == Trace(fmt, s, store, fuel, c, how) && n == Size(s) && Through(all, from, trace, c, n)
    decreases fuel, s, 3
  {
    n := 3 + Size(s.loopBody);
    IncludesWhile(all, s, c);
    var turns := TurnsGo(fmt, s, store, fuel, c, Next, Some(c), all);
    BetweenGoes(all, from, Step(how, c), turns, Step(OnFalse, c + 2 + Size(s.loopBody)), n);
    trace := [Step(how, c)] + turns + [Step(OnFalse, c + 2 + Size(s.loopBody))];
  }

  /** Back to the test after a round. */
  lemma RoundCloses(all: set<Edge>, from: Option<nat>, how: Label, test: nat, at: nat, body: seq<Step>, n: nat)
    requires Taken(all, from, Step(how, test)) && at == test + 1
    requires Through(all, Some(test), body, at, n) && Circles(all, test, n)
    ensures Goes(all, from, [Step(how, test)] + body)
    ensures Taken(all, Last(from, [Step(how, test)] + body), Step(Back, test))
  {
    GoesOnce(all, from, Step(how, test));
    GoesOn(all, from, [Step(how, test)], body);
  }

  lemma {:induction false} TurnsGo(fmt: Format, s: Stmt, store: Store, fuel: nat, c: nat, how: Label,
                                   from: Option<nat>, all: set<Edge>) returns (trace: seq<Step>)
    requires s.While? && ExecS(fmt, s, store, fuel).Done? && Taken(all, from, Step(how, c + 1))
    requires Includes(all, Flow(s.loopBody, c + 2)) && Circles(all, c + 1, Size(s.loopBody))
    ensures trace == TraceTurns(fmt, s, store, fuel, c, how)
    ensures Goes(all, from, trace) && Last(from, trace) == Some(c + 1)
    decreases fuel, s, 2
  {
    AgreementIsDefined(fmt, s.guard, store);
    GoesOnce(all, from, Step(how, c + 1));
    trace := [Step(how, c + 1)];
    if Truthy(Evaluate(fmt, s.guard, store).value) {
      var round := ExecS(fmt, s.loopBody, store, fuel);
      var body, m := TraceGoes(fmt, s.loopBody, store, fuel, c + 2, OnTrue, Some(c + 1), all);
      RoundCloses(all, from, how, c + 1, c + 2, body, Size(s.loopBody));
      trace := trace + body;
      var more := TurnsGo(fmt, s, round.store, fuel - 1, c, Back, Last(from, trace), all);
      GoesOn(all, from, trace, more);
      trace := trace + more;
      TurnsTrace(fmt, s, store, fuel, c, how, body, more);
    }
  }

  lemma {:induction false} TurnsTrace(fmt: Format, s: Stmt, store: Store, fuel: nat, c: nat, how: Label,
                                      body: seq<Step>, more: seq<Step>)
    requires s.While? && ExecS(fmt, s, store, fuel).Done? && Evaluate(fmt, s.guard, store).Some?
    requires Truthy(Evaluate(fmt, s.guard, store).value)
    requires body == Trace(fmt, s.loopBody, store, fuel, c + 2, OnTrue)
    requires more == TraceTurns(fmt, s, ExecS(fmt, s.loopBody, store, fuel).store, fuel - 1, c, Back)
    ensures [Step(how, c + 1)] + body + more == TraceTurns(fmt, s, store, fuel, c, how)
  {
  }

  lemma {:induction false} ForGoes(fmt: Format, s: Stmt, store: Store, fuel: nat, c: nat, how: Label,
                                   from: Option<nat>, all: set<Edge>) returns (trace: seq<Step>, n: nat)
    requires s.For? && ExecS(fmt, s, store, fuel).Done? && Includes(all, Flow(s, c)) && Taken(all, from, Step(how, c))
    ensures trace == Trace(fmt, s, store, fuel, c, how) && n == Size(s) && Through(all, from, trace, c, n)
    decreases fuel, s, 3, 1
  {
    IncludesFor(all, s, c);
    trace, n := ForPartsGo(fmt, s, store, fuel, c, how, from, all);
  }

  lemma {:induction false} ForPartsGo(fmt: Format, s: Stmt, store: Store, fuel: nat, c: nat, how: Label,
                                      from: Option<nat>, all: set<Edge>) returns (trace: seq<Step>, n: nat)
    requires s.For? && ExecS(fmt, s, store, fuel).Done? && Taken(all, from, Step(how, c))
    requires Includes(all, FlowO(s.init, c)) && Includes(all, FlowLoop(s, c + SizeO(s.init)))
    requires Joined(all, c + SizeO(s.init), SizeO(s.init), 1)
    ensures trace == Trace(fmt, s, store, fuel, c, how) && n == Size(s) && Through(all, from, trace, c, n)
    decreases fuel, s, 3, 0
  {
    var k, inside := SizeO(s.init), ExecO(fmt, s.init, store, fuel).store;
    var first, k' := OGoes(fmt, s.init, store, fuel, c, how, from, all);
    Entered(all, from, how, first, c, k, c + k, 1);
    var loop, m := LoopGoes(fmt, s, inside, fuel, c + k, Passed(how, first), Last(from, first), all);
    InARow(all, from, first, c, k, c + k, loop, m);
    trace, n := first + loop, k + m;
    ForTrace(fmt, s, store, fuel, c, how, first, k, loop, m);
  }

  lemma {:induction false} ForTrace(fmt: Format, s: Stmt, store: Store, fuel: nat, c: nat, how: Label,
                                    first: seq<Step>, k: nat, loop: seq<Step>, m: nat)
    requires s.For? && ExecS(fmt, s, store, fuel).Done?
    requires first == TraceO(fmt, s.init, store, fuel, c, how) && k == SizeO(s.init)
    requires m == 3 + Size(s.forBody) + SizeO(s.increment)
    requires loop == TraceLoop(fmt, s, ExecO(fmt, s.init, store, fuel).store, fuel, c + k, Passed(how, first))
    ensures first + loop == Trace(fmt, s, store, fuel, c, how) && k + m == Size(s)
  {
  }

  lemma {:induction false} LoopGoes(fmt: Format, s: Stmt, store: Store, fuel: nat, start: nat, how: Label,
                                    from: Option<nat>, all: set<Edge>) returns (trace: seq<Step>, n: nat)
    requires s.For? && ExecLoop(fmt, s, store, fuel).Done? && Includes(all, FlowLoop(s, start))
    requires Taken(all, from, Step(how, start))
    ensures trace == TraceLoop(fmt, s, store, fuel, start, how) && n == 3 + Size(s.forBody) + SizeO(s.increment)
    ensures Through(all, from, trace, start, n)
    decreases fuel, s, 2
  {
    n := 3 + Size(s.forBody) + SizeO(s.increment);
    IncludesLoop(all, s, start);
    var rounds := RoundsGo(fmt, s, store, fuel, start, Next, Some(start), all);
    var exit := Step(OnFalse, start + n - 1);
    BetweenGoes(all, from, Step(how, start), rounds, exit, n);
    trace := [Step(how, start)] + rounds + [exit];
    LoopTrace(fmt, s, store, fuel, start, how, rounds, exit);
  }

  lemma {:induction false} LoopTrace(fmt: Format, s: Stmt, store: Store, fuel: nat, start: nat, how: Label,
                                     rounds: seq<Step>, exit: Step)
    requires s.For? && ExecLoop(fmt, s, store, fuel).Done? && rounds == TraceRounds(fmt, s, store, fuel, start, Next)
    requires exit == Step(OnFalse, start + 2 + Size(s.forBody) + SizeO(s.increment))
    ensures [Step(how, start)] + rounds + [exit] == TraceLoop(fmt, s, store, fuel, start, how)
  {
  }

  lemma {:induction false} RoundsGo(fmt: Format, s: Stmt, store: Store, fuel: nat, start: nat, how: Label,
                                    from: Option<nat>, all: set<Edge>) returns (trace: seq<Step>)
    requires s.For? && ExecLoop(fmt, s, store, fuel).Done?
    requires HasRounds(all, s, start + 1, start + 2, start + 2 + Size(s.forBody))
    requires Taken(all, from, Step(how, start + 1))
    ensures trace == TraceRounds(fmt, s, store, fuel, start, how)
    ensures Goes(all, from, trace) && Last(from, trace) == Some(start + 1)
    decreases fuel, s, 1
  {
    GoesOnce(all, from, Step(how, start + 1));
    trace := [Step(how, start + 1)];
    if Continues(fmt, s.test, store) {
      var round := ExecRound(fmt, s, store, fuel);
      assert round.Done?;
      var body, n := RoundGoes(fmt, s, store, fuel, start + 1, start + 2, start + 2 + Size(s.forBody), all);
      RoundCloses(all, from, how, start + 1, start + 2, body, n);
      trace := trace + body;
      var more := RoundsGo(fmt, s, round.store, fuel - 1, start, Back, Last(from, trace), all);
      GoesOn(all, from, trace, more);
      trace := trace + more;
    }
  }

  lemma {:induction false} RoundGoes(fmt: Format, s: Stmt, store: Store, fuel: nat, test: nat, at: nat, next: nat,
                                     all: set<Edge>) returns (trace: seq<Step>, n: nat)
    requires s.For? && ExecRound(fmt, s, store, fuel).Done? && HasRounds(all, s, test, at, next)
    ensures trace == TraceRound(fmt, s, store, fuel, test - 1) && n == Size(s.forBody) + SizeO(s.increment)
    ensures Through(all, Some(test), trace, at, n)
    decreases fuel, s, 0
  {
    var m, k, after := Size(s.forBody), SizeO(s.increment), ExecS(fmt, s.forBody, store, fuel).store;
    var body, m' := TraceGoes(fmt, s.forBody, store, fuel, at, OnTrue, Some(test), all);
    RoundEntered(all, test, at, next, body, m, k);
    var step, k' := StepGoes(fmt, s.increment, after, fuel, next, Passed(OnTrue, body), Last(Some(test), body), all);
    InARow(all, Some(test), body, at, m, next, step, k);
    trace, n := body + step, m + k;
    RoundTrace(fmt, s, store, fuel, test, at, next, body, step);
  }

  lemma {:induction false} RoundTrace(fmt: Format, s: Stmt, store: Store, fuel: nat, test: nat, at: nat, next: nat,
                                      body: seq<Step>, step: seq<Step>)
    requires s.For? && ExecRound(fmt, s, store, fuel).Done? && test > 0
    requires at == test + 1 && next == at + Size(s.forBody)
    requires body == Trace(fmt, s.forBody, store, fuel, at, OnTrue)
    requires step == TraceStep(fmt, s.increment, ExecS(fmt, s.forBody, store, fuel).store, fuel, next,
                               Passed(OnTrue, body))
    ensures body + step == TraceRound(fmt, s, store, fuel, test - 1)
  {
  }

  /** How the second part of a round is entered. */
  lemma RoundEntered(all: set<Edge>, test: nat, at: nat, next: nat, body: seq<Step>, m: nat, n: nat)
    requires at == test + 1 && next == at + m
    requires Through(all, Some(test), body, at, m) && Circles(all, test, m + n) && Joined(all, next, m, n)
    ensures n > 0 ==> Taken(all, Last(Some(test), body), Step(Passed(OnTrue, body), next))
  {
    Entered(all, Some(test), OnTrue, body, at, m, next, n);
  }

  lemma {:induction false} StepGoes(fmt: Format, s: Option<Stmt>, store: Store, fuel: nat, c: nat, how: Label,
                                    from: Option<nat>, all: set<Edge>) returns (trace: seq<Step>, n: nat)
    requires ExecStep(fmt, s, store, fuel).Done? && Includes(all, FlowO(s, c))
    requires SizeO(s) > 0 ==> Taken(all, from, Step(how, c))
    ensures trace == TraceStep(fmt, s, store, fuel, c, how) && n == SizeO(s) && Through(all, from, trace, c, n)
    decreases fuel, s
  {
    if s.Some? && !s.value.Bare? {
      trace, n := TraceGoes(fmt, s.value, store, fuel, c, how, from, all);
    } else {
      trace, n := [], 0;
      assert s.Some? ==> Size(s.value) == 0;
      ThroughNothing(all, from, c);
    }
  }

  lemma {:induction false} SsGo(fmt: Format, ss: seq<Stmt>, store: Store, fuel: nat, c: nat, how: Label,
                                from: Option<nat>, all: set<Edge>) returns (trace: seq<Step>, n: nat)
    requires ExecSs(fmt, ss, store, fuel).Done? && Includes(all, FlowSs(ss, c))
    requires SizeSs(ss) > 0 ==> Taken(all, from, Step(how, c))
    ensures trace == TraceSs(fmt, ss, store, fuel, c, how) && n == SizeSs(ss) && Through(all, from, trace, c, n)
    decreases fuel, ss
  {
    if ss == [] {
      trace, n := [], 0;
      ThroughNothing(all, from, c);
    } else {
      IncludesLast(all, ss, c);
      trace, n := LastGoes(fmt, ss, store, fuel, c, how, from, all);
    }
  }

  lemma {:induction false} LastGoes(fmt: Format, ss: seq<Stmt>, store: Store, fuel: nat, c: nat, how: Label,
                                    from: Option<nat>, all: set<Edge>) returns (trace: seq<Step>, n: nat)
    requires ss != [] && ExecSs(fmt, ss, store, fuel).Done?
    requires var front, last := ss[..|ss| - 1], ss[|ss| - 1];
             && Includes(all, FlowSs(front, c)) && Includes(all, Flow(last, c + SizeSs(front)))
             && Joined(all, c + SizeSs(front), SizeSs(front), Size(last))
    requires SizeSs(ss) > 0 ==> Taken(all, from, Step(how, c))
    ensures trace == TraceSs(fmt, ss, store, fuel, c, how) && n == SizeSs(ss) && Through(all, from, trace, c, n)
    decreases fuel, ss, 0
  {
    var front, last := ss[..|ss| - 1], ss[|ss| - 1];
    var m, k, middle := SizeSs(front), Size(last), ExecSs(fmt, front, store, fuel).store;
    assert SizeSs(ss) == m + k;
    var first, m' := SsGo(fmt, front, store, fuel, c, how, from, all);
    Entered(all, from, how, first, c, m, c + m, k);
    var more, k' := TraceGoes(fmt, last, middle, fuel, c + m, Passed(how, first), Last(from, first), all);
    InARow(all, from, first, c, m, c + m, more, k);
    trace, n := first + more, m + k;
  }

  /** Every step of a run from its beginning to its end is one of the steps there are, taken by the outcome it is
      labelled with. */
  lemma RunTakesItsSteps(fmt: Format, ss: seq<Stmt>, store: Store, fuel: nat, how: Label, all: set<Edge>)
    requires ExecSs(fmt, ss, store, fuel).Done? && FlowSs(ss, 0) <= all
    ensures Goes(all, None, TraceSs(fmt, ss, store, fuel, 0, how))
  {
    IncludesIs(all, FlowSs(ss, 0));
    var trace, n := SsGo(fmt, ss, store, fuel, 0, how, None, all);
  }
}
