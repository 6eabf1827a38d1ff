// Which edges the builder draws: exactly when they carry every step by its outcome, and what other
// edges there are.
module FlowEdges {
  import opened Ast
  import opened Values
  import opened Interpreter
  import opened FlowGraph
  import opened FlowPaths
  import opened FlowHooks
  import opened FlowLabels

  // ---- The conditions on the text ----

  /** The first node of the statement is the entry that the builder finds for it. */
  predicate Starts(s: Stmt) {
    match s
    case Let(_, _, _) => true
    case Print(_) => true
    case Return(_) => true
    case If(_, _, _) => true
    case While(_, _) => true
    case For(init, _, _, _) => init.Some? && Starts(init.value)
    case Block(ss) => ss != [] && Starts(ss[0])
    case _ => false
  }

  /** Every branch begins with a node, every body of a loop that has nodes begins with one, and within each block
      every statement with nodes has an entry. */
  predicate Labelled(s: Stmt, attached: bool) {
    match s
    case If(_, t, f) => Starts(t) && Labelled(t, true) && (f.Some? ==> Starts(f.value) && Labelled(f.value, true))
    case While(_, b) => Labelled(b, true) && (Size(b) > 0 ==> Starts(b))
    case For(init, _, step, b) =>
      && LabelledO(init, attached) && Labelled(b, true) && LabelledO(step, true)
      && (Size(b) + SizeO(step) > 0 ==> Starts(b))
    case Block(ss) => LabelledSs(ss, attached)
    case _ => true
  }

  predicate LabelledO(s: Option<Stmt>, attached: bool) {
    s.Some? ==> Labelled(s.value, attached)
  }

  predicate LabelledSs(ss: seq<Stmt>, attached: bool) {
    ss == [] ||
    var front, last := ss[..|ss| - 1], ss[|ss| - 1];
    var before := attached || SizeSs(front) > 0;
    LabelledSs(front, attached) && Labelled(last, before) && (Size(last) > 0 ==> Enters(last, before))
  }

  predicate LabelledTop(ss: seq<Stmt>) {
    ss == [] || (LabelledTop(ss[..|ss| - 1]) && Labelled(ss[|ss| - 1], SizeSs(ss[..|ss| - 1]) > 0))
  }

  // ---- Where the edges of a part lie ----

  /** Among the `n` nodes from `c` on, or to one of them from where the part is attached, or from there to itself. */
  predicate LocalEdge(e: Edge, prev: Option<nat>, c: nat, n: nat) {
    || (c <= e.to < c + n && (c <= e.from < c + n || (prev == Some(e.from) && e.kind == Next)))
    || (prev == Some(e.from) && e.to == e.from && e.kind == Next)
  }

  ghost predicate IsLocal(p: Part, prev: Option<nat>, c: nat, n: nat) {
    && p.next == c + n
    && (p.entry.Some? ==> p.entry == prev || (n > 0 && p.entry == Some(c)))
    && (p.exit == prev || (p.exit.Some? && c <= p.exit.value < c + n))
    && (p.entry.Some? && p.entry != prev ==> p.exit.Some?)
    && (n > 0 && prev.Some? ==> Edge(prev.value, c, Next) in p.edges)
    && forall e :: e in p.edges ==> LocalEdge(e, prev, c, n)
  }

  ghost predicate Equals(a: Part, b: Part) {
    a == b
  }

  /** The quantifier keeps provers from unfolding what that means where it does not matter. */
  ghost predicate Local(p: Part, prev: Option<nat>, c: nat, n: nat) {
    forall x :: Equals(x, p) ==> IsLocal(x, prev, c, n)
  }

  lemma LocalIs(p: Part, prev: Option<nat>, c: nat, n: nat)
    ensures Local(p, prev, c, n) <==> IsLocal(p, prev, c, n)
  {
    assert Equals(p, p);
  }

  function NoPart(c: nat): Part {
    Part(None, None, {}, c)
  }

  ghost predicate LocalO(p: Part, there: bool, prev: Option<nat>, c: nat, n: nat) {
    if there then Local(p, prev, c, n) else Equals(p, NoPart(c)) && n == 0
  }

  predicate Earlier(prev: Option<nat>, c: nat) {
    prev.Some? ==> prev.value < c
  }

  // ---- The edges of each kind of statement, from its parts ----

  function IfEdges(prev: Option<nat>, c: nat, p: Part, q: Part, hasElse: bool): set<Edge> {
    var merge := q.next;
    Link(prev, Some(c), Next) + p.edges + Link(Some(c), p.entry, OnTrue)
    + q.edges + Link(Some(c), q.entry, OnFalse)
    + (if p.exit.Some? then Link(p.exit, Some(merge), Next) else Link(Some(c), Some(merge), OnTrue))
    + (if q.exit.Some? then Link(q.exit, Some(merge), Next)
       else if !hasElse then Link(Some(c), Some(merge), OnFalse) else {})
  }

  function WhileEdges(prev: Option<nat>, c: nat, p: Part): set<Edge> {
    Link(prev, Some(c), Next) + Link(Some(c), Some(c + 1), Next) + p.edges + Link(Some(c + 1), p.entry, OnTrue)
    + Link(After(p, c + 1), Some(c + 1), Back) + Link(Some(c + 1), Some(p.next), OnFalse)
  }

  lemma {:induction false} PartsOf(s: Stmt, prev: Option<nat>, c: nat)
    requires NoFunctions(s)
    ensures s.If? ==>
              var p := Build(s.thenBranch, Some(c), c + 1);
              var q := BuildO(s.elseBranch, Some(c), p.next);
              Build(s, prev, c) == Part(Some(c), Some(q.next), IfEdges(prev, c, p, q, s.elseBranch.Some?), q.next + 1)
    ensures s.While? ==>
              var p := Build(s.loopBody, Some(c + 1), c + 2);
              Build(s, prev, c) == Part(Some(c), Some(p.next), WhileEdges(prev, c, p), p.next + 1)
  {
    if s.If? {
      assert Build(s, prev, c) == BuildIf(s, prev, c);
    } else if s.While? {
      assert Build(s, prev, c) == BuildWhile(s, prev, c);
    }
  }

  // ---- The parts are local ----

  /** A part attached to an earlier node of a whole lies in the whole. */
  lemma PartWithin(p: Part, at: nat, d: nat, m: nat, c: nat, n: nat)
    requires Local(p, Some(at), d, m) && c <= at < d && d + m <= c + n
    ensures Within(p.edges, c, n) && p.next == d + m
    ensures (p.entry.Some? ==> c <= p.entry.value < c + n) && p.exit.Some? && c <= p.exit.value < d + m
  {
    LocalIs(p, Some(at), d, m);
  }

  lemma IfLocal(prev: Option<nat>, c: nat, p: Part, q: Part, hasElse: bool, m: nat, n: nat)
    requires Local(p, Some(c), c + 1, m) && LocalO(q, hasElse, Some(c), c + 1 + m, n) && Earlier(prev, c)
    ensures Local(Part(Some(c), Some(q.next), IfEdges(prev, c, p, q, hasElse), q.next + 1), prev, c, 2 + m + n)
  {
    PartWithin(p, c, c + 1, m, c, 2 + m + n);
    if hasElse {
      PartWithin(q, c, c + 1 + m, n, c, 2 + m + n);
    }
    LocalIs(Part(Some(c), Some(q.next), IfEdges(prev, c, p, q, hasElse), q.next + 1), prev, c, 2 + m + n);
  }

  lemma WhileLocal(prev: Option<nat>, c: nat, p: Part, m: nat)
    requires Local(p, Some(c + 1), c + 2, m) && Earlier(prev, c)
    ensures Local(Part(Some(c), Some(p.next), WhileEdges(prev, c, p), p.next + 1), prev, c, 3 + m)
  {
    PartWithin(p, c + 1, c + 2, m, c, 3 + m);
    LocalIs(Part(Some(c), Some(p.next), WhileEdges(prev, c, p), p.next + 1), prev, c, 3 + m);
  }

  lemma RoundLocal(test: nat, p: Part, q: Part, hasStep: bool, m: nat, n: nat)
    requires Local(p, Some(test), test + 1, m) && LocalO(q, hasStep, After(p, test), test + 1 + m, n)
    ensures Within(RoundEdges(test, p, q), test, 2 + m + n) && q.next == test + 1 + m + n
  {
    PartWithin(p, test, test + 1, m, test, 2 + m + n);
    if hasStep {
      PartWithin(q, After(p, test).value, test + 1 + m, n, test, 2 + m + n);
    }
  }

  lemma StartLocal(prev: Option<nat>, c: nat, i: Part, hasInit: bool, k: nat, n: nat)
    requires LocalO(i, hasInit, prev, c, k) && Earlier(prev, c) && i.next == c + k && n >= k + 2
    ensures forall e :: e in StartEdges(prev, i) ==> LocalEdge(e, prev, c, n)
    ensures prev.Some? ==> Edge(prev.value, c, Next) in StartEdges(prev, i)
  {
    LocalIs(i, prev, c, k);
    assert k == 0 && prev.Some? ==> Edge(prev.value, c, Next) in Link(Before(prev, i), Some(i.next), Next);
  }

  lemma ForLocal(prev: Option<nat>, c: nat, i: Part, hasInit: bool, k: nat, start: nat, p: Part, q: Part, hasStep: bool,
                 m: nat, n: nat, all: Part, total: nat)
    requires start == c + k && LocalO(i, hasInit, prev, c, k) && Earlier(prev, c) && i.next == start
    requires Local(p, Some(start + 1), start + 2, m) && LocalO(q, hasStep, After(p, start + 1), start + 2 + m, n)
    requires all == Part(if i.entry.Some? then i.entry else prev, Some(q.next), ForEdges(prev, i, p, q), q.next + 1)
    requires total == k + (3 + m + n)
    ensures Local(all, prev, c, total)
  {
    StartLocal(prev, c, i, hasInit, k, total);
    RoundLocal(start + 1, p, q, hasStep, m, n);
    BothLocal(StartEdges(prev, i), RoundEdges(start + 1, p, q), prev, c, start + 1, 2 + m + n, total);
    assert all.edges == StartEdges(prev, i) + RoundEdges(start + 1, p, q);
    LocalIs(i, prev, c, k);
    LocalIs(all, prev, c, total);
  }

  lemma BothLocal(a: set<Edge>, b: set<Edge>, prev: Option<nat>, c: nat, test: nat, n: nat, total: nat)
    requires (forall e :: e in a ==> LocalEdge(e, prev, c, total)) && Within(b, test, n)
    requires c <= test && test + n <= c + total && (prev.Some? ==> Edge(prev.value, c, Next) in a)
    ensures forall e :: e in a + b ==> LocalEdge(e, prev, c, total)
    ensures prev.Some? ==> Edge(prev.value, c, Next) in a + b
  {
  }

  lemma SsLocal(f: Part, prev: Option<nat>, c: nat, m: nat, p: Part, n: nat, first: bool)
    requires Local(f, prev, c, m) && Local(p, f.exit, c + m, n) && Earlier(prev, c)
    requires first ==> m == 0
    ensures Local(Part(if first then p.entry else f.entry, if p.entry.Some? then p.exit else f.exit, f.edges + p.edges,
                       p.next), prev, c, m + n)
  {
    LocalIs(f, prev, c, m);
    LocalIs(p, f.exit, c + m, n);
    LocalIs(Part(if first then p.entry else f.entry, if p.entry.Some? then p.exit else f.exit, f.edges + p.edges,
                 p.next), prev, c, m + n);
  }

  lemma {:induction false} ForPartsOf(s: Stmt, prev: Option<nat>, c: nat)
    requires NoFunctions(s) && s.For?
    ensures var i := BuildO(s.init, prev, c);
            var p, q := Body(s, i.next), Increment(s, i.next);
            Build(s, prev, c)
            == Part(if i.entry.Some? then i.entry else prev, Some(q.next), ForEdges(prev, i, p, q), q.next + 1)
  {
    assert Build(s, prev, c) == BuildFor(s, prev, c);
  }

  /** The builder draws edges from where a statement is attached to its first node, and otherwise among its nodes,
      but for an edge from that place to itself. */
  lemma {:induction false} StmtIsLocal(s: Stmt, prev: Option<nat>, c: nat)
    requires NoFunctions(s) && Earlier(prev, c)
    ensures Local(Build(s, prev, c), prev, c, Size(s)) && Build(s, prev, c).next == c + Size(s)
    decreases s, 1
  {
    NextCounts(s, prev, c);
    LocalIs(Build(s, prev, c), prev, c, Size(s));
    match s
    case If(_, _, _) => IfIsLocal(s, prev, c);
    case While(_, _) => WhileIsLocal(s, prev, c);
    case For(_, _, _, _) => ForIsLocal(s, prev, c);
    case Block(ss) => SsIsLocal(ss, prev, c);
    case _ =>
  }

  lemma {:induction false} OIsLocal(s: Option<Stmt>, prev: Option<nat>, c: nat)
    requires (s.Some? ==> NoFunctions(s.value)) && Earlier(prev, c)
    ensures LocalO(BuildO(s, prev, c), s.Some?, prev, c, SizeO(s)) && BuildO(s, prev, c).next == c + SizeO(s)
    decreases s
  {
    if s.Some? {
      StmtIsLocal(s.value, prev, c);
    }
  }

  lemma {:induction false} IfIsLocal(s: Stmt, prev: Option<nat>, c: nat)
    requires s.If? && NoFunctions(s) && Earlier(prev, c)
    ensures Local(Build(s, prev, c), prev, c, Size(s))
    decreases s, 0
  {
    var m, n := Size(s.thenBranch), SizeO(s.elseBranch);
    var p := Build(s.thenBranch, Some(c), c + 1);
    StmtIsLocal(s.thenBranch, Some(c), c + 1);
    OIsLocal(s.elseBranch, Some(c), c + 1 + m);
    PartsOf(s, prev, c);
    IfLocal(prev, c, p, BuildO(s.elseBranch, Some(c), p.next), s.elseBranch.Some?, m, n);
    assert Size(s) == 2 + m + n;
  }

  lemma {:induction false} WhileIsLocal(s: Stmt, prev: Option<nat>, c: nat)
    requires s.While? && NoFunctions(s) && Earlier(prev, c)
    ensures Local(Build(s, prev, c), prev, c, Size(s))
    decreases s, 0
  {
    StmtIsLocal(s.loopBody, Some(c + 1), c + 2);
    PartsOf(s, prev, c);
    WhileLocal(prev, c, Build(s.loopBody, Some(c + 1), c + 2), Size(s.loopBody));
    assert Size(s) == 3 + Size(s.loopBody);
  }

  /** The pieces of a `for` are local, each where it is attached. */
  ghost predicate ForPieces(s: Stmt, prev: Option<nat>, c: nat, start: nat)
    requires s.For? && NoFunctions(s)
  {
    && start == c + SizeO(s.init) && BuildO(s.init, prev, c).next == start
    && LocalO(BuildO(s.init, prev, c), s.init.Some?, prev, c, SizeO(s.init))
    && Local(Body(s, start), Some(start + 1), start + 2, Size(s.forBody))
    && LocalO(Increment(s, start), s.increment.Some?, After(Body(s, start), start + 1), start + 2 + Size(s.forBody),
              SizeO(s.increment))
  }

  lemma {:induction false} ForPiecesLocal(s: Stmt, prev: Option<nat>, c: nat, start: nat)
    requires s.For? && NoFunctions(s) && Earlier(prev, c) && start == c + SizeO(s.init)
    ensures ForPieces(s, prev, c, start)
    decreases s, 0, 0
  {
    var m, test := Size(s.forBody), start + 1;
    OIsLocal(s.init, prev, c);
    StmtIsLocal(s.forBody, Some(test), test + 1);
    PartWithin(Body(s, start), test, test + 1, m, test, m + 1);
    OIsLocal(s.increment, After(Body(s, start), test), test + 1 + m);
  }

  lemma {:induction false} ForIsLocal(s: Stmt, prev: Option<nat>, c: nat)
    requires s.For? && NoFunctions(s) && Earlier(prev, c)
    ensures Local(Build(s, prev, c), prev, c, Size(s))
    decreases s, 0, 1
  {
    var start := c + SizeO(s.init);
    ForPiecesLocal(s, prev, c, start);
    ForPartsOf(s, prev, c);
    ForLocal(prev, c, BuildO(s.init, prev, c), s.init.Some?, SizeO(s.init), start, Body(s, start), Increment(s, start),
             s.increment.Some?, Size(s.forBody), SizeO(s.increment), Build(s, prev, c), Size(s));
  }

  lemma {:induction false} SsIsLocal(ss: seq<Stmt>, prev: Option<nat>, c: nat)
    requires (forall i :: 0 <= i < |ss| ==> NoFunctions(ss[i])) && Earlier(prev, c)
    ensures Local(BuildSs(ss, prev, c), prev, c, SizeSs(ss)) && BuildSs(ss, prev, c).next == c + SizeSs(ss)
    decreases ss, 0
  {
    if ss == [] {
      LocalIs(Part(None, prev, {}, c), prev, c, 0);
    } else {
      var front, last := ss[..|ss| - 1], ss[|ss| - 1];
      var f := BuildSs(front, prev, c);
      SsIsLocal(front, prev, c);
      LocalIs(f, prev, c, SizeSs(front));
      StmtIsLocal(last, f.exit, c + SizeSs(front));
      SsLocal(f, prev, c, SizeSs(front), Build(last, f.exit, f.next), Size(last), |ss| == 1);
      assert SizeSs(ss) == SizeSs(front) + Size(last);
    }
  }

  /** The entry is the first node, or the place where the statement is attached, or missing. */
  lemma {:induction false} EntryIs(s: Stmt, prev: Option<nat>, c: nat)
    requires NoFunctions(s)
    ensures Build(s, prev, c).entry == if Starts(s) then Some(c) else if Enters(s, prev.Some?) then prev else None
    decreases s, 1
  {
    match s
    case For(init, _, _, _) =>
      ForPartsOf(s, prev, c);
      if init.Some? {
        EntryIs(init.value, prev, c);
      }
    case Block(ss) => SsEntryIs(ss, prev, c);
    case _ =>
  }

  lemma {:induction false} SsEntryIs(ss: seq<Stmt>, prev: Option<nat>, c: nat)
    requires forall i :: 0 <= i < |ss| ==> NoFunctions(ss[i])
    ensures BuildSs(ss, prev, c).entry
            == if ss == [] then None
               else if Starts(ss[0]) then Some(c) else if Enters(ss[0], prev.Some?) then prev else None
    decreases ss, 0
  {
    if |ss| == 1 {
      assert ss[..0] == [];
      EntryIs(ss[0], prev, c);
    } else if ss != [] {
      SsEntryIs(ss[..|ss| - 1], prev, c);
    }
  }

  // ---- When every step is drawn ----

  /** The last of `n` nodes from `c` on, or where one was if there are none. */
  function Exit(prev: Option<nat>, c: nat, n: nat): Option<nat> {
    if n == 0 then prev else Some(c + n - 1)
  }

  /** All the steps are among the edges, by the outcome that takes them, and the exit is where runs end. */
  ghost predicate HasDrawn(p: Part, flow: set<Edge>, prev: Option<nat>, c: nat, n: nat) {
    flow <= p.edges && p.exit == Exit(prev, c, n)
  }

  ghost predicate Draws(p: Part, flow: set<Edge>, prev: Option<nat>, c: nat, n: nat) {
    forall x :: Equals(x, p) ==> HasDrawn(x, flow, prev, c, n)
  }

  lemma DrawsIs(p: Part, flow: set<Edge>, prev: Option<nat>, c: nat, n: nat)
    ensures Draws(p, flow, prev, c, n) <==> HasDrawn(p, flow, prev, c, n)
  {
    assert Equals(p, p);
  }

  /** What a branch of `n` nodes from `at` on has to be for the edges of the conditional `c` to carry its steps. */
  ghost predicate BranchDraws(p: Part, a: set<Edge>, c: nat, at: nat, n: nat) {
    p.entry == Some(at) && Draws(p, a, Some(c), at, n)
  }

  /** The edges among the nodes of the part are its own. */
  ghost predicate Owns(all: set<Edge>, p: Part, at: nat, n: nat) {
    && p.edges <= all
    && forall e :: e in all && at <= e.from < at + n && at <= e.to < at + n && (e.from == e.to ==> e.kind == Back) ==>
         e in p.edges
  }

  ghost predicate Among(a: set<Edge>, at: nat, n: nat) {
    Within(a, at, n) && forall e :: e in a && e.from == e.to ==> e.kind == Back
  }

  /** Among the edges of the conditional, which ones belong to the branch. */
  ghost predicate Carries(all: set<Edge>, p: Part, c: nat, how: Label, at: nat, n: nat, merge: nat) {
    && (n > 0 ==> (Edge(c, at, how) in all <==> p.entry == Some(at)))
    && (n > 0 ==> (Edge(at + n - 1, merge, Next) in all <==> p.exit == Some(at + n - 1)))
    && (n == 0 ==> Edge(c, merge, how) !in all)
  }

  lemma CarriedDraws(all: set<Edge>, p: Part, a: set<Edge>, c: nat, how: Label, at: nat, n: nat, merge: nat)
    requires Owns(all, p, at, n) && Carries(all, p, c, how, at, n, merge)
    requires Local(p, Some(c), at, n) && Among(a, at, n) && c < at
    ensures Includes(all, BranchSteps(c, how, at, n, merge, a)) <==> BranchDraws(p, a, c, at, n)
  {
    IncludesIs(all, BranchSteps(c, how, at, n, merge, a));
    LocalIs(p, Some(c), at, n);
    DrawsIs(p, a, Some(c), at, n);
    if BranchSteps(c, how, at, n, merge, a) <= all {
      assert n == 0 ==> Edge(c, merge, how) in all;
      assert n > 0 ==> Edge(c, at, how) in all && Edge(at + n - 1, merge, Next) in all;
      assert forall e :: e in a ==> e in all;
    }
  }

  /** What there is of a part lies at `c` or from `lo` up to `hi`. */
  ghost predicate Aside(p: Part, c: nat, lo: nat, hi: nat) {
    && (forall e :: e in p.edges ==> (e.to == c || lo <= e.to < hi) && (e.from == c || lo <= e.from < hi))
    && (p.entry.Some? ==> p.entry == Some(c) || lo <= p.entry.value < hi)
    && (p.exit.Some? ==> p.exit == Some(c) || lo <= p.exit.value < hi)
  }

  lemma PartAside(p: Part, there: bool, c: nat, at: nat, n: nat)
    requires LocalO(p, there, Some(c), at, n)
    ensures Aside(p, c, at, at + n) && (there ==> p.exit.Some?) && p.next == at + n
  {
    LocalIs(p, Some(c), at, n);
  }

  lemma ThenCarried(prev: Option<nat>, c: nat, p: Part, q: Part, hasElse: bool, m: nat, n: nat)
    requires Local(p, Some(c), c + 1, m) && LocalO(q, hasElse, Some(c), c + 1 + m, n) && Earlier(prev, c)
    ensures Carries(IfEdges(prev, c, p, q, hasElse), p, c, OnTrue, c + 1, m, c + 1 + m + n)
  {
    LocalIs(p, Some(c), c + 1, m);
    PartAside(q, hasElse, c, c + 1 + m, n);
  }

  lemma ElseCarried(prev: Option<nat>, c: nat, p: Part, q: Part, m: nat, n: nat)
    requires Local(p, Some(c), c + 1, m) && Local(q, Some(c), c + 1 + m, n) && Earlier(prev, c)
    ensures Carries(IfEdges(prev, c, p, q, true), q, c, OnFalse, c + 1 + m, n, c + 1 + m + n)
  {
    PartAside(p, true, c, c + 1, m);
    LocalIs(q, Some(c), c + 1 + m, n);
  }

  lemma ThenOwned(prev: Option<nat>, c: nat, p: Part, q: Part, hasElse: bool, m: nat, at: nat, n: nat)
    requires at == c + 1 + m && Local(p, Some(c), c + 1, m) && LocalO(q, hasElse, Some(c), at, n) && Earlier(prev, c)
    ensures Owns(IfEdges(prev, c, p, q, hasElse), p, c + 1, m)
  {
    PartAside(p, true, c, c + 1, m);
    PartAside(q, hasElse, c, at, n);
  }

  lemma ElseOwned(prev: Option<nat>, c: nat, p: Part, q: Part, m: nat, n: nat)
    requires Local(p, Some(c), c + 1, m) && Local(q, Some(c), c + 1 + m, n) && Earlier(prev, c)
    ensures Owns(IfEdges(prev, c, p, q, true), q, c + 1 + m, n)
  {
    PartAside(p, true, c, c + 1, m);
    PartAside(q, true, c, c + 1 + m, n);
  }

  lemma NoElseDraws(prev: Option<nat>, c: nat, p: Part, merge: nat, b: set<Edge>)
    requires Within(b, merge, 0)
    ensures Includes(IfEdges(prev, c, p, NoPart(merge), false), BranchSteps(c, OnFalse, merge, 0, merge, b))
  {
    IncludesIs(IfEdges(prev, c, p, NoPart(merge), false), BranchSteps(c, OnFalse, merge, 0, merge, b));
  }

  /** A conditional draws its steps exactly if each of its branches begins with its first node and draws its own. */
  lemma IfDraws(prev: Option<nat>, c: nat, at: nat, merge: nat, p: Part, q: Part, hasElse: bool, m: nat, n: nat,
                a: set<Edge>, b: set<Edge>, edges: set<Edge>)
    requires at == c + 1 + m && merge == c + 1 + m + n && edges == IfEdges(prev, c, p, q, hasElse)
    requires Local(p, Some(c), c + 1, m) && LocalO(q, hasElse, Some(c), at, n) && Earlier(prev, c)
    requires Among(a, c + 1, m) && Among(b, at, n)
    ensures Includes(edges, BranchSteps(c, OnTrue, c + 1, m, merge, a) + BranchSteps(c, OnFalse, at, n, merge, b))
            <==> BranchDraws(p, a, c, c + 1, m) && (hasElse ==> BranchDraws(q, b, c, at, n))
  {
    ThenOwned(prev, c, p, q, hasElse, m, at, n);
    ThenCarried(prev, c, p, q, hasElse, m, n);
    CarriedDraws(edges, p, a, c, OnTrue, c + 1, m, merge);
    if hasElse {
      ElseOwned(prev, c, p, q, m, n);
      ElseCarried(prev, c, p, q, m, n);
      CarriedDraws(edges, q, b, c, OnFalse, at, n, merge);
    } else {
      NoElseDraws(prev, c, p, merge, b);
    }
    UnionIncluded(edges, BranchSteps(c, OnTrue, c + 1, m, merge, a), BranchSteps(c, OnFalse, at, n, merge, b));
  }

  lemma UnionIncluded(all: set<Edge>, a: set<Edge>, b: set<Edge>)
    ensures Includes(all, a + b) <==> Includes(all, a) && Includes(all, b)
  {
    IncludesIs(all, a + b);
    IncludesIs(all, a);
    IncludesIs(all, b);
  }

  ghost predicate RoundDraws(test: nat, p: Part, q: Part, hasStep: bool, m: nat, n: nat, a: set<Edge>, b: set<Edge>) {
    && Draws(p, a, Some(test), test + 1, m) && (hasStep ==> Draws(q, b, After(p, test), test + 1 + m, n))
    && (m + n > 0 ==> p.entry == Some(test + 1))
  }

  lemma RoundOwned(test: nat, p: Part, q: Part, hasStep: bool, m: nat, n: nat)
    requires Local(p, Some(test), test + 1, m) && LocalO(q, hasStep, After(p, test), test + 1 + m, n)
    ensures Owns(RoundEdges(test, p, q), p, test + 1, m) && Owns(RoundEdges(test, p, q), q, test + 1 + m, n)
  {
    LocalIs(p, Some(test), test + 1, m);
    LocalIs(q, After(p, test), test + 1 + m, n);
  }

  lemma RoundEnters(test: nat, p: Part, q: Part, hasStep: bool, m: nat, n: nat)
    requires Local(p, Some(test), test + 1, m) && LocalO(q, hasStep, After(p, test), test + 1 + m, n)
    ensures m + n > 0 ==> (Edge(test, test + 1, OnTrue) in RoundEdges(test, p, q) <==> p.entry == Some(test + 1))
  {
    LocalIs(p, Some(test), test + 1, m);
    LocalIs(q, After(p, test), test + 1 + m, n);
  }

  lemma RoundJoins(test: nat, p: Part, q: Part, hasStep: bool, m: nat, n: nat)
    requires Local(p, Some(test), test + 1, m) && LocalO(q, hasStep, After(p, test), test + 1 + m, n)
    ensures m > 0 && n > 0 ==>
              (Edge(test + m, test + 1 + m, Next) in RoundEdges(test, p, q) <==> p.exit == Some(test + m))
  {
    LocalIs(p, Some(test), test + 1, m);
    LocalIs(q, After(p, test), test + 1 + m, n);
  }

  lemma RoundReturns(test: nat, p: Part, q: Part, hasStep: bool, m: nat, n: nat)
    requires Local(p, Some(test), test + 1, m) && LocalO(q, hasStep, After(p, test), test + 1 + m, n)
    ensures Edge(test + m + n, test, Back) in RoundEdges(test, p, q)
            <==> (if n > 0 then q.exit == Some(test + m + n) else p.exit == Some(test + m))
  {
    LocalIs(p, Some(test), test + 1, m);
    LocalIs(q, After(p, test), test + 1 + m, n);
  }

  /** A loop draws the steps of its rounds exactly if its body begins with its first node, where there are nodes, and
      body and increment draw their own. */
  lemma LoopDraws(test: nat, at: nat, next: nat, p: Part, q: Part, hasStep: bool, m: nat, n: nat, a: set<Edge>,
                  b: set<Edge>)
    requires at == test + 1 && next == test + 1 + m
    requires Local(p, Some(test), at, m) && LocalO(q, hasStep, After(p, test), next, n)
    requires Among(a, at, m) && Among(b, next, n)
    ensures Includes(RoundEdges(test, p, q), RoundSteps(test, m, n, a, b))
            <==> RoundDraws(test, p, q, hasStep, m, n, a, b)
  {
    RoundOwned(test, p, q, hasStep, m, n);
    RoundReturns(test, p, q, hasStep, m, n);
    RoundEnters(test, p, q, hasStep, m, n);
    RoundJoins(test, p, q, hasStep, m, n);
    OwnedLoopDraws(RoundEdges(test, p, q), test, p, q, hasStep, m, n, a, b);
  }

  lemma OwnedLoopDraws(all: set<Edge>, test: nat, p: Part, q: Part, hasStep: bool, m: nat, n: nat, a: set<Edge>,
                       b: set<Edge>)
    requires Local(p, Some(test), test + 1, m) && LocalO(q, hasStep, After(p, test), test + 1 + m, n)
    requires Among(a, test + 1, m) && Among(b, test + 1 + m, n)
    requires Owns(all, p, test + 1, m) && Owns(all, q, test + 1 + m, n)
    requires m + n > 0 ==> (Edge(test, test + 1, OnTrue) in all <==> p.entry == Some(test + 1))
    requires m > 0 && n > 0 ==> (Edge(test + m, test + 1 + m, Next) in all <==> p.exit == Some(test + m))
    requires Edge(test + m + n, test, Back) in all
             <==> (if n > 0 then q.exit == Some(test + m + n) else p.exit == Some(test + m))
    ensures Includes(all, RoundSteps(test, m, n, a, b)) <==> RoundDraws(test, p, q, hasStep, m, n, a, b)
  {
    IncludesIs(all, RoundSteps(test, m, n, a, b));
    RoundUnion(all, test, m, n, a, b);
    OwnedDraws(all, p, a, Some(test), test + 1, m);
    if hasStep {
      OwnedDraws(all, q, b, After(p, test), test + 1 + m, n);
    }
    LocalIs(p, Some(test), test + 1, m);
    LocalIs(q, After(p, test), test + 1 + m, n);
  }

  lemma OwnedDraws(all: set<Edge>, p: Part, a: set<Edge>, prev: Option<nat>, at: nat, n: nat)
    requires Owns(all, p, at, n) && Among(a, at, n)
    ensures Draws(p, a, prev, at, n) <==> a <= all && p.exit == Exit(prev, at, n)
  {
    DrawsIs(p, a, prev, at, n);
    assert forall e :: e in a && e in all ==> e in p.edges;
  }

  lemma RoundUnion(all: set<Edge>, test: nat, m: nat, n: nat, a: set<Edge>, b: set<Edge>)
    ensures RoundSteps(test, m, n, a, b) <= all <==>
            && a <= all && b <= all && (m > 0 && n > 0 ==> Edge(test + m, test + 1 + m, Next) in all)
            && Edge(test + m + n, test, Back) in all && (m + n > 0 ==> Edge(test, test + 1, OnTrue) in all)
  {
    var back, join := Edge(test + m + n, test, Back), Edge(test + m, test + 1 + m, Next);
    assert back in RoundSteps(test, m, n, a, b);
    assert m > 0 && n > 0 ==> join in Join(test + 1, m, n);
  }

  /** A while loop is one round without an increment. */
  lemma WhileDraws(prev: Option<nat>, c: nat, p: Part, m: nat, a: set<Edge>)
    requires Local(p, Some(c + 1), c + 2, m) && Earlier(prev, c) && Among(a, c + 2, m)
    ensures Includes(WhileEdges(prev, c, p), LoopSteps(c, m, 0, a, {}))
            <==> Includes(RoundEdges(c + 1, p, NoPart(c + 2 + m)), RoundSteps(c + 1, m, 0, a, {}))
  {
    LocalIs(p, Some(c + 1), c + 2, m);
    var steps, all := RoundSteps(c + 1, m, 0, a, {}), RoundEdges(c + 1, p, NoPart(c + 2 + m));
    IncludesIs(WhileEdges(prev, c, p), LoopSteps(c, m, 0, a, {}));
    IncludesIs(all, steps);
    assert WhileEdges(prev, c, p) == Link(prev, Some(c), Next) + {Edge(c, c + 1, Next)} + all;
    assert Edge(c + 1, c + 2 + m, OnFalse) in all;
    assert forall e :: e in steps ==> e.to != c && e.from != c;
  }

  /** The steps of a for loop: those of its initialisation, of `k` nodes, and those of its rounds. */
  function ForSteps(c: nat, k: nat, start: nat, m: nat, n: nat, i: set<Edge>, a: set<Edge>, b: set<Edge>): set<Edge> {
    i + Join(c, k, 3 + m + n) + LoopSteps(start, m, n, a, b)
  }

  /** The edges up to the test lie before it. */
  ghost predicate Apart(first: set<Edge>, i: Part, c: nat, k: nat, start: nat) {
    && start == c + k && Owns(first, i, c, k) && Edge(start, start + 1, Next) in first
    && (forall e :: e in first ==> e == Edge(start, start + 1, Next) || e.to <= start)
    && (k > 0 ==> (Edge(start - 1, start, Next) in first <==> i.exit == Some(start - 1)))
  }

  lemma StartsApart(prev: Option<nat>, c: nat, i: Part, hasInit: bool, k: nat, start: nat)
    requires start == c + k && LocalO(i, hasInit, prev, c, k) && Earlier(prev, c) && i.next == start
    ensures Apart(StartEdges(prev, i), i, c, k, start)
  {
    LocalIs(i, prev, c, k);
  }

  /** The edges from the test on lie after it. */
  lemma RestsApart(test: nat, p: Part, q: Part, hasStep: bool, m: nat, n: nat)
    requires Local(p, Some(test), test + 1, m) && LocalO(q, hasStep, After(p, test), test + 1 + m, n)
    ensures Within(RoundEdges(test, p, q), test, 2 + m + n)
    ensures Edge(test, test + 1 + m + n, OnFalse) in RoundEdges(test, p, q)
  {
    RoundLocal(test, p, q, hasStep, m, n);
    assert Edge(test, q.next, OnFalse) in Link(Some(test), Some(q.next), OnFalse);
  }

  lemma ForDraws(prev: Option<nat>, c: nat, i: Part, hasInit: bool, k: nat, start: nat, p: Part, q: Part, hasStep: bool,
                 m: nat, n: nat, j: set<Edge>, a: set<Edge>, b: set<Edge>)
    requires start == c + k && LocalO(i, hasInit, prev, c, k) && Earlier(prev, c) && i.next == start
    requires Local(p, Some(start + 1), start + 2, m) && LocalO(q, hasStep, After(p, start + 1), start + 2 + m, n)
    requires Among(j, c, k) && Among(a, start + 2, m) && Among(b, start + 2 + m, n)
    ensures Includes(ForEdges(prev, i, p, q), ForSteps(c, k, start, m, n, j, a, b))
            <==> (hasInit ==> Draws(i, j, prev, c, k))
                 && Includes(RoundEdges(start + 1, p, q), RoundSteps(start + 1, m, n, a, b))
  {
    StartsApart(prev, c, i, hasInit, k, start);
    RestsApart(start + 1, p, q, hasStep, m, n);
    InitExits(i, hasInit, prev, c, k, j);
    ApartDraw(StartEdges(prev, i), RoundEdges(start + 1, p, q), prev, c, i, hasInit, k, start, m, n, j, a, b);
  }

  lemma ApartDraw(first: set<Edge>, rest: set<Edge>, prev: Option<nat>, c: nat, i: Part, hasInit: bool, k: nat,
                  start: nat, m: nat, n: nat, j: set<Edge>, a: set<Edge>, b: set<Edge>)
    requires Apart(first, i, c, k, start) && Within(rest, start + 1, 2 + m + n)
    requires Edge(start + 1, start + 2 + m + n, OnFalse) in rest
    requires Among(j, c, k) && Among(a, start + 2, m) && Among(b, start + 2 + m, n)
    requires (k == 0 ==> hasInit ==> i.exit == prev) && (k > 0 ==> hasInit)
    ensures Includes(first + rest, ForSteps(c, k, start, m, n, j, a, b))
            <==> (hasInit ==> Draws(i, j, prev, c, k)) && Includes(rest, RoundSteps(start + 1, m, n, a, b))
  {
    IncludesIs(first + rest, ForSteps(c, k, start, m, n, j, a, b));
    IncludesIs(rest, RoundSteps(start + 1, m, n, a, b));
    OwnedDraws(first, i, j, prev, c, k);
    RoundStepsWithin(start + 1, m, n, a, b);
    StepsApart(first, rest, c, k, start, m + n, j, RoundSteps(start + 1, m, n, a, b));
    ForUnion(first + rest, c, k, start, m, n, j, a, b);
  }

  lemma InitExits(i: Part, hasInit: bool, prev: Option<nat>, c: nat, k: nat, j: set<Edge>)
    requires LocalO(i, hasInit, prev, c, k)
    ensures (k == 0 ==> hasInit ==> i.exit == prev) && (k > 0 ==> hasInit)
  {
    LocalIs(i, prev, c, k);
  }

  /** Each step lies on one side. */
  lemma StepsApart(first: set<Edge>, rest: set<Edge>, c: nat, k: nat, start: nat, n: nat, j: set<Edge>,
                   steps: set<Edge>)
    requires forall e :: e in first ==> e == Edge(start, start + 1, Next) || e.to <= start
    requires Within(rest, start + 1, 2 + n) && start == c + k && Within(j, c, k) && Within(steps, start + 1, 1 + n)
    ensures j <= first + rest <==> j <= first
    ensures steps <= first + rest <==> steps <= rest
    ensures k > 0 ==> (Edge(start - 1, start, Next) in first + rest <==> Edge(start - 1, start, Next) in first)
  {
    assert forall e :: e in j ==> e !in rest;
    assert forall e :: e in steps ==> e !in first;
  }

  lemma RoundStepsWithin(test: nat, m: nat, n: nat, a: set<Edge>, b: set<Edge>)
    requires Within(a, test + 1, m) && Within(b, test + 1 + m, n)
    ensures Within(RoundSteps(test, m, n, a, b), test, 1 + m + n)
  {
  }

  lemma ForUnion(all: set<Edge>, c: nat, k: nat, start: nat, m: nat, n: nat, j: set<Edge>, a: set<Edge>, b: set<Edge>)
    requires start == c + k
    ensures ForSteps(c, k, start, m, n, j, a, b) <= all <==>
            && j <= all && RoundSteps(start + 1, m, n, a, b) <= all && (k > 0 ==> Edge(start - 1, start, Next) in all)
            && Edge(start, start + 1, Next) in all && Edge(start + 1, start + 2 + m + n, OnFalse) in all
  {
    assert k > 0 ==> Edge(start - 1, start, Next) in Join(c, k, 3 + m + n);
  }

  /** Statements in a row draw their steps exactly if those before do, the last does, and the last has an entry
      if it has nodes. */
  lemma SsDraws(f: Part, prev: Option<nat>, c: nat, m: nat, p: Part, n: nat, a: set<Edge>, b: set<Edge>, all: Part)
    requires Local(f, prev, c, m) && Local(p, f.exit, c + m, n) && Earlier(prev, c)
    requires Among(a, c, m) && Among(b, c + m, n)
    requires all.edges == f.edges + p.edges && all.exit == if p.entry.Some? then p.exit else f.exit
    ensures Draws(all, a + Join(c, m, n) + b, prev, c, m + n)
            <==> Draws(f, a, prev, c, m) && Draws(p, b, f.exit, c + m, n) && (n > 0 ==> p.entry.Some?)
  {
    RowOwned(f, prev, c, m, p, n);
    RowJoins(f, prev, c, m, p, n);
    OwnedDraws(all.edges, f, a, prev, c, m);
    OwnedDraws(all.edges, p, b, f.exit, c + m, n);
    DrawsIs(all, a + Join(c, m, n) + b, prev, c, m + n);
    JoinUnion(all.edges, a, b, c, m, n);
    LocalIs(f, prev, c, m);
    LocalIs(p, f.exit, c + m, n);
  }

  /** At the outermost level it is the exit alone that counts. */
  lemma TopDraws(f: Part, m: nat, p: Part, n: nat, a: set<Edge>, b: set<Edge>, all: Part)
    requires Local(f, None, 0, m) && Local(p, f.exit, m, n) && Among(a, 0, m) && Among(b, m, n)
    requires all.edges == f.edges + p.edges && all.exit == if p.exit.Some? then p.exit else f.exit
    ensures Draws(all, a + Join(0, m, n) + b, None, 0, m + n) <==> Draws(f, a, None, 0, m) && Draws(p, b, f.exit, m, n)
  {
    RowOwned(f, None, 0, m, p, n);
    RowJoins(f, None, 0, m, p, n);
    OwnedDraws(all.edges, f, a, None, 0, m);
    OwnedDraws(all.edges, p, b, f.exit, m, n);
    DrawsIs(all, a + Join(0, m, n) + b, None, 0, m + n);
    JoinUnion(all.edges, a, b, 0, m, n);
    LocalIs(f, None, 0, m);
    LocalIs(p, f.exit, m, n);
  }

  lemma RowOwned(f: Part, prev: Option<nat>, c: nat, m: nat, p: Part, n: nat)
    requires Local(f, prev, c, m) && Local(p, f.exit, c + m, n) && Earlier(prev, c)
    ensures Owns(f.edges + p.edges, f, c, m) && Owns(f.edges + p.edges, p, c + m, n)
  {
    LocalIs(f, prev, c, m);
    LocalIs(p, f.exit, c + m, n);
  }

  lemma RowJoins(f: Part, prev: Option<nat>, c: nat, m: nat, p: Part, n: nat)
    requires Local(f, prev, c, m) && Local(p, f.exit, c + m, n) && Earlier(prev, c)
    ensures m > 0 && n > 0 ==> (Edge(c + m - 1, c + m, Next) in f.edges + p.edges <==> f.exit == Some(c + m - 1))
  {
    LocalIs(f, prev, c, m);
    LocalIs(p, f.exit, c + m, n);
  }

  lemma JoinUnion(all: set<Edge>, a: set<Edge>, b: set<Edge>, c: nat, m: nat, n: nat)
    ensures a + Join(c, m, n) + b <= all
            <==> a <= all && b <= all && (m > 0 && n > 0 ==> Edge(c + m - 1, c + m, Next) in all)
  {
    assert m > 0 && n > 0 ==> Edge(c + m - 1, c + m, Next) in Join(c, m, n);
  }

  // ---- ... told from the text ----

  lemma FlowAmong(s: Stmt, c: nat)
    ensures Among(Flow(s, c), c, Size(s))
  {
    FlowIsShapely(s, c);
    ShapelyIs(Flow(s, c), c, Size(s));
  }

  lemma FlowOAmong(s: Option<Stmt>, c: nat)
    ensures Among(FlowO(s, c), c, SizeO(s))
  {
    FlowOIsShapely(s, c);
    ShapelyIs(FlowO(s, c), c, SizeO(s));
  }

  lemma FlowSsAmong(ss: seq<Stmt>, c: nat)
    ensures Among(FlowSs(ss, c), c, SizeSs(ss))
  {
    FlowSsIsShapely(ss, c);
    ShapelyIs(FlowSs(ss, c), c, SizeSs(ss));
  }

  ghost predicate Drawn(s: Stmt, prev: Option<nat>, c: nat)
    requires NoFunctions(s)
  {
    Draws(Build(s, prev, c), Flow(s, c), prev, c, Size(s))
  }

  ghost predicate DrawnO(s: Option<Stmt>, prev: Option<nat>, c: nat)
    requires s.Some? ==> NoFunctions(s.value)
  {
    Draws(BuildO(s, prev, c), FlowO(s, c), prev, c, SizeO(s))
  }

  ghost predicate DrawnSs(ss: seq<Stmt>, prev: Option<nat>, c: nat)
    requires forall i :: 0 <= i < |ss| ==> NoFunctions(ss[i])
  {
    Draws(BuildSs(ss, prev, c), FlowSs(ss, c), prev, c, SizeSs(ss))
  }

  ghost predicate DrawnTop(ss: seq<Stmt>)
    requires forall i :: 0 <= i < |ss| ==> NoFunctions(ss[i])
  {
    Draws(BuildTop(ss), FlowSs(ss, 0), None, 0, SizeSs(ss))
  }

  ghost predicate BranchDrawn(s: Stmt, c: nat, at: nat)
    requires NoFunctions(s)
  {
    BranchDraws(Build(s, Some(c), at), Flow(s, at), c, at, Size(s))
  }

  /** The edges that the builder draws carry every step of the statement by the outcome that takes it, and end where
      it ends, exactly if its text is as `Labelled` says. */
  lemma {:induction false} DrawsExactlyWhenLabelled(s: Stmt, prev: Option<nat>, c: nat)
    requires NoFunctions(s) && Earlier(prev, c)
    ensures Drawn(s, prev, c) <==> Labelled(s, prev.Some?)
    decreases s, 2
  {
    match s
    case If(_, _, _) => IfDrawsExactly(s, prev, c);
    case While(_, _) => WhileDrawsExactly(s, prev, c);
    case For(_, _, _, _) => ForDrawsExactly(s, prev, c);
    case Block(ss) => SsDrawExactly(ss, prev, c);
    case _ => DrawsIs(Build(s, prev, c), Flow(s, c), prev, c, Size(s));
  }

  lemma {:induction false} ODrawsExactly(s: Option<Stmt>, prev: Option<nat>, c: nat)
    requires (s.Some? ==> NoFunctions(s.value)) && Earlier(prev, c)
    ensures s.Some? ==> (DrawnO(s, prev, c) <==> Labelled(s.value, prev.Some?))
    decreases s
  {
    if s.Some? {
      DrawsExactlyWhenLabelled(s.value, prev, c);
    }
  }

  lemma {:induction false} BranchDrawsExactly(s: Stmt, c: nat, at: nat)
    requires NoFunctions(s) && c < at
    ensures BranchDrawn(s, c, at) <==> Starts(s) && Labelled(s, true)
    decreases s, 3
  {
    DrawsExactlyWhenLabelled(s, Some(c), at);
    EntryIs(s, Some(c), at);
  }

  lemma {:induction false} IfDrawsExactly(s: Stmt, prev: Option<nat>, c: nat)
    requires s.If? && NoFunctions(s) && Earlier(prev, c)
    ensures Drawn(s, prev, c) <==> Labelled(s, prev.Some?)
    decreases s, 1
  {
    IfDrawsBranches(s, prev, c);
    BranchDrawsExactly(s.thenBranch, c, c + 1);
    if s.elseBranch.Some? {
      BranchDrawsExactly(s.elseBranch.value, c, c + 1 + Size(s.thenBranch));
    }
  }

  function EdgesOfIf(s: Stmt, prev: Option<nat>, c: nat, at: nat): set<Edge>
    requires s.If? && NoFunctions(s)
  {
    IfEdges(prev, c, Build(s.thenBranch, Some(c), c + 1), BuildO(s.elseBranch, Some(c), at), s.elseBranch.Some?)
  }

  function StepsOfIf(s: Stmt, c: nat, at: nat, merge: nat): set<Edge>
    requires s.If?
  {
    BranchSteps(c, OnTrue, c + 1, Size(s.thenBranch), merge, Flow(s.thenBranch, c + 1))
    + BranchSteps(c, OnFalse, at, SizeO(s.elseBranch), merge, FlowO(s.elseBranch, at))
  }

  ghost predicate IfIncluded(s: Stmt, prev: Option<nat>, c: nat, at: nat, merge: nat)
    requires s.If? && NoFunctions(s)
  {
    Includes(EdgesOfIf(s, prev, c, at), StepsOfIf(s, c, at, merge))
  }

  lemma {:induction false} IfDrawsBranches(s: Stmt, prev: Option<nat>, c: nat)
    requires s.If? && NoFunctions(s) && Earlier(prev, c)
    ensures Drawn(s, prev, c) <==>
            && BranchDrawn(s.thenBranch, c, c + 1)
            && (s.elseBranch.Some? ==> BranchDrawn(s.elseBranch.value, c, c + 1 + Size(s.thenBranch)))
  {
    var at := c + 1 + Size(s.thenBranch);
    IfIsIncluded(s, prev, c, at, at + SizeO(s.elseBranch));
    BranchesIncluded(s, prev, c, at, at + SizeO(s.elseBranch));
  }

  lemma {:induction false} IfIsIncluded(s: Stmt, prev: Option<nat>, c: nat, at: nat, merge: nat)
    requires s.If? && NoFunctions(s) && at == c + 1 + Size(s.thenBranch) && merge == at + SizeO(s.elseBranch)
    ensures Drawn(s, prev, c) <==> IfIncluded(s, prev, c, at, merge)
  {
    IfBuilt(s, prev, c, at);
    IfFlow(s, c, at, merge);
    ExitBuilt(s, prev, c);
    FlowDrawn(Build(s, prev, c), Flow(s, c), prev, c, Size(s), EdgesOfIf(s, prev, c, at), StepsOfIf(s, c, at, merge));
  }

  lemma {:induction false} IfBuilt(s: Stmt, prev: Option<nat>, c: nat, at: nat)
    requires s.If? && NoFunctions(s) && at == c + 1 + Size(s.thenBranch)
    ensures Build(s, prev, c).edges == EdgesOfIf(s, prev, c, at)
  {
    NextCounts(s.thenBranch, Some(c), c + 1);
    PartsOf(s, prev, c);
  }

  lemma {:induction false} BranchesIncluded(s: Stmt, prev: Option<nat>, c: nat, at: nat, merge: nat)
    requires s.If? && NoFunctions(s) && Earlier(prev, c)
    requires at == c + 1 + Size(s.thenBranch) && merge == at + SizeO(s.elseBranch)
    ensures IfIncluded(s, prev, c, at, merge) <==>
            BranchDrawn(s.thenBranch, c, c + 1) && (s.elseBranch.Some? ==> BranchDrawn(s.elseBranch.value, c, at))
  {
    var t, f, m, n := s.thenBranch, s.elseBranch, Size(s.thenBranch), SizeO(s.elseBranch);
    StmtIsLocal(t, Some(c), c + 1);
    OIsLocal(f, Some(c), at);
    FlowAmong(t, c + 1);
    FlowOAmong(f, at);
    var p, q := Build(t, Some(c), c + 1), BuildO(f, Some(c), at);
    IfDraws(prev, c, at, merge, p, q, f.Some?, m, n, Flow(t, c + 1), FlowO(f, at), IfEdges(prev, c, p, q, f.Some?));
  }

  lemma IfFlow(s: Stmt, c: nat, at: nat, merge: nat)
    requires s.If? && at == c + 1 + Size(s.thenBranch) && merge == at + SizeO(s.elseBranch)
    ensures Flow(s, c) == StepsOfIf(s, c, at, merge) && Size(s) == 2 + Size(s.thenBranch) + SizeO(s.elseBranch)
  {
  }

  lemma {:induction false} WhileDrawsExactly(s: Stmt, prev: Option<nat>, c: nat)
    requires s.While? && NoFunctions(s) && Earlier(prev, c)
    ensures Drawn(s, prev, c) <==> Labelled(s, prev.Some?)
    decreases s, 1
  {
    var b, m, test := s.loopBody, Size(s.loopBody), c + 1;
    var p, a := Build(b, Some(test), c + 2), Flow(b, c + 2);
    StmtIsLocal(b, Some(test), c + 2);
    FlowAmong(b, c + 2);
    PartsOf(s, prev, c);
    WhileDraws(prev, c, p, m, a);
    LoopDraws(test, c + 2, c + 2 + m, p, NoPart(c + 2 + m), false, m, 0, a, {});
    DrawsExactlyWhenLabelled(b, Some(test), c + 2);
    EntryIs(b, Some(test), c + 2);
    ExitBuilt(s, prev, c);
    FlowDrawn(Build(s, prev, c), Flow(s, c), prev, c, Size(s), WhileEdges(prev, c, p), LoopSteps(c, m, 0, a, {}));
  }

  lemma {:induction false} ForDrawsExactly(s: Stmt, prev: Option<nat>, c: nat)
    requires s.For? && NoFunctions(s) && Earlier(prev, c)
    ensures Drawn(s, prev, c) <==> Labelled(s, prev.Some?)
    decreases s, 1
  {
    var start := c + SizeO(s.init);
    ForPiecesLocal(s, prev, c, start);
    ForDrawsPieces(s, prev, c, start);
    PiecesDraw(s, prev, c, start);
  }

  ghost predicate RoundDrawn(s: Stmt, start: nat)
    requires s.For? && NoFunctions(s)
  {
    RoundDraws(start + 1, Body(s, start), Increment(s, start), s.increment.Some?, Size(s.forBody), SizeO(s.increment),
               Flow(s.forBody, start + 2), FlowO(s.increment, start + 2 + Size(s.forBody)))
  }

  ghost predicate PiecesDrawn(s: Stmt, prev: Option<nat>, c: nat, start: nat)
    requires s.For? && NoFunctions(s)
  {
    (s.init.Some? ==> DrawnO(s.init, prev, c)) && RoundDrawn(s, start)
  }

  function EdgesOfFor(s: Stmt, prev: Option<nat>, c: nat, start: nat): set<Edge>
    requires s.For? && NoFunctions(s)
  {
    ForEdges(prev, BuildO(s.init, prev, c), Body(s, start), Increment(s, start))
  }

  function StepsOfFor(s: Stmt, c: nat, start: nat): set<Edge>
    requires s.For?
  {
    ForSteps(c, SizeO(s.init), start, Size(s.forBody), SizeO(s.increment), FlowO(s.init, c),
             Flow(s.forBody, start + 2), FlowO(s.increment, start + 2 + Size(s.forBody)))
  }

  ghost predicate ForIncluded(s: Stmt, prev: Option<nat>, c: nat, start: nat)
    requires s.For? && NoFunctions(s)
  {
    Includes(EdgesOfFor(s, prev, c, start), StepsOfFor(s, c, start))
  }

  ghost predicate RoundIncluded(s: Stmt, start: nat)
    requires s.For? && NoFunctions(s)
  {
    Includes(RoundEdges(start + 1, Body(s, start), Increment(s, start)),
             RoundSteps(start + 1, Size(s.forBody), SizeO(s.increment), Flow(s.forBody, start + 2),
                        FlowO(s.increment, start + 2 + Size(s.forBody))))
  }

  lemma {:induction false} ForDrawsPieces(s: Stmt, prev: Option<nat>, c: nat, start: nat)
    requires s.For? && NoFunctions(s) && Earlier(prev, c) && ForPieces(s, prev, c, start)
    ensures Drawn(s, prev, c) <==> PiecesDrawn(s, prev, c, start)
  {
    ForIsIncluded(s, prev, c, start);
    RoundIsIncluded(s, prev, c, start);
    RoundsDraw(s, prev, c, start);
  }

  lemma {:induction false} ForIsIncluded(s: Stmt, prev: Option<nat>, c: nat, start: nat)
    requires s.For? && NoFunctions(s) && ForPieces(s, prev, c, start)
    ensures Drawn(s, prev, c) <==> ForIncluded(s, prev, c, start)
  {
    ForBuilt(s, prev, c, start);
    ExitBuilt(s, prev, c);
    ForFlow(s, c, start);
    FlowDrawn(Build(s, prev, c), Flow(s, c), prev, c, Size(s), EdgesOfFor(s, prev, c, start), StepsOfFor(s, c, start));
  }

  lemma {:induction false} RoundIsIncluded(s: Stmt, prev: Option<nat>, c: nat, start: nat)
    requires s.For? && NoFunctions(s) && Earlier(prev, c) && ForPieces(s, prev, c, start)
    ensures ForIncluded(s, prev, c, start) <==> (s.init.Some? ==> DrawnO(s.init, prev, c)) && RoundIncluded(s, start)
  {
    var k, m, n, there := SizeO(s.init), Size(s.forBody), SizeO(s.increment), s.increment.Some?;
    var j, a, b := FlowO(s.init, c), Flow(s.forBody, start + 2), FlowO(s.increment, start + 2 + m);
    FlowOAmong(s.init, c);
    FlowAmong(s.forBody, start + 2);
    FlowOAmong(s.increment, start + 2 + m);
    ForDraws(prev, c, BuildO(s.init, prev, c), s.init.Some?, k, start, Body(s, start), Increment(s, start), there, m, n,
             j, a, b);
  }

  lemma {:induction false} RoundsDraw(s: Stmt, prev: Option<nat>, c: nat, start: nat)
    requires s.For? && NoFunctions(s) && ForPieces(s, prev, c, start)
    ensures RoundIncluded(s, start) <==> RoundDrawn(s, start)
  {
    var m, n := Size(s.forBody), SizeO(s.increment);
    FlowAmong(s.forBody, start + 2);
    FlowOAmong(s.increment, start + 2 + m);
    LoopDraws(start + 1, start + 2, start + 2 + m, Body(s, start), Increment(s, start), s.increment.Some?, m, n,
              Flow(s.forBody, start + 2), FlowO(s.increment, start + 2 + m));
  }

  /** Where the exit is the last node, what counts is the edges. */
  lemma FlowDrawn(p: Part, flow: set<Edge>, prev: Option<nat>, c: nat, n: nat, edges: set<Edge>, steps: set<Edge>)
    requires p.exit == Exit(prev, c, n) && p.edges == edges && flow == steps
    ensures Draws(p, flow, prev, c, n) <==> Includes(edges, steps)
  {
    IncludesIs(p.edges, flow);
    DrawsIs(p, flow, prev, c, n);
  }

  lemma {:induction false} ForBuilt(s: Stmt, prev: Option<nat>, c: nat, start: nat)
    requires s.For? && NoFunctions(s) && BuildO(s.init, prev, c).next == start
    ensures Build(s, prev, c).edges == EdgesOfFor(s, prev, c, start)
  {
    ForPartsOf(s, prev, c);
  }

  lemma {:induction false} ExitBuilt(s: Stmt, prev: Option<nat>, c: nat)
    requires (s.If? || s.While? || s.For?) && NoFunctions(s)
    ensures Build(s, prev, c).exit == Exit(prev, c, Size(s))
  {
    NextCounts(s, prev, c);
    PartsOf(s, prev, c);
    if s.For? {
      ForPartsOf(s, prev, c);
    }
  }

  lemma ForFlow(s: Stmt, c: nat, start: nat)
    requires s.For? && start == c + SizeO(s.init)
    ensures Flow(s, c) == StepsOfFor(s, c, start)
    ensures Size(s) == SizeO(s.init) + (3 + Size(s.forBody) + SizeO(s.increment))
  {
    FlowForIs(s, c, SizeO(s.init), 3 + Size(s.forBody) + SizeO(s.increment));
  }

  lemma {:induction false} PiecesDraw(s: Stmt, prev: Option<nat>, c: nat, start: nat)
    requires s.For? && NoFunctions(s) && Earlier(prev, c) && ForPieces(s, prev, c, start)
    ensures PiecesDrawn(s, prev, c, start) <==> Labelled(s, prev.Some?)
    decreases s, 0
  {
    var m, test, p := Size(s.forBody), start + 1, Body(s, start);
    LocalIs(p, Some(test), start + 2, m);
    ODrawsExactly(s.init, prev, c);
    DrawsExactlyWhenLabelled(s.forBody, Some(test), start + 2);
    EntryIs(s.forBody, Some(test), start + 2);
    ODrawsExactly(s.increment, After(p, test), start + 2 + m);
  }

  lemma {:induction false} SsDrawExactly(ss: seq<Stmt>, prev: Option<nat>, c: nat)
    requires (forall i :: 0 <= i < |ss| ==> NoFunctions(ss[i])) && Earlier(prev, c)
    ensures DrawnSs(ss, prev, c) <==> LabelledSs(ss, prev.Some?)
    decreases ss
  {
    if ss == [] {
      DrawsIs(BuildSs(ss, prev, c), FlowSs(ss, c), prev, c, 0);
    } else {
      var front, last := ss[..|ss| - 1], ss[|ss| - 1];
      var m, f := SizeSs(front), BuildSs(front, prev, c);
      SsIsLocal(front, prev, c);
      LocalIs(f, prev, c, m);
      SsDrawLast(ss, prev, c);
      SsDrawExactly(front, prev, c);
      DrawsExactlyWhenLabelled(last, f.exit, c + m);
      EntersIs(last, f.exit, c + m);
      DrawsIs(f, FlowSs(front, c), prev, c, m);
    }
  }

  lemma {:induction false} SsDrawLast(ss: seq<Stmt>, prev: Option<nat>, c: nat)
    requires ss != [] && (forall i :: 0 <= i < |ss| ==> NoFunctions(ss[i])) && Earlier(prev, c)
    ensures var front, last := ss[..|ss| - 1], ss[|ss| - 1];
            var m, f := SizeSs(front), BuildSs(front, prev, c);
            DrawnSs(ss, prev, c)
            <==> DrawnSs(front, prev, c) && Drawn(last, f.exit, c + m)
                 && (Size(last) > 0 ==> Build(last, f.exit, c + m).entry.Some?)
  {
    var front, last := ss[..|ss| - 1], ss[|ss| - 1];
    var m, n, f := SizeSs(front), Size(last), BuildSs(front, prev, c);
    SsIsLocal(front, prev, c);
    LocalIs(f, prev, c, m);
    StmtIsLocal(last, f.exit, c + m);
    FlowSsAmong(front, c);
    FlowAmong(last, c + m);
    SsDraws(f, prev, c, m, Build(last, f.exit, c + m), n, FlowSs(front, c), Flow(last, c + m), BuildSs(ss, prev, c));
    assert SizeSs(ss) == m + n;
  }

  // ---- Whole programs ----

  lemma {:induction false} TopIsLocal(ss: seq<Stmt>)
    requires forall i :: 0 <= i < |ss| ==> NoFunctions(ss[i])
    ensures Local(BuildTop(ss), None, 0, SizeSs(ss)) && BuildTop(ss).next == SizeSs(ss)
    decreases ss
  {
    LocalIs(BuildTop(ss), None, 0, SizeSs(ss));
    if ss != [] {
      var front, last := ss[..|ss| - 1], ss[|ss| - 1];
      var m, f := SizeSs(front), BuildTop(front);
      TopIsLocal(front);
      LocalIs(f, None, 0, m);
      StmtIsLocal(last, f.exit, m);
      LocalIs(Build(last, f.exit, m), f.exit, m, Size(last));
      assert SizeSs(ss) == m + Size(last);
    }
  }

  lemma {:induction false} TopDrawsExactlyWhenLabelled(ss: seq<Stmt>)
    requires forall i :: 0 <= i < |ss| ==> NoFunctions(ss[i])
    ensures DrawnTop(ss) <==> LabelledTop(ss)
    decreases ss
  {
    if ss == [] {
      DrawsIs(BuildTop(ss), FlowSs(ss, 0), None, 0, 0);
    } else {
      var front, last := ss[..|ss| - 1], ss[|ss| - 1];
      var m, n, f := SizeSs(front), Size(last), BuildTop(front);
      TopIsLocal(front);
      LocalIs(f, None, 0, m);
      StmtIsLocal(last, f.exit, m);
      FlowSsAmong(front, 0);
      FlowAmong(last, m);
      TopDraws(f, m, Build(last, f.exit, m), n, FlowSs(front, 0), Flow(last, m), BuildTop(ss));
      TopDrawsExactlyWhenLabelled(front);
      DrawsExactlyWhenLabelled(last, f.exit, m);
      DrawsIs(f, FlowSs(front, 0), None, 0, m);
      assert SizeSs(ss) == m + n;
    }
  }
}
