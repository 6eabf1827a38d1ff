// Every run of a program is a path in its control-flow graph.
module FlowPaths {
  import opened Ast
  import opened Values
  import opened Interpreter
  import opened FlowGraph

  ghost predicate Connected(edges: set<Edge>, from: Option<nat>, to: nat) {
    from.Some? ==> exists kind :: Edge(from.value, to, kind) in edges
  }

  /** Where one is after going from `from` along `v`. */
  function End(from: Option<nat>, v: seq<nat>): Option<nat> {
    if v == [] then from else Some(v[|v| - 1])
  }

  ghost predicate Path(edges: set<Edge>, from: Option<nat>, v: seq<nat>) {
    v == [] || (Path(edges, from, v[..|v| - 1]) && Connected(edges, End(from, v[..|v| - 1]), v[|v| - 1]))
  }

  lemma {:induction false} PathWithin(edges: set<Edge>, more: set<Edge>, from: Option<nat>, v: seq<nat>)
    requires Path(edges, from, v) && edges <= more
    ensures Path(more, from, v)
    decreases |v|
  {
    if v != [] {
      PathWithin(edges, more, from, v[..|v| - 1]);
      var a := End(from, v[..|v| - 1]);
      if a.Some? {
        var kind :| Edge(a.value, v[|v| - 1], kind) in edges;
        assert Edge(a.value, v[|v| - 1], kind) in more;
      }
    }
  }

  lemma {:induction false} PathOn(edges: set<Edge>, from: Option<nat>, u: seq<nat>, v: seq<nat>)
    requires Path(edges, from, u) && Path(edges, End(from, u), v)
    ensures Path(edges, from, u + v) && End(from, u + v) == End(End(from, u), v)
    decreases |v|
  {
    if v == [] {
      assert u + v == u;
    } else {
      PathOn(edges, from, u, v[..|v| - 1]);
      assert (u + v)[..|u + v| - 1] == u + v[..|v| - 1];
    }
  }

  lemma PathStep(edges: set<Edge>, from: Option<nat>, to: nat)
    requires Connected(edges, from, to)
    ensures Path(edges, from, [to]) && End(from, [to]) == Some(to)
  {
    assert [to][..0] == [];
  }

  /** Statements that neither make nodes nor let anything be attached wrongly. */
  predicate Barren(s: Stmt) {
    match s
    case Assign(_, _) => true
    case Bare(_) => true
    case Block(ss) => forall i :: 0 <= i < |ss| ==> Barren(ss[i])
    case _ => false
  }

  /** Within blocks, a statement that control does not enter by the builder's account has no nodes. */
  predicate Coherent(s: Stmt, prev: Option<nat>, c: nat)
    requires NoFunctions(s)
    decreases s, 1
  {
    match s
    case If(_, t, f) => Coherent(t, Some(c), c + 1) && CoherentO(f, Some(c), Build(t, Some(c), c + 1).next)
    case While(_, b) => Coherent(b, Some(c + 1), c + 2)
    case For(init, _, step, b) =>
      var i := BuildO(init, prev, c);
      var p := Build(b, Some(i.next + 1), i.next + 2);
      && CoherentO(init, prev, c) && Coherent(b, Some(i.next + 1), i.next + 2)
      && CoherentO(step, After(p, i.next + 1), p.next)
    case Block(ss) => CoherentSs(ss, prev, c)
    case _ => true
  }

  predicate CoherentO(s: Option<Stmt>, prev: Option<nat>, c: nat)
    requires s.Some? ==> NoFunctions(s.value)
    decreases s, 0
  {
    s.Some? ==> Coherent(s.value, prev, c)
  }

  predicate CoherentSs(ss: seq<Stmt>, prev: Option<nat>, c: nat)
    requires forall i :: 0 <= i < |ss| ==> NoFunctions(ss[i])
    decreases ss, 0
  {
    ss == [] ||
    var last, front := ss[|ss| - 1], BuildSs(ss[..|ss| - 1], prev, c);
    && CoherentSs(ss[..|ss| - 1], prev, c) && Coherent(last, front.exit, front.next)
    && (Build(last, front.exit, front.next).entry.Some? || Barren(last))
  }

  lemma {:induction false} BarrenVisitsNothing(fmt: Format, s: Stmt, store: Store, fuel: nat, c: nat)
    requires Barren(s) && ExecS(fmt, s, store, fuel).Done?
    ensures Visited(fmt, s, store, fuel, c) == []
    decreases s, 1
  {
    if s.Block? {
      BarrenSsVisitNothing(fmt, s.statements, store, fuel, c);
    }
  }

  lemma {:induction false} BarrenSsVisitNothing(fmt: Format, ss: seq<Stmt>, store: Store, fuel: nat, c: nat)
    requires (forall i :: 0 <= i < |ss| ==> Barren(ss[i])) && ExecSs(fmt, ss, store, fuel).Done?
    ensures VisitedSs(fmt, ss, store, fuel, c) == []
    decreases ss, 0
  {
    if ss != [] {
      var front := ss[..|ss| - 1];
      BarrenSsVisitNothing(fmt, front, store, fuel, c);
      BarrenVisitsNothing(fmt, ss[|ss| - 1], ExecSs(fmt, front, store, fuel).store, fuel, c + NodesSs(front));
    }
  }

  /** A run goes along edges of the graph and ends where the builder says. */
  ghost predicate Along(p: Part, prev: Option<nat>, v: seq<nat>) {
    Path(p.edges, prev, v) && p.exit == End(prev, v)
  }

  lemma {:induction false} StmtAlong(fmt: Format, s: Stmt, prev: Option<nat>, store: Store, fuel: nat, c: nat)
    requires NoFunctions(s) && Coherent(s, prev, c) && ExecS(fmt, s, store, fuel).Done?
    ensures Along(Build(s, prev, c), prev, Visited(fmt, s, store, fuel, c))
    decreases fuel, s, 4
  {
    match s
    case Let(_, _, _) => NodeAlong(prev, c);
    case Print(_) => NodeAlong(prev, c);
    case If(e, t, f) => IfAlong(fmt, s, prev, store, fuel, c);
    case While(_, _) => WhileAlong(fmt, s, prev, store, fuel, c);
    case For(_, _, _, _) => ForAlong(fmt, s, prev, store, fuel, c);
    case Block(ss) => SsAlong(fmt, ss, prev, store, fuel, c);
    case _ =>
  }

  lemma {:induction false} NodeAlong(prev: Option<nat>, c: nat)
    ensures Along(Part(Some(c), Some(c), Link(prev, Some(c), Next), c + 1), prev, [c])
  {
    if prev.Some? {
      assert Edge(prev.value, c, Next) in Link(prev, Some(c), Next);
    }
    PathStep(Link(prev, Some(c), Next), prev, c);
  }

  lemma {:induction false} OAlong(fmt: Format, s: Option<Stmt>, prev: Option<nat>, store: Store, fuel: nat, c: nat)
    requires (s.Some? ==> NoFunctions(s.value)) && CoherentO(s, prev, c) && ExecO(fmt, s, store, fuel).Done?
    ensures var v := VisitedO(fmt, s, store, fuel, c);
            if s.Some? then Along(BuildO(s, prev, c), prev, v) else v == []
    decreases fuel, s
  {
    if s.Some? {
      StmtAlong(fmt, s.value, prev, store, fuel, c);
    }
  }

  /** From a node through a part to a node that its exit leads to. */
  lemma Through(edges: set<Edge>, p: Part, at: nat, v: seq<nat>, to: nat)
    requires Along(p, Some(at), v) && p.edges <= edges && Connected(edges, p.exit, to)
    ensures Path(edges, Some(at), v + [to]) && End(Some(at), v + [to]) == Some(to)
  {
    PathWithin(p.edges, edges, Some(at), v);
    PathStep(edges, p.exit, to);
    PathOn(edges, Some(at), v, [to]);
  }

  /** The edges of a conditional that runs use. */
  lemma IfJoins(s: Stmt, prev: Option<nat>, c: nat)
    requires s.If? && NoFunctions(s)
    ensures var all, p := Build(s, prev, c).edges, Build(s.thenBranch, Some(c), c + 1);
            var q := BuildO(s.elseBranch, Some(c), p.next);
            && Link(prev, Some(c), Next) <= all && p.edges <= all && q.edges <= all
            && Build(s, prev, c).exit == Some(q.next) && (p.exit.Some? ==> Connected(all, p.exit, q.next))
            && (q.exit.Some? ==> Connected(all, q.exit, q.next))
            && (s.elseBranch.None? ==> Connected(all, Some(c), q.next))
  {
    var all, p := Build(s, prev, c).edges, Build(s.thenBranch, Some(c), c + 1);
    var q := BuildO(s.elseBranch, Some(c), p.next);
    assert Build(s, prev, c) == BuildIf(s, prev, c);
    assert p.exit.Some? ==> Edge(p.exit.value, q.next, Next) in all;
    assert q.exit.Some? ==> Edge(q.exit.value, q.next, Next) in all;
    assert s.elseBranch.None? ==> Edge(c, q.next, OnFalse) in all;
  }

  lemma {:induction false} IfAlong(fmt: Format, s: Stmt, prev: Option<nat>, store: Store, fuel: nat, c: nat)
    requires s.If? && NoFunctions(s) && Coherent(s, prev, c) && ExecS(fmt, s, store, fuel).Done?
    ensures Along(Build(s, prev, c), prev, Visited(fmt, s, store, fuel, c))
    decreases fuel, s, 1
  {
    AgreementIsDefined(fmt, s.condition, store);
    if Truthy(Evaluate(fmt, s.condition, store).value) {
      ThenAlong(fmt, s, prev, store, fuel, c);
    } else {
      ElseAlong(fmt, s, prev, store, fuel, c);
    }
  }

  lemma BranchJoins(p: Part, prev: Option<nat>, c: nat, v: seq<nat>, merge: nat, visited: seq<nat>)
    requires Path(p.edges, prev, [c]) && Path(p.edges, Some(c), v + [merge])
    requires p.exit == Some(merge) && visited == [c] + v + [merge]
    ensures Along(p, prev, visited)
  {
    PathOn(p.edges, prev, [c], v + [merge]);
    assert visited == [c] + (v + [merge]);
  }

  lemma {:induction false} ThenAlong(fmt: Format, s: Stmt, prev: Option<nat>, store: Store, fuel: nat, c: nat)
    requires s.If? && NoFunctions(s) && Coherent(s, prev, c) && ExecS(fmt, s, store, fuel).Done?
    requires Evaluate(fmt, s.condition, store).Some? && Truthy(Evaluate(fmt, s.condition, store).value)
    ensures Along(Build(s, prev, c), prev, Visited(fmt, s, store, fuel, c))
    decreases fuel, s, 0
  {
    var all := Build(s, prev, c).edges;
    var p := Build(s.thenBranch, Some(c), c + 1);
    var merge := BuildO(s.elseBranch, Some(c), p.next).next;
    IfJoins(s, prev, c);
    NodeAlong(prev, c);
    PathWithin(Link(prev, Some(c), Next), all, prev, [c]);
    var v := Visited(fmt, s.thenBranch, store, fuel, c + 1);
    StmtAlong(fmt, s.thenBranch, Some(c), store, fuel, c + 1);
    Through(all, p, c, v, merge);
    NextCounts(s.thenBranch, Some(c), c + 1);
    NextCountsO(s.elseBranch, Some(c), p.next);
    BranchJoins(Build(s, prev, c), prev, c, v, merge, Visited(fmt, s, store, fuel, c));
  }

  lemma {:induction false} ElseAlong(fmt: Format, s: Stmt, prev: Option<nat>, store: Store, fuel: nat, c: nat)
    requires s.If? && NoFunctions(s) && Coherent(s, prev, c) && ExecS(fmt, s, store, fuel).Done?
    requires Evaluate(fmt, s.condition, store).Some? && !Truthy(Evaluate(fmt, s.condition, store).value)
    ensures Along(Build(s, prev, c), prev, Visited(fmt, s, store, fuel, c))
    decreases fuel, s, 0
  {
    var all := Build(s, prev, c).edges;
    var p := Build(s.thenBranch, Some(c), c + 1);
    var q := BuildO(s.elseBranch, Some(c), p.next);
    IfJoins(s, prev, c);
    NodeAlong(prev, c);
    PathWithin(Link(prev, Some(c), Next), all, prev, [c]);
    var v := VisitedO(fmt, s.elseBranch, store, fuel, p.next);
    OAlong(fmt, s.elseBranch, Some(c), store, fuel, p.next);
    if s.elseBranch.Some? {
      Through(all, q, c, v, q.next);
    } else {
      PathStep(all, Some(c), q.next);
      assert v + [q.next] == [q.next];
    }
    NextCounts(s.thenBranch, Some(c), c + 1);
    NextCountsO(s.elseBranch, Some(c), p.next);
    BranchJoins(Build(s, prev, c), prev, c, v, q.next, Visited(fmt, s, store, fuel, c));
  }

  lemma {:induction false} WhileAlong(fmt: Format, s: Stmt, prev: Option<nat>, store: Store, fuel: nat, c: nat)
    requires s.While? && NoFunctions(s) && Coherent(s, prev, c) && ExecS(fmt, s, store, fuel).Done?
    ensures Along(Build(s, prev, c), prev, Visited(fmt, s, store, fuel, c))
    decreases fuel, s, 1
  {
    var all := Build(s, prev, c).edges;
    var exit := Build(s.loopBody, Some(c + 1), c + 2).next;
    assert Build(s, prev, c) == BuildWhile(s, prev, c);
    NextCounts(s.loopBody, Some(c + 1), c + 2);
    NodeAlong(prev, c);
    PathWithin(Link(prev, Some(c), Next), all, prev, [c]);
    var v := Turns(fmt, s, store, fuel, c);
    assert Edge(c, c + 1, Next) in all && Edge(c + 1, exit, OnFalse) in all;
    TurnsAlong(fmt, s, Some(c), store, fuel, c, all);
    PathOn(all, prev, [c], v);
    PathStep(all, Some(c + 1), exit);
    PathOn(all, prev, [c] + v, [exit]);
  }

  lemma {:induction false} TurnsAlong(fmt: Format, s: Stmt, from: Option<nat>, store: Store, fuel: nat, c: nat,
                                      all: set<Edge>)
    requires s.While? && NoFunctions(s) && Coherent(s.loopBody, Some(c + 1), c + 2) && ExecS(fmt, s, store, fuel).Done?
    requires var p := Build(s.loopBody, Some(c + 1), c + 2);
             p.edges <= all && (p.exit.Some? ==> Edge(p.exit.value, c + 1, Back) in all)
    requires Connected(all, from, c + 1)
    ensures var v := Turns(fmt, s, store, fuel, c); Path(all, from, v) && End(from, v) == Some(c + 1)
    decreases fuel, s, 0
  {
    AgreementIsDefined(fmt, s.guard, store);
    PathStep(all, from, c + 1);
    if Truthy(Evaluate(fmt, s.guard, store).value) {
      var p := Build(s.loopBody, Some(c + 1), c + 2);
      var round := ExecS(fmt, s.loopBody, store, fuel);
      var v := Visited(fmt, s.loopBody, store, fuel, c + 2);
      StmtAlong(fmt, s.loopBody, Some(c + 1), store, fuel, c + 2);
      RoundThere(p, all, from, c + 1, v);
      TurnsAlong(fmt, s, p.exit, round.store, fuel - 1, c, all);
      PathOn(all, from, [c + 1] + v, Turns(fmt, s, round.store, fuel - 1, c));
    }
  }

  /** A test, a body, and the edge back. */
  lemma {:induction false} RoundThere(p: Part, all: set<Edge>, from: Option<nat>, test: nat, v: seq<nat>)
    requires Along(p, Some(test), v) && p.edges <= all && Path(all, from, [test]) && End(from, [test]) == Some(test)
    requires p.exit.Some? ==> Edge(p.exit.value, test, Back) in all
    ensures Path(all, from, [test] + v) && End(from, [test] + v) == p.exit && Connected(all, p.exit, test)
  {
    PathWithin(p.edges, all, Some(test), v);
    PathOn(all, from, [test], v);
  }

  /** The parts of a for loop are joined in `all`: the initialisation `i`, the body `p` and the
      increment `q`. */
  ghost predicate Joins(all: set<Edge>, prev: Option<nat>, i: Part, p: Part, q: Part) {
    var start, cond := i.next, i.next + 1;
    && i.edges <= all && p.edges <= all && q.edges <= all
    && (Before(prev, i).Some? ==> Connected(all, Before(prev, i), start))
    && Connected(all, Some(start), cond) && Connected(all, Some(cond), q.next)
    && Connected(all, After(q, After(p, cond).value), cond)
  }

  lemma ForEdgesJoin(prev: Option<nat>, i: Part, p: Part, q: Part)
    ensures Joins(ForEdges(prev, i, p, q), prev, i, p, q)
  {
    var all, start, cond := ForEdges(prev, i, p, q), i.next, i.next + 1;
    assert Edge(start, cond, Next) in all && Edge(cond, q.next, OnFalse) in all;
    assert Edge(After(q, After(p, cond).value).value, cond, Back) in all;
    if Before(prev, i).Some? {
      assert Edge(Before(prev, i).value, start, Next) in Link(Before(prev, i), Some(start), Next);
      assert Edge(Before(prev, i).value, start, Next) in all;
    }
  }

  function Body(s: Stmt, start: nat): Part
    requires s.For? && NoFunctions(s)
  {
    Build(s.forBody, Some(start + 1), start + 2)
  }

  function Increment(s: Stmt, start: nat): Part
    requires s.For? && NoFunctions(s)
  {
    BuildO(s.increment, After(Body(s, start), start + 1), Body(s, start).next)
  }

  predicate CoherentRound(s: Stmt, start: nat)
    requires s.For? && NoFunctions(s)
  {
    && Coherent(s.forBody, Some(start + 1), start + 2)
    && CoherentO(s.increment, After(Body(s, start), start + 1), Body(s, start).next)
  }

  lemma {:induction false} ForAlong(fmt: Format, s: Stmt, prev: Option<nat>, store: Store, fuel: nat, c: nat)
    requires s.For? && NoFunctions(s) && Coherent(s, prev, c) && ExecS(fmt, s, store, fuel).Done?
    ensures Along(Build(s, prev, c), prev, Visited(fmt, s, store, fuel, c))
    decreases fuel, s, 3
  {
    var i := BuildO(s.init, prev, c);
    var p, q := Body(s, i.next), Increment(s, i.next);
    ForEdgesJoin(prev, i, p, q);
    ForPath(fmt, s, prev, store, fuel, c, i, p, q, ForEdges(prev, i, p, q));
    ForParts(s, prev, c);
  }

  lemma {:induction false} ForParts(s: Stmt, prev: Option<nat>, c: nat)
    requires s.For? && NoFunctions(s)
    ensures var i := BuildO(s.init, prev, c);
            var p, q := Body(s, i.next), Increment(s, i.next);
            Build(s, prev, c).edges == ForEdges(prev, i, p, q) && Build(s, prev, c).exit == Some(q.next)
  {
    assert Build(s, prev, c) == BuildFor(s, prev, c);
  }

  lemma {:induction false} ForPath(fmt: Format, s: Stmt, prev: Option<nat>, store: Store, fuel: nat, c: nat,
                                   i: Part, p: Part, q: Part, all: set<Edge>)
    requires s.For? && NoFunctions(s) && ExecS(fmt, s, store, fuel).Done?
    requires i == BuildO(s.init, prev, c) && p == Body(s, i.next) && q == Increment(s, i.next)
    requires CoherentO(s.init, prev, c) && CoherentRound(s, i.next) && Joins(all, prev, i, p, q)
    ensures var v := Visited(fmt, s, store, fuel, c); Path(all, prev, v) && End(prev, v) == Some(q.next)
    decreases fuel, s, 2
  {
    var start, cond := i.next, i.next + 1;
    var u := VisitedO(fmt, s.init, store, fuel, c);
    OAlong(fmt, s.init, prev, store, fuel, c);
    PathWithin(i.edges, all, prev, u);
    assert End(prev, u).Some? ==> End(prev, u) == Before(prev, i);
    PathStep(all, End(prev, u), start);
    var store' := ExecO(fmt, s.init, store, fuel).store;
    var v := Rounds(fmt, s, store', fuel, start);
    RoundsAlong(fmt, s, Some(start), store', fuel, start, all);
    PathStep(all, Some(cond), q.next);
    PathsJoin(all, prev, u, start, v, q.next);
    ForUnfold(fmt, s, prev, store, fuel, c);
  }

  lemma {:induction false} PathsJoin(all: set<Edge>, prev: Option<nat>, u: seq<nat>, start: nat, v: seq<nat>, exit: nat)
    requires Path(all, prev, u) && Path(all, End(prev, u), [start])
    requires Path(all, Some(start), v) && Path(all, End(Some(start), v), [exit])
    ensures Path(all, prev, u + [start] + v + [exit]) && End(prev, u + [start] + v + [exit]) == Some(exit)
  {
    PathOn(all, prev, u, [start]);
    PathOn(all, prev, u + [start], v);
    PathOn(all, prev, u + [start] + v, [exit]);
  }

  lemma {:induction false} ForUnfold(fmt: Format, s: Stmt, prev: Option<nat>, store: Store, fuel: nat, c: nat)
    requires s.For? && NoFunctions(s) && ExecS(fmt, s, store, fuel).Done?
    ensures var start := BuildO(s.init, prev, c).next;
            Visited(fmt, s, store, fuel, c)
            == VisitedO(fmt, s.init, store, fuel, c) + [start]
               + Rounds(fmt, s, ExecO(fmt, s.init, store, fuel).store, fuel, start) + [Increment(s, start).next]
  {
    NextCountsO(s.init, prev, c);
    var start := BuildO(s.init, prev, c).next;
    var p := Body(s, start);
    NextCounts(s.forBody, Some(start + 1), start + 2);
    NextCountsO(s.increment, After(p, start + 1), p.next);
  }

  /** The edges that a for loop goes round on. */
  ghost predicate Ring(s: Stmt, start: nat, all: set<Edge>)
    requires s.For? && NoFunctions(s)
  {
    var p, q := Body(s, start), Increment(s, start);
    && CoherentRound(s, start) && p.edges <= all && q.edges <= all
    && Connected(all, After(q, After(p, start + 1).value), start + 1)
  }

  lemma {:induction false} RoundsAlong(fmt: Format, s: Stmt, from: Option<nat>, store: Store, fuel: nat, start: nat,
                                       all: set<Edge>)
    requires s.For? && NoFunctions(s) && ExecLoop(fmt, s, store, fuel).Done? && Ring(s, start, all)
    requires Connected(all, from, start + 1)
    ensures var v := Rounds(fmt, s, store, fuel, start); Path(all, from, v) && End(from, v) == Some(start + 1)
    decreases fuel, s, 1
  {
    PathStep(all, from, start + 1);
    if Continues(fmt, s.test, store) {
      var round := ExecRound(fmt, s, store, fuel);
      assert round.Done?;
      var at := RoundAlong(fmt, s, store, fuel, start, all);
      var v := VisitedRound(fmt, s, store, fuel, start);
      PathOn(all, from, [start + 1], v);
      var w := Rounds(fmt, s, round.store, fuel - 1, start);
      RoundsAlong(fmt, s, at, round.store, fuel - 1, start, all);
      PathOn(all, from, [start + 1] + v, w);
    }
  }

  lemma {:induction false} RoundAlong(fmt: Format, s: Stmt, store: Store, fuel: nat, start: nat, all: set<Edge>)
      returns (at: Option<nat>)
    requires s.For? && NoFunctions(s) && ExecRound(fmt, s, store, fuel).Done? && Ring(s, start, all)
    ensures var v := VisitedRound(fmt, s, store, fuel, start);
            Path(all, Some(start + 1), v) && at == End(Some(start + 1), v) && Connected(all, at, start + 1)
    decreases fuel, s, 0
  {
    var p := Build(s.forBody, Some(start + 1), start + 2);
    var body := ExecS(fmt, s.forBody, store, fuel);
    NextCounts(s.forBody, Some(start + 1), start + 2);
    var v := Visited(fmt, s.forBody, store, fuel, start + 2);
    StmtAlong(fmt, s.forBody, Some(start + 1), store, fuel, start + 2);
    PathWithin(p.edges, all, Some(start + 1), v);
    var w := VisitedStep(fmt, s.increment, body.store, fuel, p.next);
    StepAlong(fmt, s.increment, p.exit, body.store, fuel, p.next, all);
    PathOn(all, Some(start + 1), v, w);
    at := End(p.exit, w);
  }

  lemma {:induction false} StepAlong(fmt: Format, s: Option<Stmt>, prev: Option<nat>, store: Store, fuel: nat, c: nat,
                                     all: set<Edge>)
    requires (s.Some? ==> NoFunctions(s.value)) && prev.Some? && CoherentO(s, prev, c)
    requires ExecStep(fmt, s, store, fuel).Done?
    requires BuildO(s, prev, c).edges <= all
    ensures var w := VisitedStep(fmt, s, store, fuel, c);
            && Path(all, prev, w)
            && End(prev, w) == if BuildO(s, prev, c).exit.Some? then BuildO(s, prev, c).exit else prev
    decreases fuel, s
  {
    if s.Some? && !s.value.Bare? {
      StmtAlong(fmt, s.value, prev, store, fuel, c);
      PathWithin(BuildO(s, prev, c).edges, all, prev, VisitedStep(fmt, s, store, fuel, c));
    }
  }

  lemma {:induction false} SsAlong(fmt: Format, ss: seq<Stmt>, prev: Option<nat>, store: Store, fuel: nat, c: nat)
    requires forall i :: 0 <= i < |ss| ==> NoFunctions(ss[i])
    requires CoherentSs(ss, prev, c) && ExecSs(fmt, ss, store, fuel).Done?
    ensures Along(BuildSs(ss, prev, c), prev, VisitedSs(fmt, ss, store, fuel, c))
    decreases fuel, ss
  {
    if ss != [] {
      var last, front := ss[|ss| - 1], ss[..|ss| - 1];
      var f := BuildSs(front, prev, c);
      var p := Build(last, f.exit, f.next);
      var middle := ExecSs(fmt, front, store, fuel).store;
      SsAlong(fmt, front, prev, store, fuel, c);
      StmtAlong(fmt, last, f.exit, middle, fuel, f.next);
      NextCountsSs(front, prev, c);
      var u, v := VisitedSs(fmt, front, store, fuel, c), Visited(fmt, last, middle, fuel, f.next);
      var all := f.edges + p.edges;
      PathWithin(f.edges, all, prev, u);
      PathWithin(p.edges, all, f.exit, v);
      PathOn(all, prev, u, v);
      if p.entry.None? {
        BarrenVisitsNothing(fmt, last, middle, fuel, f.next);
      }
    }
  }

  // ---- Programs without empty blocks ----

  /** Sequential code and nested control flow, with something in every block. */
  predicate Full(s: Stmt) {
    match s
    case If(_, t, f) => Full(t) && (f.Some? ==> Full(f.value))
    case While(_, b) => Full(b)
    case For(init, _, step, b) => (init.Some? ==> Full(init.value)) && (step.Some? ==> Full(step.value)) && Full(b)
    case Block(ss) => ss != [] && forall i :: 0 <= i < |ss| ==> Full(ss[i])
    case Function(_, _, _) => false
    case Return(_) => false
    case _ => true
  }

  lemma {:induction false} FullHasNoFunctions(s: Stmt)
    requires Full(s)
    ensures NoFunctions(s)
    decreases s
  {
    match s
    case If(_, t, f) =>
      FullHasNoFunctions(t);
      if f.Some? {
        FullHasNoFunctions(f.value);
      }
    case While(_, b) => FullHasNoFunctions(b);
    case For(init, _, step, b) =>
      if init.Some? {
        FullHasNoFunctions(init.value);
      }
      if step.Some? {
        FullHasNoFunctions(step.value);
      }
      FullHasNoFunctions(b);
    case Block(ss) =>
      forall i | 0 <= i < |ss|
        ensures NoFunctions(ss[i])
      {
        FullHasNoFunctions(ss[i]);
      }
    case _ =>
  }

  /** Once something has been built before it, such a statement has an entry and an exit. */
  lemma {:induction false} FullIsCoherent(s: Stmt, prev: Option<nat>, c: nat)
    requires Full(s) && NoFunctions(s) && prev.Some?
    ensures Coherent(s, prev, c) && Build(s, prev, c).entry.Some? && Build(s, prev, c).exit.Some?
    decreases s, 1
  {
    match s
    case If(_, t, f) =>
      FullIsCoherent(t, Some(c), c + 1);
      if f.Some? {
        FullIsCoherent(f.value, Some(c), Build(t, Some(c), c + 1).next);
      }
    case While(_, b) => FullIsCoherent(b, Some(c + 1), c + 2);
    case For(init, _, step, b) =>
      if init.Some? {
        FullIsCoherent(init.value, prev, c);
      }
      var i := BuildO(init, prev, c);
      FullIsCoherent(b, Some(i.next + 1), i.next + 2);
      var p := Build(b, Some(i.next + 1), i.next + 2);
      if step.Some? {
        FullIsCoherent(step.value, After(p, i.next + 1), p.next);
      }
    case Block(ss) => FullSsAreCoherent(ss, prev, c);
    case _ =>
  }

  lemma {:induction false} FullSsAreCoherent(ss: seq<Stmt>, prev: Option<nat>, c: nat)
    requires (forall i :: 0 <= i < |ss| ==> Full(ss[i]) && NoFunctions(ss[i])) && prev.Some?
    ensures CoherentSs(ss, prev, c) && BuildSs(ss, prev, c).exit.Some?
    ensures ss != [] ==> BuildSs(ss, prev, c).entry.Some?
    decreases ss, 0
  {
    if ss != [] {
      var f := BuildSs(ss[..|ss| - 1], prev, c);
      FullSsAreCoherent(ss[..|ss| - 1], prev, c);
      FullIsCoherent(ss[|ss| - 1], f.exit, f.next);
    }
  }

  // ---- Whole programs ----

  /** The outermost statements, each attached to the last exit there is. */
  predicate CoherentTop(ss: seq<Stmt>)
    requires forall i :: 0 <= i < |ss| ==> NoFunctions(ss[i])
  {
    ss == [] ||
    (CoherentTop(ss[..|ss| - 1])
     && Coherent(ss[|ss| - 1], BuildTop(ss[..|ss| - 1]).exit, BuildTop(ss[..|ss| - 1]).next))
  }

  /** The graph covers every run: whatever the nesting, the nodes that a terminating run visits
      form a path in it. */
  lemma {:induction false} TopAlong(fmt: Format, ss: seq<Stmt>, store: Store, fuel: nat)
    requires forall i :: 0 <= i < |ss| ==> NoFunctions(ss[i])
    requires CoherentTop(ss) && ExecSs(fmt, ss, store, fuel).Done?
    ensures Along(BuildTop(ss), None, VisitedSs(fmt, ss, store, fuel, 0)) && BuildTop(ss).next == NodesSs(ss)
    decreases fuel, ss
  {
    if ss != [] {
      var last, front := ss[|ss| - 1], ss[..|ss| - 1];
      var f := BuildTop(front);
      var p := Build(last, f.exit, f.next);
      var middle := ExecSs(fmt, front, store, fuel).store;
      TopAlong(fmt, front, store, fuel);
      NextCounts(last, f.exit, f.next);
      StmtAlong(fmt, last, f.exit, middle, fuel, f.next);
      var u, v := VisitedSs(fmt, front, store, fuel, 0), Visited(fmt, last, middle, fuel, f.next);
      PathWithin(f.edges, f.edges + p.edges, None, u);
      PathWithin(p.edges, f.edges + p.edges, f.exit, v);
      PathOn(f.edges + p.edges, None, u, v);
    }
  }

  /** A program that begins with a declaration, a print, an if or a while and has no empty blocks,
      functions or returns is one whose runs the graph covers. */
  lemma {:induction false} FullProgramIsCoherent(ss: seq<Stmt>)
    requires forall i :: 0 <= i < |ss| ==> Full(ss[i]) && NoFunctions(ss[i])
    requires ss != [] && (ss[0].Let? || ss[0].Print? || ss[0].If? || ss[0].While?)
    ensures CoherentTop(ss) && BuildTop(ss).exit.Some?
    decreases ss
  {
    var last, front := ss[|ss| - 1], ss[..|ss| - 1];
    if front == [] {
      FirstIsCoherent(last);
      assert BuildTop(front) == Part(None, None, {}, 0);
    } else {
      FullProgramIsCoherent(front);
      FullIsCoherent(last, BuildTop(front).exit, BuildTop(front).next);
    }
  }

  lemma FirstIsCoherent(s: Stmt)
    requires Full(s) && NoFunctions(s) && (s.Let? || s.Print? || s.If? || s.While?)
    ensures Coherent(s, None, 0) && Build(s, None, 0).exit.Some?
  {
    match s
    case If(_, t, f) =>
      FullIsCoherent(t, Some(0), 1);
      if f.Some? {
        FullIsCoherent(f.value, Some(0), Build(t, Some(0), 1).next);
      }
    case While(_, b) => FullIsCoherent(b, Some(1), 2);
    case _ =>
  }

  lemma GraphCoversEveryRun(fmt: Format, ss: seq<Stmt>, store: Store, fuel: nat)
    requires forall i :: 0 <= i < |ss| ==> Full(ss[i]) && NoFunctions(ss[i])
    requires ss != [] && (ss[0].Let? || ss[0].Print? || ss[0].If? || ss[0].While?)
    requires ExecSs(fmt, ss, store, fuel).Done?
    ensures Path(BuildTop(ss).edges, None, VisitedSs(fmt, ss, store, fuel, 0))
  {
    FullProgramIsCoherent(ss);
    TopAlong(fmt, ss, store, fuel);
  }
}
