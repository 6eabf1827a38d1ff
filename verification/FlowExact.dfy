// Where the control-flow graph misses a run, and for straight-line statements exactly when.
module FlowExact {
  import opened Ast
  import opened Values
  import opened Interpreter
  import opened FlowGraph
  import opened FlowPaths
  import opened FlowHooks

  /** Declarations, prints and assignments in nested blocks. */
  predicate Sequential(s: Stmt): (b: bool)
    ensures b ==> NoFunctions(s)
  {
    match s
    case Let(_, _, _) => true
    case Print(_) => true
    case Assign(_, _) => true
    case Block(ss) => forall i :: 0 <= i < |ss| ==> Sequential(ss[i])
    case _ => false
  }

  predicate SequentialSs(ss: seq<Stmt>): (b: bool)
    ensures b ==> forall i :: 0 <= i < |ss| ==> NoFunctions(ss[i])
  {
    forall i :: 0 <= i < |ss| ==> Sequential(ss[i])
  }

  // ---- What a straight-line statement makes ----

  /** The nodes of `p` are those from `c` on; every edge leads to one of them, and to the first only
      from where `p` is attached. */
  ghost predicate Rooted(p: Part, prev: Option<nat>, c: nat) {
    && c <= p.next && (p.exit.Some? ==> p.exit == prev || c <= p.exit.value < p.next)
    && forall e :: e in p.edges ==> c <= e.to < p.next && (e.to == c ==> prev == Some(e.from))
  }

  lemma {:induction false} StmtRooted(s: Stmt, prev: Option<nat>, c: nat)
    requires Sequential(s)
    ensures Rooted(Build(s, prev, c), prev, c) && Build(s, prev, c).next == c + Nodes(s)
    ensures Nodes(s) == 0 ==> Barren(s) && Build(s, prev, c).edges == {} && Build(s, prev, c).exit == prev
    decreases s, 1
  {
    if s.Block? {
      SsRooted(s.statements, prev, c);
    }
  }

  lemma {:induction false} SsRooted(ss: seq<Stmt>, prev: Option<nat>, c: nat)
    requires SequentialSs(ss)
    ensures Rooted(BuildSs(ss, prev, c), prev, c) && BuildSs(ss, prev, c).next == c + NodesSs(ss)
    ensures NodesSs(ss) == 0 ==>
              && (forall i :: 0 <= i < |ss| ==> Barren(ss[i]))
              && BuildSs(ss, prev, c).edges == {} && BuildSs(ss, prev, c).exit == prev
    decreases ss, 0
  {
    if ss != [] {
      var f := BuildSs(ss[..|ss| - 1], prev, c);
      SsRooted(ss[..|ss| - 1], prev, c);
      StmtRooted(ss[|ss| - 1], f.exit, f.next);
    }
  }

  // ---- Taking paths apart ----

  lemma {:induction false} PathParts(edges: set<Edge>, from: Option<nat>, u: seq<nat>, v: seq<nat>)
    requires Path(edges, from, u + v)
    ensures Path(edges, from, u) && Path(edges, End(from, u), v) && End(from, u + v) == End(End(from, u), v)
    decreases |v|
  {
    if v == [] {
      assert u + v == u;
    } else {
      assert (u + v)[..|u + v| - 1] == u + v[..|v| - 1];
      PathParts(edges, from, u, v[..|v| - 1]);
    }
  }

  /** A path needs no edges but those that lead to its nodes. */
  lemma {:induction false} PathNeeds(edges: set<Edge>, fewer: set<Edge>, from: Option<nat>, v: seq<nat>)
    requires Path(edges, from, v) && forall e :: e in edges && e.to in v ==> e in fewer
    ensures Path(fewer, from, v)
    decreases |v|
  {
    if v != [] {
      var front, last := v[..|v| - 1], v[|v| - 1];
      assert forall x :: x in front ==> x in v;
      PathNeeds(edges, fewer, from, front);
      var a := End(from, front);
      if a.Some? {
        var kind :| Edge(a.value, last, kind) in edges;
        assert Edge(a.value, last, kind).to in v && Edge(a.value, last, kind) in fewer;
      }
    }
  }

  /** The numbers of `n` nodes from `c` on. */
  function Row(c: nat, n: nat): (v: seq<nat>)
    ensures |v| == n && forall i :: 0 <= i < n ==> v[i] == c + i
  {
    seq(n, i requires 0 <= i < n => c + i)
  }

  lemma {:induction false} SequentialVisits(fmt: Format, s: Stmt, store: Store, fuel: nat, c: nat)
    requires Sequential(s) && ExecS(fmt, s, store, fuel).Done?
    ensures Visited(fmt, s, store, fuel, c) == Row(c, Nodes(s))
    decreases s, 1
  {
    if s.Block? {
      SequentialSsVisit(fmt, s.statements, store, fuel, c);
    }
  }

  lemma {:induction false} SequentialSsVisit(fmt: Format, ss: seq<Stmt>, store: Store, fuel: nat, c: nat)
    requires SequentialSs(ss) && ExecSs(fmt, ss, store, fuel).Done?
    ensures VisitedSs(fmt, ss, store, fuel, c) == Row(c, NodesSs(ss))
    decreases ss, 0
  {
    if ss != [] {
      var front := ss[..|ss| - 1];
      SequentialSsVisit(fmt, front, store, fuel, c);
      SequentialVisits(fmt, ss[|ss| - 1], ExecSs(fmt, front, store, fuel).store, fuel, c + NodesSs(front));
    }
  }

  // ---- Exactly when the graph covers a straight-line run ----

  /** A run of two parts in a row that goes along the edges of both goes along the edges of each. */
  lemma {:induction false} AlongParts(f: Part, p: Part, exit: Option<nat>, prev: Option<nat>, c: nat, m: nat, n: nat)
    requires (prev.Some? ==> prev.value < c) && f.next == c + m && p.next == f.next + n
    requires Rooted(f, prev, c) && Rooted(p, f.exit, f.next) && (exit == p.exit || exit == f.exit)
    requires m == 0 ==> f.exit == prev
    requires n == 0 ==> p.exit == f.exit && p.edges == {}
    requires Along(Part(None, exit, f.edges + p.edges, p.next), prev, Row(c, m) + Row(f.next, n))
    ensures Along(f, prev, Row(c, m)) && Along(p, f.exit, Row(f.next, n)) && (n > 0 ==> exit != f.exit)
  {
    var u, v, all := Row(c, m), Row(f.next, n), f.edges + p.edges;
    PathParts(all, prev, u, v);
    PathNeeds(all, f.edges, prev, u);
    PathNeeds(all, p.edges, End(prev, u), v);
    if n > 0 {
      assert v[0] == f.next && v == [v[0]] + v[1..];
      PathParts(p.edges, End(prev, u), [v[0]], v[1..]);
      assert [v[0]][..0] == [];
      if End(prev, u).Some? {
        var kind :| Edge(End(prev, u).value, v[0], kind) in p.edges;
        assert f.exit == End(prev, u);
      }
    }
  }

  lemma {:induction false} AlongIsCoherent(s: Stmt, prev: Option<nat>, c: nat)
    requires Sequential(s) && (prev.Some? ==> prev.value < c)
    requires Along(Build(s, prev, c), prev, Row(c, Nodes(s)))
    ensures Coherent(s, prev, c)
    decreases s, 1
  {
    if s.Block? {
      SsAlongIsCoherent(s.statements, prev, c);
    }
  }

  lemma {:induction false} SsAlongIsCoherent(ss: seq<Stmt>, prev: Option<nat>, c: nat)
    requires SequentialSs(ss) && (prev.Some? ==> prev.value < c)
    requires Along(BuildSs(ss, prev, c), prev, Row(c, NodesSs(ss)))
    ensures CoherentSs(ss, prev, c)
    decreases ss, 0
  {
    if ss != [] {
      var front, last := ss[..|ss| - 1], ss[|ss| - 1];
      var f := BuildSs(front, prev, c);
      SsRooted(front, prev, c);
      StmtRooted(last, f.exit, f.next);
      assert Row(c, NodesSs(ss)) == Row(c, NodesSs(front)) + Row(f.next, Nodes(last));
      var p := Build(last, f.exit, f.next);
      AlongParts(f, p, if p.entry.Some? then p.exit else f.exit, prev, c, NodesSs(front), Nodes(last));
      SsAlongIsCoherent(front, prev, c);
      AlongIsCoherent(last, f.exit, f.next);
    }
  }

  /** A terminating run of a straight-line statement, attached to an earlier node or to none, goes
      along the edges of the graph to the exit exactly if within each block every statement with
      nodes has an entry, which can be read off the text. */
  lemma CoveredExactlyWhenHooked(fmt: Format, s: Stmt, prev: Option<nat>, store: Store, fuel: nat, c: nat)
    requires Sequential(s) && (prev.Some? ==> prev.value < c)
    requires ExecS(fmt, s, store, fuel).Done?
    ensures Along(Build(s, prev, c), prev, Visited(fmt, s, store, fuel, c)) <==> Hooked(s, prev.Some?)
  {
    CoherentIsHooked(s, prev, c);
    SequentialVisits(fmt, s, store, fuel, c);
    if Coherent(s, prev, c) {
      StmtAlong(fmt, s, prev, store, fuel, c);
    } else if Along(Build(s, prev, c), prev, Visited(fmt, s, store, fuel, c)) {
      AlongIsCoherent(s, prev, c);
    }
  }

  // ---- Whole programs ----

  lemma {:induction false} TopRooted(ss: seq<Stmt>)
    requires SequentialSs(ss)
    ensures Rooted(BuildTop(ss), None, 0) && BuildTop(ss).next == NodesSs(ss)
    ensures NodesSs(ss) == 0 ==> BuildTop(ss).exit == None
    decreases ss
  {
    if ss != [] {
      var f := BuildTop(ss[..|ss| - 1]);
      TopRooted(ss[..|ss| - 1]);
      StmtRooted(ss[|ss| - 1], f.exit, f.next);
    }
  }

  lemma {:induction false} TopAlongIsCoherent(ss: seq<Stmt>)
    requires SequentialSs(ss) && Along(BuildTop(ss), None, Row(0, NodesSs(ss)))
    ensures CoherentTop(ss)
    decreases ss
  {
    if ss != [] {
      var front, last := ss[..|ss| - 1], ss[|ss| - 1];
      var f := BuildTop(front);
      TopRooted(front);
      StmtRooted(last, f.exit, f.next);
      assert Row(0, NodesSs(ss)) == Row(0, NodesSs(front)) + Row(f.next, Nodes(last));
      var p := Build(last, f.exit, f.next);
      AlongParts(f, p, if p.exit.Some? then p.exit else f.exit, None, 0, NodesSs(front), Nodes(last));
      TopAlongIsCoherent(front);
      AlongIsCoherent(last, f.exit, f.next);
    }
  }

  /** The same for a whole straight-line program. */
  lemma ProgramCoveredExactlyWhenHooked(fmt: Format, ss: seq<Stmt>, store: Store, fuel: nat)
    requires SequentialSs(ss) && ExecSs(fmt, ss, store, fuel).Done?
    ensures Along(BuildTop(ss), None, VisitedSs(fmt, ss, store, fuel, 0)) <==> HookedTop(ss)
  {
    CoherentTopIsHooked(ss);
    SequentialSsVisit(fmt, ss, store, fuel, 0);
    if CoherentTop(ss) {
      TopAlong(fmt, ss, store, fuel);
    } else if Along(BuildTop(ss), None, VisitedSs(fmt, ss, store, fuel, 0)) {
      TopAlongIsCoherent(ss);
    }
  }

  // ---- Programs whose runs the graph misses ----

  /** A block that begins with a block that begins with `first`. */
  function Hanging(first: Stmt, e: Expr): Stmt {
    Block([Block([first, Let("a", e, false)]), Print(e)])
  }

  lemma {:induction false} BarrenBuilds(s: Stmt, c: nat)
    requires Barren(s) && NoFunctions(s)
    ensures Build(s, None, c) == Part(None, None, {}, c) && Nodes(s) == 0
    decreases s, 1
  {
    if s.Block? {
      BarrenSsBuild(s.statements, c);
    }
  }

  lemma {:induction false} BarrenSsBuild(ss: seq<Stmt>, c: nat)
    requires forall i :: 0 <= i < |ss| ==> Barren(ss[i]) && NoFunctions(ss[i])
    ensures BuildSs(ss, None, c) == Part(None, None, {}, c) && NodesSs(ss) == 0
    decreases ss, 0
  {
    if ss != [] {
      BarrenSsBuild(ss[..|ss| - 1], c);
      BarrenBuilds(ss[|ss| - 1], c);
    }
  }

  lemma {:induction false} BuiltPair(x: Stmt, y: Stmt, prev: Option<nat>, c: nat)
    requires NoFunctions(x) && NoFunctions(y)
    ensures var p := Build(x, prev, c);
            var exit := if p.entry.Some? then p.exit else prev;
            var q := Build(y, exit, p.next);
            BuildSs([x, y], prev, c) == Part(p.entry, if q.entry.Some? then q.exit else exit, p.edges + q.edges, q.next)
    ensures NodesSs([x, y]) == Nodes(x) + Nodes(y)
  {
    assert [x, y][..1] == [x] && [x][..0] == [];
    assert BuildSs([], prev, c) == Part(None, prev, {}, c);
    assert NodesSs([]) == 0 && NodesSs([x]) == Nodes(x);
  }

  /** A program that begins with two nested blocks, the inner one with a statement that makes no node:
      an empty block does it, and so does an assignment.  The inner block then has no entry, and
      what follows it is attached to nothing: a run goes from the declaration to the print, and
      there are no edges at all. */
  lemma {:induction false} NestedBarrenBeginningBreaksThePath(fmt: Format, first: Stmt, e: Expr, store: Store,
                                                              fuel: nat)
    requires Barren(first) && Sequential(Hanging(first, e)) && ExecSs(fmt, [Hanging(first, e)], store, fuel).Done?
    ensures BuildTop([Hanging(first, e)]).edges == {}
    ensures VisitedSs(fmt, [Hanging(first, e)], store, fuel, 0) == [0, 1]
    ensures !Path(BuildTop([Hanging(first, e)]).edges, None, VisitedSs(fmt, [Hanging(first, e)], store, fuel, 0))
  {
    var inner, s := Block([first, Let("a", e, false)]), Hanging(first, e);
    assert inner.statements[0] == first && s.statements[0] == inner;
    assert Sequential(inner) && Sequential(first);
    BarrenBuilds(first, 0);
    BuiltPair(first, Let("a", e, false), None, 0);
    BuiltPair(inner, Print(e), None, 0);
    assert [s][..0] == [];
    assert BuildTop([]) == Part(None, None, {}, 0) && NodesSs([]) == 0;
    SequentialSsVisit(fmt, [s], store, fuel, 0);
    assert [0, 1][..1] == [0];
  }

  /** A run of the program that is not a path in its graph. */
  ghost predicate Misses(fmt: Format, ss: seq<Stmt>) {
    && SequentialSs(ss) && ExecSs(fmt, ss, map[], 0).Done?
    && !Path(BuildTop(ss).edges, None, VisitedSs(fmt, ss, map[], 0, 0))
  }

  /** Such programs: one with an empty block, one without, and one in which a declaration comes before
      the nested blocks. */
  lemma ProgramsWithMissedRuns(fmt: Format)
      returns (withEmptyBlock: seq<Stmt>, withoutEmptyBlock: seq<Stmt>, attached: seq<Stmt>)
    ensures withEmptyBlock == [Hanging(Block([]), Number(1.0))]
    ensures withoutEmptyBlock == [Hanging(Assign("b", Number(1.0)), Number(1.0))]
    ensures attached == [Let("a", Number(1.0), false), Hanging(Block([]), Number(1.0))]
    ensures Misses(fmt, withEmptyBlock) && Misses(fmt, withoutEmptyBlock) && Misses(fmt, attached)
  {
    var one := Number(1.0);
    withEmptyBlock, withoutEmptyBlock := [Hanging(Block([]), one)], [Hanging(Assign("b", one), one)];
    attached := [Let("a", Number(1.0), false), Hanging(Block([]), one)];
    HangingMisses(fmt, Block([]));
    HangingMisses(fmt, Assign("b", one));
    AttachedHangingMisses(fmt);
  }

  lemma {:induction false} AttachedHangingMisses(fmt: Format)
    ensures Misses(fmt, [Let("a", Number(1.0), false), Hanging(Block([]), Number(1.0))])
  {
    var one := Number(1.0);
    var a, s := Let("a", one, false), Hanging(Block([]), one);
    assert [a, s][..1] == [a] && [a][..0] == [] && [a, s][0] == a && [a, s][1] == s;
    HangingEdges();
    AttachedHangingRuns(fmt);
    SequentialSsVisit(fmt, [a, s], map[], 0, 0);
    assert NodesSs([]) == 0 && NodesSs([a]) == 1;
    assert Row(0, 3) == [0, 1, 2];
    NoStepToTheLast();
  }

  lemma NoStepToTheLast()
    ensures !Path({Edge(0, 1, Next), Edge(0, 2, Next)}, None, [0, 1, 2])
  {
    assert [0, 1, 2][..2] == [0, 1];
    assert !Connected({Edge(0, 1, Next), Edge(0, 2, Next)}, End(None, [0, 1]), 2);
  }

  lemma {:induction false} AttachedHangingRuns(fmt: Format)
    ensures ExecSs(fmt, [Let("a", Number(1.0), false), Hanging(Block([]), Number(1.0))], map[], 0).Done?
    ensures SequentialSs([Let("a", Number(1.0), false), Hanging(Block([]), Number(1.0))])
  {
    var one := Number(1.0);
    var a, inner, s := Let("a", one, false), Block([Block([]), Let("a", one, false)]), Hanging(Block([]), one);
    assert Sequential(Block([])) && Sequential(a) && inner.statements[0] == Block([]) && Sequential(inner);
    assert s.statements[0] == inner && Sequential(s);
    HangingRuns(fmt, Block([]), map["a" := Num(1.0)]);
    assert [a, s][..1] == [a] && [a][..0] == [];
    assert ExecSs(fmt, [], map[], 0) == Done(map[], []);
    assert ExecSs(fmt, [a], map[], 0) == Done(map["a" := Num(1.0)], []);
  }

  lemma {:induction false} HangingEdges()
    ensures var one := Number(1.0);
            BuildTop([Let("a", one, false), Hanging(Block([]), one)]).edges == {Edge(0, 1, Next), Edge(0, 2, Next)}
    ensures Nodes(Hanging(Block([]), Number(1.0))) == 2
  {
    var one := Number(1.0);
    var a, inner, s := Let("a", one, false), Block([Block([]), Let("a", one, false)]), Hanging(Block([]), one);
    assert BuildTop([]) == Part(None, None, {}, 0) && [a][..0] == [] && [a, s][..1] == [a];
    assert BuildTop([a]) == Part(None, Some(0), {}, 1);
    assert Sequential(Block([])) && Sequential(a) && inner.statements[0] == Block([]) && Sequential(inner);
    BuiltPair(Block([]), a, Some(0), 1);
    BuiltPair(inner, Print(one), Some(0), 1);
  }

  lemma {:induction false} HangingMisses(fmt: Format, first: Stmt)
    requires first == Block([]) || first == Assign("b", Number(1.0))
    ensures Misses(fmt, [Hanging(first, Number(1.0))])
  {
    var s := Hanging(first, Number(1.0));
    HangingRuns(fmt, first, map[]);
    NestedBarrenBeginningBreaksThePath(fmt, first, Number(1.0), map[], 0);
    assert [s][0] == s;
  }

  lemma {:induction false} HangingRuns(fmt: Format, first: Stmt, store: Store)
    requires first == Block([]) || first == Assign("b", Number(1.0))
    ensures ExecSs(fmt, [Hanging(first, Number(1.0))], store, 0).Done?
    ensures ExecS(fmt, Hanging(first, Number(1.0)), store, 0).Done?
  {
    var one := Number(1.0);
    var a := Let("a", one, false);
    var inner, s := Block([first, a]), Hanging(first, one);
    assert [s][..0] == [] && [inner, Print(one)][..1] == [inner] && [inner][..0] == [];
    assert [first, a][..1] == [first] && [first][..0] == [];
    assert ExecSs(fmt, [], store, 0) == Done(store, []);
    assert ExecSs(fmt, [first], store, 0).Done?;
    assert ExecSs(fmt, [first, a], store, 0).Done?;
    assert ExecSs(fmt, [inner], store, 0).Done?;
  }
}
