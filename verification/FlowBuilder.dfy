// The builder of the control-flow graph: nodes and edges are appended while it walks the tree.
module FlowBuilder {
  import opened Ast
  import opened FlowGraph

  ghost predicate Makes(s: Stmt, prev: Option<nat>, c: nat, part: Part)
    requires NoFunctions(s)
  {
    part == Build(s, prev, c)
  }

  /** `part` is what `s` makes.  The quantifier keeps provers from unfolding it. */
  ghost predicate Built(s: Stmt, prev: Option<nat>, c: nat, part: Part)
    requires NoFunctions(s)
  {
    forall other :: Makes(s, prev, c, other) ==> part == other
  }

  lemma {:induction false} BuiltIs(s: Stmt, prev: Option<nat>, c: nat, part: Part)
    requires NoFunctions(s)
    ensures Built(s, prev, c, part) <==> part == Build(s, prev, c)
  {
    assert Makes(s, prev, c, Build(s, prev, c));
  }

  ghost predicate BuiltO(s: Option<Stmt>, prev: Option<nat>, c: nat, part: Part)
    requires s.Some? ==> NoFunctions(s.value)
  {
    if s.Some? then Built(s.value, prev, c, part) else part == Part(None, None, {}, c)
  }

  lemma {:induction false} BuiltOIs(s: Option<Stmt>, prev: Option<nat>, c: nat, part: Part)
    requires (s.Some? ==> NoFunctions(s.value)) && BuiltO(s, prev, c, part)
    ensures part == BuildO(s, prev, c)
  {
    if s.Some? {
      BuiltIs(s.value, prev, c, part);
    }
  }

  function ForPart(prev: Option<nat>, i: Part, p: Part, q: Part): Part {
    Part(if i.entry.Some? then i.entry else prev, Some(q.next), ForEdges(prev, i, p, q), q.next + 1)
  }

  lemma {:induction false} ForUnfolds(s: Stmt, prev: Option<nat>, c: nat)
    requires s.For? && NoFunctions(s)
    ensures var i := BuildO(s.init, prev, c);
            var p := Build(s.forBody, Some(i.next + 1), i.next + 2);
            Build(s, prev, c) == ForPart(prev, i, p, BuildO(s.increment, After(p, i.next + 1), p.next))
  {
  }

  lemma {:induction false} ForBuilt(s: Stmt, prev: Option<nat>, c: nat, i: Part, p: Part, q: Part)
    requires s.For? && NoFunctions(s) && BuiltO(s.init, prev, c, i)
    requires Built(s.forBody, Some(i.next + 1), i.next + 2, p) && BuiltO(s.increment, After(p, i.next + 1), p.next, q)
    ensures Built(s, prev, c, ForPart(prev, i, p, q))
  {
    BuiltOIs(s.init, prev, c, i);
    BuiltIs(s.forBody, Some(i.next + 1), i.next + 2, p);
    BuiltOIs(s.increment, After(p, i.next + 1), p.next, q);
    ForUnfolds(s, prev, c);
    BuiltIs(s, prev, c, ForPart(prev, i, p, q));
  }

  /** A for loop is its start and its rounds. */
  lemma ForJoins(prev: Option<nat>, i: Part, p: Part, q: Part, before: set<Edge>)
    ensures before + StartEdges(prev, i) + RoundEdges(i.next + 1, p, q) == before + ForEdges(prev, i, p, q)
  {
    UnionJoins(before, StartEdges(prev, i), RoundEdges(i.next + 1, p, q));
  }

  lemma UnionJoins<T>(a: set<T>, b: set<T>, c: set<T>)
    ensures a + b + c == a + (b + c)
  {
  }

  /** One more outermost statement. */
  lemma {:induction false} BuildTopNext(ss: seq<Stmt>, i: nat, top: Part)
    requires i < |ss| && forall k :: 0 <= k < |ss| ==> NoFunctions(ss[k])
    requires top == BuildTop(ss[..i])
    ensures var p := Build(ss[i], top.exit, top.next);
            BuildTop(ss[..i + 1]) == Part(None, if p.exit.Some? then p.exit else top.exit, top.edges + p.edges, p.next)
  {
    assert ss[..i + 1][..i] == ss[..i];
  }

  /** One more statement of a block; only the first can be where it is entered. */
  lemma {:induction false} BuildSsNext(ss: seq<Stmt>, i: nat, prev: Option<nat>, c: nat, made: Part)
    requires i < |ss| && forall k :: 0 <= k < |ss| ==> NoFunctions(ss[k])
    requires made == BuildSs(ss[..i], prev, c)
    ensures var p := Build(ss[i], made.exit, made.next);
            BuildSs(ss[..i + 1], prev, c)
            == Part(if i == 0 then p.entry else made.entry, if p.entry.Some? then p.exit else made.exit,
                    made.edges + p.edges, p.next)
    ensures i == 0 ==> made.entry.None?
  {
    assert ss[..i + 1][..i] == ss[..i];
  }

  class Builder {
    var edges: seq<Edge>
    var counter: nat

    /** The edges as a relation. */
    ghost var drawn: set<Edge>

    ghost predicate Valid()
      reads this`edges, this`drawn
    {
      forall e :: Recorded(e)
    }

    ghost predicate Recorded(e: Edge)
      reads this`edges, this`drawn
    {
      e in edges <==> e in drawn
    }

    constructor ()
      ensures Valid() && edges == [] && drawn == {} && counter == 0
    {
      edges, drawn, counter := [], {}, 0;
    }

    /** Only between two nodes that exist. */
    method AddEdge(from: Option<nat>, to: Option<nat>, kind: Label)
      requires Valid()
      modifies this`edges, this`drawn
      ensures Valid() && drawn == old(drawn) + Link(from, to, kind) && old(edges) <= edges
    {
      if from.Some? && to.Some? {
        ghost var before, edge := edges, Edge(from.value, to.value, kind);
        assert forall e :: Recorded(e);
        edges := edges + [Edge(from.value, to.value, kind)];
        drawn := drawn + {edge};
        forall e
          ensures Recorded(e)
        {
          assert old(Recorded(e));
        }
      }
    }

    method AddNode() returns (node: nat)
      modifies this`counter
      ensures node == old(counter) && counter == node + 1
    {
      node := counter;
      counter := counter + 1;
    }

    method Process(s: Stmt, prev: Option<nat>) returns (entry: Option<nat>, exit: Option<nat>)
      requires NoFunctions(s)
      requires Valid()
      modifies this
      ensures var p := Build(s, prev, old(counter));
              entry == p.entry && exit == p.exit && counter == p.next && drawn == old(drawn) + p.edges
      ensures Valid()
      decreases s, 2
    {
      match s {
        case Let(_, _, _) => entry, exit := ProcessSimple(prev);
        case Print(_) => entry, exit := ProcessSimple(prev);
        case Return(_) => entry, exit := ProcessSimple(prev);
        case If(_, _, _) => entry, exit := ProcessIf(s, prev);
        case While(_, _) => entry, exit := ProcessWhile(s, prev);
        case For(_, _, _, _) =>
          ghost var c := counter;
          ghost var part;
          entry, exit, part := ProcessFor(s, prev);
          BuiltIs(s, prev, c, part);
        case Block(ss) => entry, exit := ProcessBlock(ss, prev);
        case _ => entry, exit := prev, prev;
      }
    }

    method ProcessSimple(prev: Option<nat>) returns (entry: Option<nat>, exit: Option<nat>)
      requires Valid()
      modifies this
      ensures counter == old(counter) + 1 && entry == exit == Some(old(counter))
      ensures Valid() && drawn == old(drawn) + Link(prev, entry, Next)
    {
      var node := AddNode();
      AddEdge(prev, Some(node), Next);
      entry, exit := Some(node), Some(node);
    }

    method ProcessIf(s: Stmt, prev: Option<nat>) returns (entry: Option<nat>, exit: Option<nat>)
      requires s.If? && NoFunctions(s)
      requires Valid()
      modifies this
      ensures var p := BuildIf(s, prev, old(counter));
              entry == p.entry && exit == p.exit && counter == p.next && drawn == old(drawn) + p.edges
      ensures Valid()
      decreases s, 0
    {
      ghost var e0 := drawn;
      var cond := AddNode();
      AddEdge(prev, Some(cond), Next);
      var thenEntry, thenExit := Process(s.thenBranch, Some(cond));
      AddEdge(Some(cond), thenEntry, OnTrue);
      ghost var p := Build(s.thenBranch, Some(cond), cond + 1);
      ghost var d := Link(prev, Some(cond), Next) + p.edges + Link(Some(cond), p.entry, OnTrue);
      assert drawn == e0 + d;
      var elseEntry, elseExit := None, None;
      ghost var q := BuildO(s.elseBranch, Some(cond), counter);
      if s.elseBranch.Some? {
        elseEntry, elseExit := Process(s.elseBranch.value, Some(cond));
        AddEdge(Some(cond), elseEntry, OnFalse);
      }
      d := d + q.edges + Link(Some(cond), q.entry, OnFalse);
      assert drawn == e0 + d;
      entry := Some(cond);
      exit := ProcessMerge(cond, thenExit, elseExit, s.elseBranch.None?);
    }

    /** The node after both branches. */
    method ProcessMerge(cond: nat, thenExit: Option<nat>, elseExit: Option<nat>,
                        noElse: bool) returns (exit: Option<nat>)
      requires Valid()
      modifies this
      ensures Valid() && exit == Some(old(counter)) && counter == old(counter) + 1
      ensures drawn
              == old(drawn) + (if thenExit.Some? then Link(thenExit, exit, Next) else Link(Some(cond), exit, OnTrue))
                 + (if elseExit.Some? then Link(elseExit, exit, Next)
                    else if noElse then Link(Some(cond), exit, OnFalse) else {})
    {
      var merge := AddNode();
      if thenExit.Some? {
        AddEdge(thenExit, Some(merge), Next);
      } else {
        AddEdge(Some(cond), Some(merge), OnTrue);
      }
      if elseExit.Some? {
        AddEdge(elseExit, Some(merge), Next);
      } else if noElse {
        AddEdge(Some(cond), Some(merge), OnFalse);
      }
      exit := Some(merge);
    }

    method ProcessWhile(s: Stmt, prev: Option<nat>) returns (entry: Option<nat>, exit: Option<nat>)
      requires s.While? && NoFunctions(s)
      requires Valid()
      modifies this
      ensures var p := BuildWhile(s, prev, old(counter));
              entry == p.entry && exit == p.exit && counter == p.next && drawn == old(drawn) + p.edges
      ensures Valid()
      decreases s, 1
    {
      var start := AddNode();
      AddEdge(prev, Some(start), Next);
      var cond := AddNode();
      AddEdge(Some(start), Some(cond), Next);
      entry := Some(start);
      exit := ProcessTurn(s, cond);
    }

    /** The body, the way back to the test, and the node after the loop. */
    method ProcessTurn(s: Stmt, cond: nat) returns (exit: Option<nat>)
      requires s.While? && NoFunctions(s)
      requires Valid()
      modifies this
      ensures var p := Build(s.loopBody, Some(cond), old(counter));
              && exit == Some(p.next) && counter == p.next + 1
              && drawn == old(drawn) + (p.edges + Link(Some(cond), p.entry, OnTrue)
                                        + Link(After(p, cond), Some(cond), Back)
                                        + Link(Some(cond), Some(p.next), OnFalse))
      ensures Valid()
      decreases s, 0
    {
      var bodyEntry, bodyExit := Process(s.loopBody, Some(cond));
      AddEdge(Some(cond), bodyEntry, OnTrue);
      if bodyExit.Some? {
        AddEdge(bodyExit, Some(cond), Back);
      } else {
        AddEdge(Some(cond), Some(cond), Back);
      }
      var end := AddNode();
      AddEdge(Some(cond), Some(end), OnFalse);
      exit := Some(end);
    }

    method ProcessFor(s: Stmt, prev: Option<nat>) returns (entry: Option<nat>, exit: Option<nat>, ghost part: Part)
      requires s.For? && NoFunctions(s)
      requires Valid()
      modifies this
      ensures Valid() && Built(s, prev, old(counter), part)
      ensures entry == part.entry && exit == part.exit && counter == part.next && drawn == old(drawn) + part.edges
      decreases s, 1
    {
      var cond;
      ghost var i, p, q;
      entry, cond, i := ProcessForStart(s.init, prev);
      exit, p, q := ProcessRound(s, cond);
      ForBuilt(s, prev, old(counter), i, p, q);
      ForJoins(prev, i, p, q, old(drawn));
      part := ForPart(prev, i, p, q);
    }

    /** The initialisation, the entry node and the test of a for loop. */
    method ProcessForStart(init: Option<Stmt>, prev: Option<nat>)
      returns (entry: Option<nat>, cond: nat, ghost i: Part)
      requires init.Some? ==> NoFunctions(init.value)
      requires Valid()
      modifies this
      ensures Valid() && BuiltO(init, prev, old(counter), i)
      ensures entry == (if i.entry.Some? then i.entry else prev) && cond == i.next + 1 && counter == cond + 1
      ensures drawn == old(drawn) + StartEdges(prev, i)
      decreases init, 1
    {
      var initEntry, initExit;
      initEntry, initExit, i := ProcessPart(init, prev);
      entry := if initEntry.Some? then initEntry else prev;
      var start := AddNode();
      AddEdge(if initExit.Some? then initExit else entry, Some(start), Next);
      cond := AddNode();
      AddEdge(Some(start), Some(cond), Next);
    }

    /** Body, increment and the way back to the test, and the node after the loop. */
    method ProcessRound(s: Stmt, cond: nat) returns (exit: Option<nat>, ghost p: Part, ghost q: Part)
      requires s.For? && NoFunctions(s)
      requires Valid()
      modifies this
      ensures Valid() && Built(s.forBody, Some(cond), old(counter), p)
      ensures BuiltO(s.increment, After(p, cond), p.next, q)
      ensures exit == Some(q.next) && counter == q.next + 1 && drawn == old(drawn) + RoundEdges(cond, p, q)
      decreases s, 0
    {
      ghost var e0 := drawn;
      p := Build(s.forBody, Some(cond), counter);
      BuiltIs(s.forBody, Some(cond), counter, p);
      var bodyEntry, bodyExit := Process(s.forBody, Some(cond));
      AddEdge(Some(cond), bodyEntry, OnTrue);
      ghost var d := p.edges + Link(Some(cond), p.entry, OnTrue);
      assert drawn == e0 + d;
      var stepStart := if bodyExit.Some? then bodyExit else Some(cond);
      var stepEntry, stepExit;
      stepEntry, stepExit, q := ProcessPart(s.increment, stepStart);
      d := d + q.edges + Link(stepStart, q.entry, Next);
      assert drawn == e0 + d;
      AddEdge(if stepExit.Some? then stepExit else stepStart, Some(cond), Back);
      var end := AddNode();
      AddEdge(Some(cond), Some(end), OnFalse);
      exit := Some(end);
    }

    /** The initialisation or the increment of a for loop, which gets its first edge once more. */
    method ProcessPart(s: Option<Stmt>, from: Option<nat>)
      returns (entry: Option<nat>, exit: Option<nat>, ghost part: Part)
      requires s.Some? ==> NoFunctions(s.value)
      requires Valid()
      modifies this
      ensures Valid() && BuiltO(s, from, old(counter), part)
      ensures entry == part.entry && exit == part.exit && counter == part.next
      ensures drawn == old(drawn) + (part.edges + Link(from, part.entry, Next))
      decreases s, 0
    {
      entry, exit, part := None, None, Part(None, None, {}, counter);
      if s.Some? {
        part := Build(s.value, from, counter);
        BuiltIs(s.value, from, counter, part);
        entry, exit := Process(s.value, from);
        AddEdge(from, entry, Next);
      }
    }

    method ProcessBlock(ss: seq<Stmt>, prev: Option<nat>) returns (entry: Option<nat>, exit: Option<nat>)
      requires forall i :: 0 <= i < |ss| ==> NoFunctions(ss[i])
      requires Valid()
      modifies this
      ensures var p := BuildSs(ss, prev, old(counter));
              entry == p.entry && exit == p.exit && counter == p.next && drawn == old(drawn) + p.edges
      ensures Valid()
      decreases ss, 0
    {
      entry := None;
      var currentPrev := prev;
      ghost var made := BuildSs([], prev, counter);
      var i := 0;
      while i < |ss|
        invariant Valid() && i <= |ss| && made == BuildSs(ss[..i], prev, old(counter))
        invariant entry == made.entry && currentPrev == made.exit && counter == made.next
        invariant drawn == old(drawn) + made.edges
      {
        ghost var part := Build(ss[i], currentPrev, counter);
        BuildSsNext(ss, i, prev, old(counter), made);
        var stmtEntry, stmtExit := Process(ss[i], currentPrev);
        if stmtEntry.Some? {
          if i == 0 {
            entry := stmtEntry;
          }
          currentPrev := stmtExit;
        }
        UnionJoins(old(drawn), made.edges, part.edges);
        made := Part(entry, currentPrev, made.edges + part.edges, counter);
        i := i + 1;
      }
      assert ss[..i] == ss;
      exit := currentPrev;
    }

    /** The graph of a whole program. */
    method BuildControlFlow(ast: Stmt)
      requires NoFunctions(ast) && counter == 0 && drawn == {}
      requires Valid()
      modifies this
      ensures var p := if ast.Block? then BuildTop(ast.statements) else Build(ast, None, 0);
              Valid() && drawn == p.edges && counter == p.next
    {
      if ast.Block? {
        var ss := ast.statements;
        var prev := None;
        ghost var top := BuildTop([]);
        var i := 0;
        while i < |ss|
          invariant Valid() && i <= |ss| && top == BuildTop(ss[..i])
          invariant prev == top.exit && counter == top.next && drawn == top.edges
        {
          ghost var part := Build(ss[i], prev, counter);
          BuildTopNext(ss, i, top);
          var _, exit := Process(ss[i], prev);
          if exit.Some? {
            prev := exit;
          }
          top := Part(None, prev, top.edges + part.edges, counter);
          i := i + 1;
        }
        assert ss[..i] == ss;
      } else {
        var _, _ := Process(ast, None);
      }
    }
  }
}
