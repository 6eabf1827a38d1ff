// The instruction ranges that compilation records in the tree.
module Spans {
  import opened Ast
  import opened CodeShape

  datatype Span = Span(start: nat, end: nat)

  /** The ranges of `e` and of everything below it, in the order compilation finishes them. */
  function SpansE(e: Expr, at: nat, syms: Symbols): seq<Span> {
    match e
    case Absent => []
    case Unary(_, operand) => SpansE(operand, at, syms) + [Span(at, at + |ItemsE(e, syms)|)]
    case Binary(l, _, r) =>
      SpansE(l, at, syms) + SpansE(r, at + |ItemsE(l, syms)|, syms) + [Span(at, at + |ItemsE(e, syms)|)]
    case Call(_, args) => SpansEs(args, at, syms) + [Span(at, at + |ItemsE(e, syms)|)]
    case _ => [Span(at, at + |ItemsE(e, syms)|)]
  }

  function SpansEs(es: seq<Expr>, at: nat, syms: Symbols): seq<Span> {
    if es == [] then []
    else
      var front := es[..|es| - 1];
      SpansEs(front, at, syms) + SpansE(es[|es| - 1], at + |ItemsEs(front, syms)|, syms)
  }

  function SpansS(s: Stmt, at: nat, syms: Symbols): seq<Span>
    decreases s, 3
  {
    SpansBelow(s, at, syms) + [Span(at, at + |ItemsS(s, at, syms)|)]
  }

  function SpansBelow(s: Stmt, at: nat, syms: Symbols): seq<Span>
    decreases s, 2
  {
    match s
    case Let(_, value, _) => SpansE(value, at, syms)
    case Assign(_, source) => SpansE(source, at, syms)
    case Print(e) => SpansE(e, at, syms)
    case If(c, t, f) =>
      var thenAt := at + |ItemsE(c, syms)| + 1;
      SpansE(c, at, syms) + SpansS(t, thenAt, syms)
      + SpansO(f, thenAt + |ItemsS(t, thenAt, syms)| + 1, SymsS(t, syms))
    case While(c, b) => SpansE(c, at, syms) + SpansS(b, at + |ItemsE(c, syms)| + 1, syms)
    case For(init, _, _, _) =>
      SpansO(init, at, syms) + SpansLoop(s, at + |ItemsO(init, at, syms)|, SymsO(init, syms))
    case Block(ss) => SpansSs(ss, at, syms)
    case Return(Some(e)) => SpansE(e, at, syms)
    case Return(None) => []
    case Function(_, _, _) => []
    case Bare(e) => SpansE(e, at, syms)
  }

  function SpansLoop(s: Stmt, at: nat, syms: Symbols): seq<Span>
    requires s.For?
    decreases s, 1
  {
    (if s.test.Some? then SpansE(s.test.value, at, syms) else [])
    + SpansRound(s, at + |ItemsTest(s.test, 0, syms)|, syms)
  }

  function SpansRound(s: Stmt, at: nat, syms: Symbols): seq<Span>
    requires s.For?
    decreases s, 0
  {
    SpansS(s.forBody, at, syms)
    + SpansO(s.increment, at + |ItemsS(s.forBody, at, syms)|, SymsS(s.forBody, syms))
  }

  function SpansO(s: Option<Stmt>, at: nat, syms: Symbols): seq<Span>
    decreases s
  {
    if s.Some? then SpansS(s.value, at, syms) else []
  }

  function SpansSs(ss: seq<Stmt>, at: nat, syms: Symbols): seq<Span>
    decreases ss
  {
    if ss == [] then []
    else
      var front := ss[..|ss| - 1];
      SpansSs(front, at, syms) + SpansS(ss[|ss| - 1], at + |ItemsSs(front, at, syms)|, SymsSs(front, syms))
  }

  // ---- The ranges nest as the tree does ----

  /** Of two ranges the one finished first either lies inside the other or ends before it. */
  ghost predicate Laminar(spans: seq<Span>) {
    forall i, j :: 0 <= i < j < |spans| ==> Before(spans[i], spans[j])
  }

  predicate Before(a: Span, b: Span) {
    a.end <= b.start || (b.start <= a.start && a.end <= b.end)
  }

  ghost predicate Nested(spans: seq<Span>, lo: nat, hi: nat) {
    && Laminar(spans)
    && forall i :: 0 <= i < |spans| ==> lo <= spans[i].start <= spans[i].end <= hi
  }

  lemma NestedJoin(a: seq<Span>, b: seq<Span>, lo: nat, mid: nat, mid': nat, hi: nat)
    requires lo <= mid <= mid' <= hi && Nested(a, lo, mid) && Nested(b, mid', hi)
    ensures Nested(a + b, lo, hi)
  {
    var c := a + b;
    forall i, j | 0 <= i < j < |c|
      ensures Before(c[i], c[j])
    {
      if j >= |a| > i {
        assert c[i] == a[i] && c[j] == b[j - |a|];
      } else if i >= |a| {
        assert Before(b[i - |a|], b[j - |a|]);
      } else {
        assert Before(a[i], a[j]);
      }
    }
  }

  lemma NestedClose(a: seq<Span>, lo: nat, hi: nat, hi': nat)
    requires Nested(a, lo, hi) && lo <= hi <= hi'
    ensures Nested(a + [Span(lo, hi')], lo, hi')
  {
    var c := a + [Span(lo, hi')];
    forall i, j | 0 <= i < j < |c|
      ensures Before(c[i], c[j])
    {
      if j < |a| {
        assert Before(a[i], a[j]);
      }
    }
  }

  lemma {:induction false} NestedE(e: Expr, at: nat, syms: Symbols)
    ensures Nested(SpansE(e, at, syms), at, at + |ItemsE(e, syms)|)
    decreases e, 1
  {
    match e
    case Unary(_, operand) =>
      var mid := at + |ItemsE(operand, syms)|;
      NestedE(operand, at, syms);
      NestedClose(SpansE(operand, at, syms), at, mid, mid + 1);
    case Binary(_, _, _) => NestedBinary(e, at, syms);
    case Call(_, args) =>
      var mid := at + |ItemsEs(args, syms)|;
      NestedEs(args, at, syms);
      NestedClose(SpansEs(args, at, syms), at, mid, mid + 1);
    case _ =>
  }

  lemma {:induction false} NestedBinary(e: Expr, at: nat, syms: Symbols)
    requires e.Binary?
    ensures Nested(SpansE(e, at, syms), at, at + |ItemsE(e, syms)|)
    decreases e, 0
  {
    var mid := at + |ItemsE(e.left, syms)|;
    var end := mid + |ItemsE(e.right, syms)|;
    var left, right := SpansE(e.left, at, syms), SpansE(e.right, mid, syms);
    NestedE(e.left, at, syms);
    NestedE(e.right, mid, syms);
    NestedJoin(left, right, at, mid, mid, end);
    NestedClose(left + right, at, end, end + 1);
  }

  lemma {:induction false} NestedEs(es: seq<Expr>, at: nat, syms: Symbols)
    ensures Nested(SpansEs(es, at, syms), at, at + |ItemsEs(es, syms)|)
    decreases es
  {
    if es != [] {
      var front := es[..|es| - 1];
      var mid := at + |ItemsEs(front, syms)|;
      NestedEs(front, at, syms);
      NestedE(es[|es| - 1], mid, syms);
      NestedJoin(SpansEs(front, at, syms), SpansE(es[|es| - 1], mid, syms), at, mid, mid, at + |ItemsEs(es, syms)|);
    }
  }

  /** All the ranges recorded for a statement lie inside its own, and any two of them are nested
      or disjoint. */
  lemma {:induction false} NestedS(s: Stmt, at: nat, syms: Symbols)
    ensures Nested(SpansS(s, at, syms), at, at + |ItemsS(s, at, syms)|)
    decreases s, 4
  {
    var end := at + |ItemsS(s, at, syms)|;
    NestedBelow(s, at, syms);
    NestedClose(SpansBelow(s, at, syms), at, end, end);
  }

  lemma NestedWiden(a: seq<Span>, lo: nat, hi: nat, hi': nat)
    requires Nested(a, lo, hi) && hi <= hi'
    ensures Nested(a, lo, hi')
  {
  }

  lemma {:induction false} NestedBelow(s: Stmt, at: nat, syms: Symbols)
    ensures Nested(SpansBelow(s, at, syms), at, at + |ItemsS(s, at, syms)|)
    decreases s, 3
  {
    match s
    case Let(_, value, _) => NestedE(value, at, syms);
    case Assign(_, source) => NestedE(source, at, syms);
    case Print(e) => NestedE(e, at, syms);
    case If(_, _, _) => NestedIf(s, at, syms);
    case While(c, b) =>
      var mid := at + |ItemsE(c, syms)|;
      NestedE(c, at, syms);
      NestedS(b, mid + 1, syms);
      NestedJoin(SpansE(c, at, syms), SpansS(b, mid + 1, syms), at, mid, mid + 1, at + |ItemsS(s, at, syms)|);
    case For(_, _, _, _) => NestedFor(s, at, syms);
    case Block(ss) => NestedSs(ss, at, syms);
    case Return(result) => if result.Some? { NestedE(result.value, at, syms); }
    case Function(_, _, _) =>
    case Bare(e) => NestedE(e, at, syms);
  }

  lemma {:induction false} NestedIf(s: Stmt, at: nat, syms: Symbols)
    requires s.If?
    ensures Nested(SpansBelow(s, at, syms), at, at + |ItemsIf(s, at, syms)|)
    decreases s, 1
  {
    var thenAt := at + |ItemsE(s.condition, syms)| + 1;
    var thenEnd := thenAt + |ItemsS(s.thenBranch, thenAt, syms)|;
    var thenSyms := SymsS(s.thenBranch, syms);
    var test, chosen, rest := SpansE(s.condition, at, syms), SpansS(s.thenBranch, thenAt, syms),
                              SpansO(s.elseBranch, thenEnd + 1, thenSyms);
    NestedE(s.condition, at, syms);
    NestedS(s.thenBranch, thenAt, syms);
    NestedJoin(test, chosen, at, thenAt - 1, thenAt, thenEnd);
    if s.elseBranch.Some? {
      NestedS(s.elseBranch.value, thenEnd + 1, thenSyms);
      NestedJoin(test + chosen, rest, at, thenEnd, thenEnd + 1, at + |ItemsIf(s, at, syms)|);
    }
  }

  lemma {:induction false} NestedFor(s: Stmt, at: nat, syms: Symbols)
    requires s.For?
    ensures Nested(SpansBelow(s, at, syms), at, at + |ItemsS(s, at, syms)|)
    decreases s, 2
  {
    var loopAt, loopSyms := at + |ItemsO(s.init, at, syms)|, SymsO(s.init, syms);
    NestedO(s.init, at, syms);
    NestedLoop(s, loopAt, loopSyms);
    NestedJoin(SpansO(s.init, at, syms), SpansLoop(s, loopAt, loopSyms), at, loopAt, loopAt,
               loopAt + |ItemsLoop(s, loopAt, loopSyms)|);
  }

  lemma {:induction false} NestedLoop(s: Stmt, at: nat, syms: Symbols)
    requires s.For?
    ensures Nested(SpansLoop(s, at, syms), at, at + |ItemsLoop(s, at, syms)|)
    decreases s, 1
  {
    var roundAt := at + |ItemsTest(s.test, 0, syms)|;
    var round := ItemsRound(s, roundAt, syms);
    var end := roundAt + |round| + 1;
    NestedRound(s, roundAt, syms);
    NestedWiden(SpansRound(s, roundAt, syms), roundAt, roundAt + |round|, end);
    if s.test.Some? {
      NestedE(s.test.value, at, syms);
      NestedJoin(SpansE(s.test.value, at, syms), SpansRound(s, roundAt, syms), at, roundAt - 1, roundAt, end);
    } else {
      assert [] + SpansRound(s, roundAt, syms) == SpansRound(s, roundAt, syms);
    }
  }

  lemma {:induction false} NestedRound(s: Stmt, at: nat, syms: Symbols)
    requires s.For?
    ensures Nested(SpansRound(s, at, syms), at, at + |ItemsRound(s, at, syms)|)
    decreases s, 0
  {
    var mid := at + |ItemsS(s.forBody, at, syms)|;
    var rest := SpansO(s.increment, mid, SymsS(s.forBody, syms));
    var end := at + |ItemsRound(s, at, syms)|;
    NestedS(s.forBody, at, syms);
    NestedO(s.increment, mid, SymsS(s.forBody, syms));
    assert |ItemsO(s.increment, mid, SymsS(s.forBody, syms))| <= |ItemsStep(s.increment, mid, SymsS(s.forBody, syms))|;
    NestedWiden(rest, mid, mid + |ItemsO(s.increment, mid, SymsS(s.forBody, syms))|, end);
    NestedJoin(SpansS(s.forBody, at, syms), rest, at, mid, mid, end);
  }

  lemma {:induction false} NestedO(s: Option<Stmt>, at: nat, syms: Symbols)
    ensures Nested(SpansO(s, at, syms), at, at + |ItemsO(s, at, syms)|)
    decreases s
  {
    if s.Some? {
      NestedS(s.value, at, syms);
    }
  }

  lemma {:induction false} NestedSs(ss: seq<Stmt>, at: nat, syms: Symbols)
    ensures Nested(SpansSs(ss, at, syms), at, at + |ItemsSs(ss, at, syms)|)
    decreases ss
  {
    if ss != [] {
      var front := ss[..|ss| - 1];
      var mid, last := at + |ItemsSs(front, at, syms)|, ss[|ss| - 1];
      NestedSs(front, at, syms);
      NestedS(last, mid, SymsSs(front, syms));
      NestedJoin(SpansSs(front, at, syms), SpansS(last, mid, SymsSs(front, syms)), at, mid, mid,
                 at + |ItemsSs(ss, at, syms)|);
    }
  }
}
