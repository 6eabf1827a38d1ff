// Where the builder attaches statements, told from the text of the program alone.
module FlowHooks {
  import opened Ast
  import opened Values
  import opened Interpreter
  import opened FlowGraph
  import opened FlowPaths

  /** The builder finds an entry for the statement; `attached` says that there is a node before it to
      attach it to.  A block has an entry if its first statement has one. */
  predicate Enters(s: Stmt, attached: bool) {
    match s
    case Let(_, _, _) => true
    case Print(_) => true
    case Return(_) => true
    case If(_, _, _) => true
    case While(_, _) => true
    case For(init, _, _, _) => attached || (init.Some? && Enters(init.value, attached))
    case Block(ss) => ss != [] && Enters(ss[0], attached)
    case _ => attached
  }

  /** There is a node after the statement to attach the next one to. */
  predicate Leaves(s: Stmt, attached: bool) {
    match s
    case Block(ss) => LeavesSs(ss, attached)
    case Assign(_, _) => attached
    case Bare(_) => attached
    case Function(_, _, _) => attached
    case _ => true
  }

  predicate LeavesSs(ss: seq<Stmt>, attached: bool) {
    if ss == [] then attached
    else
      var before := LeavesSs(ss[..|ss| - 1], attached);
      if Enters(ss[|ss| - 1], before) then Leaves(ss[|ss| - 1], before) else before
  }

  /** Within each block every statement with nodes has an entry. */
  predicate Hooked(s: Stmt, attached: bool) {
    match s
    case If(_, t, f) => Hooked(t, true) && HookedO(f, true)
    case While(_, b) => Hooked(b, true)
    case For(init, _, step, b) => HookedO(init, attached) && Hooked(b, true) && HookedO(step, true)
    case Block(ss) => HookedSs(ss, attached)
    case _ => true
  }

  predicate HookedO(s: Option<Stmt>, attached: bool) {
    s.Some? ==> Hooked(s.value, attached)
  }

  predicate HookedSs(ss: seq<Stmt>, attached: bool) {
    ss == [] ||
    var last, before := ss[|ss| - 1], LeavesSs(ss[..|ss| - 1], attached);
    && HookedSs(ss[..|ss| - 1], attached) && Hooked(last, before)
    && (Enters(last, before) || Barren(last))
  }

  predicate LeavesTop(ss: seq<Stmt>) {
    ss != [] && (LeavesTop(ss[..|ss| - 1]) || Leaves(ss[|ss| - 1], LeavesTop(ss[..|ss| - 1])))
  }

  predicate HookedTop(ss: seq<Stmt>) {
    ss == [] || (HookedTop(ss[..|ss| - 1]) && Hooked(ss[|ss| - 1], LeavesTop(ss[..|ss| - 1])))
  }

  lemma {:induction false} EntersIs(s: Stmt, prev: Option<nat>, c: nat)
    requires NoFunctions(s)
    ensures Build(s, prev, c).entry.Some? <==> Enters(s, prev.Some?)
    ensures Build(s, prev, c).exit.Some? <==> Leaves(s, prev.Some?)
    decreases s, 1
  {
    match s
    case For(init, _, _, _) =>
      assert Build(s, prev, c) == BuildFor(s, prev, c);
      if init.Some? {
        EntersIs(init.value, prev, c);
      } else {
        assert BuildO(init, prev, c) == Part(None, None, {}, c);
      }
    case Block(ss) => EntersSsIs(ss, prev, c);
    case _ =>
  }

  lemma {:induction false} EntersSsIs(ss: seq<Stmt>, prev: Option<nat>, c: nat)
    requires forall i :: 0 <= i < |ss| ==> NoFunctions(ss[i])
    ensures BuildSs(ss, prev, c).entry.Some? <==> ss != [] && Enters(ss[0], prev.Some?)
    ensures BuildSs(ss, prev, c).exit.Some? <==> LeavesSs(ss, prev.Some?)
    decreases ss, 0
  {
    if ss != [] {
      var front := ss[..|ss| - 1];
      var f := BuildSs(front, prev, c);
      EntersSsIs(front, prev, c);
      EntersIs(ss[|ss| - 1], f.exit, f.next);
      if front == [] {
        assert f == Part(None, prev, {}, c);
      }
    }
  }

  /** The builder attaches a statement as its text says. */
  lemma {:induction false} CoherentIsHooked(s: Stmt, prev: Option<nat>, c: nat)
    requires NoFunctions(s)
    ensures Coherent(s, prev, c) <==> Hooked(s, prev.Some?)
    decreases s, 1
  {
    match s
    case If(_, t, f) =>
      CoherentIsHooked(t, Some(c), c + 1);
      CoherentOIsHooked(f, Some(c), Build(t, Some(c), c + 1).next);
    case While(_, b) => CoherentIsHooked(b, Some(c + 1), c + 2);
    case For(init, _, step, b) =>
      var i := BuildO(init, prev, c);
      var p := Build(b, Some(i.next + 1), i.next + 2);
      CoherentOIsHooked(init, prev, c);
      CoherentIsHooked(b, Some(i.next + 1), i.next + 2);
      CoherentOIsHooked(step, After(p, i.next + 1), p.next);
    case Block(ss) => CoherentSsIsHooked(ss, prev, c);
    case _ =>
  }

  lemma {:induction false} CoherentOIsHooked(s: Option<Stmt>, prev: Option<nat>, c: nat)
    requires s.Some? ==> NoFunctions(s.value)
    ensures CoherentO(s, prev, c) <==> HookedO(s, prev.Some?)
    decreases s, 0
  {
    if s.Some? {
      CoherentIsHooked(s.value, prev, c);
    }
  }

  lemma {:induction false} CoherentSsIsHooked(ss: seq<Stmt>, prev: Option<nat>, c: nat)
    requires forall i :: 0 <= i < |ss| ==> NoFunctions(ss[i])
    ensures CoherentSs(ss, prev, c) <==> HookedSs(ss, prev.Some?)
    decreases ss, 0
  {
    if ss != [] {
      var last, front := ss[|ss| - 1], ss[..|ss| - 1];
      var f := BuildSs(front, prev, c);
      CoherentSsIsHooked(front, prev, c);
      EntersSsIs(front, prev, c);
      CoherentIsHooked(last, f.exit, f.next);
      EntersIs(last, f.exit, f.next);
    }
  }

  lemma {:induction false} CoherentTopIsHooked(ss: seq<Stmt>)
    requires forall i :: 0 <= i < |ss| ==> NoFunctions(ss[i])
    ensures CoherentTop(ss) <==> HookedTop(ss)
    ensures BuildTop(ss).exit.Some? <==> LeavesTop(ss)
    decreases ss
  {
    if ss != [] {
      var last, front := ss[|ss| - 1], ss[..|ss| - 1];
      var f := BuildTop(front);
      CoherentTopIsHooked(front);
      CoherentIsHooked(last, f.exit, f.next);
      EntersIs(last, f.exit, f.next);
    }
  }

  /** Branches and loops included: where the text hooks every statement, every terminating run is a
      path in the graph and ends where the builder says. */
  lemma HookedProgramIsCovered(fmt: Format, ss: seq<Stmt>, store: Store, fuel: nat)
    requires forall i :: 0 <= i < |ss| ==> NoFunctions(ss[i])
    requires HookedTop(ss) && ExecSs(fmt, ss, store, fuel).Done?
    ensures Along(BuildTop(ss), None, VisitedSs(fmt, ss, store, fuel, 0))
  {
    CoherentTopIsHooked(ss);
    TopAlong(fmt, ss, store, fuel);
  }

  /** An inner block that begins with an empty block is never hooked to what follows, whatever there
      is before it: it has no entry, and no statement in it with nodes can be hooked either way. */
  lemma EmptyBeginningHasNoEntry(ss: seq<Stmt>, attached: bool)
    requires exists i :: 0 <= i < |ss| && !Barren(ss[i])
    ensures !Enters(Block([Block([])] + ss), attached)
    ensures !HookedSs([Block([Block([])] + ss)], attached)
  {
    var all := [Block([])] + ss;
    var k :| 0 <= k < |ss| && !Barren(ss[k]);
    assert all[k + 1] == ss[k] && all[0] == Block([]);
    assert !Barren(Block(all));
    assert [Block(all)][..0] == [];
  }
}
