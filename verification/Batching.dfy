// Writes made in one transaction and the same writes made one by one leave the same graph.
module Batching {
  import opened Values
  import opened ReactiveGraph
  import opened ReactiveSteps
  import opened ReactiveRollback
  import opened Reactive

  lemma SameStatesWrite(v: View, w: View, id: nat, value: Value)
    requires SameStates(v, w)
    ensures SameStates(Write(v, id, value), Write(w, id, value))
  {
    forall k | 0 <= k < |v.formulas| && v.formulas[k].None?
      ensures NodeKept(Write(v, id, value), Write(w, id, value), k)
    {
      assert NodeKept(v, w, k);
    }
    if id < |v.formulas| && v.formulas[id].None? {
      assert NodeKept(v, w, id);
    }
  }

  lemma SameStatesTransitive(u: View, v: View, w: View)
    requires SameStates(u, v) && SameStates(v, w)
    ensures SameStates(u, w)
  {
    forall k | 0 <= k < |u.formulas| && u.formulas[k].None?
      ensures NodeKept(u, w, k)
    {
      assert NodeKept(u, v, k) && NodeKept(v, w, k);
    }
  }

  lemma SameStatesSymmetric(v: View, w: View)
    requires SameStates(v, w)
    ensures SameStates(w, v)
  {
    forall k | 0 <= k < |v.formulas| && v.formulas[k].None?
      ensures NodeKept(w, v, k)
    {
      assert NodeKept(v, w, k);
    }
  }

  /** Between `v` and a view with the same state values a write changes the same. */
  lemma ChangesAlike(v: View, w: View, id: nat, value: Value)
    requires SameStates(v, w)
    ensures Changes(v, id, value) <==> Changes(w, id, value)
  {
    if id < |v.formulas| && v.formulas[id].None? {
      assert NodeKept(v, w, id);
    }
  }

  lemma {:induction false} FewerChanges(v: View, writes: Writes, i: nat)
    requires |v.previous| == |v.values| == |v.versions| && i <= |writes|
    ensures ChangedBy(v, writes[..i]) <= ChangedBy(v, writes)
    decreases |writes| - i
  {
    if i < |writes| {
      assert writes[..i + 1][..i] == writes[..i];
      FewerChanges(v, writes, i + 1);
    } else {
      assert writes[..i] == writes;
    }
  }

  /** The writes in order, inside a transaction or outside of one.  State values and versions come
      out on every graph; the graph stays sound where formulas are layered. */
  method WriteEach(rt: Runtime, writes: Writes, ghost rank: seq<nat>)
    requires rt.Idle()
    requires rt.inTransaction ==> |rt.changes| + |ChangedBy(rt.Look(), writes)| <= CHANGES_CAPACITY
    modifies rt
    ensures rt.Idle() && rt.inTransaction == old(rt.inTransaction)
    ensures SameStates(WriteAll(old(rt.Look()), writes), rt.Look())
    ensures rt.inTransaction ==>
              && rt.changes == old(rt.changes + ChangedBy(rt.Look(), writes))
              && rt.origin == old(rt.origin) && rt.steady == old(rt.steady)
              && rt.Look() == WriteAll(old(rt.Look()), writes)
    ensures old(Sound(rt.Look(), rt.Pending()) && (rt.inTransaction || Layered(rt.Look(), rank))) ==>
              Sound(rt.Look(), rt.Pending())
    ensures old(Layered(rt.Look(), rank)) ==> Layered(rt.Look(), rank)
  {
    ghost var v0, before := rt.Look(), rt.changes;
    ghost var sound, layered := Sound(rt.Look(), rt.Pending()), Layered(rt.Look(), rank);
    WrittenFirst(v0, before, writes, rt.inTransaction);
    var i := 0;
    while i < |writes|
      invariant i <= |writes| && rt.Idle() && rt.inTransaction == old(rt.inTransaction)
      invariant (sound && (rt.inTransaction || layered) ==> Sound(rt.Look(), rt.Pending()))
      invariant layered ==> Layered(rt.Look(), rank)
      invariant Written(v0, before, writes, i, rt.Look(), rt.changes, rt.inTransaction)
      invariant rt.inTransaction ==> rt.origin == old(rt.origin) && rt.steady == old(rt.steady)
    {
      var (id, value) := writes[i];
      WriteNext(rt, id, value, rank, v0, before, writes, i);
      i := i + 1;
    }
    WrittenLast(v0, before, writes, rt.Look(), rt.changes, rt.inTransaction);
  }

  /** The first `i` writes have been made. */
  ghost predicate HasWritten(v0: View, before: seq<nat>, writes: Writes, i: nat, w: View, changes: seq<nat>,
                             open: bool) {
    && |v0.previous| == |v0.values| == |v0.versions| && i <= |writes|
    && SameStates(WriteAll(v0, writes[..i]), w)
    && (open ==> w == WriteAll(v0, writes[..i]) && changes == before + ChangedBy(v0, writes[..i]))
  }

  /** The quantifier keeps provers from unfolding what that means where it does not matter. */
  ghost predicate Written(v0: View, before: seq<nat>, writes: Writes, i: nat, w: View, changes: seq<nat>, open: bool) {
    forall x :: IsView(x, w) ==> HasWritten(v0, before, writes, i, x, changes, open)
  }

  lemma WrittenIs(v0: View, before: seq<nat>, writes: Writes, i: nat, w: View, changes: seq<nat>, open: bool)
    ensures Written(v0, before, writes, i, w, changes, open) <==>
            HasWritten(v0, before, writes, i, w, changes, open)
  {
    assert IsView(w, w);
  }

  lemma WrittenFirst(v: View, changes: seq<nat>, writes: Writes, open: bool)
    requires Shaped(v)
    ensures Written(v, changes, writes, 0, v, changes, open)
  {
    SameStatesSelf(v);
    WrittenIs(v, changes, writes, 0, v, changes, open);
  }

  lemma WrittenLast(v0: View, before: seq<nat>, writes: Writes, w: View, changes: seq<nat>, open: bool)
    requires Written(v0, before, writes, |writes|, w, changes, open)
    ensures |v0.previous| == |v0.values| == |v0.versions| && SameStates(WriteAll(v0, writes), w)
    ensures open ==> w == WriteAll(v0, writes) && changes == before + ChangedBy(v0, writes)
  {
    WrittenIs(v0, before, writes, |writes|, w, changes, open);
    assert writes[..|writes|] == writes;
  }

  /** What one write does. */
  ghost predicate WritesOn(u: View, changes: seq<nat>, id: nat, value: Value, w: View, now: seq<nat>, open: bool) {
    && |u.previous| == |u.values| == |u.versions| && SameStates(Write(u, id, value), w)
    && (open ==> w == Write(u, id, value) && now == if Changes(u, id, value) then changes + [id] else changes)
  }

  /** What the next write has to do, by what has been written. */
  lemma WrittenNext(v0: View, before: seq<nat>, writes: Writes, i: nat, u: View, changes: seq<nat>, open: bool)
    requires Shaped(u) && i < |writes| && Written(v0, before, writes, i, u, changes, open)
    ensures |v0.previous| == |v0.values| == |v0.versions|
    ensures var (id, value) := writes[i];
            && (open && Changes(u, id, value) ==> |changes| < |before| + |ChangedBy(v0, writes)|)
            && forall w, now :: WritesOn(u, changes, id, value, w, now, open) ==>
                 Written(v0, before, writes, i + 1, w, now, open)
  {
    var (id, value) := writes[i];
    WrittenIs(v0, before, writes, i, u, changes, open);
    var expected := WriteAll(v0, writes[..i]);
    assert writes[..i + 1][..i] == writes[..i];
    ChangesAlike(expected, u, id, value);
    FewerChanges(v0, writes, i + 1);
    SameStatesWrite(expected, u, id, value);
    forall w, now | WritesOn(u, changes, id, value, w, now, open)
      ensures Written(v0, before, writes, i + 1, w, now, open)
    {
      SameStatesTransitive(WriteAll(v0, writes[..i + 1]), Write(u, id, value), w);
      WrittenIs(v0, before, writes, i + 1, w, now, open);
    }
  }

  method WriteNext(rt: Runtime, id: nat, value: Value, ghost rank: seq<nat>, ghost v0: View, ghost before: seq<nat>,
                   ghost writes: Writes, ghost i: nat)
    requires rt.Idle() && i < |writes| && writes[i] == (id, value)
    requires Written(v0, before, writes, i, rt.Look(), rt.changes, rt.inTransaction)
    requires |v0.previous| == |v0.values| == |v0.versions|
    requires rt.inTransaction ==> |before| + |ChangedBy(v0, writes)| <= CHANGES_CAPACITY
    modifies rt
    ensures rt.Idle() && rt.inTransaction == old(rt.inTransaction)
    ensures Written(v0, before, writes, i + 1, rt.Look(), rt.changes, rt.inTransaction)
    ensures rt.inTransaction ==> rt.origin == old(rt.origin) && rt.steady == old(rt.steady)
    ensures old(Sound(rt.Look(), rt.Pending()) && (rt.inTransaction || Layered(rt.Look(), rank))) ==>
              Sound(rt.Look(), rt.Pending())
    ensures old(Layered(rt.Look(), rank)) ==> Layered(rt.Look(), rank)
  {
    ghost var u, den := rt.Look(), [];
    WrittenNext(v0, before, writes, i, u, rt.changes, rt.inTransaction);
    SameStatesSelf(u);
    SameStatesWrite(u, u, id, value);
    if Layered(u, rank) {
      den := LayeredGraphHasMeaning(Write(u, id, value), rank);
    }
    ghost var changes := rt.changes;
    rt.Set(id, value, den, rank);
    assert WritesOn(u, changes, id, value, rt.Look(), rt.changes, rt.inTransaction);
  }

  lemma SameStatesSelf(v: View)
    requires Shaped(v)
    ensures SameStates(v, v)
  {
  }

  /** Two runtimes with the same state that make the same writes, one of them in a transaction, end
      with the same state values and versions.  Where the formulas are layered they also end with
      the same meaning for every node: every read from then on gives the same answer. */
  method BatchEqualsImmediate(batched: Runtime, immediate: Runtime, writes: Writes, ghost rank: seq<nat>)
      returns (ghost den: seq<Value>)
    requires batched != immediate && batched.Idle() && immediate.Idle()
    requires !batched.inTransaction && !immediate.inTransaction && SameStates(batched.Look(), immediate.Look())
    requires |ChangedBy(batched.Look(), writes)| <= CHANGES_CAPACITY
    modifies batched, immediate
    ensures batched.Idle() && immediate.Idle() && SameStates(batched.Look(), immediate.Look())
    ensures SameStates(WriteAll(old(batched.Look()), writes), batched.Look())
    ensures old(Layered(batched.Look(), rank) && Sound(batched.Look(), {}) && Sound(immediate.Look(), {})) ==>
              && Sound(batched.Look(), {}) && Solves(batched.Look(), den, rank)
              && Sound(immediate.Look(), {}) && Solves(immediate.Look(), den, rank)
  {
    ghost var b0, i0 := batched.Look(), immediate.Look();
    batched.Begin();
    WriteEach(batched, writes, rank);
    ghost var b1 := batched.Look();
    den := [];
    if Layered(b1, rank) {
      den := LayeredGraphHasMeaning(b1, rank);
    }
    batched.Commit(den, rank);
    WriteEach(immediate, writes, rank);
    SameWrites(b0, i0, writes);
    SameStatesSymmetric(WriteAll(b0, writes), b1);
    SameStatesTransitive(b1, WriteAll(b0, writes), WriteAll(i0, writes));
    SameStatesTransitive(b1, WriteAll(i0, writes), immediate.Look());
    if Solves(b1, den, rank) {
      SameStatesSolve(b1, immediate.Look(), den, rank);
      SameStatesSolve(b1, batched.Look(), den, rank);
    }
    SameStatesTransitive(WriteAll(b0, writes), b1, batched.Look());
    SameStatesSymmetric(b1, batched.Look());
    SameStatesTransitive(batched.Look(), b1, immediate.Look());
  }

  lemma {:induction false} SameWrites(v: View, w: View, writes: Writes)
    requires SameStates(v, w)
    ensures SameStates(WriteAll(v, writes), WriteAll(w, writes))
    decreases |writes|
  {
    if writes != [] {
      var front, last := writes[..|writes| - 1], writes[|writes| - 1];
      SameWrites(v, w, front);
      SameStatesWrite(WriteAll(v, front), WriteAll(w, front), last.0, last.1);
    }
  }
}
