// What rolling a transaction back restores, and what it leaves stale.
module ReactiveRollback {
  import opened Ast
  import opened Values
  import opened ReactiveGraph
  import opened ReactiveSteps

  type Writes = seq<(nat, Value)>

  // ---- Which values come back ----

  function WriteAll(v: View, writes: Writes): (w: View)
    requires |v.previous| == |v.values| == |v.versions|
    ensures |w.previous| == |w.values| == |w.versions| && |w.values| == |v.values| && w.formulas == v.formulas
  {
    if writes == [] then v
    else Write(WriteAll(v, writes[..|writes| - 1]), writes[|writes| - 1].0, writes[|writes| - 1].1)
  }

  /** The nodes of those writes that change something, in order. */
  function ChangedBy(v: View, writes: Writes): seq<nat>
    requires |v.previous| == |v.values| == |v.versions|
  {
    if writes == [] then []
    else
      var front, (id, value) := writes[..|writes| - 1], writes[|writes| - 1];
      ChangedBy(v, front) + if Changes(WriteAll(v, front), id, value) then [id] else []
  }

  /** The value of `k` before the last write that changes it. */
  function BeforeLast(v: View, writes: Writes, k: nat): Value
    requires |v.previous| == |v.values| == |v.versions| && k < |v.values|
  {
    if writes == [] then v.values[k]
    else
      var front, (id, value) := writes[..|writes| - 1], writes[|writes| - 1];
      var w := WriteAll(v, front);
      if id == k && Changes(w, id, value) then w.values[k] else BeforeLast(v, front, k)
  }

  lemma {:induction false} LastWrites(v: View, writes: Writes, k: nat)
    requires |v.previous| == |v.values| == |v.versions| && k < |v.values|
    ensures var w := WriteAll(v, writes);
            if k in ChangedBy(v, writes) then w.previous[k] == BeforeLast(v, writes, k)
            else w.values[k] == v.values[k] == BeforeLast(v, writes, k)
    decreases |writes|
  {
    if writes != [] {
      LastWrites(v, writes[..|writes| - 1], k);
    }
  }

  /** The last value that is written to `k`, or what it had. */
  function LastWritten(v: View, writes: Writes, k: nat): Value
    requires k < |v.values|
  {
    if writes == [] then v.values[k]
    else if writes[|writes| - 1].0 == k then writes[|writes| - 1].1
    else LastWritten(v, writes[..|writes| - 1], k)
  }

  /** A version grows by the number of writes that changed the node, a state node has the value last written
      to it, and a derived node keeps its own. */
  lemma {:induction false} VersionsCountChanges(v: View, writes: Writes, k: nat)
    requires |v.previous| == |v.values| == |v.versions| == |v.formulas| && k < |v.values|
    ensures var w := WriteAll(v, writes);
            && w.versions[k] == v.versions[k] + multiset(ChangedBy(v, writes))[k]
            && w.values[k] == if v.formulas[k].None? then LastWritten(v, writes, k) else v.values[k]
    decreases |writes|
  {
    if writes != [] {
      VersionsCountChanges(v, writes[..|writes| - 1], k);
    }
  }

  /** Rolling back gives every node its value from before the last write that changed it: its first
      value exactly if no write changed it, or if it had that value again by then. */
  lemma RollbackRestoresExactly(v: View, writes: Writes, k: nat)
    requires |v.previous| == |v.values| == |v.versions| && k < |v.values|
    ensures var restored := Restored(WriteAll(v, writes), ChangedBy(v, writes));
            && restored[k] == BeforeLast(v, writes, k)
            && (restored[k] == v.values[k]
                <==> k !in ChangedBy(v, writes) || BeforeLast(v, writes, k) == v.values[k])
  {
    LastWrites(v, writes, k);
  }

  // ---- Which derived nodes stay current ----

  ghost predicate SteadyNode(v: View, origin: seq<Value>, steady: set<nat>, k: nat)
    requires Shaped(v) && |origin| == |v.formulas|
  {
    && k < |v.formulas| && v.formulas[k].Some? && v.marks[k].Clean?
    && v.values[k] == origin[k] == Eval(v.formulas[k].value, origin)
    && (forall d :: d in v.deps[k] <==> d in Reads(v.formulas[k].value, origin))
    && forall d :: d in v.deps[k] && v.formulas[d].Some? ==> d in steady
  }

  /** The nodes in `steady` are as they were when the values were `origin`, and were current then. */
  ghost predicate Steady(v: View, origin: seq<Value>, steady: set<nat>)
    requires Shaped(v)
  {
    |origin| == |v.formulas| && forall k :: k in steady ==> SteadyNode(v, origin, steady, k)
  }

  lemma SteadyBegins(v: View)
    requires Shaped(v) && Sound(v, {})
    ensures Steady(v, v.values, Computed(v))
  {
    forall k | k in Computed(v)
      ensures SteadyNode(v, v.values, Computed(v), k)
    {
      assert NodeSound(v, {}, k);
    }
  }

  lemma SteadyWrite(v: View, origin: seq<Value>, steady: set<nat>, id: nat, value: Value)
    requires Shaped(v) && Steady(v, origin, steady) && Changes(v, id, value)
    ensures Shaped(Write(v, id, value)) && Steady(Write(v, id, value), origin, steady)
  {
    forall k | k in steady
      ensures SteadyNode(Write(v, id, value), origin, steady, k)
    {
      assert SteadyNode(v, origin, steady, k);
    }
  }

  lemma SteadyStays(v: View, w: View, origin: seq<Value>, steady: set<nat>)
    requires Shaped(v) && Shaped(w) && Advanced(v, w, None) && Steady(v, origin, steady)
    ensures Steady(w, origin, steady)
  {
    forall k | k in steady
      ensures SteadyNode(w, origin, steady, k)
    {
      assert SteadyNode(v, origin, steady, k) && NodeAdvanced(v, w, None, k);
    }
  }

  lemma SteadyGrows(v: View, origin: seq<Value>, steady: set<nat>, f: Option<Formula>, initial: Value)
    requires Shaped(v) && Steady(v, origin, steady) && (steady == {} || Unawaited(v))
    ensures Shaped(Created(v, f, initial)) && Steady(Created(v, f, initial), origin + [initial], steady)
  {
    forall k | k in steady
      ensures SteadyNode(Created(v, f, initial), origin + [initial], steady, k)
    {
      assert SteadyNode(v, origin, steady, k);
      EvalExtends(v.formulas[k].value, origin, initial);
    }
  }

  /** The graph after a rollback. */
  function RolledBack(v: View, changes: seq<nat>): View
    requires |v.previous| == |v.values|
  {
    v.(values := Restored(v, changes))
  }

  /** Computed over the restored values the node would read what it has read, and be what it is. */
  ghost predicate UpToDate(v: View, changes: seq<nat>, k: nat)
    requires Shaped(v) && k < |v.formulas| && v.formulas[k].Some?
  {
    var f, values := v.formulas[k].value, Restored(v, changes);
    v.values[k] == Eval(f, values) && forall d :: d in v.deps[k] <==> d in Reads(f, values)
  }

  /** A clean derived node that has read a changed node. */
  ghost predicate Touched(v: View, changes: seq<nat>, k: nat)
    requires Shaped(v)
  {
    k < |v.formulas| && v.formulas[k].Some? && v.marks[k].Clean? && Meets(v.deps[k], Elements(changes))
  }

  ghost predicate TouchedUpToDate(v: View, changes: seq<nat>)
    requires Shaped(v)
  {
    forall k :: Touched(v, changes, k) ==> UpToDate(v, changes, k)
  }

  // ---- Beginning a transaction inside another ----

  /** What has read one of the forgotten changes is what it would be if computed now. */
  ghost predicate TouchedCurrent(v: View, changes: seq<nat>)
    requires Shaped(v)
  {
    forall k :: Touched(v, changes, k) ==> UpToDate(v, [], k)
  }

  /** Once noted changes are forgotten, nothing will invalidate for them: the graph is sound exactly
      if what has read one of them is up to date as it is. */
  lemma ForgottenSound(v: View, changes: seq<nat>)
    requires Shaped(v) && Sound(v, Elements(changes))
    ensures Sound(v, {}) <==> TouchedCurrent(v, changes)
  {
    assert Restored(v, []) == v.values;
    forall k | 0 <= k < |v.formulas|
      ensures NodeSound(v, {}, k) <==> (Touched(v, changes, k) ==> UpToDate(v, [], k))
    {
      assert NodeSound(v, Elements(changes), k);
    }
    if Sound(v, {}) {
      forall k | Touched(v, changes, k)
        ensures UpToDate(v, [], k)
      {
        assert NodeSound(v, {}, k);
      }
    }
  }

  // ---- Rollbacks that leave the graph sound ----

  /** Every changed node comes back to its first value, and what has read one was computed before the
      transaction began. */
  ghost predicate Undone(v: View, origin: seq<Value>, steady: set<nat>, changes: seq<nat>)
    requires Shaped(v) && |origin| == |v.formulas| && forall k :: k in changes ==> k < |v.formulas|
  {
    && (forall k :: k in changes ==> v.previous[k] == origin[k])
    && forall k :: Touched(v, changes, k) ==> k in steady
  }

  lemma RolledBackSound(v: View, changes: seq<nat>)
    requires Shaped(v) && Sound(v, Elements(changes))
    requires forall k :: k in changes ==> k < |v.formulas| && v.formulas[k].None?
    ensures Shaped(RolledBack(v, changes))
    ensures Sound(RolledBack(v, changes), {}) <==> TouchedUpToDate(v, changes)
  {
    var w := RolledBack(v, changes);
    assert Shaped(w);
    forall k | 0 <= k < |w.formulas|
      ensures NodeSound(w, {}, k) <==> (Touched(v, changes, k) ==> UpToDate(v, changes, k))
    {
      assert NodeSound(v, Elements(changes), k);
      if v.formulas[k].Some? && v.marks[k].Clean? {
        assert w.values[k] == v.values[k];
        if !Touched(v, changes, k) {
          EvalAgrees(v.formulas[k].value, v.values, w.values);
        }
      }
    }
    if Sound(w, {}) {
      forall k | Touched(v, changes, k)
        ensures UpToDate(v, changes, k)
      {
        assert NodeSound(w, {}, k);
      }
    }
  }

  lemma RestoredIsCurrent(v: View, origin: seq<Value>, steady: set<nat>, changes: seq<nat>, k: nat)
    requires Shaped(v) && Recorded(v, origin, changes) && Steady(v, origin, steady) && k in steady
    requires forall d :: d in changes ==> d < |v.formulas| && v.formulas[d].None? && v.previous[d] == origin[d]
    ensures k < |v.formulas| && v.formulas[k].Some? && UpToDate(v, changes, k)
  {
    assert SteadyNode(v, origin, steady, k);
    var f, values := v.formulas[k].value, Restored(v, changes);
    forall d | d in Reads(f, origin)
      ensures d < |origin| ==> values[d] == origin[d]
    {
      assert d in v.deps[k];
      if v.formulas[d].Some? {
        assert SteadyNode(v, origin, steady, d);
      } else {
        assert Recoverable(v, origin, changes, d);
      }
    }
    EvalAgrees(f, origin, values);
  }

  lemma UndoneIsUpToDate(v: View, origin: seq<Value>, steady: set<nat>, changes: seq<nat>)
    requires Shaped(v) && Recorded(v, origin, changes) && Steady(v, origin, steady)
    requires forall k :: k in changes ==> k < |v.formulas| && v.formulas[k].None?
    requires Undone(v, origin, steady, changes)
    ensures TouchedUpToDate(v, changes)
  {
    forall k | Touched(v, changes, k)
      ensures UpToDate(v, changes, k)
    {
      RestoredIsCurrent(v, origin, steady, changes, k);
    }
  }

  lemma RollbackRestores(v: View, origin: seq<Value>, changes: seq<nat>)
    requires Shaped(v) && Recorded(v, origin, changes)
    ensures forall k :: 0 <= k < |v.formulas| && v.formulas[k].None? ==>
              (Restored(v, changes)[k] == origin[k] <==> k !in changes || v.previous[k] == origin[k])
    ensures forall k :: 0 <= k < |v.formulas| && v.formulas[k].None? && multiset(changes)[k] <= 1 ==>
              Restored(v, changes)[k] == origin[k]
  {
    forall k | 0 <= k < |v.formulas| && v.formulas[k].None?
      ensures Restored(v, changes)[k] == origin[k] <==> k !in changes || v.previous[k] == origin[k]
      ensures multiset(changes)[k] <= 1 ==> Restored(v, changes)[k] == origin[k]
    {
      assert Recoverable(v, origin, changes, k);
      if multiset(changes)[k] <= 1 {
        RestoredOrigin(v, origin, changes, k);
      }
    }
  }
}
