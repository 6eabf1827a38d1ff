// What the dependency graph of the reactive runtime means: formulas over node reads, the values
// they denote, and the facts that every operation on the graph keeps.
module ReactiveGraph {
  import opened Ast
  import opened Values

  /** A compute function, by the nodes it asks for: the condition decides which ones. */
  datatype Formula =
    | Const(constant: Value)
    | Read(node: nat)
    | Apply(combine: (Value, Value) -> Value, left: Formula, right: Formula)
    | Cond(holds: Value -> bool, test: Formula, yes: Formula, no: Formula)

  /** A node that does not exist reads as nil, like a null handle. */
  function Of(vals: seq<Value>, m: nat): Value {
    if m < |vals| then vals[m] else Nil
  }

  function Eval(f: Formula, vals: seq<Value>): Value {
    match f
    case Const(v) => v
    case Read(m) => Of(vals, m)
    case Apply(combine, l, r) => combine(Eval(l, vals), Eval(r, vals))
    case Cond(holds, c, y, n) => if holds(Eval(c, vals)) then Eval(y, vals) else Eval(n, vals)
  }

  /** The nodes that evaluation asks for, which depend on the values it meets. */
  function Reads(f: Formula, vals: seq<Value>): (r: set<nat>)
    ensures forall m :: m in r ==> m < |vals|
  {
    match f
    case Const(_) => {}
    case Read(m) => if m < |vals| then {m} else {}
    case Apply(_, l, r) => Reads(l, vals) + Reads(r, vals)
    case Cond(holds, c, y, n) =>
      Reads(c, vals) + if holds(Eval(c, vals)) then Reads(y, vals) else Reads(n, vals)
  }

  /** Nothing but the nodes read matters. */
  lemma {:induction false} EvalAgrees(f: Formula, u: seq<Value>, v: seq<Value>)
    requires |u| == |v|
    requires forall m :: m in Reads(f, u) ==> u[m] == v[m]
    ensures Eval(f, u) == Eval(f, v) && Reads(f, u) == Reads(f, v)
    decreases f
  {
    match f
    case Const(_) =>
    case Read(m) => assert m < |u| ==> m in Reads(f, u);
    case Apply(_, l, r) =>
      EvalAgrees(l, u, v);
      EvalAgrees(r, u, v);
    case Cond(holds, c, y, n) =>
      EvalAgrees(c, u, v);
      if holds(Eval(c, u)) {
        EvalAgrees(y, u, v);
      } else {
        EvalAgrees(n, u, v);
      }
  }

  // ---- The graph at one moment ----

  datatype Mark = Clean | Dirty | Computing

  /** A node without a formula is a state node. */
  datatype View = View(
    formulas: seq<Option<Formula>>,
    marks: seq<Mark>,
    values: seq<Value>,
    previous: seq<Value>,
    versions: seq<nat>,
    counts: seq<nat>,
    deps: seq<seq<nat>>)

  ghost predicate Shaped(w: View) {
    var n := |w.formulas|;
    && |w.marks| == n && |w.values| == n && |w.previous| == n && |w.versions| == n && |w.counts| == n && |w.deps| == n
    && (forall k :: 0 <= k < n && w.formulas[k].None? ==> w.marks[k].Clean? && w.deps[k] == [])
    && (forall k, d :: 0 <= k < n && d in w.deps[k] ==> d < n)
  }

  function DirtySet(marks: seq<Mark>): set<nat> {
    set k | 0 <= k < |marks| && marks[k].Dirty?
  }

  /** No node that counts as up to date rests on one that is known not to be; `except` is a node
      about to be recomputed. */
  ghost predicate SettledBut(w: View, except: set<nat>)
    requires Shaped(w)
  {
    forall k, d :: 0 <= k < |w.deps| && !w.marks[k].Dirty? && d in w.deps[k] && d !in except ==> !w.marks[d].Dirty?
  }

  ghost predicate Settled(w: View)
    requires Shaped(w)
  {
    SettledBut(w, {})
  }

  ghost predicate Meets(s: seq<nat>, pending: set<nat>) {
    exists d :: d in s && d in pending
  }

  ghost predicate NodeSound(w: View, pending: set<nat>, k: nat)
    requires Shaped(w) && k < |w.formulas|
  {
    w.formulas[k].Some? && w.marks[k].Clean? ==>
      && (forall d :: d in w.deps[k] ==> w.marks[d].Clean?)
      && (!Meets(w.deps[k], pending) ==>
            && w.values[k] == Eval(w.formulas[k].value, w.values)
            && forall d :: d in w.deps[k] <==> d in Reads(w.formulas[k].value, w.values))
  }

  /** A clean derived node depends on clean nodes alone, its dependencies are the nodes its formula
      reads, and its value is the one its formula has now.  Nodes written in an open transaction
      are `pending`: what depends on them directly may be behind. */
  ghost predicate Sound(w: View, pending: set<nat>)
    requires Shaped(w)
  {
    forall k :: 0 <= k < |w.formulas| ==> NodeSound(w, pending, k)
  }

  ghost predicate Denotes(w: View, den: seq<Value>, rank: seq<nat>, k: nat)
    requires Shaped(w) && |den| == |rank| == |w.formulas| && k < |den|
  {
    if w.formulas[k].None? then den[k] == w.values[k]
    else
      && den[k] == Eval(w.formulas[k].value, den)
      && forall m :: m in Reads(w.formulas[k].value, den) ==> w.formulas[m].None? || rank[m] < rank[k]
  }

  /** `den` is what the formulas mean over the current state values.  The ranks say that the reads
      which that evaluation makes never run in a circle. */
  ghost predicate Solves(w: View, den: seq<Value>, rank: seq<nat>)
    requires Shaped(w)
  {
    |den| == |rank| == |w.formulas| && forall k :: 0 <= k < |den| ==> Denotes(w, den, rank, k)
  }

  ghost predicate Planned(w: View, den: seq<Value>, rank: seq<nat>, k: nat)
    requires Shaped(w) && |den| == |rank| == |w.formulas| && k < |den|
  {
    if w.marks[k].Clean? then den[k] == w.values[k]
    else
      && w.formulas[k].Some? && den[k] == Eval(w.formulas[k].value, den)
      && forall m :: m in Reads(w.formulas[k].value, den) ==> w.marks[m].Clean? || rank[m] < rank[k]
  }

  /** The same with the clean nodes taken as they are: what recomputing the others will give. */
  ghost predicate Plan(w: View, den: seq<Value>, rank: seq<nat>)
    requires Shaped(w)
  {
    |den| == |rank| == |w.formulas| && forall k :: 0 <= k < |den| ==> Planned(w, den, rank, k)
  }

  /** The nodes whose computation is under way all rank at least `r`. */
  ghost predicate Under(w: View, rank: seq<nat>, r: nat)
    requires Shaped(w) && |rank| == |w.formulas|
  {
    forall k :: 0 <= k < |w.marks| && w.marks[k].Computing? ==> r <= rank[k]
  }

  // ---- What reading may do to the graph ----

  ghost predicate NodeKept(v: View, w: View, k: nat)
    requires Shaped(v) && Shaped(w) && v.formulas == w.formulas && k < |v.formulas|
  {
    && w.marks[k] == v.marks[k] && w.values[k] == v.values[k] && w.previous[k] == v.previous[k]
    && w.versions[k] == v.versions[k] && w.counts[k] == v.counts[k]
  }

  /** One recomputation: the version moves exactly when the value does. */
  ghost predicate NodeRefreshed(v: View, w: View, k: nat)
    requires Shaped(v) && Shaped(w) && v.formulas == w.formulas && k < |v.formulas|
  {
    && v.marks[k].Dirty? && w.marks[k].Clean? && w.counts[k] == v.counts[k] + 1
    && w.previous[k] == (if w.values[k] == v.values[k] then v.previous[k] else v.values[k])
    && w.versions[k] == (if w.values[k] == v.values[k] then v.versions[k] else v.versions[k] + 1)
  }

  ghost predicate NodeAdvanced(v: View, w: View, at: Option<nat>, k: nat)
    requires Shaped(v) && Shaped(w) && v.formulas == w.formulas && k < |v.formulas|
  {
    || (NodeKept(v, w, k) && (at == Some(k) || w.deps[k] == v.deps[k]))
    || NodeRefreshed(v, w, k)
  }

  /** Every node is as it was or, from dirty, has been computed once.  The dependencies of the
      node being computed, `at`, may have grown. */
  ghost predicate Advanced(v: View, w: View, at: Option<nat>)
    requires Shaped(v) && Shaped(w)
  {
    v.formulas == w.formulas && forall k :: 0 <= k < |v.formulas| ==> NodeAdvanced(v, w, at, k)
  }

  lemma AdvancedTransitive(u: View, v: View, w: View, at: Option<nat>)
    requires Shaped(u) && Shaped(v) && Shaped(w) && Advanced(u, v, at) && Advanced(v, w, at)
    ensures Advanced(u, w, at)
  {
    forall k | 0 <= k < |u.formulas|
      ensures NodeAdvanced(u, w, at, k)
    {
      assert NodeAdvanced(u, v, at, k) && NodeAdvanced(v, w, at, k);
    }
  }

  lemma DirtyShrinks(v: View, w: View, at: Option<nat>)
    requires Shaped(v) && Shaped(w) && Advanced(v, w, at)
    ensures DirtySet(w.marks) <= DirtySet(v.marks)
  {
    forall k | k in DirtySet(w.marks)
      ensures k in DirtySet(v.marks)
    {
      assert NodeAdvanced(v, w, at, k);
    }
  }

  lemma CleanStays(v: View, w: View, at: Option<nat>, k: nat)
    requires Shaped(v) && Shaped(w) && Advanced(v, w, at) && k < |v.marks|
    ensures v.marks[k].Clean? ==> w.marks[k].Clean? && w.values[k] == v.values[k]
    ensures v.marks[k].Computing? <==> w.marks[k].Computing?
  {
    assert NodeAdvanced(v, w, at, k);
  }

  lemma UnderStays(v: View, w: View, at: Option<nat>, rank: seq<nat>, r: nat)
    requires Shaped(v) && Shaped(w) && Advanced(v, w, at) && |rank| == |v.formulas| && Under(v, rank, r)
    ensures Under(w, rank, r)
  {
    forall k | 0 <= k < |w.marks| && w.marks[k].Computing?
      ensures r <= rank[k]
    {
      CleanStays(v, w, at, k);
    }
  }

  // ---- Meaning is unique, and exists when formulas do not mention each other in a circle ----

  lemma {:induction false} Same(w: View, f: Formula, vals: seq<Value>, den: seq<Value>, good: set<nat>)
    requires |vals| == |den|
    requires forall m :: m in Reads(f, vals) && m in Reads(f, den) ==> m in good
    requires forall m :: m in good && m < |den| ==> vals[m] == den[m]
    ensures Eval(f, vals) == Eval(f, den) && Reads(f, vals) == Reads(f, den)
    decreases f
  {
    match f
    case Const(_) =>
    case Read(m) => assert m < |den| ==> m in Reads(f, vals) && m in Reads(f, den);
    case Apply(_, l, r) =>
      Same(w, l, vals, den, good);
      Same(w, r, vals, den, good);
    case Cond(holds, c, y, n) =>
      Same(w, c, vals, den, good);
      if holds(Eval(c, den)) {
        Same(w, y, vals, den, good);
      } else {
        Same(w, n, vals, den, good);
      }
  }

  /** In a sound graph with nothing pending a clean node shows what its formula means. */
  lemma {:induction false} CleanIsCurrent(w: View, den: seq<Value>, rank: seq<nat>, k: nat)
    requires Shaped(w) && Sound(w, {}) && Solves(w, den, rank)
    requires k < |den| && w.marks[k].Clean?
    ensures w.values[k] == den[k]
    decreases if w.formulas[k].None? then 0 else rank[k] + 1
  {
    assert Denotes(w, den, rank, k) && NodeSound(w, {}, k);
    if w.formulas[k].Some? {
      var f := w.formulas[k].value;
      var good := set m | m in Reads(f, den) && m in w.deps[k];
      forall m | m in good
        ensures w.values[m] == den[m]
      {
        CleanIsCurrent(w, den, rank, m);
      }
      Same(w, f, w.values, den, good);
    }
  }

  lemma SolutionPlans(w: View, den: seq<Value>, rank: seq<nat>)
    requires Shaped(w) && Sound(w, {}) && Solves(w, den, rank)
    ensures Plan(w, den, rank)
  {
    forall k | 0 <= k < |den|
      ensures Planned(w, den, rank, k)
    {
      assert Denotes(w, den, rank, k);
      if w.marks[k].Clean? {
        CleanIsCurrent(w, den, rank, k);
      }
    }
  }

  /** Two graphs with the same formulas and the same state values mean the same. */
  lemma {:induction false} MeaningIsUnique(v: View, w: View, den: seq<Value>, rank: seq<nat>,
                                           den': seq<Value>, rank': seq<nat>, k: nat)
    requires Shaped(v) && Shaped(w) && v.formulas == w.formulas
    requires forall i :: 0 <= i < |v.formulas| && v.formulas[i].None? ==> v.values[i] == w.values[i]
    requires Solves(v, den, rank) && Solves(w, den', rank') && k < |den|
    ensures den[k] == den'[k]
    decreases if v.formulas[k].None? then 0 else rank[k] + 1
  {
    assert Denotes(v, den, rank, k) && Denotes(w, den', rank', k);
    if v.formulas[k].Some? {
      var f := v.formulas[k].value;
      forall m | m in Reads(f, den)
        ensures den[m] == den'[m]
      {
        MeaningIsUnique(v, w, den, rank, den', rank', m);
      }
      EvalAgrees(f, den, den');
    }
  }

  predicate Mentions(f: Formula, m: nat) {
    match f
    case Const(_) => false
    case Read(k) => k == m
    case Apply(_, l, r) => Mentions(l, m) || Mentions(r, m)
    case Cond(_, c, y, n) => Mentions(c, m) || Mentions(y, m) || Mentions(n, m)
  }

  lemma {:induction false} ReadsAreMentioned(f: Formula, vals: seq<Value>, m: nat)
    requires m in Reads(f, vals)
    ensures Mentions(f, m)
    decreases f
  {
    match f
    case Const(_) =>
    case Read(_) =>
    case Apply(_, l, r) =>
      if m in Reads(l, vals) {
        ReadsAreMentioned(l, vals, m);
      } else {
        ReadsAreMentioned(r, vals, m);
      }
    case Cond(holds, c, y, n) =>
      if m in Reads(c, vals) {
        ReadsAreMentioned(c, vals, m);
      } else if holds(Eval(c, vals)) {
        ReadsAreMentioned(y, vals, m);
      } else {
        ReadsAreMentioned(n, vals, m);
      }
  }

  /** Formulas mention lower ranks only. */
  ghost predicate Layered(w: View, rank: seq<nat>)
    requires Shaped(w)
  {
    && |rank| == |w.formulas|
    && forall k, m :: 0 <= k < |rank| && 0 <= m < |rank| && w.formulas[k].Some? && Mentions(w.formulas[k].value, m) ==>
         w.formulas[m].None? || rank[m] < rank[k]
  }

  /** Meanings for the nodes below a rank, built from the bottom. */
  ghost function Meaning(w: View, rank: seq<nat>, below: nat): (den: seq<Value>)
    requires Shaped(w) && |rank| == |w.formulas|
    ensures |den| == |rank|
  {
    if below == 0 then w.values
    else
      var lower := Meaning(w, rank, below - 1);
      seq(|rank|, k requires 0 <= k < |rank| =>
        if w.formulas[k].Some? && rank[k] == below - 1 then Eval(w.formulas[k].value, lower) else lower[k])
  }

  lemma {:induction false} MeaningDenotes(w: View, rank: seq<nat>, below: nat, k: nat)
    requires Shaped(w) && Layered(w, rank) && k < |rank| && (w.formulas[k].None? || rank[k] < below)
    ensures Denotes(w, Meaning(w, rank, below), rank, k)
    decreases below
  {
    if below > 0 {
      var lower, den := Meaning(w, rank, below - 1), Meaning(w, rank, below);
      if w.formulas[k].None? {
        MeaningDenotes(w, rank, below - 1, k);
      } else {
        var f := w.formulas[k].value;
        if rank[k] < below - 1 {
          MeaningDenotes(w, rank, below - 1, k);
        }
        forall m | m in Reads(f, lower)
          ensures lower[m] == den[m] && (w.formulas[m].None? || rank[m] < rank[k])
        {
          ReadsAreMentioned(f, lower, m);
        }
        EvalAgrees(f, lower, den);
      }
    }
  }

  ghost function Highest(rank: seq<nat>): (h: nat)
    ensures forall k :: 0 <= k < |rank| ==> rank[k] < h
  {
    if rank == [] then 0
    else
      var h := Highest(rank[..|rank| - 1]);
      if rank[|rank| - 1] < h then h else rank[|rank| - 1] + 1
  }

  /** Whatever the state values, acyclic formulas have a meaning. */
  lemma LayeredGraphHasMeaning(w: View, rank: seq<nat>) returns (den: seq<Value>)
    requires Shaped(w) && Layered(w, rank)
    ensures Solves(w, den, rank)
  {
    den := Meaning(w, rank, Highest(rank));
    forall k | 0 <= k < |rank|
      ensures Denotes(w, den, rank, k)
    {
      MeaningDenotes(w, rank, Highest(rank), k);
    }
  }
}
