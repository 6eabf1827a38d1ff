// Any sequence of operations on the reactive runtime, against a plain account of the same sequence.
module Operations {
  import opened Ast
  import opened Values
  import opened ReactiveGraph
  import opened ReactiveSteps
  import opened ReactiveRollback
  import opened Reactive

  datatype Operation =
    | Create(formula: Option<Formula>, initial: Value)
    | Ask(id: nat)
    | Put(id: nat, value: Value)
    | Begin
    | Commit
    | Rollback

  // ---- The account: state values only, no marks, edges, queue or computing ----

  /** `first` are the state values when the open transaction began; `asked` says that something has
      been read since. */
  datatype Account = Account(
    formulas: seq<Option<Formula>>,
    states: seq<Value>,
    previous: seq<Value>,
    first: seq<Value>,
    open: bool,
    changed: seq<nat>,
    asked: bool)

  predicate Filled(a: Account) {
    var n := |a.formulas|;
    && |a.states| == n && |a.previous| == n && |a.first| == n
    && forall k :: k in a.changed ==> k < n
  }

  predicate Differs(a: Account, id: nat, value: Value)
    requires Filled(a)
  {
    id < |a.formulas| && a.formulas[id].None? && a.states[id] != value
  }

  function TakenBack(a: Account): (states: seq<Value>)
    requires Filled(a)
    ensures |states| == |a.states|
  {
    seq(|a.states|, k requires 0 <= k < |a.states| => if k in a.changed then a.previous[k] else a.states[k])
  }

  function After(a: Account, op: Operation): (b: Account)
    requires Filled(a)
    ensures Filled(b)
  {
    match op
    case Create(f, initial) =>
      a.(formulas := a.formulas + [f], states := a.states + [initial], previous := a.previous + [initial],
         first := a.first + [initial])
    case Ask(_) => a.(asked := true)
    case Put(id, value) =>
      if Differs(a, id, value) then
        a.(states := a.states[id := value], previous := a.previous[id := a.states[id]],
           changed := if a.open then a.changed + [id] else a.changed)
      else a
    case Begin => a.(open := true, changed := [], asked := false, first := a.states)
    case Commit => a.(open := false, changed := [])
    case Rollback => if a.open then a.(states := TakenBack(a), open := false, changed := []) else a
  }

  function Simulate(ops: seq<Operation>): (a: Account)
    ensures Filled(a)
  {
    if ops == [] then Account([], [], [], [], false, [], false)
    else After(Simulate(ops[..|ops| - 1]), ops[|ops| - 1])
  }

  /** What the first `n` nodes mean, in the order of their creation. */
  function Worth(formulas: seq<Option<Formula>>, states: seq<Value>, n: nat): (den: seq<Value>)
    requires n <= |formulas| == |states|
    ensures |den| == n
  {
    if n == 0 then []
    else
      var lower := Worth(formulas, states, n - 1);
      lower + [if formulas[n - 1].None? then states[n - 1] else Eval(formulas[n - 1].value, lower)]
  }

  function Worths(a: Account): seq<Value>
    requires Filled(a)
  {
    Worth(a.formulas, a.states, |a.formulas|)
  }

  // ---- Which sequences ----

  /** There is room to note the change. */
  predicate Fits(a: Account, op: Operation)
    requires Filled(a)
  {
    op.Put? && a.open && Differs(a, op.id, op.value) ==> |a.changed| < CHANGES_CAPACITY
  }

  predicate Bounded(ops: seq<Operation>) {
    ops == [] || (Bounded(ops[..|ops| - 1]) && Fits(Simulate(ops[..|ops| - 1]), ops[|ops| - 1]))
  }

  /** Formulas mention only nodes that exist; no transaction is begun inside one that has noted a
      change; and a rollback finds nothing noted, or nothing read since the beginning and every
      changed node about to have its first value again. */
  ghost predicate Proper(a: Account, op: Operation)
    requires Filled(a)
  {
    match op
    case Create(f, _) => f.Some? ==> forall m: nat :: Mentions(f.value, m) ==> m < |a.formulas|
    case Begin => a.open ==> a.changed == []
    case Rollback =>
      a.open && a.changed != [] ==> !a.asked && forall k :: k in a.changed ==> a.previous[k] == a.first[k]
    case _ => true
  }

  ghost predicate Orderly(ops: seq<Operation>) {
    ops == [] || (Orderly(ops[..|ops| - 1]) && Proper(Simulate(ops[..|ops| - 1]), ops[|ops| - 1]))
  }

  // ---- What the account means ----

  /** A formula mentions only nodes created before its own. */
  ghost predicate Upward(formulas: seq<Option<Formula>>) {
    forall k, m: nat :: 0 <= k < |formulas| && formulas[k].Some? && Mentions(formulas[k].value, m) ==> m < k
  }

  function Ranks(n: nat): seq<nat> {
    seq(n, k requires 0 <= k < n => k)
  }

  lemma {:induction false} WorthGrows(formulas: seq<Option<Formula>>, states: seq<Value>, f: Formula, k: nat, n: nat)
    requires k <= n <= |formulas| == |states| && forall m: nat :: Mentions(f, m) ==> m < k
    ensures Worth(formulas, states, k) <= Worth(formulas, states, n)
    ensures Eval(f, Worth(formulas, states, n)) == Eval(f, Worth(formulas, states, k))
    decreases n - k
  {
    if k < n {
      WorthGrows(formulas, states, f, k, n - 1);
      var lower := Worth(formulas, states, n - 1);
      EvalExtends(f, lower, Worth(formulas, states, n)[n - 1]);
      assert Worth(formulas, states, n) == lower + [Worth(formulas, states, n)[n - 1]];
    }
  }

  lemma WorthSolves(w: View)
    requires Shaped(w) && Upward(w.formulas)
    ensures Solves(w, Worth(w.formulas, w.values, |w.formulas|), Ranks(|w.formulas|))
  {
    var n := |w.formulas|;
    var den := Worth(w.formulas, w.values, n);
    forall k | 0 <= k < n
      ensures Denotes(w, den, Ranks(n), k)
    {
      var f := if w.formulas[k].Some? then w.formulas[k].value else Const(Nil);
      WorthGrows(w.formulas, w.values, f, k, n);
      WorthGrows(w.formulas, w.values, Const(Nil), k + 1, n);
      assert den[k] == Worth(w.formulas, w.values, k + 1)[k];
      forall m | m in Reads(f, den)
        ensures m < k
      {
        ReadsAreMentioned(f, den, m);
      }
    }
  }

  /** Only state values enter. */
  lemma {:induction false} WorthOfStates(formulas: seq<Option<Formula>>, u: seq<Value>, v: seq<Value>, n: nat)
    requires n <= |formulas| == |u| == |v| && forall k :: 0 <= k < n && formulas[k].None? ==> u[k] == v[k]
    ensures Worth(formulas, u, n) == Worth(formulas, v, n)
    decreases n
  {
    if n > 0 {
      WorthOfStates(formulas, u, v, n - 1);
    }
  }

  /** The graph with its clean nodes held as they are. */
  function Held(w: View): View
    requires |w.marks| == |w.formulas|
  {
    w.(formulas := seq(|w.formulas|, k requires 0 <= k < |w.formulas| =>
                         if w.marks[k].Clean? then None else w.formulas[k]),
       deps := seq(|w.formulas|, _ => []))
  }

  /** In the middle of a transaction too, what is still to be computed can be. */
  lemma WorthPlans(w: View)
    requires Shaped(w) && Upward(w.formulas)
    ensures Plan(w, Worth(Held(w).formulas, w.values, |w.formulas|), Ranks(|w.formulas|))
  {
    var n := |w.formulas|;
    var den := Worth(Held(w).formulas, w.values, n);
    assert Shaped(Held(w));
    WorthSolves(Held(w));
    forall k | 0 <= k < n
      ensures Planned(w, den, Ranks(n), k)
    {
      assert Denotes(Held(w), den, Ranks(n), k);
    }
  }

  // ---- One operation ----

  /** The runtime has the state values of the account, and notes the same changes. */
  ghost predicate Shows(rt: Runtime, a: Account)
    requires rt.Idle() && Filled(a)
    reads rt
  {
    && rt.formulas == a.formulas && rt.inTransaction == a.open && rt.changes == a.changed
    && forall k :: 0 <= k < |a.formulas| && a.formulas[k].None? ==>
         && rt.values[k] == a.states[k] && rt.previous[k] == a.previous[k]
         && (a.open ==> rt.origin[k] == a.first[k])
  }

  ghost predicate Consistent(rt: Runtime, a: Account)
    requires rt.Idle() && Filled(a)
    reads rt
  {
    && Sound(rt.Look(), rt.Pending()) && Upward(rt.formulas)
    && (a.open && !a.asked ==> Computed(rt.Look()) <= rt.steady)
  }

  method PerformCreate(rt: Runtime, f: Option<Formula>, initial: Value, ghost a: Account)
    requires rt.Idle() && Filled(a) && Shows(rt, a)
    modifies rt
    ensures rt.Idle() && Shows(rt, After(a, Create(f, initial)))
    ensures old(Consistent(rt, a)) && Proper(a, Create(f, initial)) ==> Consistent(rt, After(a, Create(f, initial)))
  {
    ghost var v := rt.Look();
    ghost var upward := Upward(rt.formulas);
    if upward {
      assert Unawaited(v);
    }
    var _ := rt.CreateNode(f, initial);
    assert Computed(rt.Look()) == Computed(v);
  }

  method PerformAsk(rt: Runtime, id: nat, ghost a: Account) returns (v: Value)
    requires rt.Idle() && Filled(a) && Shows(rt, a)
    modifies rt
    ensures rt.Idle() && Shows(rt, After(a, Ask(id)))
    ensures old(Consistent(rt, a)) ==> Consistent(rt, After(a, Ask(id))) && (!a.open ==> v == Of(Worths(a), id))
  {
    ghost var w, den, rank := rt.Look(), [], Ranks(|rt.formulas|);
    if Upward(w.formulas) {
      if a.open {
        WorthPlans(w);
        den := Worth(Held(w).formulas, w.values, |w.formulas|);
      } else {
        WorthSolves(w);
        den := Worth(w.formulas, w.values, |w.formulas|);
        WorthOfStates(w.formulas, w.values, a.states, |w.formulas|);
      }
    }
    v := rt.Query(id, den, rank);
    StatesStay(w, rt.Look());
  }

  lemma StatesStay(v: View, w: View)
    requires SameStates(v, w)
    ensures forall k :: 0 <= k < |v.formulas| && v.formulas[k].None? ==>
              w.values[k] == v.values[k] && w.previous[k] == v.previous[k]
  {
    forall k | 0 <= k < |v.formulas| && v.formulas[k].None?
      ensures w.values[k] == v.values[k] && w.previous[k] == v.previous[k]
    {
      assert NodeKept(v, w, k);
    }
  }

  lemma WrittenWorth(v: View, id: nat, value: Value) returns (den: seq<Value>)
    requires Shaped(v)
    ensures Shaped(Write(v, id, value))
    ensures Upward(v.formulas) ==> Solves(Write(v, id, value), den, Ranks(|v.formulas|))
  {
    var w := Write(v, id, value);
    den := Worth(w.formulas, w.values, |w.formulas|);
    if Upward(v.formulas) {
      WorthSolves(w);
    }
  }

  method PerformPut(rt: Runtime, id: nat, value: Value, ghost a: Account)
    requires rt.Idle() && Filled(a) && Shows(rt, a) && Fits(a, Put(id, value))
    modifies rt
    ensures rt.Idle() && Shows(rt, After(a, Put(id, value)))
    ensures old(Consistent(rt, a)) ==> Consistent(rt, After(a, Put(id, value)))
  {
    ghost var v := rt.Look();
    ghost var den := WrittenWorth(v, id, value);
    assert Changes(v, id, value) <==> Differs(a, id, value);
    rt.Set(id, value, den, Ranks(|v.formulas|));
    StatesStay(Write(v, id, value), rt.Look());
    if a.open {
      assert Computed(rt.Look()) == Computed(v);
    }
  }

  method PerformBegin(rt: Runtime, ghost a: Account)
    requires rt.Idle() && Filled(a) && Shows(rt, a)
    modifies rt
    ensures rt.Idle() && Shows(rt, After(a, Begin))
    ensures old(Consistent(rt, a)) && Proper(a, Begin) ==> Consistent(rt, After(a, Begin))
  {
    assert rt.changes == [] ==> rt.Pending() == {};
    rt.Begin();
  }

  method PerformCommit(rt: Runtime, ghost a: Account)
    requires rt.Idle() && Filled(a) && Shows(rt, a)
    modifies rt
    ensures rt.Idle() && Shows(rt, After(a, Commit))
    ensures old(Consistent(rt, a)) ==> Consistent(rt, After(a, Commit))
  {
    ghost var v, den, rank := rt.Look(), [], Ranks(|rt.formulas|);
    if Upward(v.formulas) {
      WorthSolves(v);
      den := Worth(v.formulas, v.values, |v.formulas|);
    }
    rt.Commit(den, rank);
    StatesStay(v, rt.Look());
  }

  method PerformRollback(rt: Runtime, ghost a: Account)
    requires rt.Idle() && Filled(a) && Shows(rt, a)
    modifies rt
    ensures rt.Idle() && Shows(rt, After(a, Rollback))
    ensures old(Consistent(rt, a)) && Proper(a, Rollback) ==> Consistent(rt, After(a, Rollback))
  {
    if a.open && Consistent(rt, a) && Proper(a, Rollback) {
      if a.changed == [] {
        assert forall k :: !Touched(rt.Look(), rt.changes, k);
      } else {
        assert Undone(rt.Look(), rt.origin, rt.steady, rt.changes);
      }
    }
    rt.Rollback();
  }

  method Perform(rt: Runtime, op: Operation, ghost a: Account) returns (answer: Value)
    requires rt.Idle() && Filled(a) && Shows(rt, a) && Fits(a, op)
    modifies rt
    ensures rt.Idle() && Shows(rt, After(a, op))
    ensures old(Consistent(rt, a)) && Proper(a, op) ==>
              Consistent(rt, After(a, op)) && (op.Ask? && !a.open ==> answer == Of(Worths(a), op.id))
  {
    answer := Nil;
    match op {
      case Create(f, initial) => PerformCreate(rt, f, initial, a);
      case Ask(id) => answer := PerformAsk(rt, id, a);
      case Put(id, value) => PerformPut(rt, id, value, a);
      case Begin => PerformBegin(rt, a);
      case Commit => PerformCommit(rt, a);
      case Rollback => PerformRollback(rt, a);
    }
  }

  // ---- Any number of operations ----

  /** The `i`-th operation, if it reads outside a transaction, is answered with the meaning that the
      node has then. */
  ghost predicate Answered(ops: seq<Operation>, answers: seq<Value>, i: nat)
    requires i < |ops| && i < |answers|
  {
    var a := Simulate(ops[..i]);
    ops[i].Ask? && !a.open ==> answers[i] == Of(Worths(a), ops[i].id)
  }

  ghost predicate AnsweredUpTo(ops: seq<Operation>, answers: seq<Value>, i: nat)
    requires i <= |ops| && i <= |answers|
  {
    forall j :: 0 <= j < i ==> Answered(ops, answers, j)
  }

  lemma AnsweredSoFar(ops: seq<Operation>, answers: seq<Value>, i: nat, answer: Value)
    requires |answers| == i < |ops| && Answered(ops, answers + [answer], i)
    requires AnsweredUpTo(ops, answers, i)
    ensures AnsweredUpTo(ops, answers + [answer], i + 1)
  {
    forall j | 0 <= j < i
      ensures Answered(ops, answers + [answer], j)
    {
      assert Answered(ops, answers, j);
    }
  }

  lemma {:induction false} PrefixesToo(ops: seq<Operation>, i: nat)
    requires i <= |ops|
    ensures Bounded(ops) ==> Bounded(ops[..i])
    ensures Orderly(ops) ==> Orderly(ops[..i])
    decreases |ops| - i
  {
    if i < |ops| {
      PrefixesToo(ops, i + 1);
      assert ops[..i + 1][..i] == ops[..i];
    } else {
      assert ops[..i] == ops;
    }
  }

  /** Whatever is done with a new runtime, it has the state values of the account.  If everything was
      proper, the graph is sound, outside a transaction every clean node shows its meaning, and every
      read outside a transaction was answered with the meaning at the time. */
  method Execute(ops: seq<Operation>) returns (rt: Runtime, answers: seq<Value>)
    requires Bounded(ops)
    ensures fresh(rt) && rt.Idle() && Shows(rt, Simulate(ops)) && |answers| == |ops|
    ensures Orderly(ops) ==> Sound(rt.Look(), rt.Pending())
    ensures Orderly(ops) && !rt.inTransaction ==> Current(rt.Look(), Worths(Simulate(ops)))
    ensures Orderly(ops) ==> forall i :: 0 <= i < |ops| ==> Answered(ops, answers, i)
  {
    rt := new Runtime();
    answers := [];
    var i := 0;
    while i < |ops|
      invariant i <= |ops| && |answers| == i && fresh(rt) && rt.Idle() && Shows(rt, Simulate(ops[..i]))
      invariant Orderly(ops) ==> Consistent(rt, Simulate(ops[..i]))
      invariant Orderly(ops) ==> AnsweredUpTo(ops, answers, i)
    {
      assert ops[..i + 1][..i] == ops[..i];
      PrefixesToo(ops, i + 1);
      var answer := Perform(rt, ops[i], Simulate(ops[..i]));
      if Orderly(ops) {
        AnsweredSoFar(ops, answers, i, answer);
      }
      answers := answers + [answer];
      i := i + 1;
    }
    assert ops[..i] == ops;
    if Orderly(ops) && !rt.inTransaction {
      ShowsMeaning(rt, Simulate(ops));
    }
  }

  lemma ShowsMeaning(rt: Runtime, a: Account)
    requires rt.Idle() && Filled(a) && Shows(rt, a) && Consistent(rt, a) && !a.open
    ensures Current(rt.Look(), Worths(a))
  {
    var w := rt.Look();
    WorthSolves(w);
    WorthOfStates(w.formulas, w.values, a.states, |w.formulas|);
    SolutionPlans(w, Worths(a), Ranks(|w.formulas|));
    PlanIsCurrent(w, Worths(a), Ranks(|w.formulas|));
  }
}
