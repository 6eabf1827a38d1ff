// The tree-walking interpreter: the reference meaning of expressions and statements.
module Interpreter {
  import opened Ast
  import opened Values
  import opened Bytecode

  type Store = map<string, Value>

  /** The value of an expression; `None` where the interpreter's answer is undefined, and for
      calls, which are not part of this model. */
  function Evaluate(fmt: Format, e: Expr, store: Store): Option<Value> {
    match e
    case Absent => Some(Nil)
    case Number(n) => Some(Num(n))
    case Text(s) => Some(Str(s))
    case Boolean(b) => Some(Bool(b))
    case Ident(name, _, _) => Some(Lookup(store, name))
    case Unary(op, operand) =>
      var v := Evaluate(fmt, operand, store);
      if v.None? then None else Some(if op.Not? then Bool(!Truthy(v.value)) else Nil)
    case Binary(l, op, r) =>
      var lv := Evaluate(fmt, l, store);
      var rv := Evaluate(fmt, r, store);
      if lv.None? || rv.None? then None else ReferenceBinary(fmt, op, lv.value, rv.value)
    case Call(_, _) => None
  }

  /** Evaluation in `store` meets only operators on which the two engines agree. */
  predicate Agrees(fmt: Format, e: Expr, store: Store) {
    match e
    case Absent => false
    case Unary(op, operand) => op.Not? && Agrees(fmt, operand, store)
    case Binary(l, op, r) =>
      && Agrees(fmt, l, store)
      && Agrees(fmt, r, store)
      && var lv, rv := Evaluate(fmt, l, store), Evaluate(fmt, r, store);
         lv.Some? && rv.Some? && Agreeable(op, lv.value, rv.value)
    case Call(_, _) => false
    case _ => true
  }

  lemma {:induction false} AgreementIsDefined(fmt: Format, e: Expr, store: Store)
    requires Agrees(fmt, e, store)
    ensures Evaluate(fmt, e, store).Some?
    decreases e
  {
    match e
    case Unary(_, operand) => AgreementIsDefined(fmt, operand, store);
    case Binary(l, op, r) =>
      EnginesAgreeExactlyOnAgreeable(fmt, op, Evaluate(fmt, l, store).value, Evaluate(fmt, r, store).value);
    case _ =>
  }

  /** `Done` carries the final store and what was printed.  `OutOfFuel` means some loop goes on for
      more than `fuel` rounds.  `Outside` means it met a node or an operator on which
      the two engines differ. */
  datatype Outcome = Done(store: Store, out: seq<Value>) | OutOfFuel | Outside

  function Then(first: seq<Value>, rest: Outcome): Outcome {
    if rest.Done? then rest.(out := first + rest.out) else rest
  }

  function ExecS(fmt: Format, s: Stmt, store: Store, fuel: nat): Outcome
    decreases fuel, s, 2
  {
    match s
    case Let(name, value, _) => ExecBind(fmt, name, value, store)
    case Assign(name, source) => ExecBind(fmt, name, source, store)
    case Print(e) => if Agrees(fmt, e, store) then AgreementIsDefined(fmt, e, store);
                       Done(store, [Evaluate(fmt, e, store).value])
                     else Outside
    case If(c, t, f) =>
      if !Agrees(fmt, c, store) then Outside
      else
        AgreementIsDefined(fmt, c, store);
        if Truthy(Evaluate(fmt, c, store).value) then ExecS(fmt, t, store, fuel) else ExecO(fmt, f, store, fuel)
    case While(c, b) =>
      if fuel == 0 then OutOfFuel
      else if !Agrees(fmt, c, store) then Outside
      else
        AgreementIsDefined(fmt, c, store);
        if !Truthy(Evaluate(fmt, c, store).value) then Done(store, [])
        else
          var round := ExecS(fmt, b, store, fuel);
          if round.Done? then Then(round.out, ExecS(fmt, s, round.store, fuel - 1)) else round
    case For(init, _, _, _) =>
      var start := ExecO(fmt, init, store, fuel);
      if start.Done? then Then(start.out, ExecLoop(fmt, s, start.store, fuel)) else start
    case Block(ss) => ExecSs(fmt, ss, store, fuel)
    case _ => Outside
  }

  function ExecBind(fmt: Format, name: string, e: Expr, store: Store): Outcome {
    if Agrees(fmt, e, store) then
      AgreementIsDefined(fmt, e, store);
      Done(Bind(store, name, Evaluate(fmt, e, store).value), [])
    else Outside
  }

  function ExecO(fmt: Format, s: Option<Stmt>, store: Store, fuel: nat): Outcome
    decreases fuel, s
  {
    if s.Some? then ExecS(fmt, s.value, store, fuel) else Done(store, [])
  }

  /** A missing test counts as true. */
  predicate Continues(fmt: Format, test: Option<Expr>, store: Store)
    requires test.Some? ==> Agrees(fmt, test.value, store)
  {
    test.Some? ==>
      (AgreementIsDefined(fmt, test.value, store); Truthy(Evaluate(fmt, test.value, store).value))
  }

  function ExecLoop(fmt: Format, s: Stmt, store: Store, fuel: nat): Outcome
    requires s.For?
    decreases fuel, s, 1
  {
    if fuel == 0 then OutOfFuel
    else if s.test.Some? && !Agrees(fmt, s.test.value, store) then Outside
    else if !Continues(fmt, s.test, store) then Done(store, [])
    else
      var round := ExecRound(fmt, s, store, fuel);
      if round.Done? then Then(round.out, ExecLoop(fmt, s, round.store, fuel - 1)) else round
  }

  function ExecRound(fmt: Format, s: Stmt, store: Store, fuel: nat): Outcome
    requires s.For?
    decreases fuel, s, 0
  {
    var body := ExecS(fmt, s.forBody, store, fuel);
    if body.Done? then Then(body.out, ExecStep(fmt, s.increment, body.store, fuel)) else body
  }

  /** An increment is a binding, or an expression whose value is dropped. */
  function ExecStep(fmt: Format, s: Option<Stmt>, store: Store, fuel: nat): Outcome
    decreases fuel, s
  {
    match s
    case None => Done(store, [])
    case Some(Let(_, _, _)) => ExecS(fmt, s.value, store, fuel)
    case Some(Assign(_, _)) => ExecS(fmt, s.value, store, fuel)
    case Some(Bare(e)) => if Agrees(fmt, e, store) then Done(store, []) else Outside
    case Some(_) => Outside
  }

  function ExecSs(fmt: Format, ss: seq<Stmt>, store: Store, fuel: nat): Outcome
    decreases fuel, ss
  {
    if ss == [] then Done(store, [])
    else
      var front := ExecSs(fmt, ss[..|ss| - 1], store, fuel);
      if front.Done? then Then(front.out, ExecS(fmt, ss[|ss| - 1], front.store, fuel)) else front
  }
}
