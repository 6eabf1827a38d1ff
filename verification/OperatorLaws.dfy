// What the operators of the machine compute, by laws that do not say how.
module OperatorLaws {
  import opened Ast
  import opened Values
  import opened Bytecode
  import opened Interpreter

  /** Between two values the operator answers `result`. */
  ghost predicate Gives(fmt: Format, l: Value, op: BinaryOp, r: Value, result: Value) {
    MachineBinary(fmt, op, l, r) == Some(result)
  }

  ghost predicate Says(fmt: Format, l: Value, op: BinaryOp, r: Value, yes: bool) {
    Gives(fmt, l, op, r, Bool(yes))
  }

  // ---- Numbers ----

  /** Addition is commutative and associative and has zero. */
  lemma Sums(fmt: Format, x: real, y: real, z: real)
    ensures MachineBinary(fmt, Add, Num(x), Num(y)) == MachineBinary(fmt, Add, Num(y), Num(x))
    ensures Gives(fmt, Num(x), Add, Num(0.0), Num(x))
    ensures exists s: real, t: real, u: real ::
              && Gives(fmt, Num(x), Add, Num(y), Num(s)) && Gives(fmt, Num(y), Add, Num(z), Num(t))
              && Gives(fmt, Num(s), Add, Num(z), Num(u)) && Gives(fmt, Num(x), Add, Num(t), Num(u))
  {
    var s, t := x + y, y + z;
    assert Gives(fmt, Num(x), Add, Num(y), Num(s)) && Gives(fmt, Num(y), Add, Num(z), Num(t));
    assert Gives(fmt, Num(s), Add, Num(z), Num(s + z)) && Gives(fmt, Num(x), Add, Num(t), Num(s + z));
  }

  /** The difference added back to the right operand gives the left one, whatever is added to. */
  lemma Differences(fmt: Format, x: real, y: real)
    ensures exists d: real :: Gives(fmt, Num(x), Sub, Num(y), Num(d)) && Gives(fmt, Num(d), Add, Num(y), Num(x))
    ensures Gives(fmt, Num(x), Sub, Num(x), Num(0.0)) && Gives(fmt, Num(x), Sub, Num(0.0), Num(x))
  {
    var d := x - y;
    assert Gives(fmt, Num(x), Sub, Num(y), Num(d)) && Gives(fmt, Num(d), Add, Num(y), Num(x));
  }

  lemma Distributes(x: real, y: real, z: real)
    ensures Product(x, y + z) == Product(x, y) + Product(x, z)
  {
  }

  lemma DividesBack(x: real, y: real)
    requires y != 0.0
    ensures Product(x / y, y) == x
  {
    var q := x / y;
    assert q * y == x;
  }

  /** Multiplication is commutative, has one, and distributes over addition. */
  lemma Products(fmt: Format, x: real, y: real, z: real, sum: real, p: real, q: real)
    requires Gives(fmt, Num(y), Add, Num(z), Num(sum))
    requires Gives(fmt, Num(x), Mul, Num(y), Num(p)) && Gives(fmt, Num(x), Mul, Num(z), Num(q))
    ensures Gives(fmt, Num(y), Mul, Num(x), Num(p)) && Gives(fmt, Num(x), Mul, Num(1.0), Num(x))
    ensures MachineBinary(fmt, Mul, Num(x), Num(sum)) == MachineBinary(fmt, Add, Num(p), Num(q))
  {
    Distributes(x, y, z);
  }

  /** The quotient times the divisor gives the dividend; only zero divides nothing. */
  lemma Quotients(fmt: Format, x: real, y: real)
    ensures y != 0.0 ==>
              exists q: real :: Gives(fmt, Num(x), Div, Num(y), Num(q)) && Gives(fmt, Num(q), Mul, Num(y), Num(x))
    ensures MachineBinary(fmt, Div, Num(x), Num(0.0)).None?
  {
    if y != 0.0 {
      var q := x / y;
      DividesBack(x, y);
      assert Gives(fmt, Num(x), Div, Num(y), Num(q)) && Gives(fmt, Num(q), Mul, Num(y), Num(x));
    }
  }

  /** The other three take numbers alone. */
  lemma NumbersAlone(fmt: Format, op: BinaryOp, l: Value, r: Value)
    requires op.Sub? || op.Mul? || op.Div?
    ensures MachineBinary(fmt, op, l, r).Some? <==> l.Num? && r.Num? && (op.Div? ==> r != Num(0.0))
    ensures MachineBinary(fmt, op, l, r).Some? ==> MachineBinary(fmt, op, l, r).value.Num?
  {
  }

  // ---- Texts ----

  /** A text goes before what is added to it and after what it is added to; numbers are rendered. */
  lemma Texts(fmt: Format, s: string, t: string, x: real)
    ensures Gives(fmt, Str(s), Add, Str(t), Str(s + t))
    ensures Gives(fmt, Str(s), Add, Num(x), Str(s + fmt(x))) && Gives(fmt, Num(x), Add, Str(s), Str(fmt(x) + s))
  {
  }

  /** Addition takes two numbers, or a text with a text or a number. */
  lemma Additions(fmt: Format, l: Value, r: Value)
    ensures MachineBinary(fmt, Add, l, r).Some? <==>
            !l.Bool? && !l.Nil? && !r.Bool? && !r.Nil?
  {
  }

  // ---- Order ----

  /** Greater is greater by something positive. */
  lemma Greater(fmt: Format, x: real, y: real)
    ensures MachineBinary(fmt, Gt, Num(x), Num(y)).Some?
    ensures Says(fmt, Num(x), Gt, Num(y), true)
            <==> exists d: real :: d > 0.0 && Gives(fmt, Num(y), Add, Num(d), Num(x))
  {
    assert Gives(fmt, Num(y), Add, Num(x - y), Num(x));
  }

  /** Less is the converse of greater, and the other two are the negations, between any values. */
  lemma Orders(fmt: Format, l: Value, r: Value)
    ensures exists more: bool ::
              && Says(fmt, l, Gt, r, more) && Says(fmt, r, Lt, l, more)
              && Says(fmt, l, Lte, r, !more) && Says(fmt, r, Gte, l, !more)
  {
    var more := MachineBinary(fmt, Gt, l, r).value.b;
    assert Says(fmt, l, Gt, r, more) && Says(fmt, r, Lt, l, more);
    assert Says(fmt, l, Lte, r, !more) && Says(fmt, r, Gte, l, !more);
  }

  /** The number that a value is compared as: the length of a text, one for true, zero for the rest. */
  predicate ComparedAs(v: Value, x: real) {
    match v
    case Num(n) => x == n
    case Str(s) => x == |s| as real
    case Bool(true) => x == 1.0
    case _ => x == 0.0
  }

  lemma ComparedAsNumbers(fmt: Format, l: Value, r: Value, x: real, y: real)
    requires ComparedAs(l, x) && ComparedAs(r, y)
    ensures MachineBinary(fmt, Gt, l, r) == MachineBinary(fmt, Gt, Num(x), Num(y))
  {
  }

  /** A text is greater if it is longer, and true is greater than false. */
  lemma TextsAndTruths(fmt: Format, s: string, t: string, a: bool, b: bool)
    ensures Says(fmt, Str(s), Gt, Str(t), |s| > |t|) && Says(fmt, Bool(a), Gt, Bool(b), a && !b)
  {
  }

  // ---- Equality ----

  /** Equal are equal kinds with equal contents. */
  lemma Equalities(fmt: Format, l: Value, r: Value)
    ensures Says(fmt, l, Eq, l, true) && Says(fmt, l, Ne, r, l != r)
    ensures Says(fmt, l, Eq, r, true) <==>
            || (l.Num? && r.Num? && Gives(fmt, l, Sub, r, Num(0.0)))
            || (l.Str? && r.Str? && l.s == r.s) || (l.Bool? && r.Bool? && l.b == r.b) || (l.Nil? && r.Nil?)
  {
  }

  // ---- Truth ----

  /** What the machine leaves of `v` under a prefix operator; `None` is its error return. */
  function Prefixed(op: UnaryOp, v: Value): Option<Value> {
    var x := StepNegate(op, State(0, [v], seq(REGISTERS, _ => Nil), map[], []));
    if x.Next? then Some(Top(x.st.stack)) else None
  }

  /** False, zero, the empty text and nil count as false, and nothing else does. */
  lemma Truths(v: Value)
    ensures Prefixed(Not, v) == Some(Bool(v == Bool(false) || v == Num(0.0) || v == Str("") || v == Nil))
  {
  }

  /** `&&` and `||` are the connectives of what their operands count as. */
  lemma Connectives(fmt: Format, l: Value, r: Value, a: bool, b: bool)
    requires Prefixed(Not, l) == Some(Bool(!a)) && Prefixed(Not, r) == Some(Bool(!b))
    ensures Says(fmt, l, And, r, a && b) && Says(fmt, l, Or, r, a || b)
  {
    Truths(l);
    Truths(r);
  }

  /** A number and its opposite cancel; nothing but numbers has one. */
  lemma Opposites(fmt: Format, v: Value)
    ensures Prefixed(Neg, v).Some? <==> v.Num?
    ensures v.Num? ==> Gives(fmt, v, Add, Prefixed(Neg, v).value, Num(0.0))
  {
  }

  // ---- Where the interpreter answers something else ----

  /** Outside the operands that both are written for, the interpreter answers nil, while the machine compares and
      connects values of any kinds and reports an error for the rest. */
  lemma EnginesPart(fmt: Format, op: BinaryOp, l: Value, r: Value)
    requires !op.Add? && !Agreeable(op, l, r)
    ensures ReferenceBinary(fmt, op, l, r) == Some(Nil)
    ensures if op.Sub? || op.Mul? || op.Div? then MachineBinary(fmt, op, l, r).None?
            else exists yes :: Says(fmt, l, op, r, yes)
  {
    if !op.Sub? && !op.Mul? && !op.Div? {
      assert Says(fmt, l, op, r, MachineBinary(fmt, op, l, r).value.b);
    }
  }

  /** Under `+` the machine reports an error, and the interpreter leaves out what it cannot add: a truth value or nil
      beside a text, and nil beside a number.  What it reads out of a truth value beside a number is undefined. */
  lemma SumsPart(fmt: Format, l: Value, r: Value)
    requires !Agreeable(Add, l, r)
    ensures MachineBinary(fmt, Add, l, r).None?
    ensures ReferenceBinary(fmt, Add, l, r)
            == if l.Str? then Some(l) else if r.Str? then Some(r)
               else if l.Bool? || r.Bool? then None
               else if l.Num? then Some(l) else if r.Num? then Some(r) else Some(Num(0.0))
  {
    if l.Str? {
      assert l.s + "" == l.s;
    } else if r.Str? {
      assert "" + r.s == r.s;
    }
  }

  /** The machine has opposites of numbers; the interpreter has none. */
  lemma OppositesPart(fmt: Format, e: Expr, store: Store)
    ensures Evaluate(fmt, Unary(Neg, e), store) == if Evaluate(fmt, e, store).Some? then Some(Nil) else None
  {
  }
}
