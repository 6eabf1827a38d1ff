// Run-time values, and the two readings of the operators: the virtual machine's and the
// tree-walking interpreter's.
module Values {
  import opened Ast

  datatype Value = Num(n: real) | Str(s: string) | Bool(b: bool) | Nil

  /** Rendering of a number inside a string, as `%g` does it. */
  type Format = real -> string

  predicate Truthy(v: Value) {
    match v
    case Num(n) => n != 0.0
    case Str(s) => |s| > 0
    case Bool(b) => b
    case Nil => false
  }

  /** The number that the machine's ordering operators compare in place of `v`. */
  function Magnitude(v: Value): real {
    match v
    case Num(n) => n
    case Str(s) => |s| as real
    case Bool(b) => if b then 1.0 else 0.0
    case Nil => 0.0
  }

  predicate Printable(v: Value) {
    v.Num? || v.Str?
  }

  function Chars(fmt: Format, v: Value): string
    requires Printable(v)
  {
    if v.Num? then fmt(v.n) else v.s
  }

  predicate Ordered(op: BinaryOp, x: real, y: real)
    requires op.Gt? || op.Lt? || op.Gte? || op.Lte?
  {
    match op
    case Gt => x > y
    case Lt => x < y
    case Gte => x >= y
    case Lte => x <= y
  }

  function Product(x: real, y: real): real {
    x * y
  }

  function Arithmetic(op: BinaryOp, x: real, y: real): Option<Value>
    requires op.Sub? || op.Mul? || op.Div?
  {
    match op
    case Sub => Some(Num(x - y))
    case Mul => Some(Num(Product(x, y)))
    case Div => if y == 0.0 then None else Some(Num(x / y))
  }

  /** A binary opcode; `None` is the error return of the machine. */
  function MachineBinary(fmt: Format, op: BinaryOp, l: Value, r: Value): Option<Value> {
    match op
    case Add =>
      if l.Num? && r.Num? then Some(Num(l.n + r.n))
      else if (l.Str? || r.Str?) && Printable(l) && Printable(r) then Some(Str(Chars(fmt, l) + Chars(fmt, r)))
      else None
    case Sub => if l.Num? && r.Num? then Arithmetic(op, l.n, r.n) else None
    case Mul => if l.Num? && r.Num? then Arithmetic(op, l.n, r.n) else None
    case Div => if l.Num? && r.Num? then Arithmetic(op, l.n, r.n) else None
    case Eq => Some(Bool(l == r))
    case Ne => Some(Bool(l != r))
    case Gt => Some(Bool(Ordered(op, Magnitude(l), Magnitude(r))))
    case Lt => Some(Bool(Ordered(op, Magnitude(l), Magnitude(r))))
    case Gte => Some(Bool(Ordered(op, Magnitude(l), Magnitude(r))))
    case Lte => Some(Bool(Ordered(op, Magnitude(l), Magnitude(r))))
    case And => Some(Bool(Truthy(l) && Truthy(r)))
    case Or => Some(Bool(Truthy(l) || Truthy(r)))
  }

  /** The interpreter's reading of the same operators.  It answers nil where it reports an
      error; `None` is the one case it leaves undefined, reading the number out of a boolean. */
  function ReferenceBinary(fmt: Format, op: BinaryOp, l: Value, r: Value): Option<Value> {
    if op.Add? then
      if l.Str? || r.Str? then
        Some(Str((if Printable(l) then Chars(fmt, l) else "") + (if Printable(r) then Chars(fmt, r) else "")))
      else if l.Bool? || r.Bool? then None
      else Some(Num(Magnitude(l) + Magnitude(r)))
    else if !l.Num? || !r.Num? then Some(Nil)
    else
      match op
      case Eq => Some(Bool(l.n == r.n))
      case Ne => Some(Bool(l.n != r.n))
      case And => Some(Bool(l.n != 0.0 && r.n != 0.0))
      case Or => Some(Bool(l.n != 0.0 || r.n != 0.0))
      case Gt => Some(Bool(Ordered(op, l.n, r.n)))
      case Lt => Some(Bool(Ordered(op, l.n, r.n)))
      case Gte => Some(Bool(Ordered(op, l.n, r.n)))
      case Lte => Some(Bool(Ordered(op, l.n, r.n)))
      case Sub => Arithmetic(op, l.n, r.n)
      case Mul => Arithmetic(op, l.n, r.n)
      case Div => if r.n == 0.0 then Some(Nil) else Arithmetic(op, l.n, r.n)
  }

  /** The operand kinds both engines are written for: numbers or strings under `+`, numbers
      elsewhere, and no division by zero. */
  predicate Agreeable(op: BinaryOp, l: Value, r: Value) {
    if op.Add? then (l.Num? && r.Num?) || ((l.Str? || r.Str?) && Printable(l) && Printable(r))
    else l.Num? && r.Num? && (op.Div? ==> r.n != 0.0)
  }

  /** The two engines give an operator the same meaning exactly on those operands. */
  lemma EnginesAgreeExactlyOnAgreeable(fmt: Format, op: BinaryOp, l: Value, r: Value)
    ensures Agreeable(op, l, r) <==>
            MachineBinary(fmt, op, l, r).Some? && MachineBinary(fmt, op, l, r) == ReferenceBinary(fmt, op, l, r)
  {
    match op
    case Add =>
    case _ =>
  }
}
