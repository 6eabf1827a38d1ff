// Which expressions have operands that their operators are written for, told from the tree.
module Sorts {
  import opened Ast

  /** What an expression is about.  `Anything` is what cannot be told: a name, a call, a missing
      operand, and what is computed from them. */
  datatype Sort = Whole | Fraction | Truth | Words | Anything

  /** A whole number that fits in 32 bits. */
  ghost predicate IsWhole(n: real, k: int) {
    n == k as real && -0x8000_0000 <= k < 0x8000_0000
  }

  /** Numbers together are whole if both are. */
  function Wider(l: Sort, r: Sort): Sort {
    if l.Anything? || r.Anything? then Anything else if l.Whole? && r.Whole? then Whole else Fraction
  }

  ghost function SortOf(e: Expr): Sort {
    match e
    case Number(n) => if exists k :: IsWhole(n, k) then Whole else Fraction
    case Text(_) => Words
    case Boolean(_) => Truth
    case Unary(_, operand) => SortOf(operand)
    case Binary(l, op, r) =>
      if op.Add? && (SortOf(l).Words? || SortOf(r).Words? || SortOf(l).Anything? || SortOf(r).Anything?) then Words
      else if op.Add? || op.Sub? || op.Mul? || op.Div? then Wider(SortOf(l), SortOf(r))
      else if SortOf(l).Anything? || SortOf(r).Anything? then Anything else Truth
    case _ => Anything
  }

  predicate MaybeNumber(s: Sort) {
    s.Whole? || s.Fraction? || s.Anything?
  }

  /** Whether the operator is written for operands of these two sorts.  Two numbers of different sorts
      compare one way round only: a fraction on the left with a whole number on the right. */
  predicate WrittenFor(op: BinaryOp, l: Sort, r: Sort) {
    match op
    case Add => (MaybeNumber(l) || l.Words?) && (MaybeNumber(r) || r.Words?)
    case Sub => MaybeNumber(l) && MaybeNumber(r)
    case Mul => MaybeNumber(l) && MaybeNumber(r)
    case Div => MaybeNumber(l) && MaybeNumber(r)
    case And => l.Anything? || r.Anything? || (l.Truth? && r.Truth?)
    case Or => l.Anything? || r.Anything? || (l.Truth? && r.Truth?)
    case _ => l.Anything? || r.Anything? || l == r || (l.Fraction? && r.Whole?)
  }

  /** Every operator has operands of the sorts it is written for. */
  ghost predicate WellSorted(e: Expr) {
    match e
    case Unary(op, operand) =>
      && WellSorted(operand)
      && if op.Not? then SortOf(operand).Truth? || SortOf(operand).Anything? else MaybeNumber(SortOf(operand))
    case Binary(l, op, r) => WellSorted(l) && WellSorted(r) && WrittenFor(op, SortOf(l), SortOf(r))
    case _ => true
  }
}
