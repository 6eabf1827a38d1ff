// How a row of operands and operators groups, told from the six classes of operators alone.
module Precedence {
  import opened Ast
  import opened Grammar

  // ---- The reading ----

  /** The operators, from the class that binds loosest to the one that binds tightest. */
  const CLASSES: seq<set<BinaryOp>> := [{Or}, {And}, {Eq, Ne}, {Gt, Lt, Gte, Lte}, {Add, Sub}, {Mul, Div}]

  ghost predicate InClass(op: BinaryOp, i: int) {
    0 <= i < |CLASSES| && op in CLASSES[i]
  }

  /** `q` binds tighter than `p`. */
  ghost predicate Tighter(q: BinaryOp, p: BinaryOp) {
    exists i, j :: i < j && InClass(p, i) && InClass(q, j)
  }

  /** A literal, a name, a negated operand, a row in parentheses, or a call, the arguments of which are rows. */
  datatype Operand =
    | Atom(e: Expr)
    | Negated(operand: Operand)
    | Enclosed(operands: seq<Operand>, ops: seq<BinaryOp>)
    | Called(callee: string, arguments: seq<Operand>)

  predicate Atomic(e: Expr) {
    e.Number? || (e.Text? && e.text != "") || e.Boolean? || (e.Ident? && e.version == FRESH && !e.lastUse)
  }

  predicate Proper(o: Operand)
    decreases o, 0
  {
    match o
    case Atom(e) => Atomic(e)
    case Negated(p) => Proper(p)
    case Enclosed(os, ops) => Row(os, ops)
    case Called(_, arguments) => Rows(arguments)
  }

  predicate Rows(arguments: seq<Operand>)
    decreases arguments, 1
  {
    forall i :: 0 <= i < |arguments| ==> arguments[i].Enclosed? && Proper(arguments[i])
  }

  /** Operands with one operator between each two. */
  predicate Row(os: seq<Operand>, ops: seq<BinaryOp>)
    decreases os, 1
  {
    |os| == |ops| + 1 && forall i :: 0 <= i < |os| ==> Proper(os[i])
  }

  /** The last of the operators than which none is looser: all after it are tighter, and none before it is looser. */
  ghost predicate Outermost(ops: seq<BinaryOp>, i: int) {
    && 0 <= i < |ops|
    && (forall j :: 0 <= j < i ==> !Tighter(ops[i], ops[j]))
    && (forall j :: i < j < |ops| ==> Tighter(ops[j], ops[i]))
  }

  ghost function LastLoosest(ops: seq<BinaryOp>): (i: nat)
    requires ops != []
    ensures Outermost(ops, i)
    decreases |ops|
  {
    var last := |ops| - 1;
    if last == 0 then 0
    else
      var i := LastLoosest(ops[..last]);
      OutermostGrows(ops, i);
      if Tighter(ops[last], ops[i]) then i else last
  }

  lemma OutermostGrows(ops: seq<BinaryOp>, i: int)
    requires |ops| > 1 && Outermost(ops[..|ops| - 1], i)
    ensures Outermost(ops, if Tighter(ops[|ops| - 1], ops[i]) then i else |ops| - 1)
  {
    var front := ops[..|ops| - 1];
    TightersAreLower(ops);
    assert forall j :: 0 <= j < |front| ==> front[j] == ops[j];
  }

  /** The tree of a row: the outermost operator, with what is on either side of it. */
  ghost function Grouped(os: seq<Operand>, ops: seq<BinaryOp>): (e: Expr)
    requires Row(os, ops)
    ensures !e.Absent?
    decreases os, 1
  {
    if ops == [] then Reading(os[0])
    else
      var i := LastLoosest(ops);
      Binary(Grouped(os[..i + 1], ops[..i]), ops[i], Grouped(os[i + 1..], ops[i + 1..]))
  }

  ghost function Reading(o: Operand): (e: Expr)
    requires Proper(o)
    ensures !e.Absent?
    decreases o, 0
  {
    match o
    case Atom(e) => e
    case Negated(p) => Unary(Not, Reading(p))
    case Enclosed(os, ops) => Grouped(os, ops)
    case Called(f, arguments) => Call(f, Readings(arguments))
  }

  /** One reading for each argument, in the order of the arguments. */
  ghost function Readings(arguments: seq<Operand>): (es: seq<Expr>)
    requires Rows(arguments)
    ensures |es| == |arguments| && forall i :: 0 <= i < |es| ==> es[i] == Reading(arguments[i])
    decreases arguments, 0
  {
    if arguments == [] then [] else [Reading(arguments[0])] + Readings(arguments[1..])
  }

  // ---- The tokens ----

  function AtomToken(e: Expr): Token
    requires Atomic(e)
  {
    match e
    case Number(n) => TNumber(n)
    case Text(s) => TText("\"" + s + "\"")
    case Boolean(b) => if b then TTrue else TFalse
    case Ident(name, _, _) => TName(name)
  }

  function OperandTokens(o: Operand): seq<Token>
    requires Proper(o)
    decreases o, 0
  {
    match o
    case Atom(e) => [AtomToken(e)]
    case Negated(p) => [TNot] + OperandTokens(p)
    case Enclosed(os, ops) => [TLeft] + RowTokens(os, ops) + [TRight]
    case Called(f, arguments) => [TName(f), TLeft] + ArgumentTokens(arguments) + [TRight]
  }

  /** The rows with commas between them. */
  function ArgumentTokens(arguments: seq<Operand>): seq<Token>
    requires Rows(arguments)
    decreases arguments, 1
  {
    if arguments == [] then [] else RowOf(arguments[0]) + MoreTokens(arguments[1..])
  }

  function MoreTokens(arguments: seq<Operand>): seq<Token>
    requires Rows(arguments)
    decreases arguments, 1
  {
    if arguments == [] then [] else [TComma] + RowOf(arguments[0]) + MoreTokens(arguments[1..])
  }

  function RowOf(o: Operand): seq<Token>
    requires o.Enclosed? && Proper(o)
    decreases o, 0
  {
    RowTokens(o.operands, o.ops)
  }

  function RowTokens(os: seq<Operand>, ops: seq<BinaryOp>): seq<Token>
    requires Row(os, ops)
    decreases os, 1
  {
    if ops == [] then OperandTokens(os[0])
    else OperandTokens(os[0]) + [TOp(ops[0])] + RowTokens(os[1..], ops[1..])
  }

  // ---- The classes are the levels of the parser ----

  lemma ClassOfLevel(op: BinaryOp, i: int)
    ensures InClass(op, i) <==> i == TOP - Level(op)
  {
    assert CLASSES[0] == {Or} && CLASSES[1] == {And} && CLASSES[2] == {Eq, Ne};
    assert CLASSES[3] == {Gt, Lt, Gte, Lte} && CLASSES[4] == {Add, Sub} && CLASSES[5] == {Mul, Div};
  }

  lemma TighterIsLower(q: BinaryOp, p: BinaryOp)
    ensures Tighter(q, p) <==> Level(q) < Level(p)
  {
    ClassOfLevel(p, TOP - Level(p));
    ClassOfLevel(q, TOP - Level(q));
    if i, j :| i < j && InClass(p, i) && InClass(q, j) {
      ClassOfLevel(p, i);
      ClassOfLevel(q, j);
    }
  }

  lemma TightersAreLower(ops: seq<BinaryOp>)
    ensures forall i, j :: 0 <= i < |ops| && 0 <= j < |ops| ==>
              (Tighter(ops[i], ops[j]) <==> Level(ops[i]) < Level(ops[j]))
  {
    forall i, j | 0 <= i < |ops| && 0 <= j < |ops|
      ensures Tighter(ops[i], ops[j]) <==> Level(ops[i]) < Level(ops[j])
    {
      TighterIsLower(ops[i], ops[j]);
    }
  }

  // ---- The parser reads a row so ----

  predicate Within(ops: seq<BinaryOp>, k: int) {
    forall i :: 0 <= i < |ops| ==> Level(ops[i]) <= k
  }

  lemma OutermostLevel(ops: seq<BinaryOp>, i: int, k: nat)
    requires Outermost(ops, i) && Within(ops, k)
    ensures Level(ops[i]) == k ==> Within(ops[..i], k) && Within(ops[i + 1..], k - 1)
    ensures Level(ops[i]) < k ==> Within(ops, k - 1)
  {
    TightersAreLower(ops);
  }

  lemma {:induction false} RowSplits(os: seq<Operand>, ops: seq<BinaryOp>, i: nat)
    requires Row(os, ops) && i < |ops|
    ensures Row(os[..i + 1], ops[..i]) && Row(os[i + 1..], ops[i + 1..])
    ensures RowTokens(os, ops)
            == RowTokens(os[..i + 1], ops[..i]) + [TOp(ops[i])] + RowTokens(os[i + 1..], ops[i + 1..])
    decreases i
  {
    var first, right := OperandTokens(os[0]), RowTokens(os[i + 1..], ops[i + 1..]);
    if i > 0 {
      RowSplits(os[1..], ops[1..], i - 1);
      assert os[1..][..i] == os[..i + 1][1..] && ops[1..][..i - 1] == ops[..i][1..];
      assert os[1..][i..] == os[i + 1..] && ops[1..][i..] == ops[i + 1..];
      var middle := RowTokens(os[..i + 1][1..], ops[..i][1..]);
      assert first + [TOp(ops[0])] + (middle + [TOp(ops[i])] + right)
        == first + [TOp(ops[0])] + middle + [TOp(ops[i])] + right;
    }
  }

  lemma {:induction false} OperandBegins(o: Operand)
    requires Proper(o)
    ensures Plainly(OperandTokens(o))
  {
  }

  lemma RowBegins(os: seq<Operand>, ops: seq<BinaryOp>)
    requires Row(os, ops)
    ensures Plainly(RowTokens(os, ops))
  {
    OperandBegins(os[0]);
  }

  lemma {:induction false} RowThenLoop(k: nat, os: seq<Operand>, ops: seq<BinaryOp>, rest: seq<Token>, failed: bool)
    requires Row(os, ops) && Within(ops, k) && 1 <= k <= TOP && Stops(rest, k - 1)
    ensures ParseAt(k, At(RowTokens(os, ops) + rest, failed)) == ParseLoop(k, Grouped(os, ops), Arrive(rest, failed))
    decreases |RowTokens(os, ops)|, k, 0, 1
  {
    if ops == [] || Level(ops[LastLoosest(ops)]) < k {
      if ops != [] {
        OutermostLevel(ops, LastLoosest(ops), k);
      }
      RowThenStop(k - 1, os, ops, rest, failed);
    } else {
      var i := LastLoosest(ops);
      OutermostLevel(ops, i, k);
      RowSplits(os, ops, i);
      HalvesThenLoop(k, os, ops, os[..i + 1], ops[..i], os[i + 1..], ops[i + 1..], ops[i], rest, failed);
    }
  }

  /** A row of two halves, which the operator `op` of the level `k` joins. */
  lemma {:induction false} HalvesThenLoop(k: nat, os: seq<Operand>, ops: seq<BinaryOp>, ls: seq<Operand>,
                                          lops: seq<BinaryOp>, rs: seq<Operand>, rops: seq<BinaryOp>, op: BinaryOp,
                                          rest: seq<Token>, failed: bool)
    requires Row(os, ops) && Row(ls, lops) && Row(rs, rops) && Level(op) == k && 1 <= k <= TOP && Stops(rest, k - 1)
    requires Within(lops, k) && Within(rops, k - 1)
    requires Grouped(os, ops) == Binary(Grouped(ls, lops), op, Grouped(rs, rops))
    requires RowTokens(os, ops) == RowTokens(ls, lops) + [TOp(op)] + RowTokens(rs, rops)
    ensures ParseAt(k, At(RowTokens(os, ops) + rest, failed)) == ParseLoop(k, Grouped(os, ops), Arrive(rest, failed))
    decreases |RowTokens(os, ops)|, k, 0, 0
  {
    var left, right := RowTokens(ls, lops), RowTokens(rs, rops);
    RowBegins(rs, rops);
    RowThenLoop(k, ls, lops, [TOp(op)] + (right + rest), failed);
    RowThenStop(k - 1, rs, rops, rest, failed);
    RowTakes(k, left, Grouped(ls, lops), op, right, Grouped(rs, rops), rest, failed);
  }

  lemma RowTakes(k: nat, left: seq<Token>, l: Expr, op: BinaryOp, right: seq<Token>, r: Expr, rest: seq<Token>,
                 failed: bool)
    requires Level(op) == k && Plainly(right)
    requires ParseAt(k, At(left + ([TOp(op)] + (right + rest)), failed))
             == ParseLoop(k, l, Arrive([TOp(op)] + (right + rest), failed))
    requires ParseAt(k - 1, At(right + rest, failed)) == (r, Arrive(rest, failed))
    ensures ParseAt(k, At(left + [TOp(op)] + right + rest, failed))
            == ParseLoop(k, Binary(l, op, r), Arrive(rest, failed))
  {
    assert (right + rest)[0] == right[0];
    Regroup(left, TOp(op), right, rest);
    LoopTakes(k, l, op, r, right + rest, rest, failed);
  }

  lemma {:induction false} RowThenStop(k: nat, os: seq<Operand>, ops: seq<BinaryOp>, rest: seq<Token>, failed: bool)
    requires Row(os, ops) && Within(ops, k) && k <= TOP && Stops(rest, k)
    ensures ParseAt(k, At(RowTokens(os, ops) + rest, failed)) == (Grouped(os, ops), Arrive(rest, failed))
    decreases |RowTokens(os, ops)|, k, 1
  {
    if k > 0 {
      RowThenLoop(k, os, ops, rest, failed);
    } else {
      assert ops != [] ==> Level(ops[0]) <= 0;
      OperandRead(os[0], rest, failed);
    }
  }

  lemma {:induction false} OperandRead(o: Operand, rest: seq<Token>, failed: bool)
    requires Proper(o) && Stops(rest, 0)
    ensures ParseFactor(At(OperandTokens(o) + rest, failed)) == (Reading(o), Arrive(rest, failed))
    decreases |OperandTokens(o)|, 0, 0, 1
  {
    match o
    case Atom(e) =>
      assert OperandTokens(o) == Grammar.Bare(e);
      AtomUndone(e, rest, failed);
    case Negated(_) => NegatedRead(o, rest, failed);
    case Enclosed(_, _) => EnclosedRead(o, rest, failed);
    case Called(_, _) => CalledRead(o, rest, failed);
  }

  lemma {:induction false} NegatedRead(o: Operand, rest: seq<Token>, failed: bool)
    requires o.Negated? && Proper(o) && Stops(rest, 0)
    ensures ParseFactor(At(OperandTokens(o) + rest, failed)) == (Reading(o), Arrive(rest, failed))
    decreases |OperandTokens(o)|, 0, 0, 0
  {
    var tail := OperandTokens(o.operand) + rest;
    OperandRead(o.operand, rest, failed);
    OperandBegins(o.operand);
    assert tail[0] == OperandTokens(o.operand)[0];
    assert OperandTokens(o) + rest == [TNot] + tail;
    Past(TNot, tail, failed);
  }

  lemma {:induction false} EnclosedRead(o: Operand, rest: seq<Token>, failed: bool)
    requires o.Enclosed? && Proper(o)
    ensures ParseFactor(At(OperandTokens(o) + rest, failed)) == (Reading(o), Arrive(rest, failed))
    decreases |OperandTokens(o)|, 0, 0, 0
  {
    var inner := [TRight] + rest;
    RowBegins(o.operands, o.ops);
    assert (RowOf(o) + inner)[0] == RowOf(o)[0];
    assert OperandTokens(o) + rest == [TLeft] + (RowOf(o) + inner);
    Past(TLeft, RowOf(o) + inner, failed);
    RowThenStop(TOP, o.operands, o.ops, inner, failed);
    Past(TRight, rest, failed);
  }

  lemma {:induction false} CalledRead(o: Operand, rest: seq<Token>, failed: bool)
    requires o.Called? && Proper(o)
    ensures ParseFactor(At(OperandTokens(o) + rest, failed)) == (Reading(o), Arrive(rest, failed))
    decreases |ArgumentTokens(o.arguments)|, TOP + 1, 2
  {
    var shown := ArgumentTokens(o.arguments);
    ArgumentsRead(o.arguments, rest, failed);
    CallTakes(o.callee, Readings(o.arguments), shown + ([TRight] + rest), rest, failed);
    CallSplits(o.callee, shown, rest);
  }

  lemma {:induction false} ArgumentsRead(arguments: seq<Operand>, rest: seq<Token>, failed: bool)
    requires Rows(arguments)
    ensures var inner := ArgumentTokens(arguments) + ([TRight] + rest);
            && !Begins(inner, TError)
            && ParseArguments(At(inner, failed)) == (Readings(arguments), At([TRight] + rest, failed))
    decreases |ArgumentTokens(arguments)|, TOP + 1, 1
  {
    if arguments == [] {
      assert ArgumentTokens(arguments) + ([TRight] + rest) == [TRight] + rest;
    } else {
      var first, others := arguments[0], arguments[1..];
      var more := MoreTokens(others) + [TRight] + rest;
      RowBegins(first.operands, first.ops);
      assert ArgumentTokens(arguments) + ([TRight] + rest) == RowOf(first) + more;
      RowThenStop(TOP, first.operands, first.ops, more, failed);
      MoreRead([Reading(first)], others, rest, failed);
    }
  }

  lemma {:induction false} MoreRead(done: seq<Expr>, arguments: seq<Operand>, rest: seq<Token>, failed: bool)
    requires Rows(arguments)
    ensures ParseMore(done, Arrive(MoreTokens(arguments) + [TRight] + rest, failed))
            == (done + Readings(arguments), At([TRight] + rest, failed))
    decreases |MoreTokens(arguments)|, TOP + 1, 0
  {
    if arguments == [] {
      assert MoreTokens(arguments) + [TRight] + rest == [TRight] + rest;
      assert done + Readings(arguments) == done;
    } else {
      var first, others := arguments[0], arguments[1..];
      var more := MoreTokens(others) + [TRight] + rest;
      RowBegins(first.operands, first.ops);
      MoreSplits(arguments, rest, done);
      Past(TComma, RowOf(first) + more, failed);
      RowThenStop(TOP, first.operands, first.ops, more, failed);
      MoreRead(done + [Reading(first)], others, rest, failed);
    }
  }

  lemma {:induction false} MoreSplits(arguments: seq<Operand>, rest: seq<Token>, done: seq<Expr>)
    requires Rows(arguments) && arguments != []
    ensures var first, others := arguments[0], arguments[1..];
            && MoreTokens(arguments) + [TRight] + rest
               == [TComma] + (RowOf(first) + (MoreTokens(others) + [TRight] + rest))
            && done + [Reading(first)] + Readings(others) == done + Readings(arguments)
  {
  }

  /** Before the cursor stands the row, and after it `rest`, which does not go on with it. */
  ghost predicate Spells(s: Cursor, os: seq<Operand>, ops: seq<BinaryOp>, rest: seq<Token>) {
    && Row(os, ops) && s.rest == RowTokens(os, ops) + rest
    && (|rest| > 0 ==> rest[0] != TLeft && !rest[0].TOp?)
  }

  /** A row of any length is read as the classes say, with `!` on one operand and parentheses first, and
      its tokens are all that is consumed. */
  lemma RowIsRead(os: seq<Operand>, ops: seq<BinaryOp>, rest: seq<Token>, failed: bool)
    requires Row(os, ops) && (|rest| > 0 ==> rest[0] != TLeft && !rest[0].TOp?)
    ensures ParseAt(TOP, At(RowTokens(os, ops) + rest, failed)) == (Grouped(os, ops), Arrive(rest, failed))
  {
    RowThenStop(TOP, os, ops, rest, failed);
  }

  /** `a p b q c` is `a p (b q c)` if `q` binds tighter than `p`, and `(a p b) q c` otherwise. */
  lemma {:induction false} ThreeOperands(a: Operand, p: BinaryOp, b: Operand, q: BinaryOp, c: Operand)
    requires Proper(a) && Proper(b) && Proper(c)
    ensures ParseAt(TOP, At(OperandTokens(a) + [TOp(p)] + OperandTokens(b) + [TOp(q)] + OperandTokens(c), false)).0
            == if Tighter(q, p) then Binary(Reading(a), p, Binary(Reading(b), q, Reading(c)))
               else Binary(Binary(Reading(a), p, Reading(b)), q, Reading(c))
  {
    var os, ops := [a, b, c], [p, q];
    assert os[1..] == [b, c] && ops[1..] == [q] && [b, c][1..] == [c] && [q][1..] == [];
    assert RowTokens([b, c], [q]) == OperandTokens(b) + [TOp(q)] + OperandTokens(c);
    assert RowTokens(os, ops) + [] == OperandTokens(a) + [TOp(p)] + OperandTokens(b) + [TOp(q)] + OperandTokens(c);
    RowIsRead(os, ops, [], false);
    PairGroups(a, p, b);
    PairGroups(b, q, c);
    var i := LastLoosest(ops);
    if i == 0 {
      assert os[..1] == [a] && ops[..0] == [] && Tighter(ops[1], ops[0]);
    } else {
      assert os[..2] == [a, b] && ops[..1] == [p] && os[2..] == [c] && ops[2..] == [] && !Tighter(ops[1], ops[0]);
    }
  }

  lemma {:induction false} PairGroups(a: Operand, p: BinaryOp, b: Operand)
    requires Proper(a) && Proper(b)
    ensures Grouped([a, b], [p]) == Binary(Reading(a), p, Reading(b))
  {
    var os, ops := [a, b], [p];
    assert os[..1] == [a] && os[1..] == [b] && ops[..0] == [] && ops[1..] == [];
  }
}
