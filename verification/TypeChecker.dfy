// The static checker of expressions, and what its silence promises about a run.
module TypeChecker {
  import opened Ast
  import opened Values
  import opened Bytecode
  import opened CodeShape
  import opened Preservation
  import opened Sorts

  datatype Type = IntType | FloatType | BoolType | StringType | Unknown | ErrorType

  /** The type of a node and the number of errors reported on the way to it. */
  datatype Verdict = Verdict(t: Type, errors: nat)

  predicate Numeric(t: Type) {
    t.IntType? || t.FloatType?
  }

  predicate TypesCompatible(expected: Type, actual: Type) {
    || expected.Unknown? || actual.Unknown?
    || expected == actual
    || (expected.FloatType? && actual.IntType?)
  }

  const INT_LIMIT := 0x8000_0000 as real

  function LiteralType(n: real): Type {
    if n == n.Floor as real && -INT_LIMIT <= n < INT_LIMIT then IntType else FloatType
  }

  function ArithmeticType(op: BinaryOp, l: Type, r: Type): Option<Type> {
    if op.Add? && (l.StringType? || l.Unknown?) && (r.StringType? || Numeric(r) || r.Unknown?) then Some(StringType)
    else if op.Add? && (Numeric(l) || l.Unknown?) && (r.StringType? || r.Unknown?) then Some(StringType)
    else if !Numeric(l) && !l.Unknown? then None
    else if !Numeric(r) && !r.Unknown? then None
    else if l.Unknown? || r.Unknown? then Some(Unknown)
    else Some(if l.FloatType? || r.FloatType? then FloatType else IntType)
  }

  /** `None` is a reported error. */
  function BinaryType(op: BinaryOp, l: Type, r: Type): Option<Type> {
    match op
    case Add => ArithmeticType(op, l, r)
    case Sub => ArithmeticType(op, l, r)
    case Mul => ArithmeticType(op, l, r)
    case Div => ArithmeticType(op, l, r)
    case And => LogicalType(l, r)
    case Or => LogicalType(l, r)
    case _ =>
      if l.Unknown? || r.Unknown? then Some(Unknown)
      else if TypesCompatible(l, r) then Some(BoolType) else None
  }

  function LogicalType(l: Type, r: Type): Option<Type> {
    if l.Unknown? || r.Unknown? then Some(Unknown)
    else if l.BoolType? && r.BoolType? then Some(BoolType) else None
  }

  function UnaryType(op: UnaryOp, t: Type): Option<Type> {
    match op
    case Not => if t.BoolType? || t.Unknown? then Some(t) else None
    case Neg => if Numeric(t) || t.Unknown? then Some(t) else None
  }

  function Conclude(t: Option<Type>, errors: nat): Verdict {
    if t.Some? then Verdict(t.value, errors) else Verdict(ErrorType, errors + 1)
  }

  function Check(e: Expr): Verdict {
    match e
    case Number(n) => Verdict(LiteralType(n), 0)
    case Text(_) => Verdict(StringType, 0)
    case Boolean(_) => Verdict(BoolType, 0)
    case Unary(op, operand) => Conclude(UnaryType(op, Check(operand).t), Check(operand).errors)
    case Binary(l, op, r) =>
      Conclude(BinaryType(op, Check(l).t, Check(r).t), Check(l).errors + Check(r).errors)
    case _ => Verdict(Unknown, 0)
  }

  // ---- When the checker is silent ----

  /** The checker's name for a sort. */
  function Announced(s: Sort): Type {
    match s
    case Whole => IntType
    case Fraction => FloatType
    case Truth => BoolType
    case Words => StringType
    case Anything => Unknown
  }

  lemma WholeIsInt(n: real)
    ensures LiteralType(n).IntType? <==> exists k :: IsWhole(n, k)
  {
    if LiteralType(n).IntType? {
      assert IsWhole(n, n.Floor);
    }
    if k :| IsWhole(n, k) {
      assert n.Floor == k;
    }
  }

  /** The checker is silent on an expression if and only if every operator in it has operands of the sorts it
      is written for, and then it announces the sort of the whole. */
  lemma {:induction false} SilentExactlyOnWellSorted(e: Expr)
    ensures Check(e).errors == 0 <==> WellSorted(e)
    ensures WellSorted(e) ==> Check(e).t == Announced(SortOf(e))
    decreases e
  {
    match e
    case Number(n) => WholeIsInt(n);
    case Unary(_, operand) => SilentExactlyOnWellSorted(operand);
    case Binary(l, _, r) =>
      SilentExactlyOnWellSorted(l);
      SilentExactlyOnWellSorted(r);
    case _ =>
  }

  function Operators(e: Expr): nat {
    match e
    case Unary(_, operand) => 1 + Operators(operand)
    case Binary(l, _, r) => Operators(l) + 1 + Operators(r)
    case _ => 0
  }

  /** No operator is reported twice. */
  lemma {:induction false} OneReportEach(e: Expr)
    ensures Check(e).errors <= Operators(e)
    decreases e
  {
    match e
    case Unary(_, operand) => OneReportEach(operand);
    case Binary(l, _, r) =>
      OneReportEach(l);
      OneReportEach(r);
    case _ =>
  }

  /** The checker object: it walks the tree and counts what it reports. */
  class Checker {
    var hadError: bool
    var errorCount: nat

    constructor ()
      ensures !hadError && errorCount == 0
    {
      hadError, errorCount := false, 0;
    }

    method TypeError()
      modifies this
      ensures hadError && errorCount == old(errorCount) + 1
    {
      hadError, errorCount := true, errorCount + 1;
    }

    method Report(t: Option<Type>) returns (result: Type)
      modifies this
      ensures t.Some? ==> result == t.value && errorCount == old(errorCount) && hadError == old(hadError)
      ensures t.None? ==> result == ErrorType && errorCount == old(errorCount) + 1 && hadError
    {
      if t.Some? {
        result := t.value;
      } else {
        TypeError();
        result := ErrorType;
      }
    }

    method CheckNode(e: Expr) returns (t: Type)
      modifies this
      ensures t == Check(e).t && errorCount == old(errorCount) + Check(e).errors
      ensures hadError == (old(hadError) || Check(e).errors > 0)
      ensures hadError == (old(hadError) || !WellSorted(e)) && (WellSorted(e) ==> t == Announced(SortOf(e)))
      decreases e
    {
      SilentExactlyOnWellSorted(e);
      match e {
        case Number(n) => t := LiteralType(n);
        case Text(_) => t := StringType;
        case Boolean(_) => t := BoolType;
        case Unary(op, operand) =>
          t := CheckNode(operand);
          t := Report(UnaryType(op, t));
        case Binary(l, op, r) =>
          var left := CheckNode(l);
          var right := CheckNode(r);
          t := Report(BinaryType(op, left, right));
        case _ => t := Unknown;
      }
    }
  }

  // ---- What the code of such an expression does to the stack ----

  /** No identifier and no call below. */
  predicate Ground(e: Expr) {
    match e
    case Ident(_, _, _) => false
    case Call(_, _) => false
    case Unary(_, operand) => Ground(operand)
    case Binary(l, _, r) => Ground(l) && Ground(r)
    case _ => true
  }

  /** How many operands the parser did not find. */
  function Missing(e: Expr): nat {
    match e
    case Absent => 1
    case Unary(_, operand) => Missing(operand)
    case Binary(l, _, r) => Missing(l) + Missing(r)
    case _ => 0
  }

  /** With all operands in place and no names or calls, every sort can be told. */
  lemma {:induction false} GroundIsTold(e: Expr)
    requires Ground(e) && Missing(e) == 0
    ensures !SortOf(e).Anything?
    decreases e
  {
    match e
    case Unary(_, operand) => GroundIsTold(operand);
    case Binary(l, _, r) =>
      GroundIsTold(l);
      GroundIsTold(r);
    case _ =>
  }

  /** Such an operator's operands are then of sorts that can be told: two truth values, numbers, numbers or
      texts, or two of one sort. */
  lemma {:induction false} GroundOperands(l: Expr, op: BinaryOp, r: Expr)
    requires Ground(Binary(l, op, r)) && Missing(Binary(l, op, r)) == 0
    requires Check(l).errors == 0 && Check(r).errors == 0
    ensures var j, k := SortOf(l), SortOf(r);
            Check(Binary(l, op, r)).errors == 0 <==>
            match op
            case And => j.Truth? && k.Truth?
            case Or => j.Truth? && k.Truth?
            case Add => !j.Truth? && !k.Truth?
            case Sub => !j.Truth? && !k.Truth? && !j.Words? && !k.Words?
            case Mul => !j.Truth? && !k.Truth? && !j.Words? && !k.Words?
            case Div => !j.Truth? && !k.Truth? && !j.Words? && !k.Words?
            case _ => j == k || (j.Fraction? && k.Whole?)
  {
    SilentExactlyOnWellSorted(Binary(l, op, r));
    SilentExactlyOnWellSorted(l);
    SilentExactlyOnWellSorted(r);
    GroundIsTold(l);
    GroundIsTold(r);
  }

  /** `Left` is the stack at the end of the code; `Stuck` the offset of the instruction that refuses,
      and the stack it refuses. */
  datatype Computed = Left(stack: seq<Value>) | Stuck(offset: nat, stack: seq<Value>)

  function Refuse(r: Option<Value>, rest: seq<Value>, offset: nat, stack: seq<Value>): Computed {
    if r.Some? then Left(rest + [r.value]) else Stuck(offset, stack)
  }

  function MachineUnary(op: UnaryOp, v: Value): Option<Value> {
    match op
    case Not => Some(Bool(!Truthy(v)))
    case Neg => if v.Num? then Some(Num(-v.n)) else None
  }

  function Size(e: Expr): nat {
    match e
    case Absent => 0
    case Unary(_, operand) => Size(operand) + 1
    case Binary(l, _, r) => Size(l) + Size(r) + 1
    case _ => 1
  }

  function Compute(fmt: Format, e: Expr, stack: seq<Value>): Computed {
    match e
    case Number(n) => Left(stack + [Num(n)])
    case Text(s) => Left(stack + [Str(s)])
    case Boolean(b) => Left(stack + [Bool(b)])
    case Unary(op, operand) =>
      var c := Compute(fmt, operand, stack);
      if c.Stuck? then c else Refuse(MachineUnary(op, Top(c.stack)), Rest(c.stack), Size(operand), c.stack)
    case Binary(l, op, r) =>
      var c := Compute(fmt, l, stack);
      if c.Stuck? then c
      else
        var d := Compute(fmt, r, c.stack);
        if d.Stuck? then Stuck(Size(l) + d.offset, d.stack)
        else
          Refuse(MachineBinary(fmt, op, Top(Rest(d.stack)), Top(d.stack)), Rest(Rest(d.stack)), Size(l) + Size(r),
                 d.stack)
    case _ => Left(stack)
  }

  function Moved(st: State, k: nat, stack: seq<Value>): State {
    st.(pc := st.pc + k, stack := stack)
  }

  ghost predicate Goes(p: Program, fmt: Format, st: State, n: nat, stack: seq<Value>) {
    forall x :: Leads(p, fmt, st, n, x) ==> x == Next(Moved(st, n, stack))
  }

  ghost predicate Refuses(p: Program, fmt: Format, st: State) {
    forall x :: Leads(p, fmt, st, 1, x) ==> x.Fault?
  }

  lemma GoesIs(p: Program, fmt: Format, st: State, n: nat, stack: seq<Value>)
    ensures Goes(p, fmt, st, n, stack) <==> Run(p, fmt, st, n) == Next(Moved(st, n, stack))
  {
    assert Leads(p, fmt, st, n, Run(p, fmt, st, n));
  }

  lemma RefusesIs(p: Program, fmt: Format, st: State)
    ensures Refuses(p, fmt, st) <==> Step(p, fmt, st).Fault?
  {
    assert Leads(p, fmt, st, 1, Run(p, fmt, st, 1));
    assert Step(p, fmt, st).Next? ==> Run(p, fmt, Step(p, fmt, st).st, 0).Next?;
  }

  /** A run over `size` instructions is what `c` says. */
  ghost predicate Runs(p: Program, fmt: Format, st: State, size: nat, c: Computed) {
    match c
    case Left(stack) => Goes(p, fmt, st, size, stack)
    case Stuck(k, stack) => k < size && Goes(p, fmt, st, k, stack) && Refuses(p, fmt, Moved(st, k, stack))
  }

  lemma {:induction false} SizeIsLength(e: Expr, syms: Symbols)
    requires Ground(e)
    ensures |ItemsE(e, syms)| == Size(e)
    decreases e
  {
    match e
    case Unary(_, operand) => SizeIsLength(operand, syms);
    case Binary(l, _, r) =>
      SizeIsLength(l, syms);
      SizeIsLength(r, syms);
    case _ =>
  }

  lemma RunsOn(p: Program, fmt: Format, st: State, m: nat, stack: seq<Value>, n: nat, c: Computed)
    requires Runs(p, fmt, st, m, Left(stack)) && Runs(p, fmt, Moved(st, m, stack), n, c)
    ensures Runs(p, fmt, st, m + n, if c.Left? then c else Stuck(m + c.offset, c.stack))
  {
    var b, k := Moved(st, m, stack), if c.Left? then n else c.offset;
    GoesIs(p, fmt, st, m, stack);
    GoesIs(p, fmt, b, k, c.stack);
    RunAppend(p, fmt, st, m, b, k);
    GoesIs(p, fmt, st, m + k, c.stack);
  }

  lemma RunsOne(p: Program, fmt: Format, st: State, item: Item, c: Computed)
    requires Holds(p, st.pc, [item])
    requires match item
             case Push(v) => c == Left(st.stack + [v])
             case Exact(Negate(op)) => c == Refuse(MachineUnary(op, Top(st.stack)), Rest(st.stack), 0, st.stack)
             case Exact(Operate(op)) =>
               c == Refuse(MachineBinary(fmt, op, Top(Rest(st.stack)), Top(st.stack)), Rest(Rest(st.stack)), 0,
                           st.stack)
             case _ => false
    ensures Runs(p, fmt, st, 1, c)
  {
    HoldsOne(p, st.pc, item);
    assert Run(p, fmt, st, 0) == Next(st) && st == Moved(st, 0, st.stack);
    if c.Left? {
      assert Step(p, fmt, st) == Next(Moved(st, 1, c.stack));
      assert Run(p, fmt, Moved(st, 1, c.stack), 0) == Next(Moved(st, 1, c.stack));
      GoesIs(p, fmt, st, 1, c.stack);
    } else {
      GoesIs(p, fmt, st, 0, st.stack);
      RefusesIs(p, fmt, st);
    }
  }

  /** Missing operands and all: the machine computes that. */
  lemma {:induction false} CodeComputes(p: Program, fmt: Format, e: Expr, syms: Symbols, st: State)
    requires Ground(e) && Holds(p, st.pc, ItemsE(e, syms))
    ensures Runs(p, fmt, st, Size(e), Compute(fmt, e, st.stack))
    decreases e, 1
  {
    match e
    case Absent => GoesIs(p, fmt, st, 0, st.stack);
    case Number(n) => RunsOne(p, fmt, st, Push(Num(n)), Compute(fmt, e, st.stack));
    case Text(s) => RunsOne(p, fmt, st, Push(Str(s)), Compute(fmt, e, st.stack));
    case Boolean(b) => RunsOne(p, fmt, st, Push(Bool(b)), Compute(fmt, e, st.stack));
    case Unary(op, operand) =>
      HoldsSplit(p, st.pc, ItemsE(operand, syms), [Exact(Negate(op))]);
      SizeIsLength(operand, syms);
      CodeComputes(p, fmt, operand, syms, st);
      var c := Compute(fmt, operand, st.stack);
      if c.Left? {
        NegationComputes(p, fmt, op, st, Size(operand), c.stack);
      }
    case Binary(l, op, r) => BinaryComputes(p, fmt, e, syms, st);
  }

  lemma NegationComputes(p: Program, fmt: Format, op: UnaryOp, st: State, m: nat, stack: seq<Value>)
    requires Runs(p, fmt, st, m, Left(stack)) && Holds(p, st.pc + m, [Exact(Negate(op))])
    ensures Runs(p, fmt, st, m + 1, Refuse(MachineUnary(op, Top(stack)), Rest(stack), m, stack))
  {
    var last := Refuse(MachineUnary(op, Top(stack)), Rest(stack), 0, stack);
    RunsOne(p, fmt, Moved(st, m, stack), Exact(Negate(op)), last);
    RunsOn(p, fmt, st, m, stack, 1, last);
  }

  lemma {:induction false} BinaryComputes(p: Program, fmt: Format, e: Expr, syms: Symbols, st: State)
    requires e.Binary? && Ground(e) && Holds(p, st.pc, ItemsE(e, syms))
    ensures Runs(p, fmt, st, Size(e), Compute(fmt, e, st.stack))
    decreases e, 0
  {
    var m, n := Size(e.left), Size(e.right);
    OperandsAreThere(p, st.pc, e, syms);
    CodeComputes(p, fmt, e.left, syms, st);
    var c := Compute(fmt, e.left, st.stack);
    if c.Left? {
      CodeComputes(p, fmt, e.right, syms, Moved(st, m, c.stack));
      OperandsCompute(p, fmt, e.op, st, m, n, c.stack, Compute(fmt, e.right, c.stack));
    }
  }

  lemma {:induction false} OperandsAreThere(p: Program, at: nat, e: Expr, syms: Symbols)
    requires e.Binary? && Ground(e) && Holds(p, at, ItemsE(e, syms))
    ensures Holds(p, at, ItemsE(e.left, syms)) && Holds(p, at + Size(e.left), ItemsE(e.right, syms))
    ensures Holds(p, at + Size(e.left) + Size(e.right), [Exact(Operate(e.op))])
  {
    SplitLoop(p, at, ItemsE(e.left, syms), ItemsE(e.right, syms), Exact(Operate(e.op)));
    SizeIsLength(e.left, syms);
    SizeIsLength(e.right, syms);
  }

  lemma OperandsCompute(p: Program, fmt: Format, op: BinaryOp, st: State, m: nat, n: nat, stack: seq<Value>,
                        d: Computed)
    requires Runs(p, fmt, st, m, Left(stack)) && Runs(p, fmt, Moved(st, m, stack), n, d)
    requires Holds(p, st.pc + m + n, [Exact(Operate(op))])
    ensures Runs(p, fmt, st, m + n + 1,
                 if d.Stuck? then Stuck(m + d.offset, d.stack)
                 else Refuse(MachineBinary(fmt, op, Top(Rest(d.stack)), Top(d.stack)), Rest(Rest(d.stack)), m + n,
                             d.stack))
  {
    RunsOn(p, fmt, st, m, stack, n, d);
    if d.Left? {
      OperatorComputes(p, fmt, op, st, m + n, d.stack);
    }
  }

  lemma OperatorComputes(p: Program, fmt: Format, op: BinaryOp, st: State, m: nat, stack: seq<Value>)
    requires Runs(p, fmt, st, m, Left(stack)) && Holds(p, st.pc + m, [Exact(Operate(op))])
    ensures Runs(p, fmt, st, m + 1,
                 Refuse(MachineBinary(fmt, op, Top(Rest(stack)), Top(stack)), Rest(Rest(stack)), m, stack))
  {
    var last := Refuse(MachineBinary(fmt, op, Top(Rest(stack)), Top(stack)), Rest(Rest(stack)), 0, stack);
    RunsOne(p, fmt, Moved(st, m, stack), Exact(Operate(op)), last);
    RunsOn(p, fmt, st, m, stack, 1, last);
  }

  // ---- Soundness ----

  predicate HasType(v: Value, t: Type) {
    match t
    case IntType => v.Num?
    case FloatType => v.Num?
    case BoolType => v.Bool?
    case StringType => v.Str?
    case _ => false
  }

  /** After `size` steps the run is past the code, having pushed one value of type `t` and changed
      nothing else. */
  ghost predicate Delivers(p: Program, fmt: Format, st: State, size: nat, t: Type) {
    exists v :: HasType(v, t) && Run(p, fmt, st, size) == Next(Moved(st, size, st.stack + [v]))
  }

  predicate ByZero(stack: seq<Value>) {
    |stack| >= 2 && stack[|stack| - 1] == Num(0.0) && stack[|stack| - 2].Num?
  }

  /** Within the `size` instructions the run stops at a division whose divisor is zero. */
  ghost predicate DividesByZero(p: Program, fmt: Format, st: State, size: nat) {
    exists k: nat, stack ::
      && k < size && Run(p, fmt, st, k) == Next(Moved(st, k, stack))
      && st.pc + k < |p.instrs| && p.instrs[st.pc + k] == Operate(Div) && ByZero(stack)
      && Step(p, fmt, Moved(st, k, stack)).Fault?
  }

  /** Operands of accepted types meet no error but a zero divisor, and give the type announced. */
  lemma BinarySound(fmt: Format, op: BinaryOp, l: Value, r: Value, lt: Type, rt: Type)
    requires HasType(l, lt) && HasType(r, rt) && BinaryType(op, lt, rt).Some?
    ensures var result := MachineBinary(fmt, op, l, r);
            if op.Div? && r == Num(0.0) then result.None? && l.Num?
            else result.Some? && HasType(result.value, BinaryType(op, lt, rt).value)
  {
    match op
    case Add =>
    case Sub =>
    case Mul =>
    case Div =>
    case _ =>
  }

  predicate IsDivision(e: Expr, k: nat) {
    match e
    case Unary(_, operand) => k < Size(operand) && IsDivision(operand, k)
    case Binary(l, op, r) =>
      if k < Size(l) then IsDivision(l, k)
      else if k < Size(l) + Size(r) then IsDivision(r, k - Size(l))
      else k == Size(e) - 1 && op.Div?
    case _ => false
  }

  lemma {:induction false} DivisionIsThere(p: Program, e: Expr, syms: Symbols, at: nat, k: nat)
    requires Ground(e) && Holds(p, at, ItemsE(e, syms)) && IsDivision(e, k)
    ensures k < Size(e) && at + k < |p.instrs| && p.instrs[at + k] == Operate(Div)
    decreases e
  {
    match e
    case Unary(op, operand) =>
      HoldsSplit(p, at, ItemsE(operand, syms), [Exact(Negate(op))]);
      DivisionIsThere(p, operand, syms, at, k);
    case Binary(l, op, r) =>
      SplitLoop(p, at, ItemsE(l, syms), ItemsE(r, syms), Exact(Operate(op)));
      SizeIsLength(l, syms);
      SizeIsLength(r, syms);
      if k < Size(l) {
        DivisionIsThere(p, l, syms, at, k);
      } else if k < Size(l) + Size(r) {
        DivisionIsThere(p, r, syms, at + Size(l), k - Size(l));
      } else {
        HoldsOne(p, at + k, Exact(Operate(op)));
      }
  }

  ghost predicate Pushes(after: seq<Value>, before: seq<Value>, t: Type) {
    exists v :: HasType(v, t) && after == before + [v]
  }

  lemma PushedTop(stack: seq<Value>, v: Value)
    ensures Top(stack + [v]) == v && Rest(stack + [v]) == stack
  {
  }

  /** One value of the announced type, or a division by zero. */
  ghost predicate AsAnnounced(e: Expr, stack: seq<Value>, c: Computed) {
    match c
    case Left(after) => Pushes(after, stack, Check(e).t)
    case Stuck(k, after) => IsDivision(e, k) && ByZero(after)
  }

  lemma {:induction false} SilentComputation(fmt: Format, e: Expr, stack: seq<Value>)
    requires Ground(e) && Missing(e) == 0 && Check(e).errors == 0
    ensures AsAnnounced(e, stack, Compute(fmt, e, stack))
    decreases e, 1
  {
    match e
    case Number(n) => assert HasType(Num(n), Check(e).t);
    case Text(s) => assert HasType(Str(s), Check(e).t);
    case Boolean(b) => assert HasType(Bool(b), Check(e).t);
    case Unary(op, operand) =>
      SilentComputation(fmt, operand, stack);
      var c := Compute(fmt, operand, stack);
      if c.Left? {
        var v :| HasType(v, Check(operand).t) && c.stack == stack + [v];
        PushedTop(stack, v);
        assert HasType(MachineUnary(op, v).value, Check(e).t);
      } else {
        OffsetWithin(operand, c.offset);
      }
    case Binary(_, _, _) => SilentBinary(fmt, e, stack);
  }

  lemma {:induction false} OffsetWithin(e: Expr, k: nat)
    requires IsDivision(e, k)
    ensures k < Size(e)
    decreases e
  {
    match e
    case Unary(_, operand) =>
    case Binary(l, _, r) =>
      if k < Size(l) {
        OffsetWithin(l, k);
      }
  }

  lemma {:induction false} SilentBinary(fmt: Format, e: Expr, stack: seq<Value>)
    requires e.Binary? && Ground(e) && Missing(e) == 0 && Check(e).errors == 0
    ensures AsAnnounced(e, stack, Compute(fmt, e, stack))
    decreases e, 0
  {
    SilentComputation(fmt, e.left, stack);
    var c := Compute(fmt, e.left, stack);
    if c.Stuck? {
      OffsetWithin(e.left, c.offset);
      return;
    }
    SilentComputation(fmt, e.right, c.stack);
    var d := Compute(fmt, e.right, c.stack);
    if d.Stuck? {
      OffsetWithin(e.right, d.offset);
      return;
    }
    var l :| HasType(l, Check(e.left).t) && c.stack == stack + [l];
    var r :| HasType(r, Check(e.right).t) && d.stack == c.stack + [r];
    PushedTop(stack, l);
    PushedTop(c.stack, r);
    BinarySound(fmt, e.op, l, r, Check(e.left).t, Check(e.right).t);
    var result := MachineBinary(fmt, e.op, l, r);
    if result.Some? {
      assert HasType(result.value, Check(e).t);
    }
  }

  /** If the checker reports nothing on an expression of literals and operators in which no operand is
      missing, its code pushes exactly one value of the type the checker gave, or stops at one of
      its own divisions, by zero. */
  lemma SilenceIsSound(p: Program, fmt: Format, e: Expr, syms: Symbols, st: State)
    requires Ground(e) && Missing(e) == 0 && Check(e).errors == 0 && Holds(p, st.pc, ItemsE(e, syms))
    ensures || Delivers(p, fmt, st, |ItemsE(e, syms)|, Check(e).t)
            || DividesByZero(p, fmt, st, |ItemsE(e, syms)|)
  {
    SizeIsLength(e, syms);
    CodeComputes(p, fmt, e, syms, st);
    SilentComputation(fmt, e, st.stack);
    var c := Compute(fmt, e, st.stack);
    GoesIs(p, fmt, st, if c.Left? then Size(e) else c.offset, c.stack);
    if c.Stuck? {
      RefusesIs(p, fmt, Moved(st, c.offset, c.stack));
      DivisionIsThere(p, e, syms, st.pc, c.offset);
    }
  }

  // ---- Missing operands ----

  datatype Kind = NumberKind | TextKind | TruthKind | NilKind

  function KindOf(v: Value): Kind {
    match v
    case Num(_) => NumberKind
    case Str(_) => TextKind
    case Bool(_) => TruthKind
    case Nil => NilKind
  }

  function KindsOf(stack: seq<Value>): seq<Kind> {
    seq(|stack|, i requires 0 <= i < |stack| => KindOf(stack[i]))
  }

  /** The kind of the values of a type; a value of unknown type may be of any. */
  function TypeKind(t: Type): Option<Kind> {
    match t
    case IntType => Some(NumberKind)
    case FloatType => Some(NumberKind)
    case BoolType => Some(TruthKind)
    case StringType => Some(TextKind)
    case _ => None
  }

  /** Taking from an empty stack gives nil and leaves it empty. */
  function TopKind(kinds: seq<Kind>): Kind {
    if kinds == [] then NilKind else kinds[|kinds| - 1]
  }

  function RestKinds(kinds: seq<Kind>): seq<Kind> {
    if kinds == [] then [] else kinds[..|kinds| - 1]
  }

  function UnaryKind(op: UnaryOp, k: Kind): Option<Kind> {
    if op.Not? then Some(TruthKind) else if k.NumberKind? then Some(NumberKind) else None
  }

  function BinaryKind(op: BinaryOp, l: Kind, r: Kind): Option<Kind> {
    match op
    case Add =>
      if l.NumberKind? && r.NumberKind? then Some(NumberKind)
      else if {l, r} == {TextKind} || {l, r} == {TextKind, NumberKind} then Some(TextKind)
      else None
    case Sub => if l.NumberKind? && r.NumberKind? then Some(NumberKind) else None
    case Mul => if l.NumberKind? && r.NumberKind? then Some(NumberKind) else None
    case Div => if l.NumberKind? && r.NumberKind? then Some(NumberKind) else None
    case _ => Some(TruthKind)
  }

  function AfterOperator(op: BinaryOp, kinds: seq<Kind>): Option<seq<Kind>> {
    var k := BinaryKind(op, TopKind(RestKinds(kinds)), TopKind(kinds));
    if k.None? then None else Some(RestKinds(RestKinds(kinds)) + [k.value])
  }

  /** The kinds of value on the stack after the code of `e`, told from the text of `e` alone; `None` if
      an operator refuses the kinds it finds.  A missing operand adds nothing to the stack. */
  function Kinds(e: Expr, kinds: seq<Kind>): Option<seq<Kind>> {
    match e
    case Number(_) => Some(kinds + [NumberKind])
    case Text(_) => Some(kinds + [TextKind])
    case Boolean(_) => Some(kinds + [TruthKind])
    case Unary(op, operand) =>
      var c := Kinds(operand, kinds);
      if c.None? then None
      else
        var k := UnaryKind(op, TopKind(c.value));
        if k.None? then None else Some(RestKinds(c.value) + [k.value])
    case Binary(l, op, r) =>
      var c := Kinds(l, kinds);
      if c.None? then None
      else
        var d := Kinds(r, c.value);
        if d.None? then None else AfterOperator(op, d.value)
    case _ => Some(kinds)
  }

  /** By their kinds the operands fit, and what is left is one more value, of the kind announced. */
  predicate KindsFit(e: Expr, kinds: seq<Kind>) {
    var k := TypeKind(Check(e).t);
    k.Some? && Kinds(e, kinds) == Some(kinds + [k.value])
  }

  lemma KindsOfParts(stack: seq<Value>)
    ensures TopKind(KindsOf(stack)) == KindOf(Top(stack)) && RestKinds(KindsOf(stack)) == KindsOf(Rest(stack))
  {
  }

  lemma KindsOfPushed(stack: seq<Value>, v: Value)
    ensures KindsOf(stack + [v]) == KindsOf(stack) + [KindOf(v)]
  {
  }

  /** An operator's kinds decide whether it refuses, but for a zero divisor. */
  lemma BinaryKindIs(fmt: Format, op: BinaryOp, l: Value, r: Value)
    ensures var result, k := MachineBinary(fmt, op, l, r), BinaryKind(op, KindOf(l), KindOf(r));
            if op.Div? && l.Num? && r == Num(0.0) then result.None?
            else if result.Some? then k == Some(KindOf(result.value)) else k.None?
  {
    match op
    case Add =>
      assert {TextKind} != {TextKind, NumberKind} && NumberKind in {TextKind, NumberKind};
      assert KindOf(l) in {KindOf(l), KindOf(r)} && KindOf(r) in {KindOf(l), KindOf(r)};
    case _ =>
  }

  /** The kinds foretell the run, a division by zero apart. */
  ghost predicate Foretold(e: Expr, stack: seq<Value>, c: Computed) {
    match c
    case Left(after) => Kinds(e, KindsOf(stack)) == Some(KindsOf(after))
    case Stuck(k, after) => Kinds(e, KindsOf(stack)).None? || (IsDivision(e, k) && ByZero(after))
  }

  lemma {:induction false} KindsForetell(fmt: Format, e: Expr, stack: seq<Value>)
    requires Ground(e)
    ensures Foretold(e, stack, Compute(fmt, e, stack))
    decreases e, 1
  {
    match e
    case Number(n) => KindsOfPushed(stack, Num(n));
    case Text(s) => KindsOfPushed(stack, Str(s));
    case Boolean(b) => KindsOfPushed(stack, Bool(b));
    case Unary(op, operand) =>
      KindsForetell(fmt, operand, stack);
      var c := Compute(fmt, operand, stack);
      if c.Left? {
        KindsOfParts(c.stack);
        var result := MachineUnary(op, Top(c.stack));
        if result.Some? {
          KindsOfPushed(Rest(c.stack), result.value);
        }
      } else if IsDivision(operand, c.offset) {
        OffsetWithin(operand, c.offset);
      }
    case Binary(_, _, _) => KindsForetellBinary(fmt, e, stack);
    case _ =>
  }

  lemma {:induction false} KindsForetellBinary(fmt: Format, e: Expr, stack: seq<Value>)
    requires e.Binary? && Ground(e)
    ensures Foretold(e, stack, Compute(fmt, e, stack))
    decreases e, 0
  {
    KindsForetell(fmt, e.left, stack);
    var c := Compute(fmt, e.left, stack);
    if c.Stuck? {
      if IsDivision(e.left, c.offset) {
        OffsetWithin(e.left, c.offset);
      }
      return;
    }
    KindsForetell(fmt, e.right, c.stack);
    var d := Compute(fmt, e.right, c.stack);
    if d.Stuck? {
      if IsDivision(e.right, d.offset) {
        OffsetWithin(e.right, d.offset);
      }
      return;
    }
    OperatorKinds(fmt, e.op, d.stack);
  }

  lemma OperatorKinds(fmt: Format, op: BinaryOp, stack: seq<Value>)
    ensures var result := MachineBinary(fmt, op, Top(Rest(stack)), Top(stack));
            if result.Some? then AfterOperator(op, KindsOf(stack)) == Some(KindsOf(Rest(Rest(stack)) + [result.value]))
            else AfterOperator(op, KindsOf(stack)).None? || (op.Div? && ByZero(stack))
  {
    KindsOfParts(stack);
    KindsOfParts(Rest(stack));
    BinaryKindIs(fmt, op, Top(Rest(stack)), Top(stack));
    var result := MachineBinary(fmt, op, Top(Rest(stack)), Top(stack));
    if result.Some? {
      KindsOfPushed(Rest(Rest(stack)), result.value);
    }
  }

  /** A missing operand is taken from below, and over a stack that is not empty it shows in the height. */
  lemma {:induction false} HeightShowsMissing(e: Expr, kinds: seq<Kind>)
    requires Ground(e) && Kinds(e, kinds).Some?
    ensures var height := |Kinds(e, kinds).value|;
            && height <= |kinds| + 1 && (kinds != [] ==> height > 0)
            && (kinds != [] && Missing(e) > 0 ==> height <= |kinds|)
    decreases e
  {
    match e
    case Unary(_, operand) => HeightShowsMissing(operand, kinds);
    case Binary(l, _, r) =>
      HeightShowsMissing(l, kinds);
      HeightShowsMissing(r, Kinds(l, kinds).value);
    case _ =>
  }

  /** With every operand in its place the kinds of a passed expression fit, over any stack. */
  lemma {:induction false} AllOperandsFit(e: Expr, kinds: seq<Kind>)
    requires Ground(e) && Missing(e) == 0 && Check(e).errors == 0
    ensures KindsFit(e, kinds)
    decreases e
  {
    match e
    case Unary(_, operand) =>
      AllOperandsFit(operand, kinds);
      var k := TypeKind(Check(operand).t).value;
      assert TopKind(kinds + [k]) == k && RestKinds(kinds + [k]) == kinds;
    case Binary(l, op, r) =>
      var j, k := TypeKind(Check(l).t), TypeKind(Check(r).t);
      AllOperandsFit(l, kinds);
      AllOperandsFit(r, kinds + [j.value]);
      var d := kinds + [j.value] + [k.value];
      assert TopKind(d) == k.value && RestKinds(d) == kinds + [j.value];
      assert TopKind(RestKinds(d)) == j.value && RestKinds(RestKinds(d)) == kinds;
      TypesGiveKinds(op, Check(l).t, Check(r).t);
    case _ =>
  }

  lemma TypesGiveKinds(op: BinaryOp, l: Type, r: Type)
    requires TypeKind(l).Some? && TypeKind(r).Some? && BinaryType(op, l, r).Some?
    ensures TypeKind(BinaryType(op, l, r).value).Some?
    ensures BinaryKind(op, TypeKind(l).value, TypeKind(r).value) == TypeKind(BinaryType(op, l, r).value)
  {
    match op
    case Add =>
    case _ =>
  }

  /** The checker says nothing about a missing operand, and there its silence promises less.  Over any
      stack the code of an expression that it passes pushes exactly one value of the type given if and
      only if the kinds fit and there is no division by zero.  The kinds fit where no operand is
      missing; over a stack that is not empty they fit nowhere else. */
  lemma SilenceIsSoundExactlyWhenKindsFit(p: Program, fmt: Format, e: Expr, syms: Symbols, st: State)
    requires Ground(e) && Check(e).errors == 0 && Holds(p, st.pc, ItemsE(e, syms))
    ensures Delivers(p, fmt, st, |ItemsE(e, syms)|, Check(e).t)
            <==> KindsFit(e, KindsOf(st.stack)) && !DividesByZero(p, fmt, st, |ItemsE(e, syms)|)
    ensures Missing(e) == 0 ==> KindsFit(e, KindsOf(st.stack))
    ensures st.stack != [] && KindsFit(e, KindsOf(st.stack)) ==> Missing(e) == 0
  {
    var size := |ItemsE(e, syms)|;
    SizeIsLength(e, syms);
    if Missing(e) == 0 {
      AllOperandsFit(e, KindsOf(st.stack));
    } else if KindsFit(e, KindsOf(st.stack)) {
      HeightShowsMissing(e, KindsOf(st.stack));
    }
    if Delivers(p, fmt, st, size, Check(e).t) {
      DeliveredFits(p, fmt, e, syms, st);
    } else if KindsFit(e, KindsOf(st.stack)) {
      if Missing(e) == 0 {
        SilenceIsSound(p, fmt, e, syms, st);
      } else {
        FitDelivers(p, fmt, e, syms, st);
      }
    }
  }

  lemma DeliveredFits(p: Program, fmt: Format, e: Expr, syms: Symbols, st: State)
    requires Ground(e) && Holds(p, st.pc, ItemsE(e, syms)) && Delivers(p, fmt, st, Size(e), Check(e).t)
    ensures KindsFit(e, KindsOf(st.stack)) && !DividesByZero(p, fmt, st, Size(e))
  {
    var size := Size(e);
    CodeComputes(p, fmt, e, syms, st);
    var v :| HasType(v, Check(e).t) && Run(p, fmt, st, size) == Next(Moved(st, size, st.stack + [v]));
    var c := Compute(fmt, e, st.stack);
    GoesIs(p, fmt, st, if c.Left? then size else c.offset, c.stack);
    if c.Stuck? {
      RefusesIs(p, fmt, Moved(st, c.offset, c.stack));
      StuckStops(p, fmt, st, size, c.offset, c.stack);
    }
    KindsForetell(fmt, e, st.stack);
    KindsOfPushed(st.stack, v);
    if DividesByZero(p, fmt, st, size) {
      var k: nat, stack :| k < size && Run(p, fmt, st, k) == Next(Moved(st, k, stack))
                           && Step(p, fmt, Moved(st, k, stack)).Fault?;
      StuckStops(p, fmt, st, size, k, stack);
    }
  }

  lemma FitDelivers(p: Program, fmt: Format, e: Expr, syms: Symbols, st: State)
    requires Ground(e) && Holds(p, st.pc, ItemsE(e, syms)) && st.stack == [] && KindsFit(e, [])
    ensures Delivers(p, fmt, st, Size(e), Check(e).t) || DividesByZero(p, fmt, st, Size(e))
  {
    CodeComputes(p, fmt, e, syms, st);
    KindsForetell(fmt, e, st.stack);
    assert KindsOf(st.stack) == [];
    var c := Compute(fmt, e, st.stack);
    GoesIs(p, fmt, st, if c.Left? then Size(e) else c.offset, c.stack);
    if c.Stuck? {
      RefusesIs(p, fmt, Moved(st, c.offset, c.stack));
      DivisionIsThere(p, e, syms, st.pc, c.offset);
    } else {
      assert |KindsOf(c.stack)| == 1 && KindsOf(c.stack)[0] == KindOf(c.stack[0]);
      assert c.stack == st.stack + [c.stack[0]] && HasType(c.stack[0], Check(e).t);
    }
  }

  lemma StuckStops(p: Program, fmt: Format, st: State, size: nat, k: nat, stack: seq<Value>)
    requires k < size && Run(p, fmt, st, k) == Next(Moved(st, k, stack)) && Step(p, fmt, Moved(st, k, stack)).Fault?
    ensures !Run(p, fmt, st, size).Next?
  {
    RunAppend(p, fmt, st, k, Moved(st, k, stack), size - k);
  }

  /** `"a" == "b" +` passes as a boolean with an operand missing, and run from an empty stack it
      leaves one boolean: the addition takes the two texts, the comparison their sum and nil. */
  lemma MissingOperandPassesAndDelivers(p: Program, fmt: Format, syms: Symbols, st: State)
    requires Holds(p, st.pc, ItemsE(Binary(Text("a"), Eq, Binary(Text("b"), Add, Absent)), syms)) && st.stack == []
    ensures var e := Binary(Text("a"), Eq, Binary(Text("b"), Add, Absent));
            && Check(e) == Verdict(BoolType, 0) && Missing(e) == 1
            && Delivers(p, fmt, st, |ItemsE(e, syms)|, BoolType)
  {
    var e := Binary(Text("a"), Eq, Binary(Text("b"), Add, Absent));
    assert Check(e.right) == Verdict(StringType, 0) && Missing(e.right) == 1;
    ComparesTheSum(fmt, "a", "b");
    CodeComputes(p, fmt, e, syms, st);
    SizeIsLength(e, syms);
    GoesIs(p, fmt, st, Size(e), [Bool(false)]);
    assert st.stack + [Bool(false)] == [Bool(false)] && HasType(Bool(false), BoolType);
  }

  lemma {:induction false} ComparesTheSum(fmt: Format, s: string, t: string)
    ensures Compute(fmt, Binary(Text(s), Eq, Binary(Text(t), Add, Absent)), []) == Left([Bool(false)])
  {
    var a, ab := Str(s), Str(s + t);
    assert [] + [a] == [a];
    TakesTheOther(fmt, t, a, Add, ab);
    assert Rest([ab]) == [] && Top([]) == Nil && Top([ab]) == ab;
    Combines(fmt, Text(s), Eq, Binary(Text(t), Add, Absent), [], [a], [ab], Bool(false));
    assert [] + [Bool(false)] == [Bool(false)];
  }

  lemma {:induction false} Combines(fmt: Format, l: Expr, op: BinaryOp, r: Expr, stack: seq<Value>, mid: seq<Value>,
                                    both: seq<Value>, v: Value)
    requires Compute(fmt, l, stack) == Left(mid) && Compute(fmt, r, mid) == Left(both)
    requires MachineBinary(fmt, op, Top(Rest(both)), Top(both)) == Some(v)
    ensures Compute(fmt, Binary(l, op, r), stack) == Left(Rest(Rest(both)) + [v])
  {
  }

  /** With its right operand missing an operator takes the value below as its left one. */
  lemma TakesTheOther(fmt: Format, s: string, below: Value, op: BinaryOp, result: Value)
    requires MachineBinary(fmt, op, below, Str(s)) == Some(result)
    ensures Compute(fmt, Binary(Text(s), op, Absent), [below]) == Left([result])
  {
    PushedTop([below], Str(s));
    assert Top([below]) == below && Rest([below]) == [] && [] + [result] == [result];
    assert Compute(fmt, Text(s), [below]) == Left([below] + [Str(s)]);
  }

  /** `1 +` passes as a string; run from an empty stack it stops at the addition. */
  lemma MissingOperandPassesAndFails(p: Program, fmt: Format, syms: Symbols, st: State)
    requires Holds(p, st.pc, ItemsE(Binary(Number(1.0), Add, Absent), syms)) && st.stack == []
    ensures Check(Binary(Number(1.0), Add, Absent)) == Verdict(StringType, 0)
    ensures Run(p, fmt, st, 1) == Next(Moved(st, 1, [Num(1.0)]))
    ensures st.pc + 1 < |p.instrs| && p.instrs[st.pc + 1] == Operate(Add)
    ensures Step(p, fmt, Moved(st, 1, [Num(1.0)])).Fault?
  {
    var e, one := Binary(Number(1.0), Add, Absent), [Num(1.0)];
    assert ItemsE(e, syms) == ItemsE(e.left, syms) + ItemsE(e.right, syms) + [Exact(Operate(Add))];
    assert ItemsE(e.left, syms) == [Push(Num(1.0))] && ItemsE(e.right, syms) == [];
    SplitLoop(p, st.pc, [Push(Num(1.0))], [], Exact(Operate(Add)));
    assert [] + one == one;
    RunsOne(p, fmt, st, Push(Num(1.0)), Left(one));
    GoesIs(p, fmt, st, 1, one);
    AdditionFails(p, fmt, Moved(st, 1, one));
  }

  lemma AdditionFails(p: Program, fmt: Format, st: State)
    requires Holds(p, st.pc, [Exact(Operate(Add))]) && st.stack == [Num(1.0)]
    ensures st.pc < |p.instrs| && p.instrs[st.pc] == Operate(Add) && Step(p, fmt, st).Fault?
  {
    HoldsOne(p, st.pc, Exact(Operate(Add)));
    assert Rest(st.stack) == [] && Top([]) == Nil;
    assert MachineBinary(fmt, Add, Nil, Num(1.0)).None?;
  }
}
