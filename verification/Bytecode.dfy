// Compiled programs and the meaning of one machine step.
module Bytecode {
  import opened Ast
  import opened Values
  import Scopes

  const REGISTERS: nat := 32
  const FRAME_SLOTS: nat := Scopes.FRAME_SLOTS

  datatype Instr =
    | LoadConst(k: nat)
    | LoadVar(v: nat)
    | StoreVar(v: nat)
    | Operate(op: BinaryOp)
    | Negate(unaryOp: UnaryOp)
    | Jump(goal: nat)
    | JumpIfFalse(goal: nat)
    | CallFunction(v: nat)
    | ReturnValue
    | PrintTop
    | Pop
    | Release(v: nat)
    | StoreLocal(v: nat)
    | LoadLocal(v: nat)
    | Halt

  /** Instructions with the constant pool and the variable table they index. */
  datatype Program = Program(instrs: seq<Instr>, consts: seq<Value>, vars: seq<string>)

  type Registers = s: seq<Value> | |s| == REGISTERS witness seq(REGISTERS, _ => Nil)

  datatype State = State(pc: nat, stack: seq<Value>, locals: Registers, env: map<string, Value>, out: seq<Value>)

  /** `Fault` is an error return, `Halted` the stop at the end of the program. */
  datatype StepResult = Next(st: State) | Fault(st: State) | Halted(st: State)

  function Top(stack: seq<Value>): Value {
    if |stack| == 0 then Nil else stack[|stack| - 1]
  }

  function Rest(stack: seq<Value>): seq<Value> {
    if |stack| == 0 then [] else stack[..|stack| - 1]
  }

  function Lookup(env: map<string, Value>, name: string): Value {
    if name in env then env[name] else Nil
  }

  /** A frame holds `FRAME_SLOTS` names; binding a further one is silently dropped. */
  function Bind(env: map<string, Value>, name: string, v: Value): map<string, Value> {
    if name in env || |env| < FRAME_SLOTS then env[name := v] else env
  }

  function StepOperate(fmt: Format, op: BinaryOp, st: State): StepResult {
    var r := Top(st.stack);
    var l := Top(Rest(st.stack));
    var rest := Rest(Rest(st.stack));
    match MachineBinary(fmt, op, l, r)
    case None => Fault(st.(stack := rest))
    case Some(v) => Next(st.(pc := st.pc + 1, stack := rest + [v]))
  }

  function StepNegate(op: UnaryOp, st: State): StepResult {
    var v := Top(st.stack);
    var rest := Rest(st.stack);
    match op
    case Not => Next(st.(pc := st.pc + 1, stack := rest + [Bool(!Truthy(v))]))
    case Neg => if v.Num? then Next(st.(pc := st.pc + 1, stack := rest + [Num(-v.n)])) else Fault(st.(stack := rest))
  }

  function StepVariable(p: Program, i: Instr, st: State): StepResult
    requires i.LoadVar? || i.StoreVar? || i.Release? || i.StoreLocal? || i.LoadLocal?
  {
    match i
    case LoadVar(v) =>
      if v >= |p.vars| then Fault(st)
      else Next(st.(pc := st.pc + 1, stack := st.stack + [Lookup(st.env, p.vars[v])]))
    case StoreVar(v) =>
      if v >= |p.vars| then Fault(st)
      else Next(st.(pc := st.pc + 1, stack := Rest(st.stack), env := Bind(st.env, p.vars[v], Top(st.stack))))
    case LoadLocal(v) =>
      if v >= REGISTERS then Fault(st)
      else Next(st.(pc := st.pc + 1, stack := st.stack + [st.locals[v]]))
    case StoreLocal(v) =>
      if v >= REGISTERS then Fault(st)
      else Next(st.(pc := st.pc + 1, stack := Rest(st.stack), locals := st.locals[v := Top(st.stack)]))
    case Release(v) =>
      if v >= |p.vars| then Fault(st)
      else Next(st.(pc := st.pc + 1, env := st.env - {p.vars[v]},
                    locals := if v < REGISTERS then st.locals[v := Nil] else st.locals))
  }

  function Execute(p: Program, fmt: Format, i: Instr, st: State): StepResult {
    match i
    case LoadConst(k) =>
      if k >= |p.consts| then Fault(st) else Next(st.(pc := st.pc + 1, stack := st.stack + [p.consts[k]]))
    case Operate(op) => StepOperate(fmt, op, st)
    case Negate(op) => StepNegate(op, st)
    case Jump(goal) => Next(st.(pc := goal))
    case JumpIfFalse(goal) =>
      Next(st.(pc := if Truthy(Top(st.stack)) then st.pc + 1 else goal, stack := Rest(st.stack)))
    case PrintTop => Next(st.(pc := st.pc + 1, out := st.out + [Top(st.stack)]))
    case Pop => Next(st.(pc := st.pc + 1, stack := Rest(st.stack)))
    case CallFunction(_) => Next(st.(pc := st.pc + 1))
    case ReturnValue => Next(st.(pc := st.pc + 1))
    case Halt => Halted(st)
    case _ => StepVariable(p, i, st)
  }

  /** One call of the machine's step function. */
  function Step(p: Program, fmt: Format, st: State): StepResult {
    if st.pc >= |p.instrs| then Next(st) else Execute(p, fmt, p.instrs[st.pc], st)
  }

  /** `n` steps, cut short by a fault or a halt. */
  function Run(p: Program, fmt: Format, st: State, n: nat): StepResult
    decreases n
  {
    if n == 0 then Next(st)
    else
      match Step(p, fmt, st)
      case Next(st') => Run(p, fmt, st', n - 1)
      case stopped => stopped
  }

  ghost predicate Leads(p: Program, fmt: Format, a: State, n: nat, x: StepResult) {
    x == Run(p, fmt, a, n)
  }

  ghost predicate Reaches(p: Program, fmt: Format, a: State, b: State) {
    exists n: nat :: Run(p, fmt, a, n) == Next(b)
  }

  lemma {:induction false} RunAppend(p: Program, fmt: Format, a: State, m: nat, b: State, n: nat)
    requires Run(p, fmt, a, m) == Next(b)
    ensures Run(p, fmt, a, m + n) == Run(p, fmt, b, n)
    decreases m
  {
    if m > 0 {
      RunAppend(p, fmt, Step(p, fmt, a).st, m - 1, b, n);
    }
  }

  lemma ReachesTransitive(p: Program, fmt: Format, a: State, b: State, c: State)
    requires Reaches(p, fmt, a, b) && Reaches(p, fmt, b, c)
    ensures Reaches(p, fmt, a, c)
  {
    var m: nat :| Run(p, fmt, a, m) == Next(b);
    var n: nat :| Run(p, fmt, b, n) == Next(c);
    RunAppend(p, fmt, a, m, b, n);
    assert Run(p, fmt, a, m + n) == Next(c);
  }

  lemma ReachesStep(p: Program, fmt: Format, a: State)
    requires Step(p, fmt, a).Next?
    ensures Reaches(p, fmt, a, Step(p, fmt, a).st)
  {
    var b := Step(p, fmt, a).st;
    assert Run(p, fmt, b, 0) == Next(b);
    assert Run(p, fmt, a, 1) == Next(b);
  }

  lemma ReachesSelf(p: Program, fmt: Format, a: State)
    ensures Reaches(p, fmt, a, a)
  {
    assert Run(p, fmt, a, 0) == Next(a);
  }
}
