// The syntax trees that the parser builds and every later pass walks.
module Ast {
  datatype Option<+T> = None | Some(value: T)

  datatype BinaryOp = Add | Sub | Mul | Div | Eq | Ne | Gt | Lt | Gte | Lte | And | Or

  datatype UnaryOp = Not | Neg

  /** An expression node.  `Absent` stands for a NULL child, which the parser leaves behind
      when the right operand of an operator is missing. */
  datatype Expr =
    | Absent
    | Number(number: real)
    | Text(text: string)
    | Boolean(boolean: bool)
    | Ident(name: string, version: int, lastUse: bool)
    | Unary(unaryOp: UnaryOp, operand: Expr)
    | Binary(left: Expr, op: BinaryOp, right: Expr)
    | Call(callee: string, arguments: seq<Expr>)

  /** A statement node.  `escapes` is the verdict of escape analysis on a declaration. */
  datatype Stmt =
    | Let(variable: string, value: Expr, escapes: bool)
    | Assign(target: string, source: Expr)
    | Print(printed: Expr)
    | If(condition: Expr, thenBranch: Stmt, elseBranch: Option<Stmt>)
    | While(guard: Expr, loopBody: Stmt)
    | For(init: Option<Stmt>, test: Option<Expr>, increment: Option<Stmt>, forBody: Stmt)
    | Block(statements: seq<Stmt>)
    | Return(result: Option<Expr>)
    | Function(functionName: string, parameters: seq<string>, functionBody: Stmt)
    | Bare(expression: Expr)
}
