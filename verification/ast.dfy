/** The syntax tree the evaluator walks: one constructor per node kind the
    evaluator distinguishes. The parser that builds it is not part of this
    model. */
module Ast {
  import opened Basics
  import opened Int64

  datatype Expr =
    | IntLit(number: int64)
    | StrLit(text: Bytes)
    | BoolLit(truth: bool)
    | NullLit
    | Ident(name: Bytes)
    | Prefix(op: Bytes, right: Expr)
    | Infix(left: Expr, op: Bytes, right: Expr)
    | Assign(target: Bytes, rhs: Expr)
    | If(cond: Expr, cons: Block, alt: Option<Block>)
      /** A function literal; a non-empty name also binds the function. */
    | FnLit(fname: Bytes, params: seq<Bytes>, body: Block)
    | Call(callee: Expr, args: seq<Expr>)
    | ArrayLit(elements: seq<Expr>)
    | Index(collection: Expr, index: Expr)
    | MapLit(entries: seq<Entry>)

  /** One `key: value` entry of a map literal. */
  datatype Entry = Entry(key: Expr, value: Expr)

  datatype Stmt =
    | Let(name: Bytes, value: Expr)
    | Const(name: Bytes, value: Expr)
    | Return(result: Expr)
    | While(cond: Expr, body: Block)
    | For(init: Option<Stmt>, test: Option<Expr>, update: Option<Stmt>, body: Block)
    | Break
    | Continue
    | ExprStmt(expr: Expr)

  datatype Block = Block(stmts: seq<Stmt>)

  datatype Program = Program(stmts: seq<Stmt>)
}
