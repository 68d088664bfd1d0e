/**
 * The syntax tree the parser builds. Rust's field `function` is `func`
 * here and the literal's `int` is `value`, both names being Dafny keywords.
 */
module Ast {
  import opened Decimal

  datatype Program = Program(func: Function)

  datatype Function = Function(ident: string, stmt: Stmt)

  /** The only statement: `return <expr>;`. */
  datatype Stmt = Stmt(expr: Expr)

  /** The only expression: an integer literal. */
  datatype Expr = Expr(value: i32)
}
