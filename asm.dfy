/**
 * The assembly tree and the lowering from the syntax tree into it.
 *
 * Lowering is total: `return k;` becomes `movl $k, %eax` followed by
 * `ret`. Two partners pin it down: `Raise`, which reads a syntax tree back
 * out of an assembly tree and inverts the lowering, and `Exec`, a
 * one-register machine under which the lowered code returns `k` in `%eax`.
 */
module Asm {
  import opened Wrappers
  import opened Decimal
  import Ast

  datatype Operand = Immediate(value: i32) | Register
  datatype Instruction = Mov(src: Operand, dst: Operand) | Ret
  datatype Function = Function(name: string, instructions: seq<Instruction>)
  datatype Program = Program(func: Function)

  // ---------------------------------------------------------------
  // A machine with the single register %eax
  // ---------------------------------------------------------------

  /** The value an operand reads, given the contents of %eax. */
  function Load(op: Operand, eax: i32): i32 {
    match op
    case Immediate(k) => k
    case Register => eax
  }

  /**
   * Runs instructions from the first on: `Some` of %eax at the first
   * `ret`; `None` when control falls off the end or a `mov` writes to an
   * immediate.
   */
  function Exec(instructions: seq<Instruction>, eax: i32): Option<i32>
    decreases |instructions|
  {
    if instructions == [] then None
    else
      match instructions[0]
      case Ret => Some(eax)
      case Mov(src, Register) => Exec(instructions[1..], Load(src, eax))
      case Mov(_, Immediate(_)) => None
  }

  // ---------------------------------------------------------------
  // Lowering and its inverse
  // ---------------------------------------------------------------

  /** Reads a statement back from the instructions that lower it. */
  function RaiseStmt(instructions: seq<Instruction>): Option<Ast.Stmt> {
    if |instructions| == 2 && instructions[0].Mov? && instructions[0].src.Immediate?
       && instructions[0].dst == Register && instructions[1] == Ret
    then Some(Ast.Stmt(Ast.Expr(instructions[0].src.value)))
    else None
  }

  function RaiseFunction(f: Function): Option<Ast.Function> {
    match RaiseStmt(f.instructions)
    case None => None
    case Some(stmt) => Some(Ast.Function(f.name, stmt))
  }

  function RaiseProgram(p: Program): Option<Ast.Program> {
    match RaiseFunction(p.func)
    case None => None
    case Some(f) => Some(Ast.Program(f))
  }

  /**
   * `return k;` lowers to a non-empty list that ends with `ret`, that
   * returns `k` in %eax whatever %eax held before, and that reads back as
   * the same statement.
   */
  function LowerStmt(stmt: Ast.Stmt): (instructions: seq<Instruction>)
    ensures |instructions| > 0 && instructions[|instructions| - 1] == Ret
    ensures forall eax: i32 :: Exec(instructions, eax) == Some(stmt.expr.value)
    ensures RaiseStmt(instructions) == Some(stmt)
  {
    [Mov(Immediate(stmt.expr.value), Register), Ret]
  }

  /** The function keeps its name verbatim, and its code returns the statement's value. */
  function LowerFunction(f: Ast.Function): (r: Function)
    ensures r.name == f.ident
    ensures |r.instructions| > 0 && r.instructions[|r.instructions| - 1] == Ret
    ensures forall eax: i32 :: Exec(r.instructions, eax) == Some(f.stmt.expr.value)
    ensures RaiseFunction(r) == Some(f)
  {
    Function(f.ident, LowerStmt(f.stmt))
  }

  /** A program lowers its one function and nothing else; raising it gives the program back. */
  function LowerProgram(p: Ast.Program): (r: Program)
    ensures r.func.name == p.func.ident
    ensures forall eax: i32 :: Exec(r.func.instructions, eax) == Some(p.func.stmt.expr.value)
    ensures RaiseProgram(r) == Some(p)
  {
    Program(LowerFunction(p.func))
  }

  /**
   * Raising succeeds only on what lowering produces: together with
   * `LowerProgram`'s contract, lowering and raising are inverse bijections
   * between syntax trees and the assembly trees of that form.
   */
  lemma RaiseOnlyLowered(a: Program, p: Ast.Program)
    requires RaiseProgram(a) == Some(p)
    ensures a == LowerProgram(p)
  {
    var code := a.func.instructions;
    assert code == [code[0], code[1]];
    assert code[0] == Mov(Immediate(p.func.stmt.expr.value), Register);
  }

  /** Lowering loses nothing: different programs lower to different assembly. */
  lemma LowerInjective(p: Ast.Program, q: Ast.Program)
    requires LowerProgram(p) == LowerProgram(q)
    ensures p == q
  {
    assert Some(p) == RaiseProgram(LowerProgram(p)) == RaiseProgram(LowerProgram(q)) == Some(q);
  }
}
