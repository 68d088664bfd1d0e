/**
 * The x86-64 emitter: GNU assembler text for an assembly tree, appended to
 * an output buffer.
 *
 * `ProgramText` and the functions under it say what text each part of the
 * tree becomes; the `Codegen` class is the source's buffer-appending
 * implementation, and each of its methods is proved to append exactly that
 * text to what the buffer already held.
 */
module CodegenX86 {
  import opened Decimal
  import Asm

  const Indent: string := "    "
  const StackNote: string := Indent + ".section .note.GNU-stack,\"\",@progbits\n"

  // ---------------------------------------------------------------
  // The text of each part of the tree
  // ---------------------------------------------------------------

  /** `$` and the decimal value of an immediate, or `%eax`: one token with no comma and no line break. */
  function OperandText(op: Asm.Operand): (s: string)
    ensures |s| > 0 && '\n' !in s && ',' !in s
    ensures s[0] == '$' <==> op.Immediate?
  {
    match op
    case Immediate(i) => "$" + Signed(i)
    case Register => "%eax"
  }

  /** An instruction's line without its line break: indented, and holding no other line break. */
  function InstructionLine(inst: Asm.Instruction): (s: string)
    ensures |s| > |Indent| && s[..|Indent|] == Indent && '\n' !in s
  {
    match inst
    case Mov(src, dst) => Indent + "movl " + OperandText(src) + ", " + OperandText(dst)
    case Ret => Indent + "ret"
  }

  /** Each instruction on a line of its own. */
  function InstructionText(inst: Asm.Instruction): string {
    InstructionLine(inst) + "\n"
  }

  /** The instructions' lines, in order. */
  function InstructionsText(instructions: seq<Asm.Instruction>): string
    decreases |instructions|
  {
    if instructions == [] then ""
    else InstructionText(instructions[0]) + InstructionsText(instructions[1..])
  }

  /** The `.globl` directive, the label, the instructions and a blank line. */
  function FunctionText(f: Asm.Function): string {
    Indent + ".globl " + f.name + "\n" + f.name + ":\n" + InstructionsText(f.instructions) + "\n"
  }

  /** The function, then the note that the stack is not executable. */
  function ProgramText(p: Asm.Program): string {
    FunctionText(p.func) + StackNote
  }

  // ---------------------------------------------------------------
  // Strings
  // ---------------------------------------------------------------

  lemma Assoc(a: string, b: string, c: string)
    ensures a + (b + c) == (a + b) + c
  {
  }

  lemma Nest4(a: string, b: string, c: string, d: string)
    ensures a + b + c + d == a + (b + (c + d))
  {
    Assoc(b, c, d);
    Assoc(a, b, c + d);
    Assoc(a + b, c, d);
  }

  lemma {:induction false} Nest8(a: string, b: string, c: string, d: string, e: string, f: string, g: string, h: string)
    ensures a + b + c + d + e + f + g + h == a + (b + (c + (d + (e + (f + (g + h))))))
  {
    Assoc(g, h, "");
    Assoc(f, g, h);
    Assoc(e, f, g + h);
    Assoc(d, e, f + (g + h));
    Assoc(c, d, e + (f + (g + h)));
    Assoc(b, c, d + (e + (f + (g + h))));
    Assoc(a, b, c + (d + (e + (f + (g + h)))));
    Assoc(a + b, c, d + (e + (f + (g + h))));
    Assoc(a + b + c, d, e + (f + (g + h)));
    Assoc(a + b + c + d, e, f + (g + h));
    Assoc(a + b + c + d + e, f, g + h);
    Assoc(a + b + c + d + e + f, g, h);
  }

  lemma PrefixCancel(a: string, b: string, c: string)
    requires a + b == a + c
    ensures b == c
  {
    assert b == (a + b)[|a|..];
    assert c == (a + c)[|a|..];
  }

  lemma SuffixCancel(a: string, b: string, c: string)
    requires a + c == b + c
    ensures a == b
  {
    assert a == (a + c)[..|a|];
    assert b == (b + c)[..|b|];
  }

  /** A text is cut at the first `x` in one way only: the part before it is determined, and so is the rest. */
  lemma SplitAt(a: string, b: string, c: string, d: string, x: char)
    requires x !in a && x !in c
    requires a + ([x] + b) == c + ([x] + d)
    ensures a == c && b == d
  {
    var t := a + ([x] + b);
    assert t[|a|] == x;
    assert t[|c|] == x;
    assert a == t[..|a|];
    assert c == (c + ([x] + d))[..|c|];
    assert b == t[|a| + 1..];
    assert d == (c + ([x] + d))[|c| + 1..];
  }

  /** The number of line breaks in `s`. */
  function Newlines(s: string): nat
    decreases |s|
  {
    if s == [] then 0
    else (if s[0] == '\n' then 1 else 0) + Newlines(s[1..])
  }

  lemma {:induction false} NewlinesAppend(a: string, b: string)
    ensures Newlines(a + b) == Newlines(a) + Newlines(b)
    decreases |a|
  {
    if a == [] {
      assert a + b == b;
    } else {
      assert (a + b)[1..] == a[1..] + b;
      NewlinesAppend(a[1..], b);
    }
  }

  lemma {:induction false} NewlinesOfNone(s: string)
    requires '\n' !in s
    ensures Newlines(s) == 0
    decreases |s|
  {
    if s != [] {
      assert forall c :: c in s[1..] ==> c in s;
      NewlinesOfNone(s[1..]);
    }
  }

  // ---------------------------------------------------------------
  // What the text says
  // ---------------------------------------------------------------

  /** Each instruction is emitted on a line of its own: the text has as many lines as there are instructions. */
  lemma {:induction false} InstructionsLines(instructions: seq<Asm.Instruction>)
    ensures Newlines(InstructionsText(instructions)) == |instructions|
    decreases |instructions|
  {
    if instructions != [] {
      var line := InstructionLine(instructions[0]);
      NewlinesAppend(line + "\n", InstructionsText(instructions[1..]));
      NewlinesAppend(line, "\n");
      NewlinesOfNone(line);
      InstructionsLines(instructions[1..]);
    }
  }

  /** The text of a list of instructions ends with the last one's line, so it can be written out in order. */
  lemma {:induction false} InstructionsTextSnoc(instructions: seq<Asm.Instruction>, inst: Asm.Instruction)
    ensures InstructionsText(instructions + [inst]) == InstructionsText(instructions) + InstructionText(inst)
    decreases |instructions|
  {
    var all := instructions + [inst];
    if instructions == [] {
      assert all[1..] == [];
    } else {
      assert all[0] == instructions[0] && all[1..] == instructions[1..] + [inst];
      InstructionsTextSnoc(instructions[1..], inst);
      Assoc(InstructionText(instructions[0]), InstructionsText(instructions[1..]), InstructionText(inst));
    }
  }

  /** Writing one more instruction of a list extends the text of the prefix written so far by its line. */
  lemma InstructionsTextPrefix(instructions: seq<Asm.Instruction>, k: nat)
    requires k < |instructions|
    ensures InstructionsText(instructions[..k + 1]) == InstructionsText(instructions[..k]) + InstructionText(instructions[k])
  {
    assert instructions[..k + 1] == instructions[..k] + [instructions[k]];
    InstructionsTextSnoc(instructions[..k], instructions[k]);
  }

  /** Different operands are written differently. */
  lemma OperandTextInjective(a: Asm.Operand, b: Asm.Operand)
    requires OperandText(a) == OperandText(b)
    ensures a == b
  {
    if a.Immediate? && b.Immediate? {
      assert Signed(a.value) == OperandText(a)[1..] == OperandText(b)[1..] == Signed(b.value);
      SignedInjective(a.value, b.value);
    }
  }

  /** Different instructions are written differently. */
  lemma InstructionLineInjective(a: Asm.Instruction, b: Asm.Instruction)
    requires InstructionLine(a) == InstructionLine(b)
    ensures a == b
  {
    assert InstructionLine(a)[4] == if a.Mov? then 'm' else 'r';
    assert InstructionLine(b)[4] == if b.Mov? then 'm' else 'r';
    if a.Mov? && b.Mov? {
      var head := Indent + "movl ";
      var ta, tb := OperandText(a.dst), OperandText(b.dst);
      Nest4(head, OperandText(a.src), ", ", ta);
      Nest4(head, OperandText(b.src), ", ", tb);
      PrefixCancel(head, OperandText(a.src) + (", " + ta), OperandText(b.src) + (", " + tb));
      assert ", " == [','] + " ";
      Assoc([','], " ", ta);
      Assoc([','], " ", tb);
      SplitAt(OperandText(a.src), " " + ta, OperandText(b.src), " " + tb, ',');
      PrefixCancel(" ", ta, tb);
      OperandTextInjective(a.src, b.src);
      OperandTextInjective(a.dst, b.dst);
    }
  }

  /** Different instruction lists are written differently. */
  lemma {:induction false} InstructionsTextInjective(xs: seq<Asm.Instruction>, ys: seq<Asm.Instruction>)
    requires InstructionsText(xs) == InstructionsText(ys)
    ensures xs == ys
    decreases |xs|
  {
    if xs == [] || ys == [] {
      InstructionsLines(xs);
      InstructionsLines(ys);
    } else {
      assert xs == [xs[0]] + xs[1..] && ys == [ys[0]] + ys[1..];
      var la, lb := InstructionLine(xs[0]), InstructionLine(ys[0]);
      Assoc(la, "\n", InstructionsText(xs[1..]));
      Assoc(lb, "\n", InstructionsText(ys[1..]));
      SplitAt(la, InstructionsText(xs[1..]), lb, InstructionsText(ys[1..]), '\n');
      InstructionLineInjective(xs[0], ys[0]);
      InstructionsTextInjective(xs[1..], ys[1..]);
    }
  }

  /**
   * The emitted text determines the program: as long as the function's
   * name holds no line break, two programs with the same text are the same
   * program, so nothing of the tree is lost on the way to the assembler.
   */
  lemma ProgramTextInjective(a: Asm.Program, b: Asm.Program)
    requires '\n' !in a.func.name && '\n' !in b.func.name
    requires ProgramText(a) == ProgramText(b)
    ensures a == b
  {
    var na, nb := a.func.name, b.func.name;
    var ia, ib := InstructionsText(a.func.instructions), InstructionsText(b.func.instructions);
    var ra, rb := na + (":\n" + (ia + ("\n" + StackNote))), nb + (":\n" + (ib + ("\n" + StackNote)));
    ProgramTextNested(a);
    ProgramTextNested(b);
    PrefixCancel(Indent + ".globl ", na + ("\n" + ra), nb + ("\n" + rb));
    SplitAt(na, ra, nb, rb, '\n');
    PrefixCancel(na, ":\n" + (ia + ("\n" + StackNote)), ":\n" + (ib + ("\n" + StackNote)));
    PrefixCancel(":\n", ia + ("\n" + StackNote), ib + ("\n" + StackNote));
    SuffixCancel(ia, ib, "\n" + StackNote);
    InstructionsTextInjective(a.func.instructions, b.func.instructions);
  }

  lemma ProgramTextNested(p: Asm.Program)
    ensures ProgramText(p)
            == Indent + ".globl " + (p.func.name + ("\n" + (p.func.name + (":\n"
               + (InstructionsText(p.func.instructions) + ("\n" + StackNote))))))
  {
    Nest8(Indent + ".globl ", p.func.name, "\n", p.func.name, ":\n", InstructionsText(p.func.instructions), "\n", StackNote);
  }

  /** The emitted text has a line per instruction and four more: `.globl`, the label, the blank line and the stack note. */
  lemma ProgramLines(p: Asm.Program)
    requires '\n' !in p.func.name
    ensures Newlines(ProgramText(p)) == |p.func.instructions| + 4
  {
    var n, i := p.func.name, InstructionsText(p.func.instructions);
    var g := Indent + ".globl ";
    NewlinesAppend(g + n + "\n" + n + ":\n" + i + "\n", StackNote);
    NewlinesAppend(g + n + "\n" + n + ":\n" + i, "\n");
    NewlinesAppend(g + n + "\n" + n + ":\n", i);
    NewlinesAppend(g + n + "\n" + n, ":\n");
    NewlinesAppend(g + n + "\n", n);
    NewlinesAppend(g + n, "\n");
    NewlinesAppend(g, n);
    NewlinesOfNone(g);
    NewlinesOfNone(n);
    InstructionsLines(p.func.instructions);
    LineBreaks();
  }

  lemma LineBreaks()
    ensures Newlines("\n") == 1 && Newlines(":\n") == 1 && Newlines(StackNote) == 1
  {
    assert "\n"[1..] == [];
    assert ":\n"[1..] == "\n";
    var note := Indent + ".section .note.GNU-stack,\"\",@progbits";
    Assoc(Indent, ".section .note.GNU-stack,\"\",@progbits", "\n");
    assert StackNote == note + "\n";
    NewlinesAppend(note, "\n");
    NewlinesOfNone(note);
  }

  /** Appending a function's text piece by piece, as the emitter does, appends `FunctionText`. */
  lemma FunctionTextAfter(start: string, f: Asm.Function)
    ensures start + Indent + ".globl " + f.name + "\n" + f.name + ":\n" + InstructionsText(f.instructions) + "\n"
            == start + FunctionText(f)
  {
    var g1 := Indent + ".globl ";
    var g2 := g1 + f.name;
    var g3 := g2 + "\n";
    var g4 := g3 + f.name;
    var g5 := g4 + ":\n";
    var g6 := g5 + InstructionsText(f.instructions);
    Assoc(start, Indent, ".globl ");
    Assoc(start, g1, f.name);
    Assoc(start, g2, "\n");
    Assoc(start, g3, f.name);
    Assoc(start, g4, ":\n");
    Assoc(start, g5, InstructionsText(f.instructions));
    Assoc(start, g6, "\n");
  }

  // ---------------------------------------------------------------
  // The emitter
  // ---------------------------------------------------------------

  class Codegen {
    const asm: Asm.Program
    var output: string

    constructor (asm: Asm.Program)
      ensures this.asm == asm && output == ""
    {
      this.asm := asm;
      output := "";
    }

    /** Emits the whole program, giving back the buffer. */
    method Emit() returns (r: string)
      modifies this
      ensures r == output == old(output) + ProgramText(asm)
    {
      EmitProgram(asm);
      r := output;
    }

    method EmitProgram(program: Asm.Program)
      modifies this
      ensures output == old(output) + ProgramText(program)
    {
      EmitFunction(program.func);
      output := output + StackNote;
    }

    method EmitFunction(f: Asm.Function)
      modifies this
      ensures output == old(output) + FunctionText(f)
    {
      ghost var start := output;
      output := output + Indent + ".globl " + f.name + "\n";
      output := output + f.name + ":\n";
      ghost var header := output;
      for k := 0 to |f.instructions|
        invariant output == header + InstructionsText(f.instructions[..k])
      {
        EmitInstruction(f.instructions[k]);
        InstructionsTextPrefix(f.instructions, k);
        Assoc(header, InstructionsText(f.instructions[..k]), InstructionText(f.instructions[k]));
      }
      assert f.instructions[..|f.instructions|] == f.instructions;
      output := output + "\n";
      FunctionTextAfter(start, f);
    }

    method EmitInstruction(inst: Asm.Instruction)
      modifies this
      ensures output == old(output) + InstructionText(inst)
    {
      ghost var start := output;
      match inst {
        case Mov(src, dst) =>
          output := output + Indent + "movl ";
          EmitOperand(src);
          output := output + ", ";
          EmitOperand(dst);
          output := output + "\n";
          ghost var p1 := Indent + "movl ";
          ghost var p2 := p1 + OperandText(src);
          ghost var p3 := p2 + ", ";
          ghost var p4 := p3 + OperandText(dst);
          Assoc(start, Indent, "movl ");
          Assoc(start, p1, OperandText(src));
          Assoc(start, p2, ", ");
          Assoc(start, p3, OperandText(dst));
          Assoc(start, p4, "\n");
        case Ret =>
          output := output + Indent + "ret\n";
          Assoc(start, Indent, "ret\n");
          Assoc(Indent, "ret", "\n");
      }
    }

    method EmitOperand(op: Asm.Operand)
      modifies this
      ensures output == old(output) + OperandText(op)
    {
      match op {
        case Immediate(i) =>
          Assoc(output, "$", Signed(i));
          output := output + "$" + Signed(i);
        case Register =>
          output := output + "%eax";
      }
    }
  }
}
