/**
 * What the pipeline yields on concrete inputs: the minimal program end to
 * end, and the boundary cases of the lexer and the parser.
 *
 * A concrete scan is taken one step at a time: generic lemmas say what one
 * step of `LexFrom` does given the lexeme at the position, and small
 * lemmas state where each lexeme of the example source sits.
 */
module Scenarios {
  import opened Wrappers
  import opened Decimal
  import opened Tokens
  import Lexing
  import Parsing
  import Ast
  import Asm
  import CodegenX86
  import Pipeline

  // ---------------------------------------------------------------
  // One step of the scan
  // ---------------------------------------------------------------

  /** A token on line 1, whose column is its start. */
  function OnFirstLine(kind: TokenKind, start: nat, end: nat): Token {
    Token(kind, SourceLocation((start, end), 1, start))
  }

  /** The word `w` at `i`, not followed by another word character, is scanned as one token. */
  lemma WordAt(s: string, i: nat, w: string)
    requires i + |w| <= |s| && s[i..i + |w|] == w
    requires i + |w| == |s| || !Lexing.IsWordChar(s[i + |w|])
    requires |w| > 0 && forall m | 0 <= m < |w| :: Lexing.IsWordChar(w[m])
    ensures Lexing.WordEnd(s, i) == i + |w|
  {
    assert forall m :: i <= m < i + |w| ==> s[m] == w[m - i];
    Lexing.RunEndUnique(s, i, i + |w|);
  }

  /** A keyword or identifier `w` at `i` is emitted as the kind it names. */
  lemma WordStep(s: string, i: nat, w: string)
    requires i + |w| <= |s| && s[i..i + |w|] == w
    requires i + |w| == |s| || !Lexing.IsWordChar(s[i + |w|])
    requires |w| > 0 && Lexing.IsIdentStart(w[0]) && forall m | 0 <= m < |w| :: Lexing.IsWordChar(w[m])
    ensures Lexing.StepAt(s, i) == Lexing.Emit(Lexing.WordKind(w), i + |w|)
  {
    WordAt(s, i, w);
    assert s[i] == w[0];
    var e := Lexing.WordEnd(s, i + 1);
    assert e == i + |w|;
    assert s[i..e] == w;
    assert Lexing.IsIdentStart(s[i]) && !Lexing.IsPunct(s[i]) && !Lexing.IsBlank(s[i]);
  }

  /** A run of digits `w` at `i` whose value fits is emitted as that constant. */
  lemma ConstantStep(s: string, i: nat, w: string)
    requires i + |w| <= |s| && s[i..i + |w|] == w
    requires i + |w| == |s| || !Lexing.IsWordChar(s[i + |w|])
    requires |w| > 0 && IsDigit(w[0]) && AllDigits(w) && Value(w) <= I32_MAX
    ensures Lexing.StepAt(s, i) == Lexing.Emit(Constant(Value(w)), i + |w|)
  {
    WordAt(s, i, w);
    assert s[i] == w[0];
    var e := Lexing.WordEnd(s, i + 1);
    assert e == i + |w|;
    assert s[i..e] == w;
    assert IsDigit(s[i]) && !Lexing.IsIdentStart(s[i]) && !Lexing.IsPunct(s[i]) && !Lexing.IsBlank(s[i]);
  }

  lemma EmitStep(s: string, i: nat, kind: TokenKind, end: nat, rest: seq<Token>)
    requires i < |s| && Lexing.StepAt(s, i) == Lexing.Emit(kind, end)
    requires Lexing.LexFrom(s, end, 1, 0) == Ok(rest)
    ensures Lexing.LexFrom(s, i, 1, 0) == Ok([OnFirstLine(kind, i, end)] + rest)
  {
  }

  lemma SkipStep(s: string, i: nat, rest: seq<Token>)
    requires i < |s| && s[i] == ' '
    requires Lexing.LexFrom(s, i + 1, 1, 0) == Ok(rest)
    ensures Lexing.LexFrom(s, i, 1, 0) == Ok(rest)
  {
  }

  // ---------------------------------------------------------------
  // The minimal program, end to end
  // ---------------------------------------------------------------

  const Minimal: string := "int main(void){return 42;}"

  lemma MinimalInt() ensures Minimal[0..3] == "int" {}
  lemma MinimalMain() ensures Minimal[4..8] == "main" {
    assert Minimal[4..8] == [Minimal[4], Minimal[5], Minimal[6], Minimal[7]];
  }
  lemma MinimalVoid() ensures Minimal[9..13] == "void" {}
  lemma MinimalReturn() ensures Minimal[15..21] == "return" {}
  lemma Minimal42() ensures Minimal[22..24] == "42" {}
  lemma MinimalPunct()
    ensures |Minimal| == 26 && Minimal[3] == ' ' && Minimal[8] == '(' && Minimal[13] == ')' && Minimal[14] == '{'
    ensures Minimal[21] == ' ' && Minimal[24] == ';' && Minimal[25] == '}'
  {
  }

  lemma MinimalReturnStep() ensures Lexing.StepAt(Minimal, 15) == Lexing.Emit(Return, 21) {
    MinimalPunct();
    MinimalReturn();
    WordStep(Minimal, 15, "return");
  }

  lemma MinimalMainStep() ensures Lexing.StepAt(Minimal, 4) == Lexing.Emit(Identifier("main"), 8) {
    MinimalPunct();
    MinimalMain();
    WordStep(Minimal, 4, "main");
  }

  /** The tokens of the minimal program: all on line 1, each spanning its lexeme. */
  const MinimalTokens: seq<Token> := [
    OnFirstLine(Int, 0, 3), OnFirstLine(Identifier("main"), 4, 8), OnFirstLine(ParenOpen, 8, 9),
    OnFirstLine(Void, 9, 13), OnFirstLine(ParenClose, 13, 14), OnFirstLine(BraceOpen, 14, 15),
    OnFirstLine(Return, 15, 21), OnFirstLine(Constant(42), 22, 24), OnFirstLine(Semicolon, 24, 25),
    OnFirstLine(BraceClose, 25, 26)]

  /** An emitting step at `i` puts token `j` of `tokens` in front of the tokens after it. */
  lemma EmitsToken(s: string, i: nat, tokens: seq<Token>, j: nat)
    requires j < |tokens| && tokens[j].loc == SourceLocation((i, tokens[j].loc.index.1), 1, i)
    requires i < |s| && Lexing.StepAt(s, i) == Lexing.Emit(tokens[j].kind, tokens[j].loc.index.1)
    requires Lexing.LexFrom(s, tokens[j].loc.index.1, 1, 0) == Ok(tokens[j + 1..])
    ensures Lexing.LexFrom(s, i, 1, 0) == Ok(tokens[j..])
  {
    var t, end := tokens[j], tokens[j].loc.index.1;
    assert t == OnFirstLine(t.kind, i, end);
    EmitStep(s, i, t.kind, end, tokens[j + 1..]);
    assert [t] + tokens[j + 1..] == tokens[j..];
  }

  /** The scan of the minimal program, in stretches taken back to front. */
  lemma LexMinimalFrom22()
    ensures Lexing.LexFrom(Minimal, 22, 1, 0) == Ok(MinimalTokens[7..])
  {
    var t := MinimalTokens;
    MinimalPunct();
    assert Lexing.LexFrom(Minimal, 26, 1, 0) == Ok(t[10..]);
    EmitsToken(Minimal, 25, t, 9);
    EmitsToken(Minimal, 24, t, 8);
    Minimal42();
    assert Value("42") == 42;
    ConstantStep(Minimal, 22, "42");
    EmitsToken(Minimal, 22, t, 7);
  }

  lemma LexMinimalFrom15()
    ensures Lexing.LexFrom(Minimal, 15, 1, 0) == Ok(MinimalTokens[6..])
  {
    var t := MinimalTokens;
    LexMinimalFrom22();
    MinimalPunct();
    SkipStep(Minimal, 21, t[7..]);
    MinimalReturnStep();
    EmitsToken(Minimal, 15, t, 6);
  }

  lemma LexMinimalFrom9()
    ensures Lexing.LexFrom(Minimal, 9, 1, 0) == Ok(MinimalTokens[3..])
  {
    var t := MinimalTokens;
    LexMinimalFrom15();
    MinimalPunct();
    EmitsToken(Minimal, 14, t, 5);
    EmitsToken(Minimal, 13, t, 4);
    MinimalVoid();
    WordStep(Minimal, 9, "void");
    EmitsToken(Minimal, 9, t, 3);
  }

  lemma LexMinimalFrom3()
    ensures Lexing.LexFrom(Minimal, 3, 1, 0) == Ok(MinimalTokens[1..])
  {
    var t := MinimalTokens;
    LexMinimalFrom9();
    MinimalPunct();
    EmitsToken(Minimal, 8, t, 2);
    MinimalMainStep();
    EmitsToken(Minimal, 4, t, 1);
    SkipStep(Minimal, 3, t[1..]);
  }

  /** The minimal program lexes into the ten tokens above. */
  lemma LexMinimal()
    ensures Lexing.Lex(Minimal) == Ok(MinimalTokens)
  {
    var t := MinimalTokens;
    LexMinimalFrom3();
    MinimalPunct();
    MinimalInt();
    WordStep(Minimal, 0, "int");
    EmitsToken(Minimal, 0, t, 0);
    assert t[0..] == t;
  }

  /** `int main(void){return 42;}` as the parser builds it. */
  const MinimalProgram: Ast.Program := Ast.Program(Ast.Function("main", Ast.Stmt(Ast.Expr(42))))

  /** The minimal program's tokens spell it. */
  lemma SpellsMinimal()
    ensures Parsing.Kinds(MinimalTokens) == Parsing.Unparse(MinimalProgram)
  {
    var ks, u := Parsing.Kinds(MinimalTokens), Parsing.Unparse(MinimalProgram);
    assert forall k | 0 <= k < 10 :: ks[k] == u[k];
  }

  /** The assembly the minimal program compiles to, line by line. */
  const MinimalText: string :=
    "    .globl main\n" + "main:\n" + "    movl $42, %eax\n" + "    ret\n" + "\n" + CodegenX86.StackNote

  lemma Signed42() ensures Signed(42) == "42" {
    assert Digits(42) == Digits(4) + [DigitChar(2)];
  }

  lemma MinimalMovLine()
    ensures CodegenX86.InstructionText(Asm.Mov(Asm.Immediate(42), Asm.Register)) == "    movl $42, %eax\n"
  {
    Signed42();
    assert CodegenX86.OperandText(Asm.Immediate(42)) == "$42";
  }

  lemma MinimalCode()
    ensures CodegenX86.InstructionsText(Asm.LowerProgram(MinimalProgram).func.instructions)
            == "    movl $42, %eax\n" + "    ret\n"
  {
    var mov := Asm.Mov(Asm.Immediate(42), Asm.Register);
    assert Asm.LowerProgram(MinimalProgram).func.instructions == [mov, Asm.Ret];
    MinimalMovLine();
    assert CodegenX86.InstructionText(Asm.Ret) == "    ret\n";
    assert [mov, Asm.Ret][1..] == [Asm.Ret] && [Asm.Ret][1..] == [];
    assert CodegenX86.InstructionsText([Asm.Ret]) == "    ret\n" + "";
    assert "    ret\n" + "" == "    ret\n";
  }

  lemma MinimalGlobl()
    ensures CodegenX86.Indent + ".globl " + "main" + "\n" == "    .globl main\n"
    ensures "main" + ":\n" == "main:\n"
  {
  }

  /** A function's text, cut into its `.globl` line, its label line, its code and the blank line. */
  lemma FunctionTextSplit(f: Asm.Function)
    ensures CodegenX86.FunctionText(f) ==
      (CodegenX86.Indent + ".globl " + f.name + "\n") + (f.name + ":\n") + CodegenX86.InstructionsText(f.instructions) + "\n"
  {
    CodegenX86.Assoc(CodegenX86.Indent + ".globl " + f.name + "\n", f.name, ":\n");
  }

  lemma MinimalLowered()
    ensures CodegenX86.ProgramText(Asm.LowerProgram(MinimalProgram)) == MinimalText
  {
    var asm := Asm.LowerProgram(MinimalProgram);
    MinimalCode();
    var l1, l2 := "    .globl main\n", "main:\n";
    var code := CodegenX86.InstructionsText(asm.func.instructions);
    assert asm.func.name == "main";
    FunctionTextSplit(asm.func);
    MinimalGlobl();
    assert CodegenX86.FunctionText(asm.func) == l1 + l2 + code + "\n";
    CodegenX86.Assoc(l1 + l2, "    movl $42, %eax\n", "    ret\n");
  }

  /** The minimal program compiles to the text above. */
  lemma CompileMinimal()
    ensures Pipeline.Compile(Minimal) == Ok(MinimalText)
  {
    LexMinimal();
    SpellsMinimal();
    Parsing.UnparseParses(MinimalTokens, MinimalProgram);
    MinimalLowered();
  }

  // ---------------------------------------------------------------
  // Boundary cases
  // ---------------------------------------------------------------

  /** An empty file lexes to no tokens, and the parse then asks for `int`. */
  lemma EmptySource()
    ensures Pipeline.Compile("") == Err(Pipeline.ParseFailed(Parsing.Expected(Parsing.Exactly(Int), None)))
  {
    Parsing.ParseFailsAtFirstMismatch([], 0);
  }

  /** A digit run that goes on into letters is one malformed constant, not a constant and a word. */
  lemma ConstantRunsIntoLetters()
    ensures Lexing.Lex("42abc") == Err(Lexing.InvalidConstant("42abc"))
  {
    var s := "42abc";
    Lexing.RunEndUnique(s, 1, 5);
    assert s[0..5] == s;
    assert !AllDigits(s) by { assert !IsDigit(s[2]); }
  }

  /** The largest i32 is a constant. */
  lemma LargestConstant()
    ensures Lexing.Lex("2147483647") == Ok([OnFirstLine(Constant(I32_MAX), 0, 10)])
  {
    var s := "2147483647";
    ValueOfLargest();
    ConstantStep(s, 0, s);
    assert s[0..10] == s;
    EmitStep(s, 0, Constant(I32_MAX), 10, []);
    assert [OnFirstLine(Constant(I32_MAX), 0, 10)] + [] == [OnFirstLine(Constant(I32_MAX), 0, 10)];
  }

  lemma ValueOfLargest() ensures Value("2147483647") == I32_MAX {
    ValueOfDigits(I32_MAX);
    DigitsOfLargest();
  }

  /** Appending a digit to a number appends its character to the number's digits. */
  lemma DigitsSnoc(n: nat, d: nat, w: string)
    requires 0 < n && d < 10 && Digits(n) == w
    ensures Digits(n * 10 + d) == w + [DigitChar(d)]
  {
    assert (n * 10 + d) / 10 == n && (n * 10 + d) % 10 == d;
  }

  /** The first nine digits of the largest i32, which it shares with its successor. */
  lemma DigitsOfLargestPrefix() ensures Digits(214748364) == "214748364" {
    DigitsSnoc(2, 1, "2");
    DigitsSnoc(21, 4, "21");
    DigitsSnoc(214, 7, "214");
    DigitsSnoc(2147, 4, "2147");
    DigitsSnoc(21474, 8, "21474");
    DigitsSnoc(214748, 3, "214748");
    DigitsSnoc(2147483, 6, "2147483");
    DigitsSnoc(21474836, 4, "21474836");
  }

  lemma DigitsOfLargest() ensures Digits(I32_MAX) == "2147483647" {
    DigitsOfLargestPrefix();
    DigitsSnoc(214748364, 7, "214748364");
  }

  /** A run of digits `w` at `i` whose value exceeds the largest i32 fails the scan. */
  lemma OverflowStep(s: string, i: nat, w: string)
    requires i + |w| <= |s| && s[i..i + |w|] == w
    requires i + |w| == |s| || !Lexing.IsWordChar(s[i + |w|])
    requires |w| > 0 && AllDigits(w) && Value(w) > I32_MAX
    ensures Lexing.StepAt(s, i) == Lexing.Fail(Lexing.ConstantOverflow(w))
  {
    WordAt(s, i, w);
    assert s[i] == w[0];
    var e := Lexing.WordEnd(s, i + 1);
    assert e == i + |w|;
    assert s[i..e] == w;
    assert IsDigit(s[i]) && !Lexing.IsIdentStart(s[i]) && !Lexing.IsPunct(s[i]) && !Lexing.IsBlank(s[i]);
  }

  lemma ValueOfOverflow() ensures Value("2147483648") == I32_MAX + 1 {
    DigitsOfLargestPrefix();
    DigitsSnoc(214748364, 8, "214748364");
    assert "214748364" + [DigitChar(8)] == "2147483648";
    ValueOfDigits(I32_MAX + 1);
  }

  /** One past the largest i32 is rejected as an overflow, not wrapped around. */
  lemma OverflowingConstant()
    ensures Lexing.Lex("2147483648") == Err(Lexing.ConstantOverflow("2147483648"))
  {
    var s := "2147483648";
    ValueOfOverflow();
    assert s[0..10] == s;
    OverflowStep(s, 0, s);
  }

  /** There is no minus sign: a negative constant stops the lexer at the `-`. */
  lemma MinusIsInvalid()
    ensures Lexing.Lex("return -1;") == Err(Lexing.InvalidCharacter('-'))
  {
    var s := "return -1;";
    assert s[0..6] == "return";
    WordStep(s, 0, "return");
    assert s[6] == ' ' && s[7] == '-';
  }

  /** Keywords are whole words: a word that starts with `int` is an identifier. */
  lemma KeywordPrefixIsIdentifier()
    ensures Lexing.Lex("integer") == Ok([OnFirstLine(Identifier("integer"), 0, 7)])
  {
    var s := "integer";
    assert s[0..7] == s;
    WordStep(s, 0, s);
    EmitStep(s, 0, Identifier(s), 7, []);
    assert [OnFirstLine(Identifier(s), 0, 7)] + [] == [OnFirstLine(Identifier(s), 0, 7)];
  }

  /** A line break advances the line and restarts the column at the next byte. */
  lemma SecondLine()
    ensures Lexing.Lex("int\nmain")
            == Ok([OnFirstLine(Int, 0, 3), Token(Identifier("main"), SourceLocation((4, 8), 2, 0))])
  {
    var s := "int\nmain";
    assert s[0..3] == "int" && s[3] == '\n';
    WordStep(s, 0, "int");
    assert s[4..8] == [s[4], s[5], s[6], s[7]] == "main";
    WordStep(s, 4, "main");
    assert Lexing.LexFrom(s, 3, 1, 0) == Lexing.LexFrom(s, 4, 2, 4);
    var second := Token(Identifier("main"), SourceLocation((4, 8), 2, 0));
    assert Lexing.LexFrom(s, 4, 2, 4) == Ok([second] + []);
    assert [second] + [] == [second];
    EmitStep(s, 0, Int, 3, [second]);
    assert [OnFirstLine(Int, 0, 3)] + [second] == [OnFirstLine(Int, 0, 3), second];
  }

  /** `return;` with no value is rejected at the `;`, where a constant is expected. */
  lemma ReturnWithoutValue(tokens: seq<Token>, name: string)
    requires |tokens| >= 8
    requires Parsing.Kinds(tokens[..8]) == [Int, Identifier(name), ParenOpen, Void, ParenClose, BraceOpen, Return, Semicolon]
    ensures Parsing.Parse(tokens) == Err(Parsing.Expected(Parsing.AnyConstant, Some(Semicolon)))
  {
    var ks := Parsing.Kinds(tokens[..8]);
    assert forall k | 0 <= k < 8 :: tokens[k].kind == ks[k];
    Parsing.ParseFailsAtFirstMismatch(tokens, 7);
  }
}
