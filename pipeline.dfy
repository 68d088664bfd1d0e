/**
 * The four stages in sequence: lex the source, parse the tokens, lower the
 * syntax tree and emit the assembly text.
 *
 * `Compile` is the composition of the stages' reference definitions and
 * `CompileSource` runs the stages' own implementations (the lexer's scan,
 * the parser's cursor, the emitter's buffer); it is proved to compute
 * `Compile`. The lemmas characterise what compiles and what it compiles
 * to, and show that the text loses nothing of the program.
 */
module Pipeline {
  import opened Wrappers
  import opened Tokens
  import Lexing
  import Parsing
  import Ast
  import Asm
  import CodegenX86

  datatype CompileError = LexFailed(lexError: Lexing.LexError) | ParseFailed(parseError: Parsing.ParseError)

  /** The assembly text for `source`, or the first stage's error. */
  function Compile(source: string): (r: Result<string, CompileError>)
    ensures r.Ok? <==> Lexing.Lex(source).Ok? && Parsing.Parse(Lexing.Lex(source).value).Ok?
    ensures r.Err? ==> (r.error.LexFailed? <==> Lexing.Lex(source).Err?)
  {
    match Lexing.Lex(source)
    case Err(e) => Err(LexFailed(e))
    case Ok(tokens) =>
      match Parsing.Parse(tokens)
      case Err(e) => Err(ParseFailed(e))
      case Ok(program) => Ok(CodegenX86.ProgramText(Asm.LowerProgram(program)))
  }

  /** Runs the stages' implementations one after the other. */
  method CompileSource(source: string) returns (r: Result<string, CompileError>)
    requires Lexing.IsAscii(source)
    ensures r == Compile(source)
  {
    var lexer := new Lexing.Lexer(source);
    var tokens := lexer.Run();
    if tokens.Err? {
      return Err(LexFailed(tokens.error));
    }
    var parser := new Parsing.Parser(tokens.value);
    var program := parser.ParseAst();
    if program.Err? {
      return Err(ParseFailed(program.error));
    }
    var asm := Asm.LowerProgram(program.value);
    var codegen := new CodegenX86.Codegen(asm);
    var text := codegen.Emit();
    assert text == CodegenX86.ProgramText(asm) by {
      assert "" + CodegenX86.ProgramText(asm) == CodegenX86.ProgramText(asm);
    }
    return Ok(text);
  }

  /**
   * A source compiles exactly when it lexes into the ten tokens that spell
   * some program, and it compiles to that program's lowered text.
   */
  lemma CompileIff(source: string, text: string)
    ensures Compile(source) == Ok(text) <==>
      && Lexing.Lex(source).Ok?
      && exists p :: Parsing.Kinds(Lexing.Lex(source).value) == Parsing.Unparse(p)
                     && text == CodegenX86.ProgramText(Asm.LowerProgram(p))
  {
    var lexed := Lexing.Lex(source);
    if lexed.Ok? {
      if Compile(source) == Ok(text) {
        var p := Parsing.Parse(lexed.value).value;
        Parsing.ParseInvertsUnparse(lexed.value, p);
      }
      forall p | Parsing.Kinds(lexed.value) == Parsing.Unparse(p)
        ensures Parsing.Parse(lexed.value) == Ok(p)
      {
        Parsing.ParseInvertsUnparse(lexed.value, p);
      }
    }
  }

  /**
   * Compiled code returns the source's constant: the text is that of an
   * assembly function named after the identifier token, whose code leaves
   * the constant token's value in %eax whatever it held before.
   */
  lemma CompiledReturns(source: string)
    requires Compile(source).Ok?
    ensures var tokens := Lexing.Lex(source).value;
      && |tokens| == 10 && tokens[1].kind.Identifier? && tokens[7].kind.Constant?
      && exists a :: Compile(source).value == CodegenX86.ProgramText(a)
                     && a.func.name == tokens[1].kind.name
                     && forall eax: Decimal.i32 :: Asm.Exec(a.func.instructions, eax) == Some(tokens[7].kind.value)
  {
    var tokens := Lexing.Lex(source).value;
    var p := Parsing.Parse(tokens).value;
    Parsing.ParseSpells(tokens, p);
    assert tokens[1].kind == Parsing.Kinds(tokens)[1] && tokens[7].kind == Parsing.Kinds(tokens)[7];
    var a := Asm.LowerProgram(p);
    assert Compile(source).value == CodegenX86.ProgramText(a);
  }

  /**
   * The text loses nothing: two sources compile to the same assembly text
   * exactly when they parse to the same program.
   */
  lemma CompileFaithful(s1: string, s2: string)
    requires Compile(s1).Ok?
    ensures Compile(s1) == Compile(s2) <==>
      Lexing.Lex(s2).Ok? && Parsing.Parse(Lexing.Lex(s1).value) == Parsing.Parse(Lexing.Lex(s2).value)
  {
    if Compile(s1) == Compile(s2) {
      var p1, p2 := Parsing.Parse(Lexing.Lex(s1).value).value, Parsing.Parse(Lexing.Lex(s2).value).value;
      IdentifierOnOneLine(s1, p1);
      IdentifierOnOneLine(s2, p2);
      CodegenX86.ProgramTextInjective(Asm.LowerProgram(p1), Asm.LowerProgram(p2));
      Asm.LowerInjective(p1, p2);
    }
  }

  /** The name of a parsed function is a lexed identifier, so it holds no line break. */
  lemma IdentifierOnOneLine(source: string, p: Ast.Program)
    requires Lexing.Lex(source).Ok? && Parsing.Parse(Lexing.Lex(source).value) == Ok(p)
    ensures '\n' !in p.func.ident
  {
    var tokens := Lexing.Lex(source).value;
    Parsing.ParseSpells(tokens, p);
    assert tokens[1].kind == Parsing.Kinds(tokens)[1] == Identifier(p.func.ident);
    Lexing.LexIdentifierIsWord(source, 1);
  }
}
