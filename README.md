# pavetta in Dafny

pavetta compiles a tiny subset of C: one function `int NAME(void) { return
CONSTANT; }`. It has four stages, each modelled here; the driver runs the
first three:

1. **Lexing.** A forward scan over the ASCII source turns it into tokens.
   Each token carries its byte span, its 1-based line and its 0-based column.
   The scan fails on the first unknown character or malformed constant.
2. **Parsing.** A recursive-descent parser with a cursor. Each `expect!` takes
   one token. The first mismatch ends the parse, and so do tokens left over.
3. **Lowering.** The syntax tree becomes an assembly tree.
   `return k;` lowers to `movl $k, %eax` followed by `ret`.
4. **Emitting.** The assembly tree becomes GNU assembler text for x86-64,
   appended piece by piece to an output buffer.

The modules follow the source files:

| module | file | form |
|---|---|---|
| `Decimal` | digit strings | pure |
| `Tokens` | `token.rs` | pure |
| `Lexing` | `lexer.rs` | reference scan `Lex` plus class `Lexer` |
| `Ast` | `ast.rs` | pure |
| `Parsing` | `parser.rs` | reference parse `Parse` plus class `Parser` |
| `Asm` | `asm.rs` | pure |
| `CodegenX86` | `codegen_x86.rs` | text functions plus class `Codegen` |
| `Pipeline` | `compiler.rs` | the stages in sequence |
| `Scenarios` | — | lemmas about concrete inputs |

- `Decimal` covers reading a digit run as a number (`parse::<i32>`) and Rust's
  integer `Display`.
- `Wrappers` holds `Option` and `Result`.

The imperative parts are classes whose methods change their fields:

- The lexer's scanning loop is `Lexing.Lexer.Run`.
- The parser's cursor `currIdx` is a field of `Parsing.Parser`.
- The emitter's `output` buffer is a field of `CodegenX86.Codegen`.

Each method is proved to compute a reference function: `Lex`, `ParseFrom`, or
`ProgramText`. The properties are proved about those functions:

- what the lexer accepts;
- that every token it yields is well formed;
- that parsing inverts writing a program out as tokens;
- that lowering inverts reading the program back;
- that the emitted text loses nothing of the program;
- that the compiled code returns the source's constant.

The lemmas of `Scenarios` prove what the pipeline yields on
`int main(void){return 42;}`: the exact assembly text. They also pin down what
it yields in the boundary cases: an empty file,
the largest `i32` and one past it, a minus sign, a keyword prefix, a line
break, and `return;` with no value.

Where the model departs from what the code does:

- **An `i32` constant that overflows.** The code reaches `expect` and panics (`src/lexer.rs:85-87`). The model gives
  this outcome its own error, `ConstantOverflow`, distinct from the two errors
  the lexer reports.
- **A non-ASCII source.** The code rejects it with an `assert!` in
  `Lexer::new` (`src/lexer.rs:13`), not with an error. The model makes this a
  precondition of the constructor.
- **The emitter.** The driver never calls it (`src/compiler.rs:97` is a TODO).
  `Pipeline` composes it after lowering anyway, as the emitter's interface
  intends.

## Model

| member | source | states |
|---|---|---|
| Decimal.Digits | src/codegen_x86.rs:62 | The decimal rendering of a natural number is non-empty, all digits, and has no leading zero. |
| Decimal.Signed | src/token.rs:47 | Rust's integer `Display`: digits after an optional minus sign, ending in a digit; the minus sign appears exactly for negatives. |
| Decimal.ValueOfDigits | src/lexer.rs:84-87 | Reading back the digits written for `n` gives `n`, so the lexer's `parse` inverts the emitter's formatting. |
| Decimal.SignedValue | src/codegen_x86.rs:62 | The text `Signed` writes denotes the integer: the digits after the minus sign read back as the magnitude of a negative, and the whole text as a non-negative. |
| Decimal.DigitsInjective | src/codegen_x86.rs:62 | Distinct naturals are written with distinct digits. |
| Decimal.SignedInjective | src/codegen_x86.rs:62 | Distinct integers are written differently. |
| Tokens.Display | src/token.rs:35-52 | Every kind has a non-empty display name. |
| Tokens.DisplayInjective | src/token.rs:35-52 | No two kinds share a display name, so a diagnostic names the kind it saw unambiguously. |
| Lexing.PunctKind | src/lexer.rs:36-40 | Each of the five punctuation bytes becomes one of the five symbol kinds. |
| Lexing.WordKind | src/lexer.rs:52-60 | `int`, `void` and `return`, and only they, become the kinds `Int`, `Void` and `Return`; any other word is an identifier naming exactly that word, and never a constant. |
| Lexing.WordEnd | src/lexer.rs:43-49 | The scan of an identifier or keyword stops at the end of the maximal run of ASCII alphanumerics and `_`. |
| Lexing.LineStart | src/lexer.rs:30-33 | The current line starts right after the last line break before the position, or at 0. |
| Lexing.LexFrom | src/lexer.rs:19-110 | The reference scan from a position, one turn of the loop at a time, with no contract of its own. `Lexer.Run` is proved to compute it, and `LexFromVerdict` and `ScanEnds` state what it yields. |
| Lexing.Lex | src/lexer.rs:19-110 | The reference scan of a whole source from line 1, with no contract of its own. `LexWellLexed`, `LexAcceptsIff` and `LexErrorsPinpoint` state its properties. |
| Lexing.StepAt | src/lexer.rs:28-92 | One turn of the loop skips exactly the blanks; an emitted token spans at least one byte and stays inside the source. |
| Lexing.ScanSkips | src/lexer.rs:29-34 | Skipping a blank keeps the loop invariant; a line break increments the line and moves the line start past it. |
| Lexing.ScanEmits | src/lexer.rs:94-106 | Pushing the token with span `(start, end)`, the current line and column `start - line_idx` keeps the loop invariant. |
| Lexing.ScanFails | src/lexer.rs:80-91 | A failing turn of the loop is the result of the whole scan. |
| Lexing.ScanEnds | src/lexer.rs:109 | When the loop runs off the end, the tokens pushed are the scan's result and are well lexed. |
| Lexing.LexWellLexed | src/lexer.rs:19-110 | Every token list the scan returns is well lexed: non-empty spans in source order, the right line and column, the kind the lexeme calls for, and every non-blank byte in some token. |
| Lexing.LexedIdentifier | src/lexer.rs:42-59 | An identifier token names exactly its lexeme: a run of word characters that starts with a letter or `_` and ends at the end of the source or before a byte that is not a word character. |
| Lexing.LexIdentifierIsWord | src/lexer.rs:42-59 | Every identifier the scan returns consists of word characters only. |
| Lexing.LexFromVerdict | src/lexer.rs:25-107 | From any point outside a word, the scan succeeds exactly when the rest is lexable; each error names an unknown byte of the source, or a whole malformed or oversized constant run in it. |
| Lexing.LexAcceptsIff | src/lexer.rs:19-110 | The scan succeeds exactly when every byte is blank, punctuation or a word character, and every run that starts with a digit is all digits and fits an `i32`. |
| Lexing.LexErrorsPinpoint | src/lexer.rs:64-91 | An `InvalidCharacter` error names a byte of the source that no branch handles; `InvalidConstant` and `ConstantOverflow` name a whole maximal run starting with a digit that is not all digits, or does not fit. |
| Lexing.Lexer.constructor | src/lexer.rs:12-17 | The lexer holds the source, which must be ASCII. |
| Lexing.Lexer.ScanWord | src/lexer.rs:43-49 | The inner loop ends at the end of the word run. |
| Lexing.Lexer.ScanConstant | src/lexer.rs:65-76 | The inner loop for a constant ends at the end of the word run, and `valid` holds exactly when the whole span is digits. |
| Lexing.Lexer.Run | src/lexer.rs:19-110 | The scanning loop returns exactly `Lex(source)`, and its tokens are well lexed. |
| Parsing.MatchShape | src/parser.rs:8-23 | One `expect!` succeeds exactly when a token of the wanted shape is at the cursor, and then advances by one; otherwise it reports the shape and the kind found, or EOF. |
| Parsing.ExprFrom | src/parser.rs:93-97 | An expression takes exactly one token. |
| Parsing.StatementFrom | src/parser.rs:83-91 | A statement takes exactly three tokens. |
| Parsing.BodyFrom | src/parser.rs:71-78 | The part of a function after its name takes exactly eight tokens. |
| Parsing.FunctionFrom | src/parser.rs:66-81 | A function takes exactly ten tokens. |
| Parsing.ParseFrom | src/parser.rs:50-59 | A parse succeeds only when the function's ten tokens are all that is left; a leftover error names the eleventh token. |
| Parsing.Parse | src/parser.rs:50-59 | A program parsed from the first token is exactly ten tokens long. |
| Parsing.MatchFrom | src/parser.rs:66-91 | A successful match of a pattern of shapes consumes one token per shape. |
| Parsing.MatchOkIff | src/parser.rs:66-91 | A pattern matches exactly when each shape matches the token at its offset. |
| Parsing.MatchFailsAt | src/parser.rs:8-23 | Matching fails with the error of the first shape that does not match. |
| Parsing.StatementMatches | src/parser.rs:83-91 | `parse_statement` fails as the pattern's `return CONSTANT ;` part fails, and otherwise binds the constant at offset 1. |
| Parsing.FunctionMatches | src/parser.rs:66-81 | `parse_function` fails exactly when the ten-shape pattern fails, with the same error; otherwise it ends where the match ends, naming the identifier at offset 1 and returning the constant at offset 7. |
| Parsing.BodyMatches | src/parser.rs:71-78 | The part of `parse_function` after the name fails exactly when the pattern's offsets 2 to 9 fail, with the same error; otherwise it ends where they end, with the constant at offset 7. |
| Parsing.ParseAcceptsIff | src/parser.rs:50-108 | The parse accepts exactly ten tokens of the shape `int IDENT ( void ) { return CONSTANT ; }`. |
| Parsing.ParseSpells | src/parser.rs:61-108 | The program the parse returns is the one the tokens' kinds spell. |
| Parsing.UnparseParses | src/parser.rs:50-108 | Tokens whose kinds spell a program parse to that program. |
| Parsing.ParseInvertsUnparse | src/parser.rs:50-108 | The parse returns `p` exactly when the tokens' kinds spell `p`. |
| Parsing.ParseFailsAtFirstMismatch | src/parser.rs:8-23 | The parse stops at the first token that does not fit, naming the shape expected there and the kind found, or EOF. |
| Parsing.ParseRejectsLeftover | src/parser.rs:52-57 | A complete program followed by more tokens is rejected, naming the first extra one. |
| Parsing.Parser.constructor | src/parser.rs:31-36 | A new parser holds the tokens, with the cursor at 0. |
| Parsing.Parser.Peek | src/parser.rs:38-40 | Peeking yields the token at the cursor exactly when there is one. |
| Parsing.Parser.TakeToken | src/parser.rs:42-48 | Taking a token yields the token at the cursor and advances by one when there is one; otherwise the cursor stays put. |
| Parsing.Parser.Expect | src/parser.rs:8-23 | `expect!` fails exactly as matching its shape at the cursor does, and otherwise advances past the token, giving back its kind. On failure the cursor has moved past the mismatched token, or stayed put at EOF. |
| Parsing.Parser.ParseAst | src/parser.rs:50-59 | The parse from the cursor returns exactly `ParseFrom`, and on success has consumed every token. |
| Parsing.Parser.ParseProgram | src/parser.rs:61-64 | The program is its function, parsed as `FunctionFrom` parses it. |
| Parsing.Parser.ParseFunction | src/parser.rs:66-81 | Parsing a function agrees with `FunctionFrom` on the result, the error and the new cursor. |
| Parsing.Parser.ParseStatement | src/parser.rs:83-91 | Parsing a statement agrees with `StatementFrom` on the result, the error and the new cursor. |
| Parsing.Parser.ParseExpr | src/parser.rs:93-97 | Parsing an expression agrees with `ExprFrom` on the result, the error and the new cursor. |
| Parsing.Parser.ParseIdentifier | src/parser.rs:99-102 | Succeeds exactly on an identifier token at the cursor, giving back its name; on failure the cursor has moved past the token found, or stayed put at EOF. |
| Parsing.Parser.ParseInt | src/parser.rs:104-108 | Succeeds exactly on a constant token at the cursor, giving back its value; on failure the cursor has moved past the token found, or stayed put at EOF. |
| Asm.LowerStmt | src/asm.rs:37-44 | `return k;` lowers to code that ends in `ret`, leaves `k` in %eax whatever it held before, and reads back as the same statement. |
| Asm.LowerFunction | src/asm.rs:22-29 | A function keeps its name, and its code returns the statement's value and reads back as the function. |
| Asm.LowerProgram | src/asm.rs:8-14 | The program's one function is lowered, and the result reads back as the program. |
| Asm.RaiseOnlyLowered | src/asm.rs:37-44 | Only lowered code reads back as a program, so lowering and reading back are inverse bijections. |
| Asm.LowerInjective | src/asm.rs:8-14 | Different programs lower to different assembly. |
| CodegenX86.ProgramText | src/codegen_x86.rs:24-31 | The whole `.s` text: the function's text, then the stack note. A reference definition with no contract of its own; `Codegen.Emit` is proved to append it, and `ProgramTextInjective` and `ProgramLines` state its properties. |
| CodegenX86.FunctionText | src/codegen_x86.rs:33-41 | `.globl NAME`, the label `NAME:`, each instruction's text in order, and a blank line. A reference definition with no contract of its own; `Codegen.EmitFunction` is proved to append it. |
| CodegenX86.InstructionsText | src/codegen_x86.rs:36-38 | The instructions' texts, in order. A reference definition with no contract of its own; `InstructionsLines` and `InstructionsTextInjective` state its properties. |
| CodegenX86.InstructionText | src/codegen_x86.rs:43-58 | An instruction's line followed by a line break. A reference definition with no contract of its own; `Codegen.EmitInstruction` is proved to append it. |
| CodegenX86.OperandText | src/codegen_x86.rs:60-66 | An operand is written as a non-empty token with no comma and no line break, starting with `$` exactly for immediates. |
| CodegenX86.InstructionLine | src/codegen_x86.rs:43-58 | Each instruction is written on one line, indented by four spaces. |
| CodegenX86.InstructionsLines | src/codegen_x86.rs:36-38 | The instructions' text has exactly one line break per instruction. |
| CodegenX86.OperandTextInjective | src/codegen_x86.rs:60-66 | Different operands are written differently. |
| CodegenX86.InstructionLineInjective | src/codegen_x86.rs:43-58 | Different instructions are written differently. |
| CodegenX86.InstructionsTextInjective | src/codegen_x86.rs:36-38 | Different instruction lists are written differently. |
| CodegenX86.ProgramTextInjective | src/codegen_x86.rs:24-41 | Two programs whose function names hold no line break are the same program when their texts are equal. |
| CodegenX86.ProgramLines | src/codegen_x86.rs:24-41 | The text has one line per instruction plus four: `.globl`, the label, the blank line and the stack note. |
| CodegenX86.Codegen.constructor | src/codegen_x86.rs:13-18 | A new emitter holds the program, with an empty output. |
| CodegenX86.Codegen.Emit | src/codegen_x86.rs:19-22 | Appends the program's text and gives back the whole output. |
| CodegenX86.Codegen.EmitProgram | src/codegen_x86.rs:24-31 | Appends the function's text, then the stack note. |
| CodegenX86.Codegen.EmitFunction | src/codegen_x86.rs:33-41 | Appends `.globl`, the label, each instruction's line in order, and a blank line. |
| CodegenX86.Codegen.EmitInstruction | src/codegen_x86.rs:43-58 | Appends exactly the instruction's line and its line break. |
| CodegenX86.Codegen.EmitOperand | src/codegen_x86.rs:60-66 | Appends exactly the operand's text. |
| Pipeline.Compile | src/compiler.rs:55-89 | Compiling succeeds exactly when lexing and then parsing succeed: lowering and emitting cannot fail. A failure is a lexer failure exactly when the lexer failed. |
| Pipeline.CompileSource | src/compiler.rs:48-101 | Running the lexer, the parser, the lowering and the emitter one after the other computes `Compile`, stopping at the first stage that fails. |
| Pipeline.CompileIff | src/compiler.rs:55-89 | A source compiles to `text` exactly when it lexes into tokens that spell some program whose lowered text is `text`. |
| Pipeline.CompiledReturns | src/compiler.rs:55-89 | Compiled code comes from ten tokens; it is a function named after the identifier token whose code returns the constant token's value whatever %eax held. |
| Pipeline.CompileFaithful | src/compiler.rs:55-89 | Two sources compile to the same text exactly when they parse to the same program. |
| Pipeline.IdentifierOnOneLine | src/lexer.rs:42-59 | A parsed function name holds no line break. |
| Scenarios.WordStep | src/lexer.rs:42-62 | A keyword or identifier that is not followed by a word character is emitted whole, as the kind its lexeme names. |
| Scenarios.ConstantStep | src/lexer.rs:64-89 | A run of digits that fits an `i32` is emitted as that constant. |
| Scenarios.OverflowStep | src/lexer.rs:84-87 | A run of digits beyond the largest `i32` fails the scan with the whole run. |
| Scenarios.LexMinimal | src/lexer.rs:19-110 | `int main(void){return 42;}` lexes into ten tokens on line 1, each spanning its lexeme. |
| Scenarios.MinimalLowered | src/codegen_x86.rs:19-66 | The program `main` returning 42 is emitted as `.globl main`, `main:`, `movl $42, %eax`, `ret`, a blank line and the stack note. |
| Scenarios.CompileMinimal | src/compiler.rs:48-101 | `int main(void){return 42;}` compiles to exactly that text. |
| Scenarios.EmptySource | src/parser.rs:12-13 | An empty file fails to parse, expecting `int` and finding EOF. |
| Scenarios.ConstantRunsIntoLetters | src/lexer.rs:64-82 | `42abc` is one invalid constant, reported whole. |
| Scenarios.LargestConstant | src/lexer.rs:84-88 | `2147483647` lexes as the constant 2147483647. |
| Scenarios.OverflowingConstant | src/lexer.rs:84-87 | `2147483648` does not fit an `i32` and fails the scan; it does not wrap around. |
| Scenarios.MinusIsInvalid | src/lexer.rs:91 | A minus sign is an invalid character, so `return -1;` does not lex. |
| Scenarios.KeywordPrefixIsIdentifier | src/lexer.rs:50-60 | `integer` is one identifier, not the keyword `int` followed by more. |
| Scenarios.SecondLine | src/lexer.rs:30-33 | After a line break the next token is on line 2, at column 0. |
| Scenarios.ReturnWithoutValue | src/parser.rs:104-108 | `return;` with no value is rejected at the `;`, where a constant is expected. |

## Left out

- The command line (`src/main.rs`) and the call to `gcc` are not part of this model. Neither is the driver's file I/O: reading sources, and writing the `.lex`, `.ast` and `.asm` dumps (`src/compiler.rs:50-53`, `56-71`, `78-95`).
- The `Debug` forms the driver dumps are not modelled.
- Error messages are not rendered as text. Errors are structured values: `LexError` for the lexer, and `ParseError` for the parser, which carries the expected shape and the kind found. The text the macro `expect!` would print for a shape (`stringify!`) is not modelled.
- Lexing.Lexer.constructor: the `assert!` on ASCII input is a precondition, not a modelled abort.
- Lexing.StepAt: the `expect` panic on a constant beyond `i32` (`src/lexer.rs:85-87`) is modelled as the error `ConstantOverflow`, not as an abort.
- The `str::from_utf8(...).expect` calls cannot fail on ASCII input and are left out.
- Line and column counters are unbounded naturals; `usize` overflow is not modelled.
- The emitter's writes into a `String` cannot fail. The `anyhow::Result` they return is dropped, and each method is a plain append.
- `Codegen::emit` consumes the emitter in Rust. Here it is a method on the object, which stays usable afterwards.
- CodegenX86.ProgramTextInjective: holds only for function names without a line break. `Pipeline.IdentifierOnOneLine` shows that every parsed name qualifies.
- Pipeline.Compile: composes the emitter, which `src/compiler.rs:97` leaves as a TODO. The stages up to lowering are as the driver runs them.
- Pipeline.CompileSource: compiles one source. The driver's loop over several source files (`src/compiler.rs:49`) is not modelled; each file is compiled independently, and the first error ends the run.
- Pipeline.CompileSource: the option to stop after lexing or after parsing (`src/compiler.rs:73-75`, `85-87`) is not modelled. With `--lex` the driver never parses, so a source that lexes succeeds even when it does not parse; the model always parses. Likewise `--parse` skips lowering, which cannot fail.
- Text is a sequence of characters; for ASCII input each character is one byte.
