/** The token model shared by the lexer and the parser, with its canonical display form. */
module Tokens {
  import opened Decimal

  /** Where a token sits: the byte span `index.0 .. index.1`, its 1-based line and 0-based column. */
  datatype SourceLocation = SourceLocation(index: (nat, nat), line: nat, col: nat)

  datatype TokenKind =
    // Symbols
    | BraceOpen
    | BraceClose
    | ParenOpen
    | ParenClose
    | Semicolon
    // Keywords
    | Int
    | Void
    | Return
    // Literals
    | Identifier(name: string)
    | Constant(value: i32)

  datatype Token = Token(kind: TokenKind, loc: SourceLocation)

  /** The text a kind is shown as in diagnostics and in the `.lex` dump. */
  function Display(k: TokenKind): (s: string)
    ensures |s| > 0
  {
    match k
    case BraceOpen => "BRACE_OPEN"
    case BraceClose => "BRACE_CLOSE"
    case ParenOpen => "PAREN_OPEN"
    case ParenClose => "PAREN_CLOSE"
    case Semicolon => "SEMICOLON"
    case Int => "INT"
    case Void => "VOID"
    case Return => "RETURN"
    case Identifier(s) => "IDENT(" + s + ")"
    case Constant(i) => "CONSTANT(" + Signed(i) + ")"
  }

  /** The payload-free kinds: neither an identifier nor a constant. */
  predicate IsFixed(k: TokenKind) { !k.Identifier? && !k.Constant? }

  lemma FixedDisplayHead(k: TokenKind)
    requires IsFixed(k)
    ensures |Display(k)| >= 3 && Display(k)[0] != 'C' && !(Display(k)[0] == 'I' && Display(k)[1] == 'D')
  {
  }

  /** No two kinds share a display form, so a diagnostic names the kind it saw unambiguously. */
  lemma DisplayInjective(a: TokenKind, b: TokenKind)
    requires Display(a) == Display(b)
    ensures a == b
  {
    var s := Display(a);
    if IsFixed(a) {
      FixedDisplayHead(a);
    } else if a.Identifier? {
      assert s[0] == 'I' && s[1] == 'D';
      if IsFixed(b) {
        FixedDisplayHead(b);
      } else {
        assert Display(b)[0] == s[0] == 'I';
        assert b.Identifier?;
        assert a.name == s[6..|s| - 1] == b.name;
      }
    } else {
      assert s[0] == 'C';
      if IsFixed(b) {
        FixedDisplayHead(b);
      } else {
        assert Display(b)[0] == 'C';
        assert b.Constant?;
        assert Signed(a.value) == s[9..|s| - 1] == Signed(b.value);
        SignedInjective(a.value, b.value);
      }
    }
  }
}
