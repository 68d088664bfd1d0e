/**
 * The recursive-descent parser. Its cursor only moves forward, one token
 * per `expect!`, and the first mismatch ends the parse.
 *
 * `ExprFrom`, `StatementFrom` and `FunctionFrom` are the parse functions
 * written over a token position instead of a cursor; the `Parser` class
 * methods are proved equal to them. Because the grammar has no choice
 * points, the language it accepts is also a fixed sequence of token
 * shapes, `FunctionPattern`, checked by `MatchFrom`; `FunctionMatches`
 * proves the two descriptions agree, and the properties of the whole parse
 * are stated over the pattern.
 */
module Parsing {
  import opened Wrappers
  import opened Decimal
  import opened Tokens
  import Ast

  /** What one `expect!` accepts: one payload-free kind, or any identifier, or any constant. */
  datatype Shape = Exactly(kind: TokenKind) | AnyIdentifier | AnyConstant

  predicate Matches(k: TokenKind, shape: Shape) {
    match shape
    case Exactly(want) => k == want
    case AnyIdentifier => k.Identifier?
    case AnyConstant => k.Constant?
  }

  datatype ParseError =
    /** The expected shape and the kind found instead, or `None` for EOF. */
    | Expected(shape: Shape, found: Option<TokenKind>)
    /** The program was complete but this token was left over. */
    | TokensRemain(next: TokenKind)

  /**
   * One `expect!` at position `i`: the position after the token when it
   * has the shape, otherwise the shape with the kind found there, or EOF.
   */
  function MatchShape(toks: seq<Token>, i: nat, shape: Shape): (r: Result<nat, ParseError>)
    requires i <= |toks|
    ensures r.Ok? <==> i < |toks| && Matches(toks[i].kind, shape)
    ensures r.Ok? ==> r.value == i + 1
    ensures r.Err? ==> r.error == Expected(shape, if i < |toks| then Some(toks[i].kind) else None)
  {
    if i == |toks| then Err(Expected(shape, None))
    else if !Matches(toks[i].kind, shape) then Err(Expected(shape, Some(toks[i].kind)))
    else Ok(i + 1)
  }

  // ---------------------------------------------------------------
  // The parse functions, over a token position
  // ---------------------------------------------------------------

  /** expr := CONSTANT */
  function ExprFrom(toks: seq<Token>, i: nat): (r: Result<(Ast.Expr, nat), ParseError>)
    requires i <= |toks|
    ensures r.Ok? ==> r.value.1 == i + 1 <= |toks|
  {
    match MatchShape(toks, i, AnyConstant)
    case Err(e) => Err(e)
    case Ok(j) => Ok((Ast.Expr(toks[i].kind.value), j))
  }

  /** statement := "return" expr ";" */
  function StatementFrom(toks: seq<Token>, i: nat): (r: Result<(Ast.Stmt, nat), ParseError>)
    requires i <= |toks|
    ensures r.Ok? ==> r.value.1 == i + 3 <= |toks|
  {
    match MatchShape(toks, i, Exactly(Return))
    case Err(e) => Err(e)
    case Ok(j1) =>
      match ExprFrom(toks, j1)
      case Err(e) => Err(e)
      case Ok((expr, j2)) =>
        match MatchShape(toks, j2, Exactly(Semicolon))
        case Err(e) => Err(e)
        case Ok(j3) => Ok((Ast.Stmt(expr), j3))
  }

  /** The part of a function after its name: "(" "void" ")" "{" statement "}" */
  function BodyFrom(toks: seq<Token>, i: nat): (r: Result<(Ast.Stmt, nat), ParseError>)
    requires i <= |toks|
    ensures r.Ok? ==> r.value.1 == i + 8 <= |toks|
  {
    match MatchShape(toks, i, Exactly(ParenOpen))
    case Err(e) => Err(e)
    case Ok(j1) =>
      match MatchShape(toks, j1, Exactly(Void))
      case Err(e) => Err(e)
      case Ok(j2) =>
        match MatchShape(toks, j2, Exactly(ParenClose))
        case Err(e) => Err(e)
        case Ok(j3) =>
          match MatchShape(toks, j3, Exactly(BraceOpen))
          case Err(e) => Err(e)
          case Ok(j4) =>
            match StatementFrom(toks, j4)
            case Err(e) => Err(e)
            case Ok((stmt, j7)) =>
              match MatchShape(toks, j7, Exactly(BraceClose))
              case Err(e) => Err(e)
              case Ok(j8) => Ok((stmt, j8))
  }

  /** function := "int" IDENT "(" "void" ")" "{" statement "}" */
  function FunctionFrom(toks: seq<Token>, i: nat): (r: Result<(Ast.Function, nat), ParseError>)
    requires i <= |toks|
    ensures r.Ok? ==> r.value.1 == i + 10 <= |toks|
  {
    match MatchShape(toks, i, Exactly(Int))
    case Err(e) => Err(e)
    case Ok(j1) =>
      match MatchShape(toks, j1, AnyIdentifier)
      case Err(e) => Err(e)
      case Ok(j2) =>
        match BodyFrom(toks, j2)
        case Err(e) => Err(e)
        case Ok((stmt, j10)) => Ok((Ast.Function(toks[j1].kind.name, stmt), j10))
  }

  /** A whole parse from position `i`: a function, then nothing. */
  function ParseFrom(toks: seq<Token>, i: nat): (r: Result<Ast.Program, ParseError>)
    requires i <= |toks|
    ensures r.Ok? ==> |toks| == i + 10
    ensures r.Err? && r.error.TokensRemain? ==> i + 10 < |toks| && r.error.next == toks[i + 10].kind
  {
    match FunctionFrom(toks, i)
    case Err(e) => Err(e)
    case Ok((func, j)) =>
      if j < |toks| then Err(TokensRemain(toks[j].kind))
      else Ok(Ast.Program(func))
  }

  /** The whole parse from the first token: a program is exactly ten tokens. */
  function Parse(toks: seq<Token>): (r: Result<Ast.Program, ParseError>)
    ensures r.Ok? ==> |toks| == 10
  {
    ParseFrom(toks, 0)
  }

  // ---------------------------------------------------------------
  // The grammar as a pattern of shapes
  // ---------------------------------------------------------------

  // "int" IDENT "(" "void" ")" "{" "return" CONSTANT ";" "}"
  const FunctionPattern: seq<Shape> :=
    [Exactly(Int), AnyIdentifier, Exactly(ParenOpen), Exactly(Void), Exactly(ParenClose), Exactly(BraceOpen),
     Exactly(Return), AnyConstant, Exactly(Semicolon),
     Exactly(BraceClose)]

  /**
   * Matches the shapes of `pat` from index `n` on against the tokens from
   * `i` on, one token per shape: the position after them, or the error of
   * the first shape that fails.
   */
  function MatchFrom(toks: seq<Token>, i: nat, pat: seq<Shape>, n: nat): (r: Result<nat, ParseError>)
    requires i <= |toks| && n <= |pat|
    ensures r.Ok? ==> r.value == i + (|pat| - n) <= |toks|
    decreases |pat| - n
  {
    if n == |pat| then Ok(i)
    else
      match MatchShape(toks, i, pat[n])
      case Err(e) => Err(e)
      case Ok(j) => MatchFrom(toks, j, pat, n + 1)
  }

  /** A pattern matches exactly when each of its shapes matches the token at the same offset. */
  lemma {:induction false} MatchOkIff(toks: seq<Token>, i: nat, pat: seq<Shape>, n: nat)
    requires i <= |toks| && n <= |pat|
    ensures MatchFrom(toks, i, pat, n).Ok? <==>
      i + (|pat| - n) <= |toks| && forall k :: n <= k < |pat| ==> Matches(toks[i + (k - n)].kind, pat[k])
    decreases |pat| - n
  {
    if n < |pat| && MatchShape(toks, i, pat[n]).Ok? {
      MatchOkIff(toks, i + 1, pat, n + 1);
    }
  }

  /**
   * Matching stops at the first shape that fails: the shape at index `m`,
   * with the kind found there, or EOF.
   */
  lemma {:induction false} MatchFailsAt(toks: seq<Token>, i: nat, pat: seq<Shape>, n: nat, m: nat)
    requires i <= |toks| && n <= m < |pat|
    requires forall k :: n <= k < m ==> i + (k - n) < |toks| && Matches(toks[i + (k - n)].kind, pat[k])
    requires i + (m - n) == |toks| || (i + (m - n) < |toks| && !Matches(toks[i + (m - n)].kind, pat[m]))
    ensures MatchFrom(toks, i, pat, n) ==
      Err(Expected(pat[m], if i + (m - n) < |toks| then Some(toks[i + (m - n)].kind) else None))
    decreases m - n
  {
    if n < m {
      assert i + (n - n) < |toks| && Matches(toks[i + (n - n)].kind, pat[n]);
      forall k | n + 1 <= k < m
        ensures (i + 1) + (k - (n + 1)) < |toks| && Matches(toks[(i + 1) + (k - (n + 1))].kind, pat[k])
      {
        assert i + (k - n) < |toks| && Matches(toks[i + (k - n)].kind, pat[k]);
      }
      MatchFailsAt(toks, i + 1, pat, n + 1, m);
    }
  }

  /** One step of `MatchFrom`: the shape at `n` fails with its error, or the match goes on one token later. */
  lemma MatchStep(toks: seq<Token>, i: nat, pat: seq<Shape>, n: nat)
    requires i <= |toks| && n < |pat|
    ensures MatchShape(toks, i, pat[n]).Err? ==> MatchFrom(toks, i, pat, n) == Err(MatchShape(toks, i, pat[n]).error)
    ensures MatchShape(toks, i, pat[n]).Ok? ==> MatchFrom(toks, i, pat, n) == MatchFrom(toks, i + 1, pat, n + 1)
  {
  }

  /** The shape at each offset of `FunctionPattern`. */
  lemma PatternShapes()
    ensures |FunctionPattern| == 10
    ensures FunctionPattern[0] == Exactly(Int) && FunctionPattern[1] == AnyIdentifier
    ensures FunctionPattern[2] == Exactly(ParenOpen) && FunctionPattern[3] == Exactly(Void)
    ensures FunctionPattern[4] == Exactly(ParenClose) && FunctionPattern[5] == Exactly(BraceOpen)
    ensures FunctionPattern[6] == Exactly(Return) && FunctionPattern[7] == AnyConstant
    ensures FunctionPattern[8] == Exactly(Semicolon) && FunctionPattern[9] == Exactly(BraceClose)
  {
  }

  /** `StatementFrom` matches offsets 6 to 8 of `FunctionPattern`, binding the constant at offset 7. */
  lemma StatementMatches(toks: seq<Token>, j: nat)
    requires j <= |toks|
    ensures var r := StatementFrom(toks, j);
      && (r.Err? ==> MatchFrom(toks, j, FunctionPattern, 6) == Err(r.error))
      && (r.Ok? ==> MatchFrom(toks, j, FunctionPattern, 6) == MatchFrom(toks, r.value.1, FunctionPattern, 9))
      && (r.Ok? ==> j + 1 < |toks| && toks[j + 1].kind == Constant(r.value.0.expr.value))
  {
    var pat := FunctionPattern;
    PatternShapes();
    MatchStep(toks, j, pat, 6);
    if MatchShape(toks, j, pat[6]).Ok? {
      MatchStep(toks, j + 1, pat, 7);
      if MatchShape(toks, j + 1, pat[7]).Ok? {
        MatchStep(toks, j + 2, pat, 8);
      }
    }
  }

  /**
   * The parse functions and the pattern describe the same language:
   * `FunctionFrom` fails exactly when `FunctionPattern` fails to match,
   * with the same error, and otherwise ends where the match ends, with
   * the identifier at offset 1 as the name and the constant at offset 7
   * as the return value.
   */
  lemma FunctionMatches(toks: seq<Token>, i: nat)
    requires i <= |toks|
    ensures var r := FunctionFrom(toks, i);
      && (r.Err? ==> MatchFrom(toks, i, FunctionPattern, 0) == Err(r.error))
      && (r.Ok? ==> MatchFrom(toks, i, FunctionPattern, 0) == Ok(r.value.1))
      && (r.Ok? ==> i + 7 < |toks| && toks[i + 1].kind == Identifier(r.value.0.ident)
                    && toks[i + 7].kind == Constant(r.value.0.stmt.expr.value))
  {
    var pat := FunctionPattern;
    PatternShapes();
    MatchStep(toks, i, pat, 0);
    if MatchShape(toks, i, pat[0]).Ok? {
      MatchStep(toks, i + 1, pat, 1);
      if MatchShape(toks, i + 1, pat[1]).Ok? {
        BodyMatches(toks, i + 2);
      }
    }
  }

  /** `BodyFrom` matches offsets 2 to 9 of `FunctionPattern`, binding the constant at offset 7. */
  lemma BodyMatches(toks: seq<Token>, j: nat)
    requires j <= |toks|
    ensures var r := BodyFrom(toks, j);
      && (r.Err? ==> MatchFrom(toks, j, FunctionPattern, 2) == Err(r.error))
      && (r.Ok? ==> MatchFrom(toks, j, FunctionPattern, 2) == Ok(r.value.1))
      && (r.Ok? ==> j + 5 < |toks| && toks[j + 5].kind == Constant(r.value.0.expr.value))
  {
    var pat := FunctionPattern;
    PatternShapes();
    MatchStep(toks, j, pat, 2);
    if MatchShape(toks, j, pat[2]).Ok? {
      MatchStep(toks, j + 1, pat, 3);
      if MatchShape(toks, j + 1, pat[3]).Ok? {
        MatchStep(toks, j + 2, pat, 4);
        if MatchShape(toks, j + 2, pat[4]).Ok? {
          MatchStep(toks, j + 3, pat, 5);
          if MatchShape(toks, j + 3, pat[5]).Ok? {
            StatementMatches(toks, j + 4);
            if StatementFrom(toks, j + 4).Ok? {
              MatchStep(toks, j + 7, pat, 9);
            }
          }
        }
      }
    }
  }

  // ---------------------------------------------------------------
  // Properties of the whole parse
  // ---------------------------------------------------------------

  /** The kinds of a token sequence. */
  function Kinds(toks: seq<Token>): (ks: seq<TokenKind>)
    ensures |ks| == |toks| && forall k :: 0 <= k < |toks| ==> ks[k] == toks[k].kind
  {
    seq(|toks|, k requires 0 <= k < |toks| => toks[k].kind)
  }

  /** The token kinds a program is written with. */
  function Unparse(p: Ast.Program): seq<TokenKind> {
    [Int, Identifier(p.func.ident), ParenOpen, Void, ParenClose, BraceOpen,
     Return, Constant(p.func.stmt.expr.value), Semicolon,
     BraceClose]
  }

  /** The parse accepts exactly the ten-token shape `int IDENT ( void ) { return CONSTANT ; }`, with nothing after it. */
  lemma ParseAcceptsIff(toks: seq<Token>)
    ensures Parse(toks).Ok? <==>
      |toks| == |FunctionPattern| && forall k :: 0 <= k < |toks| ==> Matches(toks[k].kind, FunctionPattern[k])
  {
    ParseOkIffMatch(toks);
    MatchAtStart(toks, FunctionPattern);
  }

  /** The parse succeeds exactly when the pattern matches from the first token and consumes them all. */
  lemma ParseOkIffMatch(toks: seq<Token>)
    ensures Parse(toks).Ok? <==> |toks| == |FunctionPattern| && MatchFrom(toks, 0, FunctionPattern, 0).Ok?
  {
    FunctionMatches(toks, 0);
  }

  /** `MatchOkIff` from the first token and the first shape, with plain indices. */
  lemma MatchAtStart(toks: seq<Token>, pat: seq<Shape>)
    ensures MatchFrom(toks, 0, pat, 0).Ok? <==>
      |pat| <= |toks| && forall k :: 0 <= k < |pat| ==> Matches(toks[k].kind, pat[k])
  {
    MatchOkIff(toks, 0, pat, 0);
    if MatchFrom(toks, 0, pat, 0).Ok? {
      forall k | 0 <= k < |pat|
        ensures Matches(toks[k].kind, pat[k])
      {
        assert Matches(toks[0 + (k - 0)].kind, pat[k]);
      }
    }
    if |pat| <= |toks| && forall k :: 0 <= k < |pat| ==> Matches(toks[k].kind, pat[k]) {
      forall k | 0 <= k < |pat|
        ensures Matches(toks[0 + (k - 0)].kind, pat[k])
      {
      }
    }
  }

  /** A successful parse returns the program the tokens spell. */
  lemma ParseSpells(toks: seq<Token>, p: Ast.Program)
    requires Parse(toks) == Ok(p)
    ensures Kinds(toks) == Unparse(p)
  {
    var ks := [toks[0].kind, toks[1].kind, toks[2].kind, toks[3].kind, toks[4].kind,
               toks[5].kind, toks[6].kind, toks[7].kind, toks[8].kind, toks[9].kind];
    assert Kinds(toks) == ks;
  }

  /** Tokens that spell a program parse to it. */
  lemma UnparseParses(toks: seq<Token>, p: Ast.Program)
    requires Kinds(toks) == Unparse(p)
    ensures Parse(toks) == Ok(p)
  {
    var u := Unparse(p);
    assert toks[0].kind == u[0] && toks[1].kind == u[1] && toks[2].kind == u[2] && toks[3].kind == u[3];
    assert toks[4].kind == u[4] && toks[5].kind == u[5] && toks[6].kind == u[6] && toks[7].kind == u[7];
    assert toks[8].kind == u[8] && toks[9].kind == u[9];
  }

  /**
   * Parsing and writing a program out as tokens are inverse: the parse
   * yields `p` exactly when the tokens' kinds spell `p`.
   */
  lemma ParseInvertsUnparse(toks: seq<Token>, p: Ast.Program)
    ensures Parse(toks) == Ok(p) <==> Kinds(toks) == Unparse(p)
  {
    if Parse(toks) == Ok(p) {
      ParseSpells(toks, p);
    }
    if Kinds(toks) == Unparse(p) {
      UnparseParses(toks, p);
    }
  }

  /**
   * The parse stops at the first token that does not fit, naming the
   * shape it expected there and the kind it found, or EOF.
   */
  lemma ParseFailsAtFirstMismatch(toks: seq<Token>, n: nat)
    requires n < |FunctionPattern|
    requires forall k :: 0 <= k < n ==> k < |toks| && Matches(toks[k].kind, FunctionPattern[k])
    requires n == |toks| || (n < |toks| && !Matches(toks[n].kind, FunctionPattern[n]))
    ensures Parse(toks) == Err(Expected(FunctionPattern[n], if n < |toks| then Some(toks[n].kind) else None))
  {
    forall k | 0 <= k < n
      ensures 0 + (k - 0) < |toks| && Matches(toks[0 + (k - 0)].kind, FunctionPattern[k])
    {
    }
    MatchFailsAt(toks, 0, FunctionPattern, 0, n);
    FunctionMatches(toks, 0);
  }

  /** A complete program followed by more tokens is rejected, naming the first extra one. */
  lemma ParseRejectsLeftover(toks: seq<Token>)
    requires |toks| > |FunctionPattern|
    requires forall k :: 0 <= k < |FunctionPattern| ==> Matches(toks[k].kind, FunctionPattern[k])
    ensures Parse(toks) == Err(TokensRemain(toks[|FunctionPattern|].kind))
  {
    forall k | 0 <= k < |FunctionPattern|
      ensures Matches(toks[0 + (k - 0)].kind, FunctionPattern[k])
    {
    }
    MatchOkIff(toks, 0, FunctionPattern, 0);
    FunctionMatches(toks, 0);
    assert FunctionFrom(toks, 0).Ok? && FunctionFrom(toks, 0).value.1 == |FunctionPattern|;
  }

  // ---------------------------------------------------------------
  // The parser
  // ---------------------------------------------------------------

  class Parser {
    const tokens: seq<Token>
    var currIdx: nat

    ghost predicate Valid()
      reads this
    {
      currIdx <= |tokens|
    }

    constructor (tokens: seq<Token>)
      ensures Valid() && this.tokens == tokens && currIdx == 0
    {
      this.tokens := tokens;
      currIdx := 0;
    }

    /** The token at the cursor, if any. */
    method Peek() returns (t: Option<Token>)
      requires Valid()
      ensures t.Some? <==> currIdx < |tokens|
      ensures t.Some? ==> t.value == tokens[currIdx]
    {
      if currIdx < |tokens| {
        t := Some(tokens[currIdx]);
      } else {
        t := None;
      }
    }

    /** Takes the token at the cursor: the cursor advances by one exactly when there is one. */
    method TakeToken() returns (t: Option<Token>)
      requires Valid()
      modifies this
      ensures Valid()
      ensures t.Some? <==> old(currIdx) < |tokens|
      ensures t.Some? ==> t.value == tokens[old(currIdx)] && currIdx == old(currIdx) + 1
      ensures t.None? ==> currIdx == old(currIdx)
    {
      t := Peek();
      if t.Some? {
        currIdx := currIdx + 1;
      }
    }

    /**
     * The `expect!` macro: takes a token and checks it against `shape`,
     * giving back its kind; it fails exactly as matching `[shape]` does.
     */
    method Expect(shape: Shape) returns (r: Result<TokenKind, ParseError>)
      requires Valid()
      modifies this
      ensures Valid() && old(currIdx) <= currIdx
      ensures r.Ok? ==> MatchShape(tokens, old(currIdx), shape) == Ok(currIdx) && r.value == tokens[old(currIdx)].kind
      ensures r.Err? ==> MatchShape(tokens, old(currIdx), shape) == Err(r.error)
      ensures r.Err? ==> currIdx == old(currIdx) + (if old(currIdx) < |tokens| then 1 else 0)
    {
      var token := TakeToken();
      if token.None? {
        return Err(Expected(shape, None));
      }
      if !Matches(token.value.kind, shape) {
        return Err(Expected(shape, Some(token.value.kind)));
      }
      return Ok(token.value.kind);
    }

    /** The whole parse, proved equal to the reference `ParseFrom`; on success every token is consumed. */
    method ParseAst() returns (r: Result<Ast.Program, ParseError>)
      requires Valid()
      modifies this
      ensures Valid() && old(currIdx) <= currIdx
      ensures r == ParseFrom(tokens, old(currIdx))
      ensures r.Ok? ==> currIdx == |tokens|
    {
      var program := ParseProgram();
      if program.Err? {
        return program;
      }
      var next := Peek();
      if next.Some? {
        return Err(TokensRemain(next.value.kind));
      }
      return program;
    }

    method ParseProgram() returns (r: Result<Ast.Program, ParseError>)
      requires Valid()
      modifies this
      ensures Valid() && old(currIdx) <= currIdx
      ensures r.Ok? ==> FunctionFrom(tokens, old(currIdx)) == Ok((r.value.func, currIdx))
      ensures r.Err? ==> FunctionFrom(tokens, old(currIdx)) == Err(r.error)
    {
      var func := ParseFunction();
      if func.Err? {
        return Err(func.error);
      }
      return Ok(Ast.Program(func.value));
    }

    method ParseFunction() returns (r: Result<Ast.Function, ParseError>)
      requires Valid()
      modifies this
      ensures Valid() && old(currIdx) <= currIdx
      ensures r.Ok? ==> FunctionFrom(tokens, old(currIdx)) == Ok((r.value, currIdx))
      ensures r.Err? ==> FunctionFrom(tokens, old(currIdx)) == Err(r.error)
    {
      var t := Expect(Exactly(Int));
      if t.Err? {
        return Err(t.error);
      }
      var ident := ParseIdentifier();
      if ident.Err? {
        return Err(ident.error);
      }
      t := Expect(Exactly(ParenOpen));
      if t.Err? {
        return Err(t.error);
      }
      t := Expect(Exactly(Void));
      if t.Err? {
        return Err(t.error);
      }
      t := Expect(Exactly(ParenClose));
      if t.Err? {
        return Err(t.error);
      }
      t := Expect(Exactly(BraceOpen));
      if t.Err? {
        return Err(t.error);
      }
      var stmt := ParseStatement();
      if stmt.Err? {
        return Err(stmt.error);
      }
      t := Expect(Exactly(BraceClose));
      if t.Err? {
        return Err(t.error);
      }
      return Ok(Ast.Function(ident.value, stmt.value));
    }

    method ParseStatement() returns (r: Result<Ast.Stmt, ParseError>)
      requires Valid()
      modifies this
      ensures Valid() && old(currIdx) <= currIdx
      ensures r.Ok? ==> StatementFrom(tokens, old(currIdx)) == Ok((r.value, currIdx))
      ensures r.Err? ==> StatementFrom(tokens, old(currIdx)) == Err(r.error)
    {
      var t := Expect(Exactly(Return));
      if t.Err? {
        return Err(t.error);
      }
      var expr := ParseExpr();
      if expr.Err? {
        return Err(expr.error);
      }
      t := Expect(Exactly(Semicolon));
      if t.Err? {
        return Err(t.error);
      }
      return Ok(Ast.Stmt(expr.value));
    }

    method ParseExpr() returns (r: Result<Ast.Expr, ParseError>)
      requires Valid()
      modifies this
      ensures Valid() && old(currIdx) <= currIdx
      ensures r.Ok? ==> ExprFrom(tokens, old(currIdx)) == Ok((r.value, currIdx))
      ensures r.Err? ==> ExprFrom(tokens, old(currIdx)) == Err(r.error)
    {
      var literal := ParseInt();
      if literal.Err? {
        return Err(literal.error);
      }
      return Ok(Ast.Expr(literal.value));
    }

    /** Takes an identifier, giving back its name. */
    method ParseIdentifier() returns (r: Result<string, ParseError>)
      requires Valid()
      modifies this
      ensures Valid() && old(currIdx) <= currIdx
      ensures r.Ok? ==> MatchShape(tokens, old(currIdx), AnyIdentifier) == Ok(currIdx) && tokens[old(currIdx)].kind == Identifier(r.value)
      ensures r.Err? ==> MatchShape(tokens, old(currIdx), AnyIdentifier) == Err(r.error)
      ensures r.Err? ==> currIdx == old(currIdx) + (if old(currIdx) < |tokens| then 1 else 0)
    {
      var t := Expect(AnyIdentifier);
      if t.Err? {
        return Err(t.error);
      }
      return Ok(t.value.name);
    }

    /** Takes a constant, giving back its value. */
    method ParseInt() returns (r: Result<i32, ParseError>)
      requires Valid()
      modifies this
      ensures Valid() && old(currIdx) <= currIdx
      ensures r.Ok? ==> MatchShape(tokens, old(currIdx), AnyConstant) == Ok(currIdx) && tokens[old(currIdx)].kind == Constant(r.value)
      ensures r.Err? ==> MatchShape(tokens, old(currIdx), AnyConstant) == Err(r.error)
      ensures r.Err? ==> currIdx == old(currIdx) + (if old(currIdx) < |tokens| then 1 else 0)
    {
      var t := Expect(AnyConstant);
      if t.Err? {
        return Err(t.error);
      }
      return Ok(t.value.value);
    }
  }
}
