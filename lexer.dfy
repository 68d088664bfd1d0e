/**
 * The lexer: one forward scan over the source text turning it into tokens
 * with byte spans, line and column, or failing on the first bad character
 * or malformed constant.
 *
 * `Lex` is the reference definition of the scan, one classification step
 * at a time; `WellLexed` says declaratively what a token list produced
 * from a source must look like. `Lexer.Run` is the scanning loop itself,
 * proved to compute `Lex` and to produce only well-lexed token lists.
 */
module Lexing {
  import opened Wrappers
  import opened Decimal
  import opened Tokens

  datatype LexError =
    | InvalidCharacter(c: char)
    | InvalidConstant(lexeme: string)
    | ConstantOverflow(lexeme: string)

  // ---------------------------------------------------------------
  // Character classes (Rust's `is_ascii_*` on a byte)
  // ---------------------------------------------------------------

  predicate IsAscii(s: string) {
    forall k :: 0 <= k < |s| ==> s[k] < 128 as char
  }

  predicate IsAlpha(c: char) { 'a' <= c <= 'z' || 'A' <= c <= 'Z' }

  /** A byte that may start an identifier or keyword. */
  predicate IsIdentStart(c: char) { IsAlpha(c) || c == '_' }

  /** A byte that may continue an identifier, keyword or constant. */
  predicate IsWordChar(c: char) { IsAlpha(c) || IsDigit(c) || c == '_' }

  /** Bytes that separate tokens and produce none. */
  predicate IsBlank(c: char) { c == ' ' || c == '\t' || c == '\r' || c == '\n' }

  predicate IsPunct(c: char) { c == '{' || c == '}' || c == '(' || c == ')' || c == ';' }

  /** A punctuation byte is one of the five symbol kinds. */
  function PunctKind(c: char): (k: TokenKind)
    requires IsPunct(c)
    ensures k.BraceOpen? || k.BraceClose? || k.ParenOpen? || k.ParenClose? || k.Semicolon?
  {
    match c
    case '{' => BraceOpen
    case '}' => BraceClose
    case '(' => ParenOpen
    case ')' => ParenClose
    case ';' => Semicolon
  }

  /** The kind of an identifier-shaped lexeme: a keyword or an identifier. */
  function WordKind(w: string): (k: TokenKind)
    ensures !k.Identifier? <==> w in {"int", "void", "return"}
    ensures k == Int <==> w == "int"
    ensures k == Void <==> w == "void"
    ensures k == Return <==> w == "return"
    ensures k.Identifier? ==> k.name == w
    ensures !k.Constant?
  {
    if w == "int" then Int
    else if w == "void" then Void
    else if w == "return" then Return
    else Identifier(w)
  }

  // ---------------------------------------------------------------
  // Positions
  // ---------------------------------------------------------------

  /** The end of the maximal run of word characters that starts at `j`. */
  function WordEnd(s: string, j: nat): (e: nat)
    requires j <= |s|
    ensures j <= e <= |s|
    ensures forall m :: j <= m < e ==> IsWordChar(s[m])
    ensures e == |s| || !IsWordChar(s[e])
    decreases |s| - j
  {
    if j < |s| && IsWordChar(s[j]) then WordEnd(s, j + 1) else j
  }

  /** The number of line breaks in `s[..j]`. */
  function NewlinesBefore(s: string, j: nat): nat
    requires j <= |s|
  {
    if j == 0 then 0 else NewlinesBefore(s, j - 1) + (if s[j - 1] == '\n' then 1 else 0)
  }

  /** The index just after the last line break in `s[..j]`, or 0 when there is none. */
  function LineStart(s: string, j: nat): (r: nat)
    requires j <= |s|
    ensures r <= j
    ensures r == 0 || s[r - 1] == '\n'
    ensures forall m :: r <= m < j ==> s[m] != '\n'
  {
    if j == 0 then 0 else if s[j - 1] == '\n' then j else LineStart(s, j - 1)
  }

  // ---------------------------------------------------------------
  // Reference definition of the scan
  // ---------------------------------------------------------------

  /** What the scanner does with the byte at `i`: skip it, emit a token ending at `end`, or fail. */
  datatype Step = Skip | Emit(kind: TokenKind, end: nat) | Fail(error: LexError)

  function StepAt(s: string, i: nat): (st: Step)
    requires i < |s|
    ensures st.Skip? <==> IsBlank(s[i])
    ensures st.Emit? ==> i < st.end <= |s|
  {
    var c := s[i];
    if IsBlank(c) then Skip
    else if IsPunct(c) then Emit(PunctKind(c), i + 1)
    else if IsIdentStart(c) then
      var e := WordEnd(s, i + 1);
      Emit(WordKind(s[i..e]), e)
    else if IsDigit(c) then
      var e := WordEnd(s, i + 1);
      var lexeme := s[i..e];
      if !AllDigits(lexeme) then Fail(InvalidConstant(lexeme))
      else if Value(lexeme) > I32_MAX then Fail(ConstantOverflow(lexeme))
      else Emit(Constant(Value(lexeme)), e)
    else Fail(InvalidCharacter(c))
  }

  /** Scans `s` from `i`, the current line being `line` and starting at `lineStart`. */
  function LexFrom(s: string, i: nat, line: nat, lineStart: nat): Result<seq<Token>, LexError>
    requires lineStart <= i <= |s|
    decreases |s| - i
  {
    if i == |s| then Ok([])
    else
      match StepAt(s, i)
      case Skip =>
        if s[i] == '\n' then LexFrom(s, i + 1, line + 1, i + 1) else LexFrom(s, i + 1, line, lineStart)
      case Fail(e) => Err(e)
      case Emit(kind, end) =>
        var token := Token(kind, SourceLocation((i, end), line, i - lineStart));
        match LexFrom(s, end, line, lineStart)
        case Ok(rest) => Ok([token] + rest)
        case Err(e) => Err(e)
  }

  /** The whole scan, from the first byte on line 1. */
  function Lex(s: string): Result<seq<Token>, LexError> {
    LexFrom(s, 0, 1, 0)
  }

  /** `tokens` followed by whatever `r` scans, or `r`'s error. */
  function Prepend(tokens: seq<Token>, r: Result<seq<Token>, LexError>): Result<seq<Token>, LexError> {
    match r
    case Ok(rest) => Ok(tokens + rest)
    case Err(e) => Err(e)
  }

  // ---------------------------------------------------------------
  // Declarative shape of a lexed token list
  // ---------------------------------------------------------------

  /** A non-empty span inside the source. */
  predicate Spanned(s: string, t: Token) {
    t.loc.index.0 < t.loc.index.1 <= |s|
  }

  /** The line is 1 plus the line breaks before the token; the column counts from the line's start. */
  predicate Located(s: string, t: Token)
    requires Spanned(s, t)
  {
    var a := t.loc.index.0;
    t.loc.line == 1 + NewlinesBefore(s, a) && t.loc.col == a - LineStart(s, a)
  }

  /** The kind is the one the token's lexeme calls for, and word lexemes are maximal runs. */
  predicate Classified(s: string, t: Token)
    requires Spanned(s, t)
  {
    var (a, b) := t.loc.index;
    var lexeme := s[a..b];
    if IsPunct(s[a]) then
      b == a + 1 && t.kind == PunctKind(s[a])
    else if IsIdentStart(s[a]) then
      b == WordEnd(s, a) && t.kind == WordKind(lexeme)
    else
      IsDigit(s[a]) && b == WordEnd(s, a) && AllDigits(lexeme) && t.kind.Constant? && t.kind.value == Value(lexeme)
  }

  predicate TokenOk(s: string, t: Token) {
    Spanned(s, t) && Located(s, t) && Classified(s, t)
  }

  /** Tokens come in source order and never overlap. */
  predicate Ordered(tokens: seq<Token>) {
    forall j, k :: 0 <= j < k < |tokens| ==> tokens[j].loc.index.1 <= tokens[k].loc.index.0
  }

  /** Some token's span holds byte `m`. */
  predicate InSomeToken(tokens: seq<Token>, m: nat)
    decreases |tokens|
  {
    |tokens| > 0
    && (var t := tokens[|tokens| - 1];
        (t.loc.index.0 <= m < t.loc.index.1) || InSomeToken(tokens[..|tokens| - 1], m))
  }

  /**
   * `tokens` is what scanning `s[..upTo]` yields: well-formed tokens in
   * source order, and every byte outside their spans is blank.
   */
  predicate LexedUpTo(s: string, tokens: seq<Token>, upTo: nat) {
    && upTo <= |s|
    && (forall k :: 0 <= k < |tokens| ==> TokenOk(s, tokens[k]) && tokens[k].loc.index.1 <= upTo)
    && Ordered(tokens)
    && (forall m :: 0 <= m < upTo && !IsBlank(s[m]) ==> InSomeToken(tokens, m))
  }

  predicate WellLexed(s: string, tokens: seq<Token>) {
    LexedUpTo(s, tokens, |s|)
  }

  // ---------------------------------------------------------------
  // Helper lemmas for the scanning loop
  // ---------------------------------------------------------------

  /** Crossing bytes that are not line breaks changes neither the line nor its start. */
  lemma {:induction false} SameLine(s: string, a: nat, b: nat)
    requires a <= b <= |s|
    requires forall m :: a <= m < b ==> s[m] != '\n'
    ensures NewlinesBefore(s, b) == NewlinesBefore(s, a)
    ensures LineStart(s, b) == LineStart(s, a)
    decreases b - a
  {
    if a < b {
      SameLine(s, a, b - 1);
    }
  }

  /** A word run is determined by where it starts. */
  lemma {:induction false} RunEndUnique(s: string, j: nat, e: nat)
    requires j <= e <= |s|
    requires forall m :: j <= m < e ==> IsWordChar(s[m])
    requires e == |s| || !IsWordChar(s[e])
    ensures e == WordEnd(s, j)
  {
  }

  lemma {:induction false} PrependStep(tokens: seq<Token>, t: Token, r: Result<seq<Token>, LexError>)
    ensures Prepend(tokens, Prepend([t], r)) == Prepend(tokens + [t], r)
  {
    if r.Ok? {
      assert tokens + ([t] + r.value) == (tokens + [t]) + r.value;
    }
  }

  /**
   * The state of the scan before the byte at `start`: the line bookkeeping
   * is right, `tokens` followed by the rest of the scan is the whole scan,
   * and `tokens` is what scanning `s[..start]` yields.
   */
  ghost predicate Scanning(s: string, tokens: seq<Token>, start: nat, line: nat, lineIdx: nat) {
    && lineIdx <= start <= |s|
    && line == 1 + NewlinesBefore(s, start)
    && lineIdx == LineStart(s, start)
    && Lex(s) == Prepend(tokens, LexFrom(s, start, line, lineIdx))
    && LexedUpTo(s, tokens, start)
  }

  lemma {:induction false} ScanStarts(s: string)
    ensures Scanning(s, [], 0, 1, 0)
  {
    if Lex(s).Ok? {
      assert [] + Lex(s).value == Lex(s).value;
    }
  }

  /** Skipping a blank byte keeps the scan state; a line break moves to the next line. */
  lemma {:induction false} ScanSkips(s: string, tokens: seq<Token>, start: nat, line: nat, lineIdx: nat)
    requires Scanning(s, tokens, start, line, lineIdx)
    requires start < |s| && IsBlank(s[start])
    ensures s[start] == '\n' ==> Scanning(s, tokens, start + 1, line + 1, start + 1)
    ensures s[start] != '\n' ==> Scanning(s, tokens, start + 1, line, lineIdx)
  {
    assert LexedUpTo(s, tokens, start + 1);
  }

  /** The token a step emits is well formed, and the line does not change across it. */
  lemma {:induction false} EmittedTokenOk(s: string, start: nat, line: nat, lineIdx: nat, kind: TokenKind, end: nat)
    requires start < |s| && StepAt(s, start) == Emit(kind, end)
    requires lineIdx <= start && line == 1 + NewlinesBefore(s, start) && lineIdx == LineStart(s, start)
    ensures TokenOk(s, Token(kind, SourceLocation((start, end), line, start - lineIdx)))
    ensures NewlinesBefore(s, end) == NewlinesBefore(s, start) && LineStart(s, end) == LineStart(s, start)
  {
    assert forall m :: start <= m < end ==> s[m] != '\n';
    SameLine(s, start, end);
    if !IsPunct(s[start]) {
      assert WordEnd(s, start) == WordEnd(s, start + 1);
    }
  }

  /** A well-formed token right after the scanned prefix extends it. */
  lemma {:induction false} LexedExtends(s: string, tokens: seq<Token>, upTo: nat, token: Token)
    requires LexedUpTo(s, tokens, upTo)
    requires TokenOk(s, token) && token.loc.index.0 == upTo
    ensures LexedUpTo(s, tokens + [token], token.loc.index.1)
  {
    var tokens' := tokens + [token];
    assert tokens'[..|tokens|] == tokens;
    forall k | 0 <= k < |tokens'|
      ensures TokenOk(s, tokens'[k]) && tokens'[k].loc.index.1 <= token.loc.index.1
    {
      if k < |tokens| {
        assert tokens'[k] == tokens[k];
      }
    }
    forall j, k | 0 <= j < k < |tokens'|
      ensures tokens'[j].loc.index.1 <= tokens'[k].loc.index.0
    {
      assert tokens'[j] == tokens[j];
    }
    forall m | 0 <= m < token.loc.index.1 && !IsBlank(s[m])
      ensures InSomeToken(tokens', m)
    {
    }
  }

  /** Emitting the token the step calls for keeps the scan state. */
  lemma {:induction false} ScanEmits(s: string, tokens: seq<Token>, start: nat, line: nat, lineIdx: nat, kind: TokenKind, end: nat)
    requires Scanning(s, tokens, start, line, lineIdx)
    requires start < |s| && StepAt(s, start) == Emit(kind, end)
    ensures Scanning(s, tokens + [Token(kind, SourceLocation((start, end), line, start - lineIdx))], end, line, lineIdx)
  {
    var token := Token(kind, SourceLocation((start, end), line, start - lineIdx));
    EmittedTokenOk(s, start, line, lineIdx, kind, end);
    LexedExtends(s, tokens, start, token);
    assert LexFrom(s, start, line, lineIdx) == Prepend([token], LexFrom(s, end, line, lineIdx));
    PrependStep(tokens, token, LexFrom(s, end, line, lineIdx));
  }

  /** A failing step is the failure of the whole scan. */
  lemma {:induction false} ScanFails(s: string, tokens: seq<Token>, start: nat, line: nat, lineIdx: nat, e: LexError)
    requires Scanning(s, tokens, start, line, lineIdx)
    requires start < |s| && StepAt(s, start) == Fail(e)
    ensures Lex(s) == Err(e)
  {
  }

  lemma {:induction false} ScanEnds(s: string, tokens: seq<Token>, line: nat, lineIdx: nat)
    requires Scanning(s, tokens, |s|, line, lineIdx)
    ensures Lex(s) == Ok(tokens) && WellLexed(s, tokens)
  {
    assert tokens + [] == tokens;
  }

  /** The rest of the scan from a scanning state, step by step as the loop takes it. */
  lemma {:induction false} ScanRest(s: string, tokens: seq<Token>, start: nat, line: nat, lineIdx: nat)
    requires Scanning(s, tokens, start, line, lineIdx)
    ensures Lex(s).Ok? ==> WellLexed(s, Lex(s).value)
    decreases |s| - start
  {
    if start == |s| {
      ScanEnds(s, tokens, line, lineIdx);
    } else {
      match StepAt(s, start)
      case Skip =>
        ScanSkips(s, tokens, start, line, lineIdx);
        if s[start] == '\n' {
          ScanRest(s, tokens, start + 1, line + 1, start + 1);
        } else {
          ScanRest(s, tokens, start + 1, line, lineIdx);
        }
      case Emit(kind, end) =>
        ScanEmits(s, tokens, start, line, lineIdx, kind, end);
        ScanRest(s, tokens + [Token(kind, SourceLocation((start, end), line, start - lineIdx))], end, line, lineIdx);
      case Fail(e) =>
        ScanFails(s, tokens, start, line, lineIdx, e);
    }
  }

  /** Whatever the scan yields is well lexed. */
  lemma LexWellLexed(s: string)
    ensures Lex(s).Ok? ==> WellLexed(s, Lex(s).value)
  {
    ScanStarts(s);
    ScanRest(s, [], 0, 1, 0);
  }

  /** Every identifier the scan yields is a run of word characters. */
  lemma LexIdentifierIsWord(s: string, k: nat)
    requires Lex(s).Ok? && k < |Lex(s).value| && Lex(s).value[k].kind.Identifier?
    ensures forall c :: c in Lex(s).value[k].kind.name ==> IsWordChar(c)
  {
    LexWellLexed(s);
    LexedIdentifier(s, Lex(s).value, k);
  }

  /** An identifier token names exactly its lexeme, a maximal run of word characters that starts with a letter or `_`. */
  lemma LexedIdentifier(s: string, tokens: seq<Token>, k: nat)
    requires WellLexed(s, tokens) && k < |tokens| && tokens[k].kind.Identifier?
    ensures var (a, b) := tokens[k].loc.index;
      && a < b <= |s| && tokens[k].kind.name == s[a..b] && IsIdentStart(s[a])
      && (b == |s| || !IsWordChar(s[b]))
      && forall c :: c in tokens[k].kind.name ==> IsWordChar(c)
  {
    var (a, b) := tokens[k].loc.index;
    assert TokenOk(s, tokens[k]);
    assert forall m :: a <= m < b ==> s[m] == s[a..b][m - a];
  }

  // ---------------------------------------------------------------
  // When the scan succeeds, and what its errors report
  // ---------------------------------------------------------------

  /** A byte the scanner has a branch for. */
  predicate IsKnown(c: char) { IsBlank(c) || IsPunct(c) || IsWordChar(c) }

  /** Position `a` begins a maximal run of word characters. */
  predicate RunStartsAt(s: string, a: nat) {
    a < |s| && IsWordChar(s[a]) && (a == 0 || !IsWordChar(s[a - 1]))
  }

  /** The maximal word run at `a` starts with a digit and is not all digits. */
  predicate BadConstantAt(s: string, a: nat, lexeme: string) {
    RunStartsAt(s, a) && IsDigit(s[a]) && lexeme == s[a..WordEnd(s, a)] && !AllDigits(lexeme)
  }

  /** The maximal word run at `a` is all digits, and its value does not fit an `i32`. */
  predicate OverflowAt(s: string, a: nat, lexeme: string) {
    RunStartsAt(s, a) && IsDigit(s[a]) && lexeme == s[a..WordEnd(s, a)]
    && AllDigits(lexeme) && Value(lexeme) > I32_MAX
  }

  /** A run that starts with a digit is a pure digit run whose value fits an `i32`. */
  predicate RunOk(s: string, a: nat)
    requires a < |s|
  {
    IsDigit(s[a]) ==>
      var lexeme := s[a..WordEnd(s, a)];
      AllDigits(lexeme) && Value(lexeme) <= I32_MAX
  }

  /** From `from` on, every byte is known and every constant-shaped run is a valid constant. */
  predicate Lexable(s: string, from: nat) {
    forall j :: from <= j < |s| ==> IsKnown(s[j]) && (RunStartsAt(s, j) ==> RunOk(s, j))
  }

  /** `i` is not strictly inside a word run. */
  predicate AtBoundary(s: string, i: nat) {
    !(0 < i < |s| && IsWordChar(s[i - 1]) && IsWordChar(s[i]))
  }

  /** A byte outside any word run is checked on its own. */
  lemma LexableSkip(s: string, i: nat)
    requires i < |s| && !IsWordChar(s[i])
    ensures Lexable(s, i) <==> IsKnown(s[i]) && Lexable(s, i + 1)
  {
    assert !RunStartsAt(s, i);
  }

  /** A maximal word run is checked as a whole: only its first byte starts a run. */
  lemma LexableRun(s: string, i: nat)
    requires RunStartsAt(s, i)
    ensures Lexable(s, i) <==> RunOk(s, i) && Lexable(s, WordEnd(s, i))
  {
    var e := WordEnd(s, i);
    assert forall j :: i < j < e ==> IsKnown(s[j]) && !RunStartsAt(s, j);
    if RunOk(s, i) && Lexable(s, e) {
      forall j | i <= j < |s|
        ensures IsKnown(s[j]) && (RunStartsAt(s, j) ==> RunOk(s, j))
      {
        if j >= e {
          assert IsKnown(s[j]) && (RunStartsAt(s, j) ==> RunOk(s, j));
        }
      }
    }
  }

  lemma {:induction false} LexFromVerdict(s: string, i: nat, line: nat, lineStart: nat)
    requires lineStart <= i <= |s| && AtBoundary(s, i)
    ensures LexFrom(s, i, line, lineStart).Ok? <==> Lexable(s, i)
    ensures forall c :: LexFrom(s, i, line, lineStart) == Err(InvalidCharacter(c)) ==> !IsKnown(c) && c in s
    ensures forall lx :: LexFrom(s, i, line, lineStart) == Err(InvalidConstant(lx)) ==>
              exists a :: BadConstantAt(s, a, lx)
    ensures forall lx :: LexFrom(s, i, line, lineStart) == Err(ConstantOverflow(lx)) ==>
              exists a :: OverflowAt(s, a, lx)
    decreases |s| - i
  {
    if i < |s| {
      var c := s[i];
      if !IsWordChar(c) {
        LexableSkip(s, i);
      }
      if IsBlank(c) {
        if c == '\n' {
          LexFromVerdict(s, i + 1, line + 1, i + 1);
        } else {
          LexFromVerdict(s, i + 1, line, lineStart);
        }
      } else if IsPunct(c) {
        LexFromVerdict(s, i + 1, line, lineStart);
      } else if IsWordChar(c) {
        var e := WordEnd(s, i + 1);
        assert WordEnd(s, i) == e;
        assert RunStartsAt(s, i);
        LexableRun(s, i);
        LexFromVerdict(s, e, line, lineStart);
        if IsDigit(c) {
          var lexeme := s[i..e];
          if !AllDigits(lexeme) {
            assert BadConstantAt(s, i, lexeme);
          } else if Value(lexeme) > I32_MAX {
            assert OverflowAt(s, i, lexeme);
          }
        }
      }
    }
  }

  /** The scan succeeds exactly when every byte is known and every constant is well formed and fits. */
  lemma LexAcceptsIff(s: string)
    ensures Lex(s).Ok? <==> Lexable(s, 0)
  {
    LexFromVerdict(s, 0, 1, 0);
  }

  /**
   * A failed scan names what failed: a byte the scanner has no branch for,
   * or the whole maximal run of a malformed or oversized constant.
   */
  lemma LexErrorsPinpoint(s: string)
    ensures Lex(s).Err? && Lex(s).error.InvalidCharacter? ==>
              !IsKnown(Lex(s).error.c) && Lex(s).error.c in s
    ensures Lex(s).Err? && Lex(s).error.InvalidConstant? ==>
              exists a :: BadConstantAt(s, a, Lex(s).error.lexeme)
    ensures Lex(s).Err? && Lex(s).error.ConstantOverflow? ==>
              exists a :: OverflowAt(s, a, Lex(s).error.lexeme)
  {
    LexFromVerdict(s, 0, 1, 0);
  }

  // ---------------------------------------------------------------
  // The scanning loop
  // ---------------------------------------------------------------

  class Lexer {
    const source: string

    /** The source must be ASCII, so that each character is one byte. */
    constructor (source: string)
      requires IsAscii(source)
      ensures this.source == source
    {
      this.source := source;
    }

    /** Extends an identifier or keyword from `endIdx` over the word characters that follow. */
    method ScanWord(endIdx0: nat) returns (endIdx: nat)
      requires endIdx0 <= |source|
      ensures endIdx == WordEnd(source, endIdx0)
    {
      endIdx := endIdx0;
      while endIdx < |source|
        invariant endIdx0 <= endIdx <= |source|
        invariant forall m :: endIdx0 <= m < endIdx ==> IsWordChar(source[m])
      {
        var c := source[endIdx];
        if IsWordChar(c) {
          endIdx := endIdx + 1;
        } else {
          break;
        }
      }
      RunEndUnique(source, endIdx0, endIdx);
    }

    /**
     * Extends a constant starting at `startIdx` over the word characters
     * that follow, noting whether any of them is not a digit; it does not
     * stop at the first letter, so that the whole offending lexeme is reported.
     */
    method ScanConstant(startIdx: nat) returns (endIdx: nat, valid: bool)
      requires startIdx < |source| && IsDigit(source[startIdx])
      ensures endIdx == WordEnd(source, startIdx + 1)
      ensures valid <==> AllDigits(source[startIdx..endIdx])
    {
      endIdx := startIdx + 1;
      valid := true;
      while endIdx < |source|
        invariant startIdx < endIdx <= |source|
        invariant forall m :: startIdx < m < endIdx ==> IsWordChar(source[m])
        invariant valid <==> forall m :: startIdx <= m < endIdx ==> IsDigit(source[m])
      {
        var c := source[endIdx];
        if IsDigit(c) {
          endIdx := endIdx + 1;
        } else if IsIdentStart(c) {
          valid := false;
          endIdx := endIdx + 1;
        } else {
          break;
        }
      }
      RunEndUnique(source, startIdx + 1, endIdx);
      var span := source[startIdx..endIdx];
      assert valid <==> AllDigits(span) by {
        if !valid {
          var m :| startIdx <= m < endIdx && !IsDigit(source[m]);
          assert span[m - startIdx] == source[m];
        }
      }
    }

    method Run() returns (r: Result<seq<Token>, LexError>)
      ensures r == Lex(source)
      ensures r.Ok? ==> WellLexed(source, r.value)
    {
      var tokens: seq<Token> := [];
      var startIdx: nat := 0;
      var line: nat := 1;
      var lineIdx: nat := 0;
      ScanStarts(source);
      while startIdx < |source|
        invariant Scanning(source, tokens, startIdx, line, lineIdx)
      {
        ghost var line0, lineIdx0 := line, lineIdx;
        var curr := source[startIdx];
        var endIdx := startIdx + 1;
        var kind: Option<TokenKind>;
        if curr == ' ' || curr == '\t' || curr == '\r' {
          kind := None;
          ScanSkips(source, tokens, startIdx, line, lineIdx);
        } else if curr == '\n' {
          line := line + 1;
          lineIdx := endIdx;
          kind := None;
          ScanSkips(source, tokens, startIdx, line0, lineIdx0);
        } else if curr == '{' {
          kind := Some(BraceOpen);
          assert StepAt(source, startIdx) == Emit(kind.value, endIdx);
        } else if curr == '}' {
          kind := Some(BraceClose);
          assert StepAt(source, startIdx) == Emit(kind.value, endIdx);
        } else if curr == '(' {
          kind := Some(ParenOpen);
          assert StepAt(source, startIdx) == Emit(kind.value, endIdx);
        } else if curr == ')' {
          kind := Some(ParenClose);
          assert StepAt(source, startIdx) == Emit(kind.value, endIdx);
        } else if curr == ';' {
          kind := Some(Semicolon);
          assert StepAt(source, startIdx) == Emit(kind.value, endIdx);
        } else if IsIdentStart(curr) {
          endIdx := ScanWord(endIdx);
          var span := source[startIdx..endIdx];
          kind := Some(WordKind(span));
          assert StepAt(source, startIdx) == Emit(kind.value, endIdx);
        } else if IsDigit(curr) {
          var valid;
          endIdx, valid := ScanConstant(startIdx);
          var span := source[startIdx..endIdx];
          if !valid {
            ScanFails(source, tokens, startIdx, line, lineIdx, InvalidConstant(span));
            return Err(InvalidConstant(span));
          }
          if Value(span) > I32_MAX {
            ScanFails(source, tokens, startIdx, line, lineIdx, ConstantOverflow(span));
            return Err(ConstantOverflow(span));
          }
          kind := Some(Constant(Value(span)));
          assert StepAt(source, startIdx) == Emit(kind.value, endIdx);
        } else {
          ScanFails(source, tokens, startIdx, line, lineIdx, InvalidCharacter(curr));
          return Err(InvalidCharacter(curr));
        }

        if kind.Some? {
          var token := Token(kind.value, SourceLocation((startIdx, endIdx), line, startIdx - lineIdx));
          ScanEmits(source, tokens, startIdx, line, lineIdx, kind.value, endIdx);
          tokens := tokens + [token];
        }
        startIdx := endIdx;
      }
      ScanEnds(source, tokens, line, lineIdx);
      r := Ok(tokens);
    }
  }
}
