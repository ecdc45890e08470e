/**
 * The lexer of src/lexer.rs: a single left-to-right scan over the input with one character of
 * lookahead. The cursor (`pos`, `row`, `col`) and the token vector are fields of a `Lexer` object that
 * the scanning methods update in place. The input is a sequence of ASCII characters, so a position in
 * the Rust string (a byte offset) and a position in the sequence agree.
 *
 * `ScanFrom` is the reference definition of the `tokenize` loop: one `Step` per loop iteration. The
 * methods of class `Lexer` are proved to follow it, and the lemmas at the end of the module state what
 * a scan produces.
 */
module Lexer {
  import opened Wrappers

  /** Row and column of the lexer's cursor when a token is pushed (both start at 0). */
  datatype TokenMeta = TokenMeta(row: nat, col: nat)

  datatype TokenType =
    | Semicolon
    | LeftParen
    | RightParen
    | NumericLit
    | Add
    | Sub
    | Div
    | Mul
    | EoF

  datatype LexerError =
    | UnexpectedEndOfFile(meta: TokenMeta)
    | UnexpectedCharacter(character: string, meta: TokenMeta)
    | InvalidNumericLit(character: string, meta: TokenMeta)

  datatype Token = Token(tokenType: TokenType, lexeme: string, meta: TokenMeta)

  predicate IsDigit(c: char) { '0' <= c <= '9' }

  /** The characters a numeric literal is made of after its first digit. */
  predicate IsNumChar(c: char) { IsDigit(c) || c == '.' }

  /** The characters `tokenize` skips. */
  predicate IsBlank(c: char) { c == ' ' || c == '\n' }

  /** The token type `scan_delimiter` gives a lexeme, if it accepts it. */
  function DelimiterType(lexeme: string): Option<TokenType> {
    if lexeme == ";" then Some(Semicolon)
    else if lexeme == "(" then Some(LeftParen)
    else if lexeme == ")" then Some(RightParen)
    else None
  }

  /** The token type `scan_binary_op` gives a lexeme, if it accepts it. */
  function BinaryOpType(lexeme: string): Option<TokenType> {
    if lexeme == "+" then Some(Add)
    else if lexeme == "-" then Some(Sub)
    else if lexeme == "/" then Some(Div)
    else if lexeme == "*" then Some(Mul)
    else None
  }

  /** The characters on which `tokenize` skips or starts a token. */
  predicate StartsToken(c: char) {
    IsBlank(c) || IsDigit(c) || DelimiterType([c]).Some? || BinaryOpType([c]).Some?
  }

  /** The characters a successful scan can pass over: those, and the '.' inside a literal. */
  predicate Lexable(c: char) {
    StartsToken(c) || c == '.'
  }

  // ---------------------------------------------------------------------------------------------
  // Reference definition of the scan
  // ---------------------------------------------------------------------------------------------

  /**
   * Where the loop of `scan_num_lit` stops once it has reached `end` (`isFloat` tells whether a '.'
   * was already seen), or None when it meets a second '.'.
   */
  function NumLitEnd(input: string, end: nat, isFloat: bool): (r: Option<nat>)
    requires end <= |input|
    ensures r.Some? ==> end <= r.value <= |input|
    ensures r.Some? && r.value < |input| ==> !IsNumChar(input[r.value])
    decreases |input| - end
  {
    if end == |input| then Some(end)
    else if IsDigit(input[end]) then NumLitEnd(input, end + 1, isFloat)
    else if input[end] == '.' then (if isFloat then None else NumLitEnd(input, end + 1, true))
    else Some(end)
  }

  /** The lexer's cursor together with the tokens pushed so far. */
  datatype LexState = LexState(pos: nat, row: nat, col: nat, tokens: seq<Token>)

  /** One iteration of the `tokenize` loop, on the character at `s.pos`. */
  function Step(input: string, s: LexState): (r: Result<LexState, LexerError>)
    requires s.pos < |input|
    ensures r.Ok? ==> s.pos < r.value.pos <= |input|
  {
    var c := input[s.pos];
    var here := TokenMeta(s.row, s.col);
    if c == ' ' then Ok(s.(pos := s.pos + 1, col := s.col + 1))
    else if c == '\n' then Ok(LexState(s.pos + 1, s.row + 1, 0, s.tokens))
    else if DelimiterType([c]).Some? then
      Ok(LexState(s.pos + 1, s.row, s.col + 1, s.tokens + [Token(DelimiterType([c]).value, [c], here)]))
    else if BinaryOpType([c]).Some? then
      Ok(LexState(s.pos + 1, s.row, s.col + 1, s.tokens + [Token(BinaryOpType([c]).value, [c], here)]))
    else if IsDigit(c) then
      match NumLitEnd(input, s.pos + 1, false)
      case None => Err(InvalidNumericLit(".", here))
      case Some(end) => Ok(s.(pos := end, tokens := s.tokens + [Token(NumericLit, input[s.pos..end], here)]))
    else Err(UnexpectedCharacter([c], here))
  }

  /** The state a scan ends in, and the error that stopped it, if any. */
  datatype Scan = Scan(state: LexState, error: Option<LexerError>)

  /** The whole `tokenize` loop from `s`, followed by the final `EoF` push on success. */
  function ScanFrom(input: string, s: LexState): (r: Scan)
    requires s.pos <= |input|
    decreases |input| - s.pos
  {
    if s.pos == |input| then Scan(s.(tokens := s.tokens + [Token(EoF, "", TokenMeta(s.row, s.col))]), None)
    else
      match Step(input, s)
      case Err(e) => Scan(s, Some(e))
      case Ok(next) => ScanFrom(input, next)
  }

  /** `Lexer::new(input)` followed by `tokenize()`; on success, the lexer's token vector. */
  function Lex(input: string): Result<seq<Token>, LexerError> {
    var r := ScanFrom(input, LexState(0, 0, 0, []));
    if r.error.None? then Ok(r.state.tokens) else Err(r.error.value)
  }

  // ---------------------------------------------------------------------------------------------
  // The Lexer object
  // ---------------------------------------------------------------------------------------------

  class Lexer {
    var tokens: seq<Token>
    const input: string
    var pos: nat
    var row: nat
    var col: nat

    /** The cursor never passes the end of the input. */
    ghost predicate Valid()
      reads this
    {
      pos <= |input|
    }

    /** The lexer's fields as a value. */
    function State(): (s: LexState)
      reads this
      ensures s.pos == pos && s.row == row && s.col == col && s.tokens == tokens
    {
      LexState(pos, row, col, tokens)
    }

    constructor (input: string)
      ensures Valid() && this.input == input
      ensures State() == LexState(0, 0, 0, [])
    {
      this.tokens := [];
      this.input := input;
      this.pos := 0;
      this.row := 0;
      this.col := 0;
    }

    method NewLine()
      modifies this
      ensures pos == old(pos) + 1 && row == old(row) + 1 && col == 0 && tokens == old(tokens)
    {
      pos := pos + 1;
      row := row + 1;
      col := 0;
    }

    method Advance(count: nat)
      modifies this
      ensures pos == old(pos) + count && col == old(col) + count && row == old(row) && tokens == old(tokens)
    {
      pos := pos + count;
      col := col + count;
    }

    /** The one-character string at `at`, or `UnexpectedEndOfFile` at the cursor's row and column. */
    function PeekAt(at: nat): (r: Result<string, LexerError>)
      reads this
      ensures r.Ok? <==> at < |input|
      ensures r.Ok? ==> |r.value| == 1 && r.value[0] == input[at]
      ensures r.Err? ==> r.error == UnexpectedEndOfFile(TokenMeta(row, col))
    {
      if at < |input| then Ok(input[at..at + 1]) else Err(UnexpectedEndOfFile(TokenMeta(row, col)))
    }

    /** The one-character string under the cursor. */
    function Peek(): (r: Result<string, LexerError>)
      reads this
      ensures r.Ok? <==> pos < |input|
      ensures r.Ok? ==> r.value == [input[pos]]
      ensures r.Err? ==> r.error.UnexpectedEndOfFile?
    {
      PeekAt(pos)
    }

    /** The error for a lexeme no rule accepts, at the cursor's row and column. */
    function UnexpectedCharError(lexeme: string): (e: LexerError)
      reads this
    {
      UnexpectedCharacter(lexeme, TokenMeta(row, col))
    }

    /** Appends a token that starts at the cursor; the cursor does not move. */
    method PushToken(tokenType: TokenType, lexeme: string)
      modifies this
      ensures tokens == old(tokens) + [Token(tokenType, lexeme, TokenMeta(row, col))]
      ensures pos == old(pos) && row == old(row) && col == old(col)
    {
      tokens := tokens + [Token(tokenType, lexeme, TokenMeta(row, col))];
    }

    method ScanDelimiter(lexeme: string) returns (r: Result<(), LexerError>)
      modifies this
      ensures DelimiterType(lexeme).None? ==>
                r == Err(UnexpectedCharacter(lexeme, TokenMeta(row, col))) && unchanged(this)
      ensures DelimiterType(lexeme).Some? ==>
                && r == Ok(())
                && tokens == old(tokens) + [Token(DelimiterType(lexeme).value, lexeme, TokenMeta(old(row), old(col)))]
                && pos == old(pos) + |lexeme| && col == old(col) + |lexeme| && row == old(row)
    {
      if lexeme == ";" {
        PushToken(Semicolon, lexeme);
      } else if lexeme == "(" {
        PushToken(LeftParen, lexeme);
      } else if lexeme == ")" {
        PushToken(RightParen, lexeme);
      } else {
        return Err(UnexpectedCharError(lexeme));
      }
      Advance(|lexeme|);
      return Ok(());
    }

    method ScanBinaryOp(lexeme: string) returns (r: Result<(), LexerError>)
      modifies this
      ensures BinaryOpType(lexeme).None? ==>
                r == Err(UnexpectedCharacter(lexeme, TokenMeta(row, col))) && unchanged(this)
      ensures BinaryOpType(lexeme).Some? ==>
                && r == Ok(())
                && tokens == old(tokens) + [Token(BinaryOpType(lexeme).value, lexeme, TokenMeta(old(row), old(col)))]
                && pos == old(pos) + |lexeme| && col == old(col) + |lexeme| && row == old(row)
    {
      if lexeme == "+" {
        PushToken(Add, lexeme);
      } else if lexeme == "-" {
        PushToken(Sub, lexeme);
      } else if lexeme == "/" {
        PushToken(Div, lexeme);
      } else if lexeme == "*" {
        PushToken(Mul, lexeme);
      } else {
        return Err(UnexpectedCharError(lexeme));
      }
      Advance(|lexeme|);
      return Ok(());
    }

    /**
     * Scans the numeric literal that starts under the cursor (the caller has seen a digit there).
     * The cursor's column is not advanced, as in the source.
     */
    method ScanNumLit() returns (r: Result<(), LexerError>)
      requires Valid() && pos < |input|
      modifies this
      ensures Valid()
      ensures match NumLitEnd(input, old(pos) + 1, false)
              case None => r == Err(InvalidNumericLit(".", TokenMeta(row, col))) && unchanged(this)
              case Some(end) =>
                && r == Ok(())
                && tokens == old(tokens) + [Token(NumericLit, input[old(pos)..end], TokenMeta(row, col))]
                && pos == end && row == old(row) && col == old(col)
    {
      var end := pos + 1;
      var isFloat := false;
      while end < |input|
        invariant pos + 1 <= end <= |input|
        invariant NumLitEnd(input, end, isFloat) == NumLitEnd(input, pos + 1, false)
        decreases |input| - end
      {
        var curr := PeekAt(end).value;
        if IsDigit(curr[0]) {
          end := end + 1;
        } else if curr == "." {
          if isFloat {
            return Err(InvalidNumericLit(curr, TokenMeta(row, col)));
          }
          isFloat := true;
          end := end + 1;
        } else {
          break;
        }
      }
      var delta := end - pos;
      var lexeme := input[pos..end];
      PushToken(NumericLit, lexeme);
      pos := pos + delta;
      return Ok(());
    }

    /** Runs the scan to the end of the input or to the first error. */
    method Tokenize() returns (r: Result<(), LexerError>)
      requires Valid()
      modifies this
      ensures Valid()
      ensures ScanFrom(input, old(State())) == Scan(State(), if r.Ok? then None else Some(r.error))
    {
      while pos < |input|
        invariant Valid()
        invariant ScanFrom(input, old(State())) == ScanFrom(input, State())
        decreases |input| - pos
      {
        // `peek()?` cannot fail here: the loop guard keeps the cursor inside the input.
        var lexeme := Peek().value;
        if lexeme == " " {
          Advance(1);
        } else if lexeme == "\n" {
          NewLine();
        } else if lexeme == ";" || lexeme == "(" || lexeme == ")" {
          // scan_delimiter accepts every lexeme that reaches it, so its `?` never returns.
          var res := ScanDelimiter(lexeme);
          assert res.Ok?;
        } else if lexeme == "+" || lexeme == "-" || lexeme == "/" || lexeme == "*" {
          var res := ScanBinaryOp(lexeme);
          assert res.Ok?;
        } else if IsDigit(lexeme[0]) {
          var res := ScanNumLit();
          if res.Err? {
            return res;
          }
        } else {
          return Err(UnexpectedCharError(lexeme));
        }
      }
      PushToken(EoF, "");
      return Ok(());
    }
  }

  // ---------------------------------------------------------------------------------------------
  // What a scan produces
  // ---------------------------------------------------------------------------------------------

  /** The text with every space and newline removed. */
  function Strip(s: string): string {
    if s == [] then [] else (if IsBlank(s[0]) then [] else [s[0]]) + Strip(s[1..])
  }

  /** The concatenation of the tokens' lexemes. */
  function Lexemes(ts: seq<Token>): string {
    if ts == [] then [] else ts[0].lexeme + Lexemes(ts[1..])
  }

  /** The number of '.' characters in a text. */
  function Dots(s: string): nat {
    if s == [] then 0 else (if s[0] == '.' then 1 else 0) + Dots(s[1..])
  }

  /** The number of newline characters in a text. */
  function Newlines(s: string): nat {
    if s == [] then 0 else (if s[0] == '\n' then 1 else 0) + Newlines(s[1..])
  }

  /** A numeric-literal lexeme: a digit, then digits and dots, with at most one dot in all. */
  predicate IsNumLitLexeme(s: string) {
    && |s| >= 1 && IsDigit(s[0])
    && (forall i :: 0 <= i < |s| ==> IsNumChar(s[i]))
    && Dots(s) <= 1
  }

  /** A token whose type agrees with its lexeme. */
  predicate WellFormed(t: Token) {
    match t.tokenType
    case EoF => t.lexeme == ""
    case NumericLit => IsNumLitLexeme(t.lexeme)
    case _ => DelimiterType(t.lexeme) == Some(t.tokenType) || BinaryOpType(t.lexeme) == Some(t.tokenType)
  }

  /** The end of the maximal run of digits and dots that starts at `k`. */
  function RunEnd(input: string, k: nat): (e: nat)
    requires k <= |input|
    ensures k <= e <= |input|
    ensures forall i :: k <= i < e ==> IsNumChar(input[i])
    ensures e < |input| ==> !IsNumChar(input[e])
    decreases |input| - k
  {
    if k < |input| && IsNumChar(input[k]) then RunEnd(input, k + 1) else k
  }

  lemma {:induction false} StripConcat(a: string, b: string)
    ensures Strip(a + b) == Strip(a) + Strip(b)
  {
    if a == [] {
      assert a + b == b;
    } else {
      assert (a + b)[1..] == a[1..] + b;
      StripConcat(a[1..], b);
    }
  }

  lemma {:induction false} StripNonBlank(s: string)
    requires forall i :: 0 <= i < |s| ==> !IsBlank(s[i])
    ensures Strip(s) == s
  {
    if s != [] {
      StripNonBlank(s[1..]);
    }
  }

  lemma {:induction false} LexemesConcat(a: seq<Token>, b: seq<Token>)
    ensures Lexemes(a + b) == Lexemes(a) + Lexemes(b)
  {
    if a == [] {
      assert a + b == b;
    } else {
      assert (a + b)[1..] == a[1..] + b;
      LexemesConcat(a[1..], b);
    }
  }

  lemma {:induction false} DotsConcat(a: string, b: string)
    ensures Dots(a + b) == Dots(a) + Dots(b)
  {
    if a == [] {
      assert a + b == b;
    } else {
      assert (a + b)[1..] == a[1..] + b;
      DotsConcat(a[1..], b);
    }
  }

  lemma {:induction false} NewlinesConcat(a: string, b: string)
    ensures Newlines(a + b) == Newlines(a) + Newlines(b)
  {
    if a == [] {
      assert a + b == b;
    } else {
      assert (a + b)[1..] == a[1..] + b;
      NewlinesConcat(a[1..], b);
    }
  }

  lemma {:induction false} NewlinesNonBlank(s: string)
    requires forall i :: 0 <= i < |s| ==> !IsBlank(s[i])
    ensures Newlines(s) == 0
  {
    if s != [] {
      NewlinesNonBlank(s[1..]);
    }
  }

  /**
   * `scan_num_lit` accepts exactly the maximal run of digits and dots after the first digit, and fails
   * exactly when that run (together with a '.' already seen) holds more than one dot.
   */
  lemma {:induction false} NumLitEndIsRunEnd(input: string, k: nat, isFloat: bool)
    requires k <= |input|
    ensures NumLitEnd(input, k, isFloat) ==
            if Dots(input[k..RunEnd(input, k)]) + (if isFloat then 1 else 0) <= 1
            then Some(RunEnd(input, k)) else None
    decreases |input| - k
  {
    var e := RunEnd(input, k);
    if k < |input| && IsNumChar(input[k]) {
      assert input[k..e] == [input[k]] + input[k + 1..e];
      DotsConcat([input[k]], input[k + 1..e]);
      NumLitEndIsRunEnd(input, k + 1, isFloat || input[k] == '.');
    } else {
      assert input[k..e] == [];
    }
  }

  /** The lexeme `scan_num_lit` pushes is a numeric literal with at most one dot. */
  lemma NumLitLexeme(input: string, p: nat)
    requires p < |input| && IsDigit(input[p]) && NumLitEnd(input, p + 1, false).Some?
    ensures IsNumLitLexeme(input[p..NumLitEnd(input, p + 1, false).value])
  {
    var e := NumLitEnd(input, p + 1, false).value;
    NumLitEndIsRunEnd(input, p + 1, false);
    assert input[p..e] == [input[p]] + input[p + 1..e];
    DotsConcat([input[p]], input[p + 1..e]);
  }

  /** The facts about one successful step from `s` to `n` that the scan lemmas build on. */
  predicate StepFacts(input: string, s: LexState, n: LexState)
    requires s.pos <= n.pos <= |input|
  {
    && |s.tokens| <= |n.tokens| <= |s.tokens| + 1
    && n.tokens[..|s.tokens|] == s.tokens
    && (|s.tokens| < |n.tokens| ==> WellFormed(n.tokens[|s.tokens|]) && n.tokens[|s.tokens|].tokenType != EoF)
    && Lexemes(n.tokens[|s.tokens|..]) == Strip(input[s.pos..n.pos])
    && n.row == s.row + Newlines(input[s.pos..n.pos])
    && (forall i :: s.pos <= i < n.pos ==> Lexable(input[i]))
  }

  /** A step over a blank, a delimiter or an operator moves past one character. */
  lemma StepEmitsSingle(input: string, s: LexState)
    requires s.pos < |input| && Step(input, s).Ok? && !IsDigit(input[s.pos])
    ensures StepFacts(input, s, Step(input, s).value)
  {
    var n := Step(input, s).value;
    var c := input[s.pos];
    assert input[s.pos..n.pos] == [c];
    assert Strip([c]) == (if IsBlank(c) then [] else [c]) + Strip([]);
    assert Newlines([c]) == (if c == '\n' then 1 else 0) + Newlines([]);
    if !IsBlank(c) {
      assert n.tokens[|s.tokens|..] == [n.tokens[|s.tokens|]];
      assert Lexemes([n.tokens[|s.tokens|]]) == n.tokens[|s.tokens|].lexeme + Lexemes([]);
    } else {
      assert n.tokens[|s.tokens|..] == [];
    }
  }

  /** A step over a numeric literal pushes it whole. */
  lemma StepEmitsNumber(input: string, s: LexState)
    requires s.pos < |input| && Step(input, s).Ok? && IsDigit(input[s.pos])
    ensures StepFacts(input, s, Step(input, s).value)
  {
    var n := Step(input, s).value;
    var end := NumLitEnd(input, s.pos + 1, false).value;
    NumLitLexeme(input, s.pos);
    var lexeme := input[s.pos..end];
    var t := Token(NumericLit, lexeme, TokenMeta(s.row, s.col));
    assert n.tokens[|s.tokens|..] == [t];
    assert Lexemes([t]) == lexeme + Lexemes([]);
    StripNonBlank(lexeme);
    NewlinesNonBlank(lexeme);
    forall i | s.pos <= i < end ensures Lexable(input[i]) {
      assert input[i] == lexeme[i - s.pos];
    }
  }

  /**
   * A successful step pushes at most one token, never `EoF`, keeps the tokens already pushed, and
   * the lexeme it pushes is the text it passed over with blanks removed.
   */
  lemma StepEmits(input: string, s: LexState)
    requires s.pos < |input| && Step(input, s).Ok?
    ensures StepFacts(input, s, Step(input, s).value)
  {
    if IsDigit(input[s.pos]) {
      StepEmitsNumber(input, s);
    } else {
      StepEmitsSingle(input, s);
    }
  }

  /** Two nested extensions of a token sequence: the outer one's new part is the inner one's plus the rest. */
  lemma SplitExtension(a: seq<Token>, b: seq<Token>, c: seq<Token>)
    requires |a| <= |b| <= |c| && b[..|a|] == a && c[..|b|] == b
    ensures c[..|a|] == a
    ensures c[|a|..] == b[|a|..] + c[|b|..]
    ensures forall i :: |a| <= i < |b| ==> c[i] == b[i]
  {
    assert c[..|a|] == c[..|b|][..|a|];
    forall i | |a| <= i < |b| ensures c[i] == b[i] {
      assert c[i] == c[..|b|][i];
    }
  }

  /** A scan that takes a successful step goes on from the step's state. */
  lemma ScanAfterStep(input: string, s: LexState)
    requires s.pos < |input| && Step(input, s).Ok?
    ensures ScanFrom(input, s) == ScanFrom(input, Step(input, s).value)
  {
  }

  /** Tokens already pushed are never modified, whatever the outcome of the scan. */
  lemma {:induction false} ScanKeepsTokens(input: string, s: LexState)
    requires s.pos <= |input|
    ensures |s.tokens| <= |ScanFrom(input, s).state.tokens|
    ensures ScanFrom(input, s).state.tokens[..|s.tokens|] == s.tokens
    decreases |input| - s.pos
  {
    if s.pos < |input| && Step(input, s).Ok? {
      var n := Step(input, s).value;
      ScanAfterStep(input, s);
      StepEmits(input, s);
      ScanKeepsTokens(input, n);
      SplitExtension(s.tokens, n.tokens, ScanFrom(input, n).state.tokens);
    }
  }

  /**
   * A successful scan reaches the end of the input and pushes tokens of which exactly the last is
   * `EoF`, with an empty lexeme, at the final row and column.
   */
  lemma {:induction false} ScanEndsWithEoF(input: string, s: LexState)
    requires s.pos <= |input| && ScanFrom(input, s).error.None?
    ensures var f := ScanFrom(input, s).state;
            && f.pos == |input|
            && |s.tokens| < |f.tokens|
            && f.tokens[|f.tokens| - 1] == Token(EoF, "", TokenMeta(f.row, f.col))
            && (forall i :: |s.tokens| <= i < |f.tokens| - 1 ==> f.tokens[i].tokenType != EoF)
    decreases |input| - s.pos
  {
    if s.pos < |input| {
      var n := Step(input, s).value;
      var f := ScanFrom(input, n).state;
      ScanAfterStep(input, s);
      StepEmits(input, s);
      ScanEndsWithEoF(input, n);
      ScanKeepsTokens(input, n);
      SplitExtension(s.tokens, n.tokens, f.tokens);
      forall i | |s.tokens| <= i < |f.tokens| - 1 ensures f.tokens[i].tokenType != EoF {
        if i < |n.tokens| {
          assert f.tokens[i] == n.tokens[|s.tokens|];
        }
      }
    }
  }

  /**
   * Every token a successful scan pushes agrees with its type, and every character it passes over
   * is lexable.
   */
  lemma {:induction false} ScanWellFormed(input: string, s: LexState)
    requires s.pos <= |input| && ScanFrom(input, s).error.None?
    ensures var f := ScanFrom(input, s).state;
            && (forall i :: |s.tokens| <= i < |f.tokens| ==> WellFormed(f.tokens[i]))
            && (forall i :: s.pos <= i < |input| ==> Lexable(input[i]))
    decreases |input| - s.pos
  {
    if s.pos < |input| {
      var n := Step(input, s).value;
      var f := ScanFrom(input, n).state;
      ScanAfterStep(input, s);
      StepEmits(input, s);
      ScanWellFormed(input, n);
      ScanKeepsTokens(input, n);
      SplitExtension(s.tokens, n.tokens, f.tokens);
    }
  }

  /**
   * The lexemes a successful scan pushes, put together, are the rest of the input without its blanks,
   * and its final row is the starting row plus the number of newlines passed over.
   */
  lemma {:induction false} ScanLexemes(input: string, s: LexState)
    requires s.pos <= |input| && ScanFrom(input, s).error.None?
    ensures |s.tokens| <= |ScanFrom(input, s).state.tokens|
    ensures var f := ScanFrom(input, s).state;
            && Lexemes(f.tokens[|s.tokens|..]) == Strip(input[s.pos..])
            && f.row == s.row + Newlines(input[s.pos..])
    decreases |input| - s.pos
  {
    ScanKeepsTokens(input, s);
    if s.pos == |input| {
      var f := ScanFrom(input, s).state;
      assert f.tokens[|s.tokens|..] == [Token(EoF, "", TokenMeta(s.row, s.col))];
      assert Lexemes([Token(EoF, "", TokenMeta(s.row, s.col))]) == "" + Lexemes([]);
      assert input[s.pos..] == [];
    } else {
      var n := Step(input, s).value;
      var f := ScanFrom(input, n).state;
      ScanAfterStep(input, s);
      StepEmits(input, s);
      ScanLexemes(input, n);
      ScanKeepsTokens(input, n);
      SplitExtension(s.tokens, n.tokens, f.tokens);
      LexemesConcat(n.tokens[|s.tokens|..], f.tokens[|n.tokens|..]);
      assert input[s.pos..] == input[s.pos..n.pos] + input[n.pos..];
      StripConcat(input[s.pos..n.pos], input[n.pos..]);
      NewlinesConcat(input[s.pos..n.pos], input[n.pos..]);
    }
  }

  /**
   * A step fails on an unexpected character exactly when no rule accepts the character under the
   * cursor, and on a numeric literal exactly when the run of digits and dots after its first digit
   * holds a second dot; both report the cursor's row and column, and `UnexpectedEndOfFile` is never
   * the outcome.
   */
  lemma StepFails(input: string, s: LexState)
    requires s.pos < |input| && Step(input, s).Err?
    ensures var e := Step(input, s).error;
            && e.meta == TokenMeta(s.row, s.col)
            && !e.UnexpectedEndOfFile?
            && (e.UnexpectedCharacter? <==> !StartsToken(input[s.pos]))
            && (e.UnexpectedCharacter? ==> e.character == [input[s.pos]])
            && (e.InvalidNumericLit? ==>
                  && e.character == "." && IsDigit(input[s.pos])
                  && Dots(input[s.pos + 1..RunEnd(input, s.pos + 1)]) >= 2)
  {
    if IsDigit(input[s.pos]) {
      NumLitEndIsRunEnd(input, s.pos + 1, false);
    }
  }

  /**
   * A scan that fails stops at the first step that fails: the cursor is on the character where that
   * step began and the error is that step's.
   */
  lemma {:induction false} ScanStopsAtFirstError(input: string, s: LexState)
    requires s.pos <= |input| && ScanFrom(input, s).error.Some?
    ensures var f := ScanFrom(input, s).state;
            && s.pos <= f.pos < |input|
            && Step(input, f) == Err(ScanFrom(input, s).error.value)
    decreases |input| - s.pos
  {
    if Step(input, s).Ok? {
      ScanAfterStep(input, s);
      ScanStopsAtFirstError(input, Step(input, s).value);
    }
  }

  /**
   * When a scan fails, the tokens for everything before the failing character are already pushed:
   * their lexemes put together are that text without its blanks.
   */
  lemma {:induction false} ScanBeforeError(input: string, s: LexState)
    requires s.pos <= |input| && ScanFrom(input, s).error.Some?
    ensures |s.tokens| <= |ScanFrom(input, s).state.tokens|
    ensures var f := ScanFrom(input, s).state;
            && s.pos <= f.pos <= |input|
            && Lexemes(f.tokens[|s.tokens|..]) == Strip(input[s.pos..f.pos])
            && (forall i :: s.pos <= i < f.pos ==> Lexable(input[i]))
    decreases |input| - s.pos
  {
    ScanKeepsTokens(input, s);
    if Step(input, s).Err? {
      var f := ScanFrom(input, s).state;
      assert input[s.pos..f.pos] == [];
      assert f.tokens[|s.tokens|..] == [];
    } else {
      var n := Step(input, s).value;
      var f := ScanFrom(input, n).state;
      ScanAfterStep(input, s);
      StepEmits(input, s);
      ScanBeforeError(input, n);
      ScanKeepsTokens(input, n);
      SplitExtension(s.tokens, n.tokens, f.tokens);
      LexemesConcat(n.tokens[|s.tokens|..], f.tokens[|n.tokens|..]);
      assert input[s.pos..f.pos] == input[s.pos..n.pos] + input[n.pos..f.pos];
      StripConcat(input[s.pos..n.pos], input[n.pos..f.pos]);
    }
  }

  /**
   * `tokenize` on a fresh lexer: on success the token vector ends with exactly one `EoF` token, whose
   * lexeme is empty, every token agrees with its type, and the lexemes put together give back the
   * input without its spaces and newlines.
   */
  lemma LexSucceeds(input: string)
    requires Lex(input).Ok?
    ensures var ts := Lex(input).value;
            && |ts| >= 1
            && ts[|ts| - 1].tokenType == EoF && ts[|ts| - 1].lexeme == ""
            && ts[|ts| - 1].meta.row == Newlines(input)
            && (forall i :: 0 <= i < |ts| - 1 ==> ts[i].tokenType != EoF)
            && (forall i :: 0 <= i < |ts| ==> WellFormed(ts[i]))
            && Lexemes(ts) == Strip(input)
            && (forall i :: 0 <= i < |input| ==> Lexable(input[i]))
  {
    ScanEndsWithEoF(input, LexState(0, 0, 0, []));
    ScanWellFormed(input, LexState(0, 0, 0, []));
    ScanLexemes(input, LexState(0, 0, 0, []));
    assert input[0..] == input;
  }

  /**
   * A fresh lexer fails only on a character no rule accepts (reported as that character) or on a
   * literal with a second dot (reported as "."), never with `UnexpectedEndOfFile`.
   */
  lemma LexFails(input: string)
    requires Lex(input).Err?
    ensures var e := Lex(input).error;
            && !e.UnexpectedEndOfFile?
            && (e.UnexpectedCharacter? ==>
                  |e.character| == 1 && !StartsToken(e.character[0]) && e.character[0] in input)
            && (e.InvalidNumericLit? ==> e.character == "." && '.' in input)
  {
    var s0 := LexState(0, 0, 0, []);
    ScanStopsAtFirstError(input, s0);
    var f := ScanFrom(input, s0).state;
    StepFails(input, f);
    if Lex(input).error.InvalidNumericLit? {
      var e := RunEnd(input, f.pos + 1);
      DotsIn(input[f.pos + 1..e]);
    }
  }

  /** A text with a dot in it contains '.'. */
  lemma {:induction false} DotsIn(s: string)
    requires Dots(s) > 0
    ensures '.' in s
  {
    if s[0] != '.' {
      DotsIn(s[1..]);
    }
  }

  /** Every input made of blanks, digits, delimiters and operators, with no dot at all, lexes. */
  lemma {:induction false} ScanWithoutDotsSucceeds(input: string, s: LexState)
    requires s.pos <= |input|
    requires forall i :: s.pos <= i < |input| ==> StartsToken(input[i])
    ensures ScanFrom(input, s).error.None?
    decreases |input| - s.pos
  {
    if s.pos < |input| {
      if IsDigit(input[s.pos]) {
        NumLitEndIsRunEnd(input, s.pos + 1, false);
        NoDots(input[s.pos + 1..RunEnd(input, s.pos + 1)]);
      }
      ScanWithoutDotsSucceeds(input, Step(input, s).value);
    }
  }

  /** A text without '.' has no dots. */
  lemma {:induction false} NoDots(s: string)
    requires forall i :: 0 <= i < |s| ==> s[i] != '.'
    ensures Dots(s) == 0
  {
    if s != [] {
      NoDots(s[1..]);
    }
  }

  /** A fresh lexer accepts every input made of blanks, digits, delimiters and operators. */
  lemma LexWithoutDotsSucceeds(input: string)
    requires forall i :: 0 <= i < |input| ==> StartsToken(input[i])
    ensures Lex(input).Ok?
  {
    ScanWithoutDotsSucceeds(input, LexState(0, 0, 0, []));
  }
}
