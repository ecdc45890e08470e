/**
 * The front end of src/compiler.rs: lex, then parse the lexer's tokens, wrapping each stage's error.
 *
 * The lexer's flat `TokenType` is carried over to the parser's `TokenClass` by `ClassOf`, token by
 * token, keeping lexeme and position.
 */
module Compiler {
  import opened Wrappers
  import Lexer
  import opened Syntax
  import Parser

  datatype CompilerError = LexerFailure(lexerError: Lexer.LexerError) | ParserFailure(parserError: ParserError)

  /** The parser's class for each of the lexer's token types. */
  function ClassOf(tokenType: Lexer.TokenType): TokenClass {
    match tokenType
    case Semicolon => Delim(DelimToken.Semicolon)
    case EoF => Delim(DelimToken.EoF)
    case LeftParen => Op(OpToken.LeftParen)
    case RightParen => Op(OpToken.RightParen)
    case Add => Op(Plus)
    case Sub => Op(Min)
    case Div => Op(Slash)
    case Mul => Op(Star)
    case NumericLit => Atom(AtomToken.NumericLit)
  }

  /** Distinct token types get distinct classes, so the parser sees everything the lexer told apart. */
  lemma ClassOfInjective(a: Lexer.TokenType, b: Lexer.TokenType)
    requires ClassOf(a) == ClassOf(b)
    ensures a == b
  {
  }

  /** A lexer token as the parser reads it: its class, with lexeme and position kept. */
  function Bridge(t: Lexer.Token): Token {
    Token(ClassOf(t.tokenType), t.lexeme, t.meta)
  }

  /** The conversion loses nothing: distinct lexer tokens reach the parser as distinct tokens. */
  lemma BridgeInjective(a: Lexer.Token, b: Lexer.Token)
    requires Bridge(a) == Bridge(b)
    ensures a == b
  {
    ClassOfInjective(a.tokenType, b.tokenType);
  }

  /** The lexer's token vector, token by token, as the parser reads it. */
  function BridgeAll(ts: seq<Lexer.Token>): (r: seq<Token>)
    ensures |r| == |ts| && forall i :: 0 <= i < |ts| ==> r[i] == Bridge(ts[i])
  {
    if ts == [] then [] else [Bridge(ts[0])] + BridgeAll(ts[1..])
  }

  /** `Compiler::compile`. */
  function Compile(input: string): Result<AstNode, CompilerError> {
    match Lexer.Lex(input)
    case Err(e) => Err(LexerFailure(e))
    case Ok(tokens) =>
      match Parser.Parse(BridgeAll(tokens))
      case Err(e) => Err(ParserFailure(e))
      case Ok(ast) => Ok(ast)
  }

  /**
   * The stages' errors reach the caller unchanged: a lexer error means the parser never ran, and a
   * parser error is the parser's verdict on exactly the lexer's tokens.
   */
  lemma CompileErrors(input: string)
    ensures Lexer.Lex(input).Err? ==> Compile(input) == Err(LexerFailure(Lexer.Lex(input).error))
    ensures Compile(input).Err? && Compile(input).error.LexerFailure? ==> Lexer.Lex(input) == Err(Compile(input).error.lexerError)
    ensures Compile(input).Err? && Compile(input).error.ParserFailure? ==>
              Lexer.Lex(input).Ok? && Parser.Parse(BridgeAll(Lexer.Lex(input).value)) == Err(Compile(input).error.parserError)
    ensures Compile(input).Ok? ==> Lexer.Lex(input).Ok? && Parser.Parse(BridgeAll(Lexer.Lex(input).value)) == Ok(Compile(input).value)
  {
  }

  /** A lexeme of a token other than `;` contains no ';'. */
  lemma {:induction false} NoSemicolonInLexemes(ts: seq<Lexer.Token>)
    requires forall i :: 0 <= i < |ts| ==> Lexer.WellFormed(ts[i]) && ts[i].tokenType != Lexer.Semicolon
    ensures ';' !in Lexer.Lexemes(ts)
  {
    if ts != [] {
      NoSemicolonInLexemes(ts[1..]);
      var t := ts[0];
      if t.tokenType == Lexer.NumericLit {
        assert forall i :: 0 <= i < |t.lexeme| ==> Lexer.IsNumChar(t.lexeme[i]);
      }
      assert ';' !in t.lexeme;
    }
  }

  /** A character that is not blank and is missing from the stripped text is missing from the text. */
  lemma {:induction false} StripOmits(s: string, c: char)
    requires !Lexer.IsBlank(c) && c !in Lexer.Strip(s)
    ensures c !in s
  {
    if s != [] {
      assert Lexer.Strip(s) == (if Lexer.IsBlank(s[0]) then [] else [s[0]]) + Lexer.Strip(s[1..]);
      StripOmits(s[1..], c);
      assert s == [s[0]] + s[1..];
    }
  }

  /**
   * The parser on a token vector whose only `EoF` is its last token, as the lexer produces: it either
   * fails or reads one well-bound expression over all the tokens before the `EoF`.
   */
  lemma ParseLexed(ts: seq<Lexer.Token>)
    requires |ts| >= 1 && ts[|ts| - 1].tokenType == Lexer.EoF
    requires forall i :: 0 <= i < |ts| - 1 ==> ts[i].tokenType != Lexer.EoF
    requires Parser.Parse(BridgeAll(ts)).Ok?
    ensures var e := Parser.Parse(BridgeAll(ts)).value;
      && Parser.WellBound(e, 0)
      && |Parser.Yield(e)| == |ts| - 1
      && (forall i :: 0 <= i < |ts| - 1 ==> Parser.Yield(e)[i] == ClassOf(ts[i].tokenType))
  {
    var bts := BridgeAll(ts);
    BridgedClasses(ts);
    Parser.ExpressionOnly(bts);
    var e := Parser.Parse(bts).value;
    forall i | 0 <= i < |ts| - 1
      ensures Parser.Yield(e)[i] == ClassOf(ts[i].tokenType)
    {
      assert bts[0 + i].tokenClass == Parser.Yield(e)[i];
    }
  }

  /** The parser sees no keyword in the lexer's tokens, and an `EoF` only where the lexer put one. */
  lemma BridgedClasses(ts: seq<Lexer.Token>)
    ensures var bts := BridgeAll(ts);
      && (forall i :: 0 <= i < |bts| ==> !bts[i].tokenClass.Keyword?)
      && (forall i :: 0 <= i < |bts| ==> (bts[i].tokenClass == Delim(DelimToken.EoF) <==> ts[i].tokenType == Lexer.EoF))
  {
  }

  /** An expression's tokens are operands and operators, never `;`. */
  lemma ExpressionHasNoSemicolon(e: AstNode, m: nat, ts: seq<Lexer.Token>)
    requires Parser.WellBound(e, m) && |Parser.Yield(e)| == |ts| - 1
    requires forall i :: 0 <= i < |ts| - 1 ==> Parser.Yield(e)[i] == ClassOf(ts[i].tokenType)
    ensures forall i :: 0 <= i < |ts| - 1 ==> ts[i].tokenType != Lexer.Semicolon
  {
    Parser.ExpressionYield(e, m);
  }

  /**
   * What `compile` accepts: one well-bound expression whose tokens are, class for class, the lexer's
   * tokens before the final `EoF`. Since the lexer produces neither identifiers nor `let`, and a
   * top-level expression cannot be followed by `;`, an input that compiles contains no ';' at all.
   */
  lemma CompileAccepts(input: string)
    requires Compile(input).Ok?
    ensures Lexer.Lex(input).Ok?
    ensures var e := Compile(input).value; var ts := Lexer.Lex(input).value;
      && Parser.WellBound(e, 0)
      && |Parser.Yield(e)| == |ts| - 1
      && (forall i :: 0 <= i < |ts| - 1 ==> Parser.Yield(e)[i] == ClassOf(ts[i].tokenType))
    ensures ';' !in input
  {
    var ts := Lexer.Lex(input).value;
    Lexer.LexSucceeds(input);
    ParseLexed(ts);
    ExpressionHasNoSemicolon(Compile(input).value, 0, ts);
    NoSemicolonInLexemes(ts);
    StripOmits(input, ';');
  }

  /** The empty program reaches the `todo!()` of `parse_stmt` on the final `EoF`. */
  lemma EmptyInput()
    ensures Compile("") == Err(ParserFailure(NotImplemented(Token(Delim(EoF), "", Lexer.TokenMeta(0, 0)))))
  {
  }

  /**
   * The tokens of `1 + 2;`: the `;` is at column 3, the column of the `2`, and the `EoF` at column 4;
   * both are two short, because the column is not advanced past a literal.
   */
  lemma LexSum(input: string)
    requires input == "1 + 2;"
    ensures Lexer.Lex(input) == Ok([
      Lexer.Token(Lexer.NumericLit, "1", Lexer.TokenMeta(0, 0)),
      Lexer.Token(Lexer.Add, "+", Lexer.TokenMeta(0, 1)),
      Lexer.Token(Lexer.NumericLit, "2", Lexer.TokenMeta(0, 3)),
      Lexer.Token(Lexer.Semicolon, ";", Lexer.TokenMeta(0, 3)),
      Lexer.Token(Lexer.EoF, "", Lexer.TokenMeta(0, 4))])
  {
    var one := Lexer.Token(Lexer.NumericLit, "1", Lexer.TokenMeta(0, 0));
    var plus := Lexer.Token(Lexer.Add, "+", Lexer.TokenMeta(0, 1));
    var two := Lexer.Token(Lexer.NumericLit, "2", Lexer.TokenMeta(0, 3));
    var semicolon := Lexer.Token(Lexer.Semicolon, ";", Lexer.TokenMeta(0, 3));
    var s1 := Lexer.LexState(1, 0, 0, [one]);
    var s2 := Lexer.LexState(2, 0, 1, [one]);
    var s3 := Lexer.LexState(3, 0, 2, [one, plus]);
    var s4 := Lexer.LexState(4, 0, 3, [one, plus]);
    var s5 := Lexer.LexState(5, 0, 3, [one, plus, two]);
    var s6 := Lexer.LexState(6, 0, 4, [one, plus, two, semicolon]);
    assert input[0] == '1' && Lexer.NumLitEnd(input, 1, false) == Some(1) && input[0..1] == "1";
    assert Lexer.Step(input, Lexer.LexState(0, 0, 0, [])).value.tokens == [one];
    assert Lexer.Step(input, Lexer.LexState(0, 0, 0, [])) == Ok(s1);
    assert Lexer.Step(input, s1) == Ok(s2);
    assert input[2] == '+' && Lexer.BinaryOpType([input[2]]) == Some(Lexer.Add);
    assert Lexer.Step(input, s2).value.tokens == [one, plus];
    assert Lexer.Step(input, s2) == Ok(s3);
    assert Lexer.Step(input, s3) == Ok(s4);
    assert input[4] == '2' && Lexer.NumLitEnd(input, 5, false) == Some(5) && input[4..5] == "2";
    assert Lexer.Step(input, s4).value.tokens == [one, plus, two];
    assert Lexer.Step(input, s4) == Ok(s5);
    assert input[5] == ';' && Lexer.DelimiterType([input[5]]) == Some(Lexer.Semicolon);
    assert Lexer.Step(input, s5).value.tokens == [one, plus, two, semicolon];
    assert Lexer.Step(input, s5) == Ok(s6);
    var done := Lexer.ScanFrom(input, s6);
    assert done == Lexer.Scan(s6.(tokens := s6.tokens + [Lexer.Token(Lexer.EoF, "", Lexer.TokenMeta(0, 4))]), None);
    assert Lexer.ScanFrom(input, s5) == done;
    assert Lexer.ScanFrom(input, s4) == done;
    assert Lexer.ScanFrom(input, s3) == done;
    assert Lexer.ScanFrom(input, s2) == done;
    assert Lexer.ScanFrom(input, s1) == done;
    assert Lexer.ScanFrom(input, Lexer.LexState(0, 0, 0, [])) == done;
    assert done.state.tokens == [one, plus, two, semicolon, Lexer.Token(Lexer.EoF, "", Lexer.TokenMeta(0, 4))];
  }

  /**
   * `1 + 2;` is rejected at its `;`. The lexer reports that `;` at column 3, not 5: scanning a numeric
   * literal moves the cursor but not the column.
   */
  lemma TrailingSemicolon(input: string)
    requires input == "1 + 2;"
    ensures Compile(input) == Err(ParserFailure(ExpectedEoF(Token(Delim(DelimToken.Semicolon), ";", Lexer.TokenMeta(0, 3)))))
  {
    LexSum(input);
    RejectedAtSemicolon(input, Lexer.Token(Lexer.Semicolon, ";", Lexer.TokenMeta(0, 3)));
  }

  /** A program the lexer reads as operand, binary operator, operand, `;`, `EoF` is rejected at the `;`. */
  lemma RejectedAtSemicolon(input: string, semicolon: Lexer.Token)
    requires Lexer.Lex(input).Ok? && |Lexer.Lex(input).value| == 5 && Lexer.Lex(input).value[3] == semicolon
    requires var ts := Lexer.Lex(input).value;
      && ts[0].tokenType == Lexer.NumericLit && ts[1].tokenType in {Lexer.Add, Lexer.Sub, Lexer.Mul, Lexer.Div}
      && ts[2].tokenType == Lexer.NumericLit && ts[3].tokenType == Lexer.Semicolon && ts[4].tokenType == Lexer.EoF
    ensures Compile(input) == Err(ParserFailure(ExpectedEoF(Bridge(semicolon))))
  {
    var ts := Lexer.Lex(input).value;
    BridgeFive(ts[0], ts[1], ts[2], ts[3], ts[4]);
    assert ts == [ts[0], ts[1], ts[2], ts[3], ts[4]];
    Parser.TrailingSemicolonRejected(Bridge(ts[0]), Bridge(ts[1]), Bridge(ts[2]), Bridge(ts[3]), Bridge(ts[4]));
  }

  lemma BridgeFive(t0: Lexer.Token, t1: Lexer.Token, t2: Lexer.Token, t3: Lexer.Token, t4: Lexer.Token)
    ensures BridgeAll([t0, t1, t2, t3, t4]) == [Bridge(t0), Bridge(t1), Bridge(t2), Bridge(t3), Bridge(t4)]
  {
    var r := BridgeAll([t0, t1, t2, t3, t4]);
    assert r[0] == Bridge(t0) && r[1] == Bridge(t1) && r[2] == Bridge(t2) && r[3] == Bridge(t3) && r[4] == Bridge(t4);
  }
}
