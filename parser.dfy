/**
 * The Pratt parser of src/parser/parser.rs: precedence climbing over a fixed table of binding powers,
 * a `let` statement layer and parenthesised sub-expressions, failing on the first error.
 *
 * The functions `ExprAt`, `InfixLoop`, `UnaryAt`, `NestedAt`, `AssignmentAt`, `StmtAt`, `TokensAt` and
 * `ProgramAt` are the reference definition: each takes the token vector and a cursor and gives the
 * outcome together with the cursor afterwards (on failure too). The methods of class `Parser`, which
 * move the cursor in place, are proved to follow them.
 */
module Parser {
  import opened Wrappers
  import opened Syntax

  /**
   * The binding powers of `infix_bp`, scaled by ten: the source's `f32` pairs (10.1, 10.0),
   * (9.1, 9.0), (8.1, 11.0) and (7.1, 7.0) are only ever compared with each other and with 0.0.
   */
  function InfixBp(op: OpToken): (r: Option<(nat, nat)>)
    ensures r.Some? <==> op in {Star, Slash, Min, Plus}
    ensures r.Some? ==> r.value.0 < MinusRightBp && r.value.1 <= MinusRightBp
  {
    match op
    case Star => Some((101, 100))
    case Slash => Some((91, 90))
    case Min => Some((81, 110))
    case Plus => Some((71, 70))
    case _ => None
  }

  /** The right binding power of `-`, at which a unary minus parses its operand. */
  const MinusRightBp: nat := 110

  /** The outcome of a parsing function and the cursor after it. */
  datatype Parsed = Parsed(result: Result<AstNode, ParserError>, pos: nat)

  /** The outcome of consuming one token and the cursor after it. */
  datatype Consumed = Consumed(result: Result<Token, ParserError>, pos: nat)

  // ---------------------------------------------------------------------------------------------
  // Reference definition
  // ---------------------------------------------------------------------------------------------

  /** `consume`: the token under the cursor, which then moves one token on. */
  function ConsumeAt(ts: seq<Token>, p: nat): Consumed {
    if p < |ts| then Consumed(Ok(ts[p]), p + 1) else Consumed(Err(UnexpectedEndOfTokenStream), p)
  }

  /** `consume_expecting`: consumes, then fails if the token is not of class `c`. */
  function ConsumeExpectingAt(ts: seq<Token>, p: nat, c: TokenClass): Consumed {
    var t := ConsumeAt(ts, p);
    if t.result.Ok? && t.result.value.tokenClass != c
    then Consumed(Err(UnexpectedToken(t.result.value, Some(c))), t.pos)
    else t
  }

  /** `parse_expr(min_bp)`: a primary, then the binary-operator loop. */
  function ExprAt(ts: seq<Token>, p: nat, minBp: nat): (r: Parsed)
    requires p <= |ts|
    ensures p <= r.pos <= |ts|
    ensures r.result.Ok? ==> p < r.pos
    decreases |ts| - p, 1
  {
    if p == |ts| then Parsed(Err(UnexpectedEndOfTokenStream), p)
    else
      var t := ts[p];
      var first :=
        match t.tokenClass
        case Atom(NumericLit) => Parsed(Ok(AstNode.NumericLit(t, t.lexeme)), p + 1)
        case Atom(Identifier) => Parsed(Ok(VariableAccessExpr(t, t.lexeme)), p + 1)
        case Op(Min) => UnaryAt(ts, t, p + 1)
        case Op(LeftParen) => NestedAt(ts, t, p + 1)
        case Op(_) => Parsed(Err(UnexpectedUnaryOperator(t)), p + 1)
        case _ => Parsed(Err(UnexpectedToken(t, None)), p + 1);
      if first.result.Err? then first else InfixLoop(ts, first.result.value, first.pos, minBp)
  }

  /**
   * The loop of `parse_expr`: stop before a delimiter (both `;` and `EoF` are terminators), before an
   * operator without binding powers or whose left binding power is below `minBp`; otherwise consume
   * the operator, parse the right operand at its right binding power and fold.
   */
  function InfixLoop(ts: seq<Token>, lhs: AstNode, p: nat, minBp: nat): (r: Parsed)
    requires p <= |ts|
    ensures p <= r.pos <= |ts|
    decreases |ts| - p, 0
  {
    if p == |ts| then Parsed(Err(UnexpectedEndOfTokenStream), p)
    else
      var t := ts[p];
      match t.tokenClass
      case Delim(_) => Parsed(Ok(lhs), p)
      case Op(op) =>
        if InfixBp(op).None? then Parsed(Ok(lhs), p)
        else
          var (lBp, rBp) := InfixBp(op).value;
          if lBp < minBp then Parsed(Ok(lhs), p)
          else
            var rhs := ExprAt(ts, p + 1, rBp);
            if rhs.result.Err? then rhs
            else InfixLoop(ts, BinaryExpr(t, lhs, rhs.result.value), rhs.pos, minBp)
      case _ => Parsed(Err(ExpectedOpToken(t)), p)
  }

  /** `parse_unary_expr`: the operand at the operator's right binding power. */
  function UnaryAt(ts: seq<Token>, t: Token, p: nat): (r: Parsed)
    requires p <= |ts|
    requires t.tokenClass.Op? ==> InfixBp(t.tokenClass.op).Some?
    ensures p <= r.pos <= |ts|
    decreases |ts| - p, 2
  {
    if !t.tokenClass.Op? then Parsed(Err(ExpectedOpToken(t)), p)
    else
      var operand := ExprAt(ts, p, InfixBp(t.tokenClass.op).value.1);
      if operand.result.Err? then operand
      else Parsed(Ok(UnaryExpr(t, operand.result.value)), operand.pos)
  }

  /** `parse_nested_expr`: an expression at binding power 0, then a token that must be `)`. */
  function NestedAt(ts: seq<Token>, t: Token, p: nat): (r: Parsed)
    requires p <= |ts|
    ensures p <= r.pos <= |ts|
    decreases |ts| - p, 2
  {
    var inner := ExprAt(ts, p, 0);
    if inner.result.Err? then inner
    else
      var close := ConsumeAt(ts, inner.pos);
      if close.result.Err? then Parsed(Err(close.result.error), close.pos)
      else if close.result.value.tokenClass == Op(RightParen) then Parsed(Ok(Expr(t, inner.result.value)), close.pos)
      else Parsed(Err(UnclosedExpression(t)), close.pos)
  }

  /** `parse_variable_assignment_stmt`: an identifier, `=`, then an expression. */
  function AssignmentAt(ts: seq<Token>, p: nat): (r: Parsed)
    requires p <= |ts|
    ensures p <= r.pos <= |ts|
  {
    var id := ConsumeExpectingAt(ts, p, Atom(Identifier));
    if id.result.Err? then Parsed(Err(id.result.error), id.pos)
    else
      var eq := ConsumeExpectingAt(ts, id.pos, Op(Eq));
      if eq.result.Err? then Parsed(Err(eq.result.error), eq.pos)
      else
        var e := ExprAt(ts, eq.pos, 0);
        if e.result.Err? then e
        else
          var token := id.result.value;
          Parsed(Ok(VariableAssignmentStmt(token, token.lexeme, e.result.value)), e.pos)
  }

  /** `parse_stmt`: `let`, an assignment, then `;`. Any other first token reaches `todo!()`. */
  function StmtAt(ts: seq<Token>, p: nat): (r: Parsed)
    requires p <= |ts|
    ensures p <= r.pos <= |ts|
  {
    var first := ConsumeAt(ts, p);
    if first.result.Err? then Parsed(Err(first.result.error), first.pos)
    else if first.result.value.tokenClass != Keyword(Let) then Parsed(Err(NotImplemented(first.result.value)), first.pos)
    else
      var statement := AssignmentAt(ts, first.pos);
      if statement.result.Err? then statement
      else
        var semicolon := ConsumeExpectingAt(ts, statement.pos, Delim(Semicolon));
        if semicolon.result.Err? then Parsed(Err(semicolon.result.error), semicolon.pos)
        else Parsed(statement.result, semicolon.pos)
  }

  /** `parse_tokens`: an expression when the first token is an atom or an operator, else a statement. */
  function TokensAt(ts: seq<Token>, p: nat): (r: Parsed)
    requires p <= |ts|
    ensures p <= r.pos <= |ts|
  {
    if p == |ts| then Parsed(Err(UnexpectedEndOfTokenStream), p)
    else if ts[p].tokenClass.Atom? || ts[p].tokenClass.Op? then ExprAt(ts, p, 0)
    else StmtAt(ts, p)
  }

  /** `parse`: the program, then a token that must be `EoF`. */
  function ProgramAt(ts: seq<Token>, p: nat): (r: Parsed)
    requires p <= |ts|
    ensures p <= r.pos <= |ts|
  {
    var program := TokensAt(ts, p);
    if program.result.Err? then program
    else
      var last := ConsumeAt(ts, program.pos);
      if last.result.Err? then Parsed(Err(last.result.error), last.pos)
      else if last.result.value.tokenClass == Delim(EoF) then Parsed(program.result, last.pos)
      else Parsed(Err(ExpectedEoF(last.result.value)), last.pos)
  }

  /** `Parser::new(tokens).parse()`. */
  function Parse(ts: seq<Token>): Result<AstNode, ParserError> {
    ProgramAt(ts, 0).result
  }

  // ---------------------------------------------------------------------------------------------
  // The Parser object
  // ---------------------------------------------------------------------------------------------

  class Parser {
    const tokens: seq<Token>
    var pos: nat

    /** The cursor never passes the end of the token vector. */
    ghost predicate Valid()
      reads this
    {
      pos <= |tokens|
    }

    constructor (tokens: seq<Token>)
      ensures Valid() && this.tokens == tokens && pos == 0
    {
      this.tokens := tokens;
      this.pos := 0;
    }

    /** The token under the cursor, or `UnexpectedEndOfTokenStream` past the last one. */
    function Peek(): (r: Result<Token, ParserError>)
      reads this
      ensures r.Ok? <==> pos < |tokens|
      ensures r.Ok? ==> r.value == tokens[pos]
      ensures r.Err? ==> r.error == UnexpectedEndOfTokenStream
    {
      if pos < |tokens| then Ok(tokens[pos]) else Err(UnexpectedEndOfTokenStream)
    }

    method Consume() returns (r: Result<Token, ParserError>)
      requires Valid()
      modifies this
      ensures Valid()
      ensures old(pos) < |tokens| ==> r == Ok(tokens[old(pos)]) && pos == old(pos) + 1
      ensures old(pos) == |tokens| ==> r == Err(UnexpectedEndOfTokenStream) && pos == old(pos)
      ensures Consumed(r, pos) == ConsumeAt(tokens, old(pos))
    {
      var consumed := Peek();
      if consumed.Err? {
        return consumed;
      }
      pos := pos + 1;
      return consumed;
    }

    method ConsumeExpecting(expected: TokenClass) returns (r: Result<Token, ParserError>)
      requires Valid()
      modifies this
      ensures Valid()
      ensures pos == if old(pos) < |tokens| then old(pos) + 1 else old(pos)
      ensures r.Ok? <==> old(pos) < |tokens| && tokens[old(pos)].tokenClass == expected
      ensures r.Ok? ==> r.value == tokens[old(pos)]
      ensures old(pos) < |tokens| && tokens[old(pos)].tokenClass != expected ==>
                r == Err(UnexpectedToken(tokens[old(pos)], Some(expected)))
      ensures Consumed(r, pos) == ConsumeExpectingAt(tokens, old(pos), expected)
    {
      var consumed := Consume();
      if consumed.Err? {
        return consumed;
      }
      if consumed.value.tokenClass == expected {
        return consumed;
      }
      return Err(UnexpectedToken(consumed.value, Some(expected)));
    }

    /**
     * Moves the cursor to the first token of class `toToken` at or after it, without consuming that
     * token, or to the end of the token vector.
     */
    method Recover(toToken: TokenClass)
      requires Valid()
      modifies this
      ensures Valid() && old(pos) <= pos
      ensures forall k :: old(pos) <= k < pos ==> tokens[k].tokenClass != toToken
      ensures pos == |tokens| || tokens[pos].tokenClass == toToken
    {
      while true
        invariant Valid() && old(pos) <= pos
        invariant forall k :: old(pos) <= k < pos ==> tokens[k].tokenClass != toToken
        decreases |tokens| - pos
      {
        var next := Peek();
        if next.Err? || next.value.tokenClass == toToken {
          break;
        }
        pos := pos + 1;
      }
    }

    method Parse() returns (r: Result<AstNode, ParserError>)
      requires Valid()
      modifies this
      ensures Valid() && Parsed(r, pos) == ProgramAt(tokens, old(pos))
    {
      var program := ParseTokens();
      if program.Err? {
        return program;
      }
      var last := Consume();
      if last.Err? {
        return Err(last.error);
      }
      if last.value.tokenClass == Delim(EoF) {
        return program;
      }
      return Err(ExpectedEoF(last.value));
    }

    method ParseTokens() returns (r: Result<AstNode, ParserError>)
      requires Valid()
      modifies this
      ensures Valid() && Parsed(r, pos) == TokensAt(tokens, old(pos))
    {
      var token := Peek();
      if token.Err? {
        return Err(token.error);
      }
      if token.value.tokenClass.Atom? || token.value.tokenClass.Op? {
        r := ParseExpr(0);
      } else {
        r := ParseStmt();
      }
    }

    method ParseStmt() returns (r: Result<AstNode, ParserError>)
      requires Valid()
      modifies this
      ensures Valid() && Parsed(r, pos) == StmtAt(tokens, old(pos))
    {
      var token := Consume();
      if token.Err? {
        return Err(token.error);
      }
      if token.value.tokenClass != Keyword(Let) {
        // the source's `todo!()`
        return Err(NotImplemented(token.value));
      }
      var statement := ParseVariableAssignmentStmt();
      if statement.Err? {
        return statement;
      }
      var semicolon := ConsumeExpecting(Delim(Semicolon));
      if semicolon.Err? {
        return Err(semicolon.error);
      }
      return statement;
    }

    method ParseVariableAssignmentStmt() returns (r: Result<AstNode, ParserError>)
      requires Valid()
      modifies this
      ensures Valid() && Parsed(r, pos) == AssignmentAt(tokens, old(pos))
    {
      var token := ConsumeExpecting(Atom(Identifier));
      if token.Err? {
        return Err(token.error);
      }
      var eq := ConsumeExpecting(Op(Eq));
      if eq.Err? {
        return Err(eq.error);
      }
      var expression := ParseExpr(0);
      if expression.Err? {
        return expression;
      }
      return Ok(VariableAssignmentStmt(token.value, token.value.lexeme, expression.value));
    }

    method ParseExpr(minBp: nat) returns (r: Result<AstNode, ParserError>)
      requires Valid()
      modifies this
      ensures Valid() && Parsed(r, pos) == ExprAt(tokens, old(pos), minBp)
      decreases |tokens| - pos, 1
    {
      var lhsToken := Consume();
      if lhsToken.Err? {
        return Err(lhsToken.error);
      }
      var token := lhsToken.value;
      var first: Result<AstNode, ParserError>;
      match token.tokenClass {
        case Atom(NumericLit) =>
          first := ParseNumericLit(token);
        case Atom(Identifier) =>
          first := ParseIdentifier(token);
        case Op(Min) =>
          first := ParseUnaryExpr(token);
        case Op(LeftParen) =>
          first := ParseNestedExpr(token);
        case Op(_) =>
          return Err(UnexpectedUnaryOperator(token));
        case _ =>
          return Err(UnexpectedToken(token, None));
      }
      if first.Err? {
        return first;
      }
      var lhs := first.value;
      while true
        invariant Valid() && old(pos) < pos
        invariant ExprAt(tokens, old(pos), minBp) == InfixLoop(tokens, lhs, pos, minBp)
        decreases |tokens| - pos
      {
        var opToken := Peek();
        if opToken.Err? {
          return Err(opToken.error);
        }
        var infixOp: OpToken;
        match opToken.value.tokenClass {
          case Delim(_) =>
            break;
          case Op(op) =>
            infixOp := op;
          case _ =>
            return Err(ExpectedOpToken(opToken.value));
        }
        var bp := InfixBp(infixOp);
        if bp.None? {
          break;
        }
        var (lBp, rBp) := bp.value;
        if lBp < minBp {
          break;
        }
        // The token was just peeked, so consuming it succeeds.
        var consumedOpToken := Consume();
        var rhs := ParseExpr(rBp);
        if rhs.Err? {
          return rhs;
        }
        lhs := BinaryExpr(consumedOpToken.value, lhs, rhs.value);
      }
      return Ok(lhs);
    }

    /** A numeric literal node for `token`, whose value is its lexeme. */
    function ParseNumericLit(token: Token): (r: Result<AstNode, ParserError>)
      ensures r.Ok? && Yield(r.value) == [token.tokenClass]
      ensures token.tokenClass == Atom(AtomToken.NumericLit) ==> forall m :: WellBound(r.value, m)
    {
      Ok(AstNode.NumericLit(token, token.lexeme))
    }

    /** A variable access node for `token`, whose identifier is its lexeme. */
    function ParseIdentifier(token: Token): (r: Result<AstNode, ParserError>)
      ensures r.Ok? && Yield(r.value) == [token.tokenClass]
      ensures token.tokenClass == Atom(Identifier) ==> forall m :: WellBound(r.value, m)
    {
      Ok(VariableAccessExpr(token, token.lexeme))
    }

    method ParseUnaryExpr(token: Token) returns (r: Result<AstNode, ParserError>)
      requires Valid()
      requires token.tokenClass.Op? ==> InfixBp(token.tokenClass.op).Some?
      modifies this
      ensures Valid() && Parsed(r, pos) == UnaryAt(tokens, token, old(pos))
      decreases |tokens| - pos, 2
    {
      if !token.tokenClass.Op? {
        return Err(ExpectedOpToken(token));
      }
      var (_, rightBp) := InfixBp(token.tokenClass.op).value;
      var operand := ParseExpr(rightBp);
      if operand.Err? {
        return operand;
      }
      return Ok(UnaryExpr(token, operand.value));
    }

    method ParseNestedExpr(token: Token) returns (r: Result<AstNode, ParserError>)
      requires Valid()
      modifies this
      ensures Valid() && Parsed(r, pos) == NestedAt(tokens, token, old(pos))
      decreases |tokens| - pos, 2
    {
      var nestedExpression := ParseExpr(0);
      if nestedExpression.Err? {
        return nestedExpression;
      }
      var expressionEndToken := Consume();
      if expressionEndToken.Err? {
        return Err(expressionEndToken.error);
      }
      if expressionEndToken.value.tokenClass == Op(RightParen) {
        return Ok(Expr(token, nestedExpression.value));
      }
      return Err(UnclosedExpression(token));
    }
  }

  // ---------------------------------------------------------------------------------------------
  // Properties of the reference definition
  // ---------------------------------------------------------------------------------------------

  /** The grammar's binary operators: those with binding powers. */
  predicate IsBinaryOp(t: Token) {
    t.tokenClass.Op? && InfixBp(t.tokenClass.op).Some?
  }

  function LeftBp(t: Token): nat
    requires IsBinaryOp(t)
  {
    InfixBp(t.tokenClass.op).value.0
  }

  function RightBp(t: Token): nat
    requires IsBinaryOp(t)
  {
    InfixBp(t.tokenClass.op).value.1
  }

  /**
   * A tree that precedence climbing at minimum binding power `m` can build. A binary node's operator
   * binds at least `m` to the left; its right operand was parsed at the operator's right binding
   * power; its left operand is a tree at `m` again, and when that is itself a binary node, the new
   * operator's left binding power is below the inner operator's right binding power (otherwise the
   * inner right operand would have taken it). A unary minus parses its operand at `MinusRightBp`
   * and a parenthesis its contents at 0.
   */
  predicate WellBound(e: AstNode, m: nat) {
    match e
    case NumericLit(t, _) => t.tokenClass == Atom(AtomToken.NumericLit)
    case VariableAccessExpr(t, _) => t.tokenClass == Atom(Identifier)
    case UnaryExpr(t, operand) => t.tokenClass == Op(Min) && WellBound(operand, MinusRightBp)
    case Expr(t, inner) => t.tokenClass == Op(LeftParen) && WellBound(inner, 0)
    case BinaryExpr(t, left, right) =>
      IsBinaryOp(t) && m <= LeftBp(t) && WellBound(right, RightBp(t)) && WellBound(left, m)
      && (left.BinaryExpr? ==> IsBinaryOp(left.token) && LeftBp(t) < RightBp(left.token))
    case _ => false
  }

  /** The token at `p` ends an expression parsed at minimum binding power `m`. */
  predicate Stopped(ts: seq<Token>, p: nat, m: nat) {
    p < |ts| &&
    match ts[p].tokenClass
    case Delim(_) => true
    case Op(_) => !IsBinaryOp(ts[p]) || LeftBp(ts[p]) < m
    case _ => false
  }

  /** A left operand that is a binary node does not bind the operator at `p`, if that is one. */
  predicate Pending(ts: seq<Token>, lhs: AstNode, p: nat) {
    lhs.BinaryExpr? && p < |ts| && IsBinaryOp(ts[p]) ==>
      IsBinaryOp(lhs.token) && LeftBp(ts[p]) < RightBp(lhs.token)
  }

  /** Every expression `parse_expr(m)` builds is well bound at `m`, and it stops before a terminator. */
  lemma {:induction false} ExprWellBound(ts: seq<Token>, p: nat, m: nat)
    requires p <= |ts|
    ensures var r := ExprAt(ts, p, m); r.result.Ok? ==> WellBound(r.result.value, m) && Stopped(ts, r.pos, m)
    decreases |ts| - p, 1
  {
    if p < |ts| {
      var t := ts[p];
      match t.tokenClass {
        case Op(Min) => UnaryWellBound(ts, t, p + 1);
        case Op(LeftParen) => NestedWellBound(ts, t, p + 1);
        case _ =>
      }
      var first :=
        match t.tokenClass
        case Atom(NumericLit) => Parsed(Ok(AstNode.NumericLit(t, t.lexeme)), p + 1)
        case Atom(Identifier) => Parsed(Ok(VariableAccessExpr(t, t.lexeme)), p + 1)
        case Op(Min) => UnaryAt(ts, t, p + 1)
        case Op(LeftParen) => NestedAt(ts, t, p + 1)
        case Op(_) => Parsed(Err(UnexpectedUnaryOperator(t)), p + 1)
        case _ => Parsed(Err(UnexpectedToken(t, None)), p + 1);
      if first.result.Ok? {
        InfixWellBound(ts, first.result.value, first.pos, m);
      }
    }
  }

  lemma {:induction false} InfixWellBound(ts: seq<Token>, lhs: AstNode, p: nat, m: nat)
    requires p <= |ts| && WellBound(lhs, m) && Pending(ts, lhs, p)
    ensures var r := InfixLoop(ts, lhs, p, m); r.result.Ok? ==> WellBound(r.result.value, m) && Stopped(ts, r.pos, m)
    decreases |ts| - p, 0
  {
    if p < |ts| && IsBinaryOp(ts[p]) && m <= LeftBp(ts[p]) {
      var t := ts[p];
      var rhs := ExprAt(ts, p + 1, RightBp(t));
      ExprWellBound(ts, p + 1, RightBp(t));
      if rhs.result.Ok? {
        InfixWellBound(ts, BinaryExpr(t, lhs, rhs.result.value), rhs.pos, m);
      }
    }
  }

  lemma {:induction false} UnaryWellBound(ts: seq<Token>, t: Token, p: nat)
    requires p <= |ts| && t.tokenClass == Op(Min)
    ensures var r := UnaryAt(ts, t, p); r.result.Ok? ==> r.result.value.UnaryExpr? && WellBound(r.result.value, 0)
    // `-` binds tighter than every infix operator, so its operand is never a binary expression
    ensures var r := UnaryAt(ts, t, p); r.result.Ok? ==> !r.result.value.operand.BinaryExpr?
    decreases |ts| - p, 2
  {
    ExprWellBound(ts, p, MinusRightBp);
  }

  lemma {:induction false} NestedWellBound(ts: seq<Token>, t: Token, p: nat)
    requires p <= |ts| && t.tokenClass == Op(LeftParen)
    ensures var r := NestedAt(ts, t, p); r.result.Ok? ==> r.result.value.Expr? && WellBound(r.result.value, 0)
    decreases |ts| - p, 2
  {
    ExprWellBound(ts, p, 0);
  }

  /** The token classes an expression tree was built from, in source order. */
  function Yield(e: AstNode): seq<TokenClass> {
    match e
    case Empty => []
    case Stmt(t, statement) => [t.tokenClass] + Yield(statement)
    case VariableAssignmentStmt(t, _, expression) => [t.tokenClass, Op(Eq)] + Yield(expression)
    case Expr(t, inner) => [t.tokenClass] + Yield(inner) + [Op(RightParen)]
    case BinaryExpr(t, left, right) => Yield(left) + [t.tokenClass] + Yield(right)
    case UnaryExpr(t, operand) => [t.tokenClass] + Yield(operand)
    case NumericLit(t, _) => [t.tokenClass]
    case VariableAccessExpr(t, _) => [t.tokenClass]
  }

  /** The tokens from `p` up to `q` have the classes `cs`. */
  predicate Spans(ts: seq<Token>, p: nat, q: nat, cs: seq<TokenClass>) {
    p <= q <= |ts| && q - p == |cs| && forall i :: 0 <= i < |cs| ==> ts[p + i].tokenClass == cs[i]
  }

  lemma SpansConcat(ts: seq<Token>, p: nat, q: nat, s: nat, a: seq<TokenClass>, b: seq<TokenClass>)
    requires Spans(ts, p, q, a) && Spans(ts, q, s, b)
    ensures Spans(ts, p, s, a + b)
  {
    forall i | 0 <= i < |a + b|
      ensures ts[p + i].tokenClass == (a + b)[i]
    {
      if i >= |a| {
        assert ts[q + (i - |a|)].tokenClass == b[i - |a|];
      }
    }
  }

  /** The parser neither drops nor invents tokens: a parsed expression spans exactly the tokens it consumed. */
  lemma {:induction false} ExprYield(ts: seq<Token>, p: nat, m: nat)
    requires p <= |ts|
    ensures var r := ExprAt(ts, p, m); r.result.Ok? ==> Spans(ts, p, r.pos, Yield(r.result.value))
    decreases |ts| - p, 1
  {
    if p < |ts| {
      var t := ts[p];
      match t.tokenClass {
        case Op(Min) => UnaryYield(ts, t, p + 1);
        case Op(LeftParen) => NestedYield(ts, t, p + 1);
        case _ =>
      }
      var first :=
        match t.tokenClass
        case Atom(NumericLit) => Parsed(Ok(AstNode.NumericLit(t, t.lexeme)), p + 1)
        case Atom(Identifier) => Parsed(Ok(VariableAccessExpr(t, t.lexeme)), p + 1)
        case Op(Min) => UnaryAt(ts, t, p + 1)
        case Op(LeftParen) => NestedAt(ts, t, p + 1)
        case Op(_) => Parsed(Err(UnexpectedUnaryOperator(t)), p + 1)
        case _ => Parsed(Err(UnexpectedToken(t, None)), p + 1);
      if first.result.Ok? {
        InfixYield(ts, p, first.result.value, first.pos, m);
      }
    }
  }

  lemma {:induction false} InfixYield(ts: seq<Token>, s: nat, lhs: AstNode, p: nat, m: nat)
    requires p <= |ts| && Spans(ts, s, p, Yield(lhs))
    ensures var r := InfixLoop(ts, lhs, p, m); r.result.Ok? ==> Spans(ts, s, r.pos, Yield(r.result.value))
    decreases |ts| - p, 0
  {
    if p < |ts| && IsBinaryOp(ts[p]) && m <= LeftBp(ts[p]) {
      var t := ts[p];
      var rhs := ExprAt(ts, p + 1, RightBp(t));
      ExprYield(ts, p + 1, RightBp(t));
      if rhs.result.Ok? {
        InfixContinues(ts, lhs, p, m);
        SpansBinary(ts, s, p, rhs.pos, lhs, rhs.result.value);
        InfixYield(ts, s, BinaryExpr(t, lhs, rhs.result.value), rhs.pos, m);
      }
    } else {
      InfixStops(ts, lhs, p, m);
    }
  }

  /** Where the loop of `parse_expr` takes an operator and its operand, it goes on with the combined tree. */
  lemma InfixContinues(ts: seq<Token>, lhs: AstNode, p: nat, m: nat)
    requires p < |ts| && IsBinaryOp(ts[p]) && m <= LeftBp(ts[p])
    requires ExprAt(ts, p + 1, RightBp(ts[p])).result.Ok?
    ensures var rhs := ExprAt(ts, p + 1, RightBp(ts[p]));
      InfixLoop(ts, lhs, p, m) == InfixLoop(ts, BinaryExpr(ts[p], lhs, rhs.result.value), rhs.pos, m)
  {
  }

  /** Where the loop of `parse_expr` takes no operator, it succeeds, if at all, with the tree it had. */
  lemma InfixStops(ts: seq<Token>, lhs: AstNode, p: nat, m: nat)
    requires p <= |ts| && !(p < |ts| && IsBinaryOp(ts[p]) && m <= LeftBp(ts[p]))
    ensures var r := InfixLoop(ts, lhs, p, m); r.result.Ok? ==> r == Parsed(Ok(lhs), p)
  {
  }

  /** A binary expression spans its left operand, its operator and its right operand, in that order. */
  lemma SpansBinary(ts: seq<Token>, s: nat, p: nat, q: nat, left: AstNode, right: AstNode)
    requires p < |ts| && Spans(ts, s, p, Yield(left)) && Spans(ts, p + 1, q, Yield(right))
    ensures Spans(ts, s, q, Yield(BinaryExpr(ts[p], left, right)))
  {
    assert Spans(ts, p, p + 1, [ts[p].tokenClass]);
    SpansConcat(ts, s, p, p + 1, Yield(left), [ts[p].tokenClass]);
    SpansConcat(ts, s, p + 1, q, Yield(left) + [ts[p].tokenClass], Yield(right));
  }

  lemma {:induction false} UnaryYield(ts: seq<Token>, t: Token, p: nat)
    requires 0 < p <= |ts| && ts[p - 1] == t && t.tokenClass == Op(Min)
    ensures var r := UnaryAt(ts, t, p); r.result.Ok? ==> Spans(ts, p - 1, r.pos, Yield(r.result.value))
    decreases |ts| - p, 2
  {
    var operand := ExprAt(ts, p, RightBp(t));
    ExprYield(ts, p, RightBp(t));
    if operand.result.Ok? {
      assert Spans(ts, p - 1, p, [t.tokenClass]);
      SpansConcat(ts, p - 1, p, operand.pos, [t.tokenClass], Yield(operand.result.value));
    }
  }

  lemma {:induction false} NestedYield(ts: seq<Token>, t: Token, p: nat)
    requires 0 < p <= |ts| && ts[p - 1] == t
    ensures var r := NestedAt(ts, t, p); r.result.Ok? ==> Spans(ts, p - 1, r.pos, Yield(r.result.value))
    decreases |ts| - p, 2
  {
    var inner := ExprAt(ts, p, 0);
    ExprYield(ts, p, 0);
    if inner.result.Ok? && inner.pos < |ts| && ts[inner.pos].tokenClass == Op(RightParen) {
      assert Spans(ts, p - 1, p, [t.tokenClass]);
      assert Spans(ts, inner.pos, inner.pos + 1, [Op(RightParen)]);
      SpansConcat(ts, p - 1, p, inner.pos, [t.tokenClass], Yield(inner.result.value));
      SpansConcat(ts, p - 1, inner.pos, inner.pos + 1, [t.tokenClass] + Yield(inner.result.value), [Op(RightParen)]);
    }
  }

  /** An expression tree spans operands and operators only: never a delimiter or a keyword. */
  lemma {:induction false} ExpressionYield(e: AstNode, m: nat)
    requires WellBound(e, m)
    ensures forall i :: 0 <= i < |Yield(e)| ==> Yield(e)[i].Atom? || Yield(e)[i].Op?
  {
    match e
    case UnaryExpr(_, operand) => ExpressionYield(operand, MinusRightBp);
    case Expr(_, inner) => ExpressionYield(inner, 0);
    case BinaryExpr(t, left, right) =>
      ExpressionYield(left, m);
      ExpressionYield(right, RightBp(t));
    case _ =>
  }

  /** `t` is one of the tokens from `p` on. */
  predicate Occurs(ts: seq<Token>, p: nat, t: Token) {
    exists i :: p <= i < |ts| && ts[i] == t
  }

  /**
   * The errors `parse_expr` can fail with, each carrying a token it met: a leading operator other
   * than `-` and `(`, a leading delimiter or keyword, an operand or keyword where an operator or a
   * terminator was due, a `(` left unclosed, or the end of the tokens.
   */
  predicate ExprError(ts: seq<Token>, p: nat, e: ParserError) {
    match e
    case UnexpectedEndOfTokenStream => true
    case UnexpectedUnaryOperator(t) => t.tokenClass.Op? && t.tokenClass.op != Min && t.tokenClass.op != LeftParen && Occurs(ts, p, t)
    case UnexpectedToken(t, expected) => expected.None? && (t.tokenClass.Delim? || t.tokenClass.Keyword?) && Occurs(ts, p, t)
    case ExpectedOpToken(t) => (t.tokenClass.Atom? || t.tokenClass.Keyword?) && Occurs(ts, p, t)
    case UnclosedExpression(t) => t.tokenClass == Op(LeftParen) && Occurs(ts, p, t)
    case _ => false
  }

  lemma ExprErrorFrom(ts: seq<Token>, s: nat, p: nat, e: ParserError)
    requires s <= p && ExprError(ts, p, e)
    ensures ExprError(ts, s, e)
  {
    if !e.UnexpectedEndOfTokenStream? {
      var i :| p <= i < |ts| && ts[i] == e.token;
      assert s <= i;
    }
  }

  /** Every failure of `parse_expr` is one of the errors of `ExprError`. */
  lemma {:induction false} ExprErrors(ts: seq<Token>, p: nat, m: nat)
    requires p <= |ts|
    ensures var r := ExprAt(ts, p, m); r.result.Err? ==> ExprError(ts, p, r.result.error)
    decreases |ts| - p, 1
  {
    if p < |ts| {
      var t := ts[p];
      match t.tokenClass {
        case Op(Min) => UnaryErrors(ts, t, p + 1);
        case Op(LeftParen) => NestedErrors(ts, t, p + 1);
        case _ =>
      }
      var first :=
        match t.tokenClass
        case Atom(NumericLit) => Parsed(Ok(AstNode.NumericLit(t, t.lexeme)), p + 1)
        case Atom(Identifier) => Parsed(Ok(VariableAccessExpr(t, t.lexeme)), p + 1)
        case Op(Min) => UnaryAt(ts, t, p + 1)
        case Op(LeftParen) => NestedAt(ts, t, p + 1)
        case Op(_) => Parsed(Err(UnexpectedUnaryOperator(t)), p + 1)
        case _ => Parsed(Err(UnexpectedToken(t, None)), p + 1);
      if first.result.Ok? {
        InfixErrors(ts, p, first.result.value, first.pos, m);
      }
    }
  }

  lemma {:induction false} InfixErrors(ts: seq<Token>, s: nat, lhs: AstNode, p: nat, m: nat)
    requires s <= p <= |ts|
    ensures var r := InfixLoop(ts, lhs, p, m); r.result.Err? ==> ExprError(ts, s, r.result.error)
    decreases |ts| - p, 0
  {
    if p < |ts| && IsBinaryOp(ts[p]) && m <= LeftBp(ts[p]) {
      var t := ts[p];
      var rhs := ExprAt(ts, p + 1, RightBp(t));
      ExprErrors(ts, p + 1, RightBp(t));
      if rhs.result.Err? {
        ExprErrorFrom(ts, s, p + 1, rhs.result.error);
      } else {
        InfixErrors(ts, s, BinaryExpr(t, lhs, rhs.result.value), rhs.pos, m);
      }
    }
  }

  lemma {:induction false} UnaryErrors(ts: seq<Token>, t: Token, p: nat)
    requires 0 < p <= |ts| && t.tokenClass == Op(Min)
    ensures var r := UnaryAt(ts, t, p); r.result.Err? ==> ExprError(ts, p - 1, r.result.error)
    decreases |ts| - p, 2
  {
    var operand := ExprAt(ts, p, RightBp(t));
    ExprErrors(ts, p, RightBp(t));
    if operand.result.Err? {
      ExprErrorFrom(ts, p - 1, p, operand.result.error);
    }
  }

  lemma {:induction false} NestedErrors(ts: seq<Token>, t: Token, p: nat)
    requires 0 < p <= |ts| && ts[p - 1] == t && t.tokenClass == Op(LeftParen)
    ensures var r := NestedAt(ts, t, p); r.result.Err? ==> ExprError(ts, p - 1, r.result.error)
    decreases |ts| - p, 2
  {
    var inner := ExprAt(ts, p, 0);
    ExprErrors(ts, p, 0);
    if inner.result.Err? {
      ExprErrorFrom(ts, p - 1, p, inner.result.error);
    }
  }

  /** A leading operator other than `-` and `(` is rejected as a unary operator, and consumed. */
  lemma LeadingOperatorRejected(ts: seq<Token>, p: nat, m: nat)
    requires p < |ts| && ts[p].tokenClass.Op? && ts[p].tokenClass.op != Min && ts[p].tokenClass.op != LeftParen
    ensures ExprAt(ts, p, m) == Parsed(Err(UnexpectedUnaryOperator(ts[p])), p + 1)
  {
  }

  /** A leading delimiter or keyword is an unexpected token, with no class expected in its place. */
  lemma LeadingTokenRejected(ts: seq<Token>, p: nat, m: nat)
    requires p < |ts| && (ts[p].tokenClass.Delim? || ts[p].tokenClass.Keyword?)
    ensures ExprAt(ts, p, m) == Parsed(Err(UnexpectedToken(ts[p], None)), p + 1)
  {
  }

  /** Where the loop expects an operator or a terminator, an operand or keyword fails without being consumed. */
  lemma OperandAfterOperand(ts: seq<Token>, lhs: AstNode, p: nat, m: nat)
    requires p < |ts| && (ts[p].tokenClass.Atom? || ts[p].tokenClass.Keyword?)
    ensures InfixLoop(ts, lhs, p, m) == Parsed(Err(ExpectedOpToken(ts[p])), p)
  {
  }

  /** So an operand followed directly by an operand or a keyword is rejected on the second token. */
  lemma {:induction false} AdjacentOperandRejected(ts: seq<Token>, p: nat, m: nat)
    requires p + 1 < |ts| && ts[p].tokenClass.Atom?
    requires ts[p + 1].tokenClass.Atom? || ts[p + 1].tokenClass.Keyword?
    ensures ExprAt(ts, p, m) == Parsed(Err(ExpectedOpToken(ts[p + 1])), p + 1)
  {
    var t := ts[p];
    var leaf := if t.tokenClass == Atom(AtomToken.NumericLit) then AstNode.NumericLit(t, t.lexeme) else VariableAccessExpr(t, t.lexeme);
    OperandAfterOperand(ts, leaf, p + 1, m);
  }

  /** A `(` whose contents parse but are followed by something other than `)` is unclosed. */
  lemma {:induction false} UnclosedRejected(ts: seq<Token>, p: nat, m: nat)
    requires p < |ts| && ts[p].tokenClass == Op(LeftParen)
    requires ExprAt(ts, p + 1, 0).result.Ok?
    requires ExprAt(ts, p + 1, 0).pos < |ts| && ts[ExprAt(ts, p + 1, 0).pos].tokenClass != Op(RightParen)
    ensures ExprAt(ts, p, m).result == Err(UnclosedExpression(ts[p]))
  {
    assert NestedAt(ts, ts[p], p + 1).result == Err(UnclosedExpression(ts[p]));
  }

  /** Both the primary and the loop fail with `UnexpectedEndOfTokenStream` when the tokens run out. */
  lemma EndRejected(ts: seq<Token>, lhs: AstNode, m: nat)
    ensures ExprAt(ts, |ts|, m).result == Err(UnexpectedEndOfTokenStream)
    ensures InfixLoop(ts, lhs, |ts|, m).result == Err(UnexpectedEndOfTokenStream)
  {
  }

  /**
   * A statement is `let`, an identifier, `=`, an expression and `;`, and the node records the
   * identifier token and its lexeme.
   */
  lemma StmtShape(ts: seq<Token>, p: nat)
    requires p <= |ts|
    ensures var r := StmtAt(ts, p);
      r.result.Ok? ==>
        && r.result.value.VariableAssignmentStmt?
        && Spans(ts, p, r.pos, [Keyword(Let)] + Yield(r.result.value) + [Delim(Semicolon)])
        && r.result.value.token == ts[p + 1]
        && r.result.value.identifier == ts[p + 1].lexeme
        && WellBound(r.result.value.expression, 0)
  {
    var first := ConsumeAt(ts, p);
    if first.result.Ok? && first.result.value.tokenClass == Keyword(Let) {
      var statement := AssignmentAt(ts, p + 1);
      AssignmentShape(ts, p + 1);
      if statement.result.Ok? {
        var v := statement.result.value;
        var semicolon := ConsumeExpectingAt(ts, statement.pos, Delim(Semicolon));
        if semicolon.result.Ok? {
          assert Spans(ts, p, p + 1, [Keyword(Let)]);
          SpansConcat(ts, p, p + 1, statement.pos, [Keyword(Let)], Yield(v));
          assert Spans(ts, statement.pos, statement.pos + 1, [Delim(Semicolon)]);
          SpansConcat(ts, p, statement.pos, statement.pos + 1, [Keyword(Let)] + Yield(v), [Delim(Semicolon)]);
        }
      }
    }
  }

  /** The assignment after `let`: the identifier token and its lexeme, `=`, and a well-bound expression. */
  lemma AssignmentShape(ts: seq<Token>, p: nat)
    requires p <= |ts|
    ensures var r := AssignmentAt(ts, p);
      r.result.Ok? ==>
        && r.result.value.VariableAssignmentStmt?
        && Spans(ts, p, r.pos, Yield(r.result.value))
        && r.result.value.token == ts[p]
        && r.result.value.identifier == ts[p].lexeme
        && WellBound(r.result.value.expression, 0)
  {
    var id := ConsumeExpectingAt(ts, p, Atom(Identifier));
    var eq := ConsumeExpectingAt(ts, id.pos, Op(Eq));
    if id.result.Ok? && eq.result.Ok? {
      var e := ExprAt(ts, p + 2, 0);
      ExprWellBound(ts, p + 2, 0);
      ExprYield(ts, p + 2, 0);
      if e.result.Ok? {
        assert Spans(ts, p, p + 2, [ts[p].tokenClass, Op(Eq)]);
        SpansConcat(ts, p, p + 2, e.pos, [ts[p].tokenClass, Op(Eq)], Yield(e.result.value));
      }
    }
  }

  /**
   * The errors `parse_stmt` can fail with besides those of `parse_expr`: a first token other than
   * `let` (the `todo!()`), and a missing identifier, `=` or `;`.
   */
  predicate StmtError(ts: seq<Token>, p: nat, e: ParserError) {
    || ExprError(ts, p, e)
    || (e.NotImplemented? && p < |ts| && e.token == ts[p] && ts[p].tokenClass != Keyword(Let))
    || (&& e.UnexpectedToken?
        && e.expected in {Some(Atom(Identifier)), Some(Op(Eq)), Some(Delim(Semicolon))}
        && e.token.tokenClass != e.expected.value
        && Occurs(ts, p, e.token))
  }

  lemma StmtErrors(ts: seq<Token>, p: nat)
    requires p <= |ts|
    ensures var r := StmtAt(ts, p); r.result.Err? ==> StmtError(ts, p, r.result.error)
  {
    var first := ConsumeAt(ts, p);
    if first.result.Ok? && first.result.value.tokenClass == Keyword(Let) {
      var statement := AssignmentAt(ts, p + 1);
      if statement.result.Err? && p + 3 <= |ts| {
        var e := ExprAt(ts, p + 3, 0);
        ExprErrors(ts, p + 3, 0);
        if e.result.Err? {
          ExprErrorFrom(ts, p, p + 3, e.result.error);
        }
      }
      if statement.result.Ok? {
        var semicolon := ConsumeExpectingAt(ts, statement.pos, Delim(Semicolon));
        if semicolon.result.Err? && statement.pos < |ts| {
          assert p <= statement.pos;
        }
      }
    }
  }

  /**
   * What `parse` accepts: the program, then `EoF` as the token after it. A program that starts with
   * an operand or an operator is one well-bound expression over operands and operators only, so any
   * `;` or second terminator before the `EoF` is rejected; any other program is one `let` statement.
   */
  lemma ParseAccepts(ts: seq<Token>)
    ensures var r := ProgramAt(ts, 0);
      r.result.Ok? ==>
        && 0 < r.pos && ts[r.pos - 1].tokenClass == Delim(EoF)
        && (if ts[0].tokenClass.Atom? || ts[0].tokenClass.Op?
            then
              && WellBound(r.result.value, 0)
              && Spans(ts, 0, r.pos - 1, Yield(r.result.value))
              && forall i :: 0 <= i < r.pos - 1 ==> ts[i].tokenClass.Atom? || ts[i].tokenClass.Op?
            else
              && ts[0].tokenClass == Keyword(Let)
              && r.result.value.VariableAssignmentStmt?
              && Spans(ts, 0, r.pos - 1, [Keyword(Let)] + Yield(r.result.value) + [Delim(Semicolon)]))
  {
    ExpressionProgram(ts);
    StatementProgram(ts);
  }

  /** A program that starts with an operand or an operator is one well-bound expression, then `EoF`. */
  lemma ExpressionProgram(ts: seq<Token>)
    ensures var r := ProgramAt(ts, 0);
      r.result.Ok? && (ts[0].tokenClass.Atom? || ts[0].tokenClass.Op?) ==>
        && 0 < r.pos && ts[r.pos - 1].tokenClass == Delim(EoF)
        && WellBound(r.result.value, 0)
        && Spans(ts, 0, r.pos - 1, Yield(r.result.value))
        && forall i :: 0 <= i < r.pos - 1 ==> ts[i].tokenClass.Atom? || ts[i].tokenClass.Op?
  {
    if 0 < |ts| && (ts[0].tokenClass.Atom? || ts[0].tokenClass.Op?) {
      var program := ExprAt(ts, 0, 0);
      ExprWellBound(ts, 0, 0);
      ExprYield(ts, 0, 0);
      if program.result.Ok? {
        var e := program.result.value;
        ExpressionYield(e, 0);
        forall i | 0 <= i < program.pos
          ensures ts[i].tokenClass.Atom? || ts[i].tokenClass.Op?
        {
          assert ts[0 + i].tokenClass == Yield(e)[i];
        }
      }
    }
  }

  /** Any other program that parses is one `let` statement, then `EoF`. */
  lemma StatementProgram(ts: seq<Token>)
    ensures var r := ProgramAt(ts, 0);
      r.result.Ok? && !(ts[0].tokenClass.Atom? || ts[0].tokenClass.Op?) ==>
        && 0 < r.pos && ts[r.pos - 1].tokenClass == Delim(EoF)
        && ts[0].tokenClass == Keyword(Let)
        && r.result.value.VariableAssignmentStmt?
        && Spans(ts, 0, r.pos - 1, [Keyword(Let)] + Yield(r.result.value) + [Delim(Semicolon)])
  {
    if 0 < |ts| && !(ts[0].tokenClass.Atom? || ts[0].tokenClass.Op?) {
      StmtShape(ts, 0);
    }
  }

  /**
   * A token vector with no keyword and no `EoF` before its last token, as the lexer produces, parses,
   * if at all, to one well-bound expression spanning every token but the last.
   */
  lemma ExpressionOnly(ts: seq<Token>)
    requires |ts| >= 1 && forall i :: 0 <= i < |ts| ==> !ts[i].tokenClass.Keyword?
    requires forall i :: 0 <= i < |ts| - 1 ==> ts[i].tokenClass != Delim(EoF)
    requires Parse(ts).Ok?
    ensures WellBound(Parse(ts).value, 0) && Spans(ts, 0, |ts| - 1, Yield(Parse(ts).value))
  {
    StatementProgram(ts);
    assert !ts[0].tokenClass.Keyword?;
    ExpressionProgram(ts);
  }

  /** How `parse` fails: an error of the expression or statement layer, or a token other than `EoF` after the program. */
  lemma ParseRejects(ts: seq<Token>)
    ensures var r := ProgramAt(ts, 0);
      r.result.Err? ==>
        || StmtError(ts, 0, r.result.error)
        || (r.result.error.ExpectedEoF? && r.result.error.token.tokenClass != Delim(EoF) && Occurs(ts, 0, r.result.error.token))
  {
    if 0 < |ts| {
      if ts[0].tokenClass.Atom? || ts[0].tokenClass.Op? {
        ExprErrors(ts, 0, 0);
      } else {
        StmtErrors(ts, 0);
      }
    }
  }

  // ---------------------------------------------------------------------------------------------
  // Grouping on small inputs
  // ---------------------------------------------------------------------------------------------

  /** The leaf an operand token parses to. */
  function Leaf(t: Token): AstNode
    requires t.tokenClass.Atom?
  {
    if t.tokenClass == Atom(AtomToken.NumericLit) then AstNode.NumericLit(t, t.lexeme) else VariableAccessExpr(t, t.lexeme)
  }

  /**
   * `a o1 b o2 c`: the second operator is taken into the right operand of the first exactly when its
   * left binding power reaches the first one's right binding power.
   */
  lemma TwoOperators(a: Token, o1: Token, b: Token, o2: Token, c: Token, end: Token)
    requires a.tokenClass.Atom? && b.tokenClass.Atom? && c.tokenClass.Atom?
    requires IsBinaryOp(o1) && IsBinaryOp(o2) && end.tokenClass == Delim(EoF)
    ensures Parse([a, o1, b, o2, c, end]) ==
      Ok(if RightBp(o1) <= LeftBp(o2)
         then BinaryExpr(o1, Leaf(a), BinaryExpr(o2, Leaf(b), Leaf(c)))
         else BinaryExpr(o2, BinaryExpr(o1, Leaf(a), Leaf(b)), Leaf(c)))
  {
    var ts := [a, o1, b, o2, c, end];
    assert ExprAt(ts, 4, RightBp(o2)) == Parsed(Ok(Leaf(c)), 5);
    if RightBp(o1) <= LeftBp(o2) {
      assert InfixLoop(ts, Leaf(b), 3, RightBp(o1)) == Parsed(Ok(BinaryExpr(o2, Leaf(b), Leaf(c))), 5);
      assert ExprAt(ts, 2, RightBp(o1)) == Parsed(Ok(BinaryExpr(o2, Leaf(b), Leaf(c))), 5);
      assert InfixLoop(ts, Leaf(a), 1, 0) == Parsed(Ok(BinaryExpr(o1, Leaf(a), BinaryExpr(o2, Leaf(b), Leaf(c)))), 5);
    } else {
      assert ExprAt(ts, 2, RightBp(o1)) == Parsed(Ok(Leaf(b)), 3);
      assert InfixLoop(ts, BinaryExpr(o1, Leaf(a), Leaf(b)), 3, 0) == Parsed(Ok(BinaryExpr(o2, BinaryExpr(o1, Leaf(a), Leaf(b)), Leaf(c))), 5);
      assert InfixLoop(ts, Leaf(a), 1, 0) == Parsed(Ok(BinaryExpr(o2, BinaryExpr(o1, Leaf(a), Leaf(b)), Leaf(c))), 5);
    }
    assert ExprAt(ts, 0, 0).pos == 5;
  }

  /** `1 + 2 * 3` groups as `1 + (2 * 3)`. */
  lemma ProductInsideSum(a: Token, plus: Token, b: Token, star: Token, c: Token, end: Token)
    requires a.tokenClass.Atom? && b.tokenClass.Atom? && c.tokenClass.Atom?
    requires plus.tokenClass == Op(Plus) && star.tokenClass == Op(Star) && end.tokenClass == Delim(EoF)
    ensures Parse([a, plus, b, star, c, end]) == Ok(BinaryExpr(plus, Leaf(a), BinaryExpr(star, Leaf(b), Leaf(c))))
  {
    TwoOperators(a, plus, b, star, c, end);
  }

  /** `a * b * c` groups as `a * (b * c)` and `a / b / c` as `a / (b / c)`: both group to the right. */
  lemma ProductsAndQuotientsGroupRight(a: Token, o1: Token, b: Token, o2: Token, c: Token, end: Token)
    requires a.tokenClass.Atom? && b.tokenClass.Atom? && c.tokenClass.Atom? && end.tokenClass == Delim(EoF)
    requires (o1.tokenClass == o2.tokenClass == Op(Star)) || (o1.tokenClass == o2.tokenClass == Op(Slash))
    ensures Parse([a, o1, b, o2, c, end]) == Ok(BinaryExpr(o1, Leaf(a), BinaryExpr(o2, Leaf(b), Leaf(c))))
  {
    TwoOperators(a, o1, b, o2, c, end);
  }

  /** `a - b - c` groups as `(a - b) - c`, and `a - b * c` as `(a - b) * c`. */
  lemma MinusGroupsLeft(a: Token, min: Token, b: Token, o: Token, c: Token, end: Token)
    requires a.tokenClass.Atom? && b.tokenClass.Atom? && c.tokenClass.Atom? && end.tokenClass == Delim(EoF)
    requires min.tokenClass == Op(Min) && o.tokenClass in {Op(Min), Op(Star)}
    ensures Parse([a, min, b, o, c, end]) == Ok(BinaryExpr(o, BinaryExpr(min, Leaf(a), Leaf(b)), Leaf(c)))
  {
    TwoOperators(a, min, b, o, c, end);
  }

  /** `-a o b` groups as `(-a) o b` for every infix operator `o`. */
  lemma UnaryBindsTightest(min: Token, a: Token, o: Token, b: Token, end: Token)
    requires min.tokenClass == Op(Min) && a.tokenClass.Atom? && b.tokenClass.Atom?
    requires IsBinaryOp(o) && end.tokenClass == Delim(EoF)
    ensures Parse([min, a, o, b, end]) == Ok(BinaryExpr(o, UnaryExpr(min, Leaf(a)), Leaf(b)))
  {
    var ts := [min, a, o, b, end];
    assert ExprAt(ts, 1, MinusRightBp) == Parsed(Ok(Leaf(a)), 2);
    assert ExprAt(ts, 3, RightBp(o)) == Parsed(Ok(Leaf(b)), 4);
    assert InfixLoop(ts, UnaryExpr(min, Leaf(a)), 2, 0) == Parsed(Ok(BinaryExpr(o, UnaryExpr(min, Leaf(a)), Leaf(b))), 4);
    assert ExprAt(ts, 0, 0).pos == 4;
  }

  /** `let x = a;` is a variable assignment named by the identifier's lexeme. */
  lemma LetStatement(let: Token, id: Token, eq: Token, a: Token, semicolon: Token, end: Token)
    requires let.tokenClass == Keyword(Let) && id.tokenClass == Atom(Identifier) && eq.tokenClass == Op(Eq)
    requires a.tokenClass.Atom? && semicolon.tokenClass == Delim(Semicolon) && end.tokenClass == Delim(EoF)
    ensures Parse([let, id, eq, a, semicolon, end]) == Ok(VariableAssignmentStmt(id, id.lexeme, Leaf(a)))
  {
    var ts := [let, id, eq, a, semicolon, end];
    assert ExprAt(ts, 3, 0) == Parsed(Ok(Leaf(a)), 4);
    assert StmtAt(ts, 0).pos == 5;
  }

  /** `1 + 2;` is rejected: a top-level expression stops before the `;`, which is not `EoF`. */
  lemma TrailingSemicolonRejected(a: Token, o: Token, b: Token, semicolon: Token, end: Token)
    requires a.tokenClass.Atom? && b.tokenClass.Atom? && IsBinaryOp(o)
    requires semicolon.tokenClass == Delim(Semicolon) && end.tokenClass == Delim(EoF)
    ensures Parse([a, o, b, semicolon, end]) == Err(ExpectedEoF(semicolon))
  {
    var ts := [a, o, b, semicolon, end];
    assert ExprAt(ts, 2, RightBp(o)) == Parsed(Ok(Leaf(b)), 3);
    assert InfixLoop(ts, BinaryExpr(o, Leaf(a), Leaf(b)), 3, 0) == Parsed(Ok(BinaryExpr(o, Leaf(a), Leaf(b))), 3);
    assert InfixLoop(ts, Leaf(a), 1, 0) == Parsed(Ok(BinaryExpr(o, Leaf(a), Leaf(b))), 3);
  }

  /** `1 +;` fails at the `;`, where an operand was due. */
  lemma MissingOperand(a: Token, o: Token, semicolon: Token, end: Token)
    requires a.tokenClass.Atom? && IsBinaryOp(o)
    requires semicolon.tokenClass == Delim(Semicolon) && end.tokenClass == Delim(EoF)
    ensures Parse([a, o, semicolon, end]) == Err(UnexpectedToken(semicolon, None))
  {
    var ts := [a, o, semicolon, end];
    assert ExprAt(ts, 2, RightBp(o)).result == Err(UnexpectedToken(semicolon, None));
    assert InfixLoop(ts, Leaf(a), 1, 0).result == Err(UnexpectedToken(semicolon, None));
  }

  /** `(1 + 2;` fails with `UnclosedExpression` carrying the opening parenthesis. */
  lemma UnclosedParenthesis(open: Token, a: Token, o: Token, b: Token, semicolon: Token, end: Token)
    requires open.tokenClass == Op(LeftParen) && a.tokenClass.Atom? && b.tokenClass.Atom? && IsBinaryOp(o)
    requires semicolon.tokenClass == Delim(Semicolon) && end.tokenClass == Delim(EoF)
    ensures Parse([open, a, o, b, semicolon, end]) == Err(UnclosedExpression(open))
  {
    var ts := [open, a, o, b, semicolon, end];
    assert ExprAt(ts, 3, RightBp(o)) == Parsed(Ok(Leaf(b)), 4);
    assert InfixLoop(ts, BinaryExpr(o, Leaf(a), Leaf(b)), 4, 0) == Parsed(Ok(BinaryExpr(o, Leaf(a), Leaf(b))), 4);
    assert InfixLoop(ts, Leaf(a), 2, 0) == Parsed(Ok(BinaryExpr(o, Leaf(a), Leaf(b))), 4);
    assert NestedAt(ts, open, 1).result == Err(UnclosedExpression(open));
  }

  /** `1 2` fails with `ExpectedOpToken` at the second operand. */
  lemma AdjacentOperands(a: Token, b: Token, end: Token)
    requires a.tokenClass.Atom? && b.tokenClass.Atom? && end.tokenClass == Delim(EoF)
    ensures Parse([a, b, end]) == Err(ExpectedOpToken(b))
  {
    assert InfixLoop([a, b, end], Leaf(a), 1, 0).result == Err(ExpectedOpToken(b));
  }
}
