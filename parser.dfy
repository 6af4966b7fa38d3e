/**
 * The parser object: a two-token window (`currToken`, `peekToken`) over a
 * token source, and an append-only error list. The source is a finite token
 * sequence that hands out EOF forever once it is exhausted; `next` is the
 * index of the token it hands out next, so the window always holds the two
 * tokens before it.
 *
 * Every method is proved against the function of ParserSpec that describes
 * it: it leaves the current token where that function says, returns the node
 * it builds, and appends exactly the errors it lists.
 */
module Parser {
  import opened Wrappers
  import opened Token
  import opened Ast
  import opened ParserSpec

  /** `LOWEST`, the only precedence the statement parsers pass (the precedence is never consulted). */
  const LOWEST: int := 1

  /** The texts of a list of errors, in order. */
  function Messages(es: seq<ParseError>): (ms: seq<string>)
    ensures |ms| == |es| && forall k :: 0 <= k < |es| ==> ms[k] == Message(es[k])
  {
    if es == [] then [] else [Message(es[0])] + Messages(es[1..])
  }

  class Parser {
    const tokens: seq<Token>
    var next: nat
    var currToken: Token
    var peekToken: Token
    var errors: seq<ParseError>

    /** The window holds the two tokens before the one the source hands out next. */
    ghost predicate Valid()
      reads this
    {
      next >= 2 && currToken == At(tokens, next - 2) && peekToken == At(tokens, next - 1)
    }

    /** The index of the current token in the source. */
    function Position(): nat
      reads this
      requires Valid()
    {
      next - 2
    }

    /** `New`: the window is filled by two advances, and there are no errors yet. */
    constructor New(tokens: seq<Token>)
      ensures Valid() && this.tokens == tokens && Position() == 0 && errors == []
      ensures currToken == At(tokens, 0) && peekToken == At(tokens, 1)
    {
      this.tokens := tokens;
      next := 0;
      currToken, peekToken := Token(UNSET, ""), Token(UNSET, "");
      errors := [];
      new;
      NextToken();
      NextToken();
    }

    /** `nextToken`: the peek token becomes current, and the source's next token becomes the peek token. */
    method NextToken()
      modifies this
      ensures currToken == old(peekToken) && peekToken == At(tokens, old(next)) && next == old(next) + 1
      ensures errors == old(errors)
      ensures old(Valid()) ==> Valid() && Position() == old(Position()) + 1
    {
      currToken := peekToken;
      peekToken := At(tokens, next);
      next := next + 1;
    }

    /** `currTokenIs`: the kind of the source's token at the current position. */
    predicate CurrentTokenIs(t: TokenType)
      reads this
      requires Valid()
      ensures CurrentTokenIs(t) <==> At(tokens, Position()).kind == t
    {
      currToken.kind == t
    }

    /** `peekTokenIs`: the kind of the source's token one past the current position. */
    predicate PeekTokenIs(t: TokenType)
      reads this
      requires Valid()
      ensures PeekTokenIs(t) <==> At(tokens, Position() + 1).kind == t
    {
      peekToken.kind == t
    }

    /** `Errors`: the error texts, in the order they were recorded. */
    function Errors(): (ms: seq<string>)
      reads this
      ensures |ms| == |errors| && forall k :: 0 <= k < |errors| ==> ms[k] == Message(errors[k])
    {
      Messages(errors)
    }

    /** `peekError`: append one error naming the expected kind and the peek token's kind. */
    method PeekError(t: TokenType)
      modifies this
      ensures errors == old(errors) + [ParseError.PeekError(t, old(peekToken).kind)]
      ensures next == old(next) && currToken == old(currToken) && peekToken == old(peekToken)
    {
      errors := errors + [ParseError.PeekError(t, peekToken.kind)];
    }

    /** `expectPeek`: on a match, advance once and report success; otherwise stay put and record exactly one peek error. */
    method ExpectPeek(t: TokenType) returns (ok: bool)
      requires Valid()
      modifies this
      ensures Valid()
      ensures ok <==> At(tokens, old(Position()) + 1).kind == t
      ensures ok ==> Position() == old(Position()) + 1 && errors == old(errors)
      ensures !ok ==> Position() == old(Position()) &&
                      errors == old(errors) + [ParseError.PeekError(t, At(tokens, old(Position()) + 1).kind)]
    {
      if PeekTokenIs(t) {
        NextToken();
        ok := true;
      } else {
        PeekError(t);
        ok := false;
      }
    }

    /** `parseIdentifier` / `ParseIdentifier`: the identifier node for the current token; nothing moves. */
    function ParseIdentifier(): (e: Expression)
      reads this
      requires Valid()
      ensures e == IdentifierOf(At(tokens, Position()))
      ensures e.Ident? && e.id.value == e.id.token.literal
    {
      Ident(Identifier(currToken, currToken.literal))
    }

    /** `parseIntegerLiteral` / `ParseIntegerLiteral`: the node is always returned; a failed conversion appends one error. */
    method ParseIntegerLiteral() returns (e: Expression)
      requires Valid()
      modifies this
      ensures Valid() && Position() == old(Position())
      ensures var r := IntegerLiteralOf(At(tokens, Position())); e == r.0 && errors == old(errors) + r.1
    {
      var n := Strconv.ParseInt(currToken.literal);
      if n.err != Strconv.NoError {
        errors := errors + [IntegerError(currToken)];
      }
      e := IntegerLiteral(currToken, n.value);
    }

    /** `parseExpression` / `ParseExpression`: the prefix rule of the current kind, or nil with no error; the precedence plays no part. */
    method ParseExpression(precedence: int) returns (e: Option<Expression>)
      requires Valid()
      modifies this
      ensures Valid() && Position() == old(Position())
      ensures var r := ExpressionAt(tokens, Position()); e == r.expression && errors == old(errors) + r.errors
    {
      if currToken.kind == IDENT {
        var id := ParseIdentifier();
        e := Some(id);
      } else if currToken.kind == INT {
        var lit := ParseIntegerLiteral();
        e := Some(lit);
      } else {
        e := None;
      }
    }

    /** `parseExpressionStatement` / `ParseExpressionStatement`: keeps the starting token and consumes a following semicolon only. */
    method ParseExpressionStatement() returns (s: Statement)
      requires Valid()
      modifies this
      ensures Valid()
      ensures var r := ExpressionStatementAt(tokens, old(Position()));
        r.Parsed? && s == r.value && Position() == r.pos && errors == old(errors) + r.errors
    {
      var token := currToken;
      var e := ParseExpression(LOWEST);
      if PeekTokenIs(SEMICOLON) {
        NextToken();
      }
      s := ExpressionStatement(token, e);
    }

    /** The `for !currTokenIs(SEMICOLON) { nextToken() }` loop of the let and return parsers. */
    method AdvanceToSemicolon()
      requires Valid() && SkipToSemicolon(tokens, Position()).Some?
      modifies this
      ensures Valid() && Position() == old(SkipToSemicolon(tokens, Position()).value)
      ensures errors == old(errors)
    {
      ghost var j := SkipToSemicolon(tokens, Position()).value;
      while !CurrentTokenIs(SEMICOLON)
        invariant Valid() && errors == old(errors)
        invariant Position() <= j && SkipToSemicolon(tokens, Position()) == Some(j)
        decreases j - Position()
      {
        NextToken();
      }
    }

    /** `ParseLetStatement` (statements.go): name, `=`, the value after it, then up to the semicolon. */
    method ParseLetStatement() returns (s: Statement)
      requires Valid() && LetStatementAt(tokens, Position(), true).Parsed?
      modifies this
      ensures Valid()
      ensures var r := LetStatementAt(tokens, old(Position()), true);
        s == r.value && Position() == r.pos && errors == old(errors) + r.errors
    {
      var token := currToken;
      var ok := ExpectPeek(IDENT);
      if !ok {
        return NilLetStatement;
      }
      var name := Identifier(currToken, currToken.literal);
      ok := ExpectPeek(ASSIGN);
      if !ok {
        return NilLetStatement;
      }
      NextToken();
      var value := ParseExpression(LOWEST);
      AdvanceToSemicolon();
      s := LetStatement(token, name, value);
    }

    /** `parseLetStatement` (parser.go): name and `=`, then up to the semicolon without parsing the value. */
    method ParseLetStatementSkippingValue() returns (s: Statement)
      requires Valid() && LetStatementAt(tokens, Position(), false).Parsed?
      modifies this
      ensures Valid()
      ensures var r := LetStatementAt(tokens, old(Position()), false);
        s == r.value && Position() == r.pos && errors == old(errors) + r.errors
    {
      var token := currToken;
      var ok := ExpectPeek(IDENT);
      if !ok {
        return NilLetStatement;
      }
      var name := Identifier(currToken, currToken.literal);
      ok := ExpectPeek(ASSIGN);
      if !ok {
        return NilLetStatement;
      }
      AdvanceToSemicolon();
      s := LetStatement(token, name, None);
    }

    /** `ParseReturnStatement` (statements.go): the value after `return`, then up to the semicolon. */
    method ParseReturnStatement() returns (s: Statement)
      requires Valid() && ReturnStatementAt(tokens, Position(), true).Parsed?
      modifies this
      ensures Valid()
      ensures var r := ReturnStatementAt(tokens, old(Position()), true);
        s == r.value && Position() == r.pos && errors == old(errors) + r.errors
    {
      var token := currToken;
      NextToken();
      var value := ParseExpression(LOWEST);
      AdvanceToSemicolon();
      s := ReturnStatement(token, value);
    }

    /** `parseReturnStatement` (parser.go): up to the semicolon without parsing the value. */
    method ParseReturnStatementSkippingValue() returns (s: Statement)
      requires Valid() && ReturnStatementAt(tokens, Position(), false).Parsed?
      modifies this
      ensures Valid()
      ensures var r := ReturnStatementAt(tokens, old(Position()), false);
        s == r.value && Position() == r.pos && errors == old(errors) + r.errors
    {
      var token := currToken;
      NextToken();
      AdvanceToSemicolon();
      s := ReturnStatement(token, None);
    }

    /** `ParseStatement` / `parseStatement`: dispatch on the current kind; the flag selects the edition. */
    method ParseStatement(parsesValues: bool) returns (s: Statement)
      requires Valid() && StatementAt(tokens, Position(), parsesValues).Parsed?
      modifies this
      ensures Valid()
      ensures var r := StatementAt(tokens, old(Position()), parsesValues);
        s == r.value && Position() == r.pos && errors == old(errors) + r.errors
    {
      if currToken.kind == LET {
        if parsesValues {
          s := ParseLetStatement();
        } else {
          s := ParseLetStatementSkippingValue();
        }
      } else if currToken.kind == RET {
        if parsesValues {
          s := ParseReturnStatement();
        } else {
          s := ParseReturnStatementSkippingValue();
        }
      } else {
        s := ParseExpressionStatement();
      }
    }

    /** One turn of the `ParseProgram` loop: parse a statement, then advance once more; `added` grows by the statement's errors `e`. */
    method ParseProgramTurn(parsesValues: bool, ghost start: nat, ghost done: seq<Statement>, ghost added: seq<ParseError>)
      returns (s: Statement, ghost e: seq<ParseError>)
      requires Valid() && currToken.kind != EOF && Resumes(tokens, parsesValues, start, done, added, Position())
      modifies this
      ensures Valid() && old(Position()) < Position() && currToken == At(tokens, Position())
      ensures errors == old(errors) + e && Resumes(tokens, parsesValues, start, done + [s], added + e, Position())
    {
      ghost var pos := Position();
      ResumesAfterStatement(tokens, parsesValues, start, done, added, pos);
      s := ParseStatement(parsesValues);
      e := StatementAt(tokens, pos, parsesValues).errors;
      NextToken();
      ResumesStep(tokens, parsesValues, start, done, added, pos, done + [s], added + e, Position());
    }

    /** `ParseProgram`: statements in source order, one more advance after each, until the current token is EOF. */
    method ParseProgram(parsesValues: bool) returns (program: Program)
      requires Valid() && ProgramFrom(tokens, Position(), parsesValues).Parsed?
      modifies this
      ensures Valid()
      ensures var r := ProgramFrom(tokens, old(Position()), parsesValues);
        program.statements == r.value && Position() == r.pos && errors == old(errors) + r.errors
    {
      ghost var start := Position();
      var statements: seq<Statement> := [];
      ghost var added: seq<ParseError> := [];
      ResumesAtStart(tokens, parsesValues, start);
      while currToken.kind != EOF
        invariant Valid() && errors == old(errors) + added && currToken == At(tokens, Position())
        invariant Resumes(tokens, parsesValues, start, statements, added, Position())
        decreases |tokens| - Position()
      {
        var s;
        ghost var e;
        s, e := ParseProgramTurn(parsesValues, start, statements, added);
        statements := statements + [s];
        added := added + e;
      }
      ResumesAtEnd(tokens, parsesValues, start, statements, added, Position());
      program := Program(statements);
    }
  }
}
