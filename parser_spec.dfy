/**
 * What the parser computes, as functions of the token stream. The parser
 * reads its tokens from a finite sequence that yields EOF forever once it is
 * exhausted, as the lexer does. A parse starting with the current token at
 * index `i` ends with the current token at index `pos` and the errors it
 * appended; the skip-to-`;` loops of let and return never end when no
 * semicolon remains, which is the outcome `Diverges`.
 *
 * The package holds two editions of the statement parsers: one parses the
 * value after `=` or `return` (`statements.go`), the other skips it
 * (`parser.go`). `parsesValues` selects the edition.
 */
module ParserSpec {
  import opened Wrappers
  import opened Int64
  import opened Strconv
  import opened Token
  import opened Ast
  import Lexer

  /** The error values the parser appends. */
  datatype ParseError =
    | PeekError(expected: TokenType, got: TokenType)
    | IntegerError(token: Token)

  /** The error text: `peekError`'s message, and `%q` of the whole token for an integer that does not convert. */
  function Message(e: ParseError): string {
    match e
    case PeekError(expected, got) => "Expected token to be " + Name(expected) + ", got " + Name(got) + " instead"
    case IntegerError(t) => "Cannot parse {" + Quote(Name(t.kind)) + " " + Quote(t.literal) + "} as integer"
  }

  /** An integer error on a token whose kind and literal need no escape shows both in double quotes, as `%q` prints a struct of two strings. */
  lemma IntegerErrorText(t: Token)
    requires PlainText(Name(t.kind)) && PlainText(t.literal)
    ensures Message(IntegerError(t)) == "Cannot parse {" + ("\"" + Name(t.kind) + "\"") + " " + ("\"" + t.literal + "\"") + "} as integer"
  {
    QuotePlain(Name(t.kind));
    QuotePlain(t.literal);
  }

  /** The i-th token the source hands out: EOF once the sequence is exhausted. */
  function At(ts: seq<Token>, i: nat): (t: Token)
    ensures i >= |ts| ==> t == Token(EOF, "")
  {
    if i < |ts| then ts[i] else Token(EOF, "")
  }

  datatype Parse<T> = Parsed(value: T, pos: nat, errors: seq<ParseError>) | Diverges

  datatype ExpressionResult = ExpressionResult(expression: Option<Expression>, errors: seq<ParseError>)

  /** The kinds `New` registers a prefix rule for. */
  predicate HasPrefixRule(kind: TokenType) {
    kind == IDENT || kind == INT
  }

  /** The identifier rule's node for a token. */
  function IdentifierOf(t: Token): (e: Expression)
    ensures e.Ident? && e.id.token == t && e.id.value == t.literal
  {
    Ident(Identifier(t, t.literal))
  }

  /** The integer rule's node and errors for a token: the value `strconv.ParseInt(literal, 0, 64)` returns, and one error exactly when it reports one. */
  function IntegerLiteralOf(t: Token): (Expression, seq<ParseError>) {
    var n := ParseInt(t.literal);
    (IntegerLiteral(t, n.value), if n.err == NoError then [] else [IntegerError(t)])
  }

  /** The integer node keeps its token and holds the parsed value; its one error, if any, names the token. */
  lemma IntegerLiteralShape(t: Token)
    ensures var r := IntegerLiteralOf(t);
      r.0.IntegerLiteral? && r.0.token == t && r.0.value == ParseInt(t.literal).value &&
      (r.1 == [] || r.1 == [IntegerError(t)]) &&
      (r.1 == [] <==> ParseInt(t.literal).err == NoError)
  {
  }

  /** `parseExpression` on the current token: the prefix rule's result, or nil without an error when the kind has none. */
  function ExpressionAt(ts: seq<Token>, i: nat): ExpressionResult {
    var t := At(ts, i);
    if t.kind == IDENT then ExpressionResult(Some(IdentifierOf(t)), [])
    else if t.kind == INT then
      var lit := IntegerLiteralOf(t);
      ExpressionResult(Some(lit.0), lit.1)
    else ExpressionResult(None, [])
  }

  /** A node exactly for the kinds with a prefix rule, an identifier or integer literal; nil records no error; at most one error. */
  lemma ExpressionShape(ts: seq<Token>, i: nat)
    ensures var r := ExpressionAt(ts, i);
      (r.expression.Some? <==> HasPrefixRule(At(ts, i).kind)) &&
      (r.expression.None? ==> r.errors == []) &&
      (r.expression.Some? ==> r.expression.value.Ident? || r.expression.value.IntegerLiteral?) &&
      |r.errors| <= 1
  {
  }

  /** Both prefix rules build a node that renders as, and has as its literal, the token's literal. */
  lemma PrefixNodesRender(ts: seq<Token>, i: nat)
    ensures var r := ExpressionAt(ts, i);
      r.expression.Some? ==> ExprRenderable(r.expression.value) &&
                             ExprString(r.expression.value) == ExprTokenLiteral(r.expression.value) == At(ts, i).literal
  {
  }

  /** Where the skip loop stops: the first semicolon at or after `i`, if there is one. */
  function SkipToSemicolon(ts: seq<Token>, i: nat): (r: Option<nat>)
    ensures r.Some? ==> i <= r.value < |ts| && At(ts, r.value).kind == SEMICOLON
    decreases |ts| - i
  {
    if i >= |ts| then None
    else if ts[i].kind == SEMICOLON then Some(i)
    else SkipToSemicolon(ts, i + 1)
  }

  /** The skip loop stops on the first semicolon, and runs forever exactly when none is left. */
  lemma {:induction false} SkipToSemicolonFirst(ts: seq<Token>, i: nat, k: nat)
    requires i <= k
    ensures SkipToSemicolon(ts, i).Some? && k < SkipToSemicolon(ts, i).value ==> At(ts, k).kind != SEMICOLON
    ensures SkipToSemicolon(ts, i).None? ==> At(ts, k).kind != SEMICOLON
    decreases |ts| - i
  {
    if i < |ts| && ts[i].kind != SEMICOLON && i < k {
      SkipToSemicolonFirst(ts, i + 1, k);
    }
  }

  /**
   * A let statement starting at `i`. A missing identifier or `=` records one
   * peek error and yields the typed-nil statement without advancing past the
   * offending token; otherwise the name comes from the identifier token, the
   * value (in the value-parsing edition) from the token after `=`, and the
   * parse ends on the next semicolon.
   */
  function LetStatementAt(ts: seq<Token>, i: nat, parsesValue: bool): (r: Parse<Statement>)
    ensures r.Parsed? ==> i <= r.pos
  {
    if At(ts, i + 1).kind != IDENT then Parsed(NilLetStatement, i, [PeekError(IDENT, At(ts, i + 1).kind)])
    else if At(ts, i + 2).kind != ASSIGN then Parsed(NilLetStatement, i + 1, [PeekError(ASSIGN, At(ts, i + 2).kind)])
    else
      var value := if parsesValue then ExpressionAt(ts, i + 3) else ExpressionResult(None, []);
      var name := Identifier(At(ts, i + 1), At(ts, i + 1).literal);
      // The skipping edition starts its loop on `=`, which is never a semicolon.
      var start := if parsesValue then i + 3 else i + 2;
      match SkipToSemicolon(ts, start)
      case None => Diverges
      case Some(j) => Parsed(LetStatement(At(ts, i), name, value.expression), j, value.errors)
  }
  /**
   * The outcomes of a let statement: a malformed one is the typed-nil
   * statement with exactly one peek error; a complete one keeps its token
   * and name, holds the expression after `=` and its errors (none and no
   * value when values are skipped), and ends on the first semicolon after
   * the `=`; and it diverges exactly when no semicolon follows the `=`.
   */
  lemma LetStatementShape(ts: seq<Token>, i: nat, parsesValue: bool)
    ensures var r := LetStatementAt(ts, i, parsesValue);
      (r.Parsed? && r.value.NilLetStatement? <==> (At(ts, i + 1).kind != IDENT || At(ts, i + 2).kind != ASSIGN)) &&
      (r.Parsed? && r.value.NilLetStatement? ==>
         r.errors == (if At(ts, i + 1).kind != IDENT then [PeekError(IDENT, At(ts, i + 1).kind)]
                      else [PeekError(ASSIGN, At(ts, i + 2).kind)]) &&
         r.pos == (if At(ts, i + 1).kind != IDENT then i else i + 1)) &&
      (r.Parsed? && !r.value.NilLetStatement? ==>
         r.value.LetStatement? && r.value.token == At(ts, i) &&
         r.value.name.token == At(ts, i + 1) && r.value.name.value == At(ts, i + 1).literal &&
         At(ts, r.pos).kind == SEMICOLON && i + 3 <= r.pos &&
         r.value.value == (if parsesValue then ExpressionAt(ts, i + 3).expression else None) &&
         r.errors == (if parsesValue then ExpressionAt(ts, i + 3).errors else []) &&
         SkipToSemicolon(ts, i + 3) == Some(r.pos)) &&
      (r.Diverges? <==> (At(ts, i + 1).kind == IDENT && At(ts, i + 2).kind == ASSIGN && SkipToSemicolon(ts, i + 3).None?))
  {
    if At(ts, i + 1).kind == IDENT && At(ts, i + 2).kind == ASSIGN && !parsesValue {
      assert SkipToSemicolon(ts, i + 2) == SkipToSemicolon(ts, i + 3);
    }
  }


  /** A return statement starting at `i`: the value (in the value-parsing edition) is the token after `return`, and the parse ends on the next semicolon. */
  function ReturnStatementAt(ts: seq<Token>, i: nat, parsesValue: bool): (r: Parse<Statement>)
    ensures r.Parsed? ==> i + 1 <= r.pos
  {
    var value := if parsesValue then ExpressionAt(ts, i + 1) else ExpressionResult(None, []);
    match SkipToSemicolon(ts, i + 1)
    case None => Diverges
    case Some(j) => Parsed(ReturnStatement(At(ts, i), value.expression), j, value.errors)
  }

  /**
   * The outcomes of a return statement: it keeps its token, holds the
   * expression after `return` and its errors (none and no value when values
   * are skipped), and ends on the first semicolon after `return`; it
   * diverges exactly when no semicolon follows.
   */
  lemma ReturnStatementShape(ts: seq<Token>, i: nat, parsesValue: bool)
    ensures var r := ReturnStatementAt(ts, i, parsesValue);
      (r.Parsed? ==> At(ts, r.pos).kind == SEMICOLON && r.value.ReturnStatement? && r.value.token == At(ts, i)) &&
      (r.Parsed? ==>
         r.value.returnValue == (if parsesValue then ExpressionAt(ts, i + 1).expression else None) &&
         r.errors == (if parsesValue then ExpressionAt(ts, i + 1).errors else []) &&
         SkipToSemicolon(ts, i + 1) == Some(r.pos)) &&
      (r.Diverges? <==> SkipToSemicolon(ts, i + 1).None?)
  {
  }

  /** An expression statement starting at `i`: it keeps the starting token and consumes one following semicolon, if any. */
  function ExpressionStatementAt(ts: seq<Token>, i: nat): (r: Parse<Statement>)
    ensures r.Parsed? && i <= r.pos
  {
    var e := ExpressionAt(ts, i);
    Parsed(ExpressionStatement(At(ts, i), e.expression), if At(ts, i + 1).kind == SEMICOLON then i + 1 else i, e.errors)
  }

  /** An expression statement keeps its starting token and holds the expression there, and it consumes one following semicolon only. */
  lemma ExpressionStatementShape(ts: seq<Token>, i: nat)
    ensures var r := ExpressionStatementAt(ts, i);
      r.Parsed? && r.value.ExpressionStatement? && r.value.token == At(ts, i) &&
      r.value.expression == ExpressionAt(ts, i).expression &&
      r.pos == (if At(ts, i + 1).kind == SEMICOLON then i + 1 else i)
  {
  }

  /** `parseStatement`: LET to let, RET to return, every other kind (CON included) to an expression statement. */
  function StatementAt(ts: seq<Token>, i: nat, parsesValues: bool): (r: Parse<Statement>)
    ensures r.Parsed? ==> i <= r.pos
  {
    match At(ts, i).kind
    case LET => LetStatementAt(ts, i, parsesValues)
    case RET => ReturnStatementAt(ts, i, parsesValues)
    case _ => ExpressionStatementAt(ts, i)
  }

  /** `ParseProgram` from the current token at `i`: statements in source order until the current token is EOF. */
  function ProgramFrom(ts: seq<Token>, i: nat, parsesValues: bool): (r: Parse<seq<Statement>>)
    ensures r.Parsed? ==> i <= r.pos && At(ts, r.pos).kind == EOF
    ensures At(ts, i).kind == EOF ==> r == Parsed([], i, [])
    decreases |ts| - i, 1
  {
    if At(ts, i).kind == EOF then Parsed([], i, [])
    else StatementThenProgram(ts, i, parsesValues)
  }

  /** One turn of the loop and the rest: the statement at `i`, then the program from the token after the one it ends on. */
  function StatementThenProgram(ts: seq<Token>, i: nat, parsesValues: bool): (r: Parse<seq<Statement>>)
    requires i < |ts|
    ensures r.Parsed? ==> i <= r.pos && At(ts, r.pos).kind == EOF
    decreases |ts| - i, 0
  {
    match StatementAt(ts, i, parsesValues)
    case Diverges => Diverges
    case Parsed(s, j, e) =>
      match ProgramFrom(ts, j + 1, parsesValues)
      case Diverges => Diverges
      case Parsed(rest, k, e') => Parsed([s] + rest, k, e + e')
  }

  /**
   * The loop state of `ParseProgram` that started at `start`: the statements
   * `done` and errors `added` so far, followed by what the rest of the
   * program from `i` parses to, make up the whole program.
   */
  ghost predicate Resumes(ts: seq<Token>, parsesValues: bool, start: nat, done: seq<Statement>, added: seq<ParseError>, i: nat) {
    var rest := ProgramFrom(ts, i, parsesValues);
    rest.Parsed? && ProgramFrom(ts, start, parsesValues) == Parsed(done + rest.value, rest.pos, added + rest.errors)
  }

  /** Before the first turn nothing is done yet. */
  lemma ResumesAtStart(ts: seq<Token>, parsesValues: bool, i: nat)
    requires ProgramFrom(ts, i, parsesValues).Parsed?
    ensures Resumes(ts, parsesValues, i, [], [], i)
  {
    var r := ProgramFrom(ts, i, parsesValues);
    assert [] + r.value == r.value && [] + r.errors == r.errors;
  }

  /** One turn: the statement at `i` parses, and the loop resumes one past where it ends. */
  lemma ResumesAfterStatement(ts: seq<Token>, parsesValues: bool, start: nat, done: seq<Statement>, added: seq<ParseError>, i: nat)
    requires Resumes(ts, parsesValues, start, done, added, i) && At(ts, i).kind != EOF
    ensures var s := StatementAt(ts, i, parsesValues);
      s.Parsed? && i <= s.pos && Resumes(ts, parsesValues, start, done + [s.value], added + s.errors, s.pos + 1)
  {
    ProgramStepDiverges(ts, i, parsesValues);
    var s := StatementAt(ts, i, parsesValues);
    var rest := ProgramFrom(ts, s.pos + 1, parsesValues);
    ProgramStep(ts, i, parsesValues, s.value, s.pos, s.errors, rest.value, rest.pos, rest.errors);
    Regroup(done, s.value, rest.value, added, s.errors, rest.errors);
  }

  /** Moving a statement and its errors from the rest over to what is done leaves the whole unchanged. */
  lemma Regroup(done: seq<Statement>, s: Statement, rest: seq<Statement>, added: seq<ParseError>, e: seq<ParseError>, e': seq<ParseError>)
    ensures done + ([s] + rest) == (done + [s]) + rest
    ensures added + (e + e') == (added + e) + e'
  {
  }

  /** One turn, stated for the loop's new state: the statements, errors and position after the statement at `i`. */
  lemma ResumesStep(ts: seq<Token>, parsesValues: bool, start: nat, done: seq<Statement>, added: seq<ParseError>, i: nat,
                    done': seq<Statement>, added': seq<ParseError>, j: nat)
    requires Resumes(ts, parsesValues, start, done, added, i) && At(ts, i).kind != EOF
    requires var s := StatementAt(ts, i, parsesValues);
      s.Parsed? && done' == done + [s.value] && added' == added + s.errors && j == s.pos + 1
    ensures Resumes(ts, parsesValues, start, done', added', j)
  {
    ResumesAfterStatement(ts, parsesValues, start, done, added, i);
  }

  /** At EOF the statements and errors so far are the whole program's. */
  lemma ResumesAtEnd(ts: seq<Token>, parsesValues: bool, start: nat, done: seq<Statement>, added: seq<ParseError>, i: nat)
    requires Resumes(ts, parsesValues, start, done, added, i) && At(ts, i).kind == EOF
    ensures ProgramFrom(ts, start, parsesValues) == Parsed(done, i, added)
  {
    assert done + [] == done && added + [] == added;
  }

  /** The whole program, from the first token. */
  function ProgramOf(ts: seq<Token>, parsesValues: bool): Parse<seq<Statement>> {
    ProgramFrom(ts, 0, parsesValues)
  }

  // ---------------------------------------------------------------------------
  // Termination of the skip loops

  /** A stream whose last token is a semicolon always parses: every skip loop finds that semicolon at the latest. */
  lemma {:induction false} EndsWithSemicolonParses(ts: seq<Token>, i: nat, parsesValues: bool)
    requires |ts| > 0 && ts[|ts| - 1].kind == SEMICOLON
    ensures ProgramFrom(ts, i, parsesValues).Parsed?
    decreases |ts| - i
  {
    if At(ts, i).kind != EOF {
      StatementBeforeSemicolonParses(ts, i, parsesValues);
      var r := StatementAt(ts, i, parsesValues);
      EndsWithSemicolonParses(ts, r.pos + 1, parsesValues);
      var rest := ProgramFrom(ts, r.pos + 1, parsesValues);
      ProgramStep(ts, i, parsesValues, r.value, r.pos, r.errors, rest.value, rest.pos, rest.errors);
    }
  }

  /** A statement that starts before a final semicolon parses: its skip loop finds that semicolon at the latest. */
  lemma StatementBeforeSemicolonParses(ts: seq<Token>, i: nat, parsesValues: bool)
    requires |ts| > 0 && ts[|ts| - 1].kind == SEMICOLON && At(ts, i).kind != EOF
    ensures StatementAt(ts, i, parsesValues).Parsed?
  {
    var last := |ts| - 1;
    if At(ts, i).kind == LET {
      LetStatementShape(ts, i, parsesValues);
      if At(ts, i + 1).kind == IDENT && At(ts, i + 2).kind == ASSIGN {
        SkipToSemicolonFirst(ts, i + 3, last);
      }
    } else if At(ts, i).kind == RET {
      ReturnStatementShape(ts, i, parsesValues);
      SkipToSemicolonFirst(ts, i + 1, last);
    }
  }

  // ---------------------------------------------------------------------------
  // The two editions agree except on values

  /** What the value-skipping edition keeps of a statement. */
  function WithoutValue(s: Statement): Statement {
    match s
    case LetStatement(t, n, _) => LetStatement(t, n, None)
    case ReturnStatement(t, _) => ReturnStatement(t, None)
    case _ => s
  }

  function WithoutValues(ss: seq<Statement>): (r: seq<Statement>)
    ensures |r| == |ss| && forall k :: 0 <= k < |ss| ==> r[k] == WithoutValue(ss[k])
  {
    if ss == [] then [] else [WithoutValue(ss[0])] + WithoutValues(ss[1..])
  }

  /** The peek errors of an error list, in order. */
  function PeekErrors(es: seq<ParseError>): seq<ParseError> {
    if es == [] then [] else (if es[0].PeekError? then [es[0]] else []) + PeekErrors(es[1..])
  }

  lemma {:induction false} PeekErrorsAppend(a: seq<ParseError>, b: seq<ParseError>)
    ensures PeekErrors(a + b) == PeekErrors(a) + PeekErrors(b)
  {
    if a == [] {
      assert a + b == b;
    } else {
      assert (a + b)[0] == a[0] && (a + b)[1..] == a[1..] + b;
      PeekErrorsAppend(a[1..], b);
    }
  }

  lemma NoPeekErrors(es: seq<ParseError>)
    requires |es| <= 1 && (es != [] ==> es[0].IntegerError?)
    ensures PeekErrors(es) == []
  {
    if es != [] {
      assert es[1..] == [];
    }
  }

  /** One statement: both editions stop at the same token, build the same statement up to its value, and record the same peek errors. */
  lemma StatementEditionsAgree(ts: seq<Token>, i: nat)
    ensures StatementAt(ts, i, true).Diverges? <==> StatementAt(ts, i, false).Diverges?
    ensures StatementAt(ts, i, true).Parsed? ==>
              StatementAt(ts, i, false).value == WithoutValue(StatementAt(ts, i, true).value) &&
              StatementAt(ts, i, false).pos == StatementAt(ts, i, true).pos &&
              PeekErrors(StatementAt(ts, i, false).errors) == PeekErrors(StatementAt(ts, i, true).errors)
  {
    var a, b := StatementAt(ts, i, true), StatementAt(ts, i, false);
    if At(ts, i).kind == LET {
      if At(ts, i + 1).kind == IDENT && At(ts, i + 2).kind == ASSIGN {
        assert SkipToSemicolon(ts, i + 2) == SkipToSemicolon(ts, i + 3);
        NoPeekErrors(ExpressionAt(ts, i + 3).errors);
      }
    } else if At(ts, i).kind == RET {
      NoPeekErrors(ExpressionAt(ts, i + 1).errors);
    }
  }

  /**
   * Two program parses agree up to values: both diverge or neither does, and
   * a parsed `q` has `p`'s statements without their values, stops where `p`
   * stops and has `p`'s peek errors.
   */
  predicate AgreeButValues(p: Parse<seq<Statement>>, q: Parse<seq<Statement>>) {
    (p.Diverges? <==> q.Diverges?) &&
    (p.Parsed? ==> q.value == WithoutValues(p.value) && q.pos == p.pos && PeekErrors(q.errors) == PeekErrors(p.errors))
  }

  /** The value-parsing and value-skipping `ParseProgram` agree on everything but the values and the errors those values raise. */
  lemma {:induction false} ProgramEditionsAgree(ts: seq<Token>, i: nat)
    ensures AgreeButValues(ProgramFrom(ts, i, true), ProgramFrom(ts, i, false))
    decreases |ts| - i
  {
    if At(ts, i).kind != EOF {
      var a := StatementAt(ts, i, true);
      if a.Parsed? {
        ProgramEditionsAgree(ts, a.pos + 1);
        EditionsAfterStatement(ts, i);
      } else {
        EditionsDivergeAtStatement(ts, i);
      }
    }
  }

  /** A statement that diverges in one edition diverges in the other, and so does the program. */
  lemma EditionsDivergeAtStatement(ts: seq<Token>, i: nat)
    requires At(ts, i).kind != EOF && StatementAt(ts, i, true).Diverges?
    ensures AgreeButValues(ProgramFrom(ts, i, true), ProgramFrom(ts, i, false))
  {
    StatementEditionsAgree(ts, i);
    ProgramStepDiverges(ts, i, true);
    ProgramStepDiverges(ts, i, false);
  }

  /** A statement that parses, followed by a rest on which the editions agree: they agree on the whole. */
  lemma EditionsAfterStatement(ts: seq<Token>, i: nat)
    requires At(ts, i).kind != EOF && StatementAt(ts, i, true).Parsed?
    requires var j := StatementAt(ts, i, true).pos + 1;
      AgreeButValues(ProgramFrom(ts, j, true), ProgramFrom(ts, j, false))
    ensures AgreeButValues(ProgramFrom(ts, i, true), ProgramFrom(ts, i, false))
  {
    StatementEditionsAgree(ts, i);
    var a := StatementAt(ts, i, true);
    var b := StatementAt(ts, i, false);
    ProgramStepDiverges(ts, i, true);
    ProgramStepDiverges(ts, i, false);
    var ra := ProgramFrom(ts, a.pos + 1, true);
    var rb := ProgramFrom(ts, a.pos + 1, false);
    if ra.Parsed? {
      ProgramStep(ts, i, true, a.value, a.pos, a.errors, ra.value, ra.pos, ra.errors);
      ProgramStep(ts, i, false, b.value, b.pos, b.errors, rb.value, rb.pos, rb.errors);
      EditionsCombine(a.value, a.errors, ra.value, ra.errors, b.value, b.errors, rb.value, rb.errors, ra.pos);
    }
  }

  /** A statement and the rest of the program, in both editions: the agreement of the parts carries over to the whole. */
  lemma EditionsCombine(s: Statement, e: seq<ParseError>, rest: seq<Statement>, e': seq<ParseError>,
                        t: Statement, f: seq<ParseError>, rest': seq<Statement>, f': seq<ParseError>, k: nat)
    requires t == WithoutValue(s) && PeekErrors(f) == PeekErrors(e)
    requires rest' == WithoutValues(rest) && PeekErrors(f') == PeekErrors(e')
    ensures AgreeButValues(Parsed([s] + rest, k, e + e'), Parsed([t] + rest', k, f + f'))
  {
    assert ([s] + rest)[1..] == rest;
    PeekErrorsAppend(e, e');
    PeekErrorsAppend(f, f');
  }

  // ---------------------------------------------------------------------------
  // Well-formed statements

  /** `let <ident> = <token> ;` parses as a let statement ending on its semicolon. */
  lemma LetParses(ts: seq<Token>, i: nat, parsesValues: bool)
    requires At(ts, i).kind == LET && At(ts, i + 1).kind == IDENT && At(ts, i + 2).kind == ASSIGN
    requires At(ts, i + 3).kind != SEMICOLON && At(ts, i + 4).kind == SEMICOLON
    ensures var value := if parsesValues then ExpressionAt(ts, i + 3) else ExpressionResult(None, []);
      StatementAt(ts, i, parsesValues) ==
      Parsed(LetStatement(At(ts, i), Identifier(At(ts, i + 1), At(ts, i + 1).literal), value.expression), i + 4, value.errors)
  {
    assert SkipToSemicolon(ts, i + 3) == Some(i + 4);
  }

  /** `return <token> ;` parses as a return statement ending on its semicolon. */
  lemma ReturnParses(ts: seq<Token>, i: nat, parsesValues: bool)
    requires At(ts, i).kind == RET && At(ts, i + 1).kind != SEMICOLON && At(ts, i + 2).kind == SEMICOLON
    ensures var value := if parsesValues then ExpressionAt(ts, i + 1) else ExpressionResult(None, []);
      StatementAt(ts, i, parsesValues) == Parsed(ReturnStatement(At(ts, i), value.expression), i + 2, value.errors)
  {
    assert SkipToSemicolon(ts, i + 1) == Some(i + 2);
  }

  /** One turn of the program loop: the statement, then the rest of the program after the next token. */
  lemma ProgramStep(ts: seq<Token>, i: nat, parsesValues: bool, s: Statement, j: nat, e: seq<ParseError>,
                    rest: seq<Statement>, k: nat, e': seq<ParseError>)
    requires At(ts, i).kind != EOF && StatementAt(ts, i, parsesValues) == Parsed(s, j, e)
    requires ProgramFrom(ts, j + 1, parsesValues) == Parsed(rest, k, e')
    ensures ProgramFrom(ts, i, parsesValues) == Parsed([s] + rest, k, e + e')
  {
  }

  /** The program diverges when the statement at `i` does, or when the rest after it does. */
  lemma ProgramStepDiverges(ts: seq<Token>, i: nat, parsesValues: bool)
    requires At(ts, i).kind != EOF
    ensures var s := StatementAt(ts, i, parsesValues);
      s.Diverges? || (s.Parsed? && ProgramFrom(ts, s.pos + 1, parsesValues).Diverges?) ==> ProgramFrom(ts, i, parsesValues).Diverges?
  {
  }

  /** Integer tokens spelled as `%d` prints an int64 convert back to that int64 without an error. */
  lemma IntegerLiteralRoundTrip(n: Int64)
    ensures IntegerLiteralOf(Token(INT, FormatInt(n))) == (IntegerLiteral(Token(INT, FormatInt(n)), n), [])
  {
    FormatParseRoundTrip(n);
  }

  // ---------------------------------------------------------------------------
  // The parser fed by the lexer

  /** The stream a lexer over `input` hands out, with EOF forever after it. */
  function LexerTokens(input: seq<Lexer.byte>): (ts: seq<Token>)
    ensures |ts| == |input|
    ensures forall k: nat :: At(ts, k) == Lexer.TokenAt(input, k)
  {
    seq(|input|, k requires 0 <= k < |input| => Lexer.TokenAt(input, k))
  }

  /** No token of the stream starts a let, a return or an expression. */
  ghost predicate NoStatementStarts(ts: seq<Token>) {
    forall k: nat :: At(ts, k).kind !in {LET, RET, IDENT, INT}
  }

  /** On such a stream every statement is an empty expression statement. */
  lemma EmptyStatementAt(ts: seq<Token>, i: nat, parsesValues: bool)
    requires NoStatementStarts(ts)
    ensures var r := StatementAt(ts, i, parsesValues);
      r.Parsed? && r.errors == [] && r.value.ExpressionStatement? && r.value.expression.None? && r.pos >= i
  {
    assert At(ts, i).kind !in {LET, RET, IDENT, INT};
  }

  /** Such a stream parses, without errors, to empty expression statements only. */
  lemma {:induction false} EmptyStatementsFrom(ts: seq<Token>, i: nat, parsesValues: bool)
    requires NoStatementStarts(ts)
    ensures var r := ProgramFrom(ts, i, parsesValues);
      r.Parsed? && r.errors == [] &&
      forall k :: 0 <= k < |r.value| ==> r.value[k].ExpressionStatement? && r.value[k].expression.None?
    decreases |ts| - i
  {
    if At(ts, i).kind != EOF {
      EmptyStatementAt(ts, i, parsesValues);
      EmptyStatementsFrom(ts, StatementAt(ts, i, parsesValues).pos + 1, parsesValues);
    }
  }

  /** The lexer never produces a keyword, identifier or integer, so a program read from it is only empty expression statements, without errors. */
  lemma LexedProgram(input: seq<Lexer.byte>, parsesValues: bool)
    ensures var r := ProgramOf(LexerTokens(input), parsesValues);
      r.Parsed? && r.errors == [] &&
      forall k :: 0 <= k < |r.value| ==> r.value[k].ExpressionStatement? && r.value[k].expression.None?
  {
    var ts := LexerTokens(input);
    forall k: nat ensures At(ts, k).kind !in {LET, RET, IDENT, INT} {
      assert At(ts, k) == Lexer.TokenFor(Lexer.ByteAt(input, k));
    }
    EmptyStatementsFrom(ts, 0, parsesValues);
  }
}
