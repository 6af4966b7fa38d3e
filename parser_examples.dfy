/**
 * The parser's own test programs, written as the token streams a complete
 * lexer would produce for them, and what the parser specification yields
 * for each.
 */
module ParserExamples {
  import opened Wrappers
  import opened Int64
  import opened Strconv
  import opened Token
  import opened Ast
  import opened ParserSpec
  import Parser

  // ---------------------------------------------------------------------------
  // Statement shapes of the test programs

  /** `let <name> = <integer literal> ;` with a literal that converts. */
  lemma LetWithInteger(ts: seq<Token>, i: nat, parsesValues: bool, name: string, lit: string, n: Int64)
    requires At(ts, i) == Token(LET, "let") && At(ts, i + 1) == Token(IDENT, name) && At(ts, i + 2).kind == ASSIGN
    requires At(ts, i + 3) == Token(INT, lit) && At(ts, i + 4).kind == SEMICOLON
    requires ParseInt(lit) == ParseResult(n, NoError)
    ensures StatementAt(ts, i, parsesValues) ==
            Parsed(LetStatement(Token(LET, "let"), Identifier(Token(IDENT, name), name),
                                if parsesValues then Some(IntegerLiteral(Token(INT, lit), n)) else None), i + 4, [])
  {
    LetParses(ts, i, parsesValues);
  }

  /** `return <token> ;` where the token is an identifier or an integer literal that converts. */
  lemma ReturnWithValue(ts: seq<Token>, i: nat, value: Expression)
    requires At(ts, i) == Token(RET, "return") && At(ts, i + 2).kind == SEMICOLON
    requires At(ts, i + 1).kind == IDENT ==> value == Ident(Identifier(At(ts, i + 1), At(ts, i + 1).literal))
    requires At(ts, i + 1).kind == INT ==>
               ParseInt(At(ts, i + 1).literal).err == NoError &&
               value == IntegerLiteral(At(ts, i + 1), ParseInt(At(ts, i + 1).literal).value)
    requires At(ts, i + 1).kind == IDENT || At(ts, i + 1).kind == INT
    ensures StatementAt(ts, i, true) == Parsed(ReturnStatement(Token(RET, "return"), Some(value)), i + 2, [])
  {
    ReturnParses(ts, i, true);
  }

  /** `<token> ;` where the token is an identifier or an integer literal that converts. */
  lemma ExpressionWithValue(ts: seq<Token>, i: nat, parsesValues: bool, value: Expression)
    requires At(ts, i + 1).kind == SEMICOLON
    requires At(ts, i).kind == IDENT ==> value == Ident(Identifier(At(ts, i), At(ts, i).literal))
    requires At(ts, i).kind == INT ==>
               ParseInt(At(ts, i).literal).err == NoError && value == IntegerLiteral(At(ts, i), ParseInt(At(ts, i).literal).value)
    requires At(ts, i).kind == IDENT || At(ts, i).kind == INT
    ensures StatementAt(ts, i, parsesValues) == Parsed(ExpressionStatement(At(ts, i), Some(value)), i + 1, [])
  {
  }

  // ---------------------------------------------------------------------------
  // The integer literals of the test programs

  lemma ParsesFive() ensures ParseInt("5") == ParseResult(5, NoError) { FormatParseRoundTrip(5); assert FormatInt(5) == "5"; }
  lemma ParsesTen() ensures ParseInt("10") == ParseResult(10, NoError) { FormatParseRoundTrip(10); assert FormatInt(10) == "10"; }
  lemma ParsesZero() ensures ParseInt("0") == ParseResult(0, NoError) { FormatParseRoundTrip(0); assert FormatInt(0) == "0"; }
  lemma ParsesFooValue()
    ensures ParseInt("8183910") == ParseResult(8183910, NoError)
  {
    assert Digits(81) == Digits(8) + ['1'] == "81";
    assert Digits(818) == Digits(81) + ['8'] == "818";
    assert Digits(8183) == Digits(818) + ['3'] == "8183";
    assert Digits(81839) == Digits(8183) + ['9'] == "81839";
    assert Digits(818391) == Digits(81839) + ['1'] == "818391";
    assert Digits(8183910) == Digits(818391) + ['0'] == "8183910";
    FormatParseRoundTrip(8183910);
  }

  // ---------------------------------------------------------------------------
  // `let x = 5; let y = 10; let foo = 8183910;`

  const LetX: Statement := LetStatement(Token(LET, "let"), Identifier(Token(IDENT, "x"), "x"), Some(IntegerLiteral(Token(INT, "5"), 5)))
  const LetY: Statement := LetStatement(Token(LET, "let"), Identifier(Token(IDENT, "y"), "y"), Some(IntegerLiteral(Token(INT, "10"), 10)))
  const LetFoo: Statement :=
    LetStatement(Token(LET, "let"), Identifier(Token(IDENT, "foo"), "foo"), Some(IntegerLiteral(Token(INT, "8183910"), 8183910)))

  /** The let statements as the value-skipping edition produces them. */
  const BareX: Statement := LetStatement(Token(LET, "let"), Identifier(Token(IDENT, "x"), "x"), None)
  const BareY: Statement := LetStatement(Token(LET, "let"), Identifier(Token(IDENT, "y"), "y"), None)
  const BareFoo: Statement := LetStatement(Token(LET, "let"), Identifier(Token(IDENT, "foo"), "foo"), None)

  const LetTokens: seq<Token> :=
    [Token(LET, "let"), Token(IDENT, "x"), Token(ASSIGN, "="), Token(INT, "5"), Token(SEMICOLON, ";"),
     Token(LET, "let"), Token(IDENT, "y"), Token(ASSIGN, "="), Token(INT, "10"), Token(SEMICOLON, ";"),
     Token(LET, "let"), Token(IDENT, "foo"), Token(ASSIGN, "="), Token(INT, "8183910"), Token(SEMICOLON, ";")]

  lemma LetXTokens()
    ensures At(LetTokens, 0) == Token(LET, "let") && At(LetTokens, 1) == Token(IDENT, "x") && At(LetTokens, 2).kind == ASSIGN
    ensures At(LetTokens, 3) == Token(INT, "5") && At(LetTokens, 4).kind == SEMICOLON
  {
  }

  lemma LetYTokens()
    ensures At(LetTokens, 5) == Token(LET, "let") && At(LetTokens, 6) == Token(IDENT, "y") && At(LetTokens, 7).kind == ASSIGN
    ensures At(LetTokens, 8) == Token(INT, "10") && At(LetTokens, 9).kind == SEMICOLON
  {
  }

  lemma LetFooTokens()
    ensures At(LetTokens, 10) == Token(LET, "let") && At(LetTokens, 11) == Token(IDENT, "foo") && At(LetTokens, 12).kind == ASSIGN
    ensures At(LetTokens, 13) == Token(INT, "8183910") && At(LetTokens, 14).kind == SEMICOLON
  {
  }

  lemma LetXParses(parsesValues: bool)
    ensures StatementAt(LetTokens, 0, parsesValues) == Parsed(if parsesValues then LetX else BareX, 4, [])
  {
    LetXTokens();
    ParsesFive();
    LetWithInteger(LetTokens, 0, parsesValues, "x", "5", 5);
  }

  lemma LetYParses(parsesValues: bool)
    ensures StatementAt(LetTokens, 5, parsesValues) == Parsed(if parsesValues then LetY else BareY, 9, [])
  {
    LetYTokens();
    ParsesTen();
    LetWithInteger(LetTokens, 5, parsesValues, "y", "10", 10);
  }

  lemma LetFooParses(parsesValues: bool)
    ensures StatementAt(LetTokens, 10, parsesValues) == Parsed(if parsesValues then LetFoo else BareFoo, 14, [])
  {
    LetFooTokens();
    ParsesFooValue();
    LetWithInteger(LetTokens, 10, parsesValues, "foo", "8183910", 8183910);
  }

  /** The let test: three let statements named x, y and foo whose literal is "let", each with its value, and no errors. */
  lemma LetStatementsExample()
    ensures ProgramOf(LetTokens, true) == Parsed([LetX, LetY, LetFoo], 15, [])
    ensures StmtTokenLiteral(LetX) == StmtTokenLiteral(LetY) == StmtTokenLiteral(LetFoo) == "let"
  {
    LetXTokens();
    LetYTokens();
    LetFooTokens();
    LetXParses(true);
    LetYParses(true);
    LetFooParses(true);
    ThreeStatements(LetTokens, true, LetX, 4, LetY, 9, LetFoo, 14);
  }

  /** The same stream through the value-skipping edition: the same statements without their values. */
  lemma LetStatementsWithoutValues()
    ensures ProgramOf(LetTokens, false) == Parsed([BareX, BareY, BareFoo], 15, [])
  {
    LetXTokens();
    LetYTokens();
    LetFooTokens();
    LetXParses(false);
    LetYParses(false);
    LetFooParses(false);
    ThreeStatements(LetTokens, false, BareX, 4, BareY, 9, BareFoo, 14);
  }

  /** At the end of a stream the program loop stops at once. */
  lemma EmptyTail(ts: seq<Token>, parsesValues: bool)
    ensures ProgramFrom(ts, |ts|, parsesValues) == Parsed([], |ts|, [])
  {
  }

  /** One error-free statement ahead of an error-free rest. */
  lemma StatementThen(ts: seq<Token>, i: nat, parsesValues: bool, s: Statement, j: nat, rest: seq<Statement>, k: nat)
    requires At(ts, i).kind != EOF && StatementAt(ts, i, parsesValues) == Parsed(s, j, [])
    requires ProgramFrom(ts, j + 1, parsesValues) == Parsed(rest, k, [])
    ensures ProgramFrom(ts, i, parsesValues) == Parsed([s] + rest, k, [])
  {
    ProgramStep(ts, i, parsesValues, s, j, [], rest, k, []);
  }

  /** An error-free statement that ends right before the end of the stream is the whole rest of the program. */
  lemma LastStatement(ts: seq<Token>, i: nat, parsesValues: bool, s: Statement, j: nat)
    requires At(ts, i).kind != EOF && StatementAt(ts, i, parsesValues) == Parsed(s, j, []) && j + 1 == |ts|
    ensures ProgramFrom(ts, i, parsesValues) == Parsed([s], |ts|, [])
  {
    EmptyTail(ts, parsesValues);
    StatementThen(ts, i, parsesValues, s, j, [], |ts|);
    assert [s] + [] == [s];
  }

  /** Two error-free statements from `i` that end right before the end of the stream. */
  lemma TwoStatements(ts: seq<Token>, i: nat, parsesValues: bool, s1: Statement, j1: nat, s2: Statement, j2: nat)
    requires At(ts, i).kind != EOF && StatementAt(ts, i, parsesValues) == Parsed(s1, j1, [])
    requires At(ts, j1 + 1).kind != EOF && StatementAt(ts, j1 + 1, parsesValues) == Parsed(s2, j2, []) && j2 + 1 == |ts|
    ensures ProgramFrom(ts, i, parsesValues) == Parsed([s1, s2], |ts|, [])
  {
    LastStatement(ts, j1 + 1, parsesValues, s2, j2);
    StatementThen(ts, i, parsesValues, s1, j1, [s2], |ts|);
    assert [s1] + [s2] == [s1, s2];
  }

  /** A stream of three error-free statements that ends right after the third one's last token. */
  lemma ThreeStatements(ts: seq<Token>, parsesValues: bool, s1: Statement, j1: nat, s2: Statement, j2: nat, s3: Statement, j3: nat)
    requires At(ts, 0).kind != EOF && StatementAt(ts, 0, parsesValues) == Parsed(s1, j1, [])
    requires At(ts, j1 + 1).kind != EOF && StatementAt(ts, j1 + 1, parsesValues) == Parsed(s2, j2, [])
    requires At(ts, j2 + 1).kind != EOF && StatementAt(ts, j2 + 1, parsesValues) == Parsed(s3, j3, [])
    requires j3 + 1 == |ts|
    ensures ProgramOf(ts, parsesValues) == Parsed([s1, s2, s3], |ts|, [])
  {
    TwoStatements(ts, j1 + 1, parsesValues, s2, j2, s3, j3);
    StatementThen(ts, 0, parsesValues, s1, j1, [s2, s3], |ts|);
    assert [s1] + [s2, s3] == [s1, s2, s3];
  }

  // ---------------------------------------------------------------------------
  // `return 5; return variable; return 0;`

  const ReturnTokens: seq<Token> :=
    [Token(RET, "return"), Token(INT, "5"), Token(SEMICOLON, ";"),
     Token(RET, "return"), Token(IDENT, "variable"), Token(SEMICOLON, ";"),
     Token(RET, "return"), Token(INT, "0"), Token(SEMICOLON, ";")]

  const Return5: Statement := ReturnStatement(Token(RET, "return"), Some(IntegerLiteral(Token(INT, "5"), 5)))
  const ReturnVariable: Statement :=
    ReturnStatement(Token(RET, "return"), Some(Ident(Identifier(Token(IDENT, "variable"), "variable"))))
  const Return0: Statement := ReturnStatement(Token(RET, "return"), Some(IntegerLiteral(Token(INT, "0"), 0)))

  lemma ReturnTokensAt()
    ensures At(ReturnTokens, 0) == Token(RET, "return") && At(ReturnTokens, 1) == Token(INT, "5")
    ensures At(ReturnTokens, 2).kind == SEMICOLON
    ensures At(ReturnTokens, 3) == Token(RET, "return") && At(ReturnTokens, 4) == Token(IDENT, "variable")
    ensures At(ReturnTokens, 5).kind == SEMICOLON
    ensures At(ReturnTokens, 6) == Token(RET, "return") && At(ReturnTokens, 7) == Token(INT, "0")
    ensures At(ReturnTokens, 8).kind == SEMICOLON
  {
  }

  lemma Return5Parses()
    ensures StatementAt(ReturnTokens, 0, true) == Parsed(Return5, 2, [])
  {
    ReturnTokensAt();
    ParsesFive();
    ReturnWithValue(ReturnTokens, 0, IntegerLiteral(Token(INT, "5"), 5));
  }

  lemma ReturnVariableParses()
    ensures StatementAt(ReturnTokens, 3, true) == Parsed(ReturnVariable, 5, [])
  {
    ReturnTokensAt();
    ReturnWithValue(ReturnTokens, 3, Ident(Identifier(Token(IDENT, "variable"), "variable")));
  }

  lemma Return0Parses()
    ensures StatementAt(ReturnTokens, 6, true) == Parsed(Return0, 8, [])
  {
    ReturnTokensAt();
    ParsesZero();
    ReturnWithValue(ReturnTokens, 6, IntegerLiteral(Token(INT, "0"), 0));
  }

  /** The return test: three return statements whose literal is "return", and no errors. */
  lemma ReturnStatementsExample()
    ensures ProgramOf(ReturnTokens, true) == Parsed([Return5, ReturnVariable, Return0], 9, [])
    ensures StmtTokenLiteral(Return5) == StmtTokenLiteral(ReturnVariable) == StmtTokenLiteral(Return0) == "return"
  {
    ReturnTokensAt();
    Return5Parses();
    ReturnVariableParses();
    Return0Parses();
    ThreeStatements(ReturnTokens, true, Return5, 2, ReturnVariable, 5, Return0, 8);
  }

  // ---------------------------------------------------------------------------
  // `foobar;` and `5; foobar; x;`

  const Foobar: Expression := Ident(Identifier(Token(IDENT, "foobar"), "foobar"))
  const FoobarStatement: Statement := ExpressionStatement(Token(IDENT, "foobar"), Some(Foobar))
  const FoobarTokens: seq<Token> := [Token(IDENT, "foobar"), Token(SEMICOLON, ";")]

  /** The identifier test: one expression statement holding the identifier foobar, whose value and literal agree. */
  lemma IdentifierExample()
    ensures ProgramOf(FoobarTokens, true) == Parsed([FoobarStatement], 2, [])
    ensures Foobar.id.value == ExprTokenLiteral(Foobar) == "foobar"
  {
    assert At(FoobarTokens, 0) == Token(IDENT, "foobar") && At(FoobarTokens, 1).kind == SEMICOLON;
    ExpressionWithValue(FoobarTokens, 0, true, Foobar);
    EmptyTail(FoobarTokens, true);
    ProgramStep(FoobarTokens, 0, true, FoobarStatement, 1, [], [], 2, []);
    assert [FoobarStatement] + [] == [FoobarStatement];
  }

  const IntegerTokens: seq<Token> :=
    [Token(INT, "5"), Token(SEMICOLON, ";"), Token(IDENT, "foobar"), Token(SEMICOLON, ";"), Token(IDENT, "x"), Token(SEMICOLON, ";")]

  const Five: Statement := ExpressionStatement(Token(INT, "5"), Some(IntegerLiteral(Token(INT, "5"), 5)))
  const XStatement: Statement := ExpressionStatement(Token(IDENT, "x"), Some(Ident(Identifier(Token(IDENT, "x"), "x"))))

  lemma IntegerTokensAt()
    ensures At(IntegerTokens, 0) == Token(INT, "5") && At(IntegerTokens, 1).kind == SEMICOLON
    ensures At(IntegerTokens, 2) == Token(IDENT, "foobar") && At(IntegerTokens, 3).kind == SEMICOLON
    ensures At(IntegerTokens, 4) == Token(IDENT, "x") && At(IntegerTokens, 5).kind == SEMICOLON
  {
  }

  lemma FiveParses()
    ensures StatementAt(IntegerTokens, 0, true) == Parsed(Five, 1, [])
  {
    IntegerTokensAt();
    ParsesFive();
    ExpressionWithValue(IntegerTokens, 0, true, IntegerLiteral(Token(INT, "5"), 5));
  }

  lemma FoobarParses()
    ensures StatementAt(IntegerTokens, 2, true) == Parsed(FoobarStatement, 3, [])
    ensures StatementAt(IntegerTokens, 4, true) == Parsed(XStatement, 5, [])
  {
    IntegerTokensAt();
    ExpressionWithValue(IntegerTokens, 2, true, Foobar);
    ExpressionWithValue(IntegerTokens, 4, true, Ident(Identifier(Token(IDENT, "x"), "x")));
  }

  /** The integer test: three expression statements, the first the integer 5 with literal "5", and no errors. */
  lemma IntegerLiteralExample()
    ensures ProgramOf(IntegerTokens, true) == Parsed([Five, FoobarStatement, XStatement], 6, [])
  {
    IntegerTokensAt();
    FiveParses();
    FoobarParses();
    ThreeStatements(IntegerTokens, true, Five, 1, FoobarStatement, 3, XStatement, 5);
  }

  // ---------------------------------------------------------------------------
  // Failures

  const FailedLetTokens: seq<Token> := [Token(LET, "let"), Token(IDENT, "x"), Token(INT, "5"), Token(SEMICOLON, ";")]

  lemma FailedLetStatement(parsesValues: bool)
    ensures StatementAt(FailedLetTokens, 0, parsesValues) == Parsed(NilLetStatement, 1, [PeekError(ASSIGN, INT)])
    ensures StatementAt(FailedLetTokens, 2, parsesValues) == Parsed(Five, 3, [])
  {
    assert At(FailedLetTokens, 0).kind == LET && At(FailedLetTokens, 1).kind == IDENT;
    assert At(FailedLetTokens, 2) == Token(INT, "5") && At(FailedLetTokens, 3).kind == SEMICOLON;
    ParsesFive();
    ExpressionWithValue(FailedLetTokens, 2, parsesValues, IntegerLiteral(Token(INT, "5"), 5));
  }

  /** A let whose `=` is missing records one peek error and still contributes a (typed-nil) statement. */
  lemma FailedLetExample(parsesValues: bool)
    ensures ProgramOf(FailedLetTokens, parsesValues) == Parsed([NilLetStatement, Five], 4, [PeekError(ASSIGN, INT)])
  {
    FailedLetStatement(parsesValues);
    EmptyTail(FailedLetTokens, parsesValues);
    ProgramStep(FailedLetTokens, 2, parsesValues, Five, 3, [], [], 4, []);
    assert [Five] + [] == [Five];
    ProgramStep(FailedLetTokens, 0, parsesValues, NilLetStatement, 1, [PeekError(ASSIGN, INT)], [Five], 4, []);
    assert [NilLetStatement] + [Five] == [NilLetStatement, Five];
    assert [PeekError(ASSIGN, INT)] + [] == [PeekError(ASSIGN, INT)];
  }

  /** Without a semicolon after it, a complete let or return statement never finishes parsing. */
  lemma MissingSemicolonDiverges(parsesValues: bool)
    ensures ProgramOf([Token(LET, "let"), Token(IDENT, "x"), Token(ASSIGN, "="), Token(INT, "5")], parsesValues).Diverges?
    ensures ProgramOf([Token(RET, "return"), Token(INT, "5")], parsesValues).Diverges?
  {
    var ts := [Token(LET, "let"), Token(IDENT, "x"), Token(ASSIGN, "="), Token(INT, "5")];
    assert SkipToSemicolon(ts, 3).None?;
    var us := [Token(RET, "return"), Token(INT, "5")];
    assert SkipToSemicolon(us, 1).None?;
  }

  /** The peek error text. */
  lemma PeekErrorMessage()
    ensures Message(PeekError(ASSIGN, INT)) == "Expected token to be =, got INT instead"
  {
  }

  /** The integer error text quotes both fields of the token. */
  lemma IntegerErrorMessage()
    ensures Message(IntegerError(Token(INT, "12a"))) == "Cannot parse {" + "\"INT\"" + " " + "\"12a\"" + "} as integer"
  {
    IntegerErrorText(Token(INT, "12a"));
    assert "\"" + Name(INT) + "\"" == "\"INT\"";
    assert "\"" + "12a" + "\"" == "\"12a\"";
  }

  /** An integer literal that does not convert still yields a node, with value 0 and one error naming the token. */
  lemma BadIntegerExample()
    ensures IntegerLiteralOf(Token(INT, "12a")) == (IntegerLiteral(Token(INT, "12a"), 0), [IntegerError(Token(INT, "12a"))])
  {
    BadLiteral();
  }

  /** A parser object over the let test: its methods' contracts alone give the three statements, no errors, and the final EOF position. */
  method ParseLetTest() returns (program: Program, messages: seq<string>)
    ensures program.statements == [LetX, LetY, LetFoo] && messages == []
  {
    var p := new Parser.Parser.New(LetTokens);
    LetStatementsExample();
    program := p.ParseProgram(true);
    messages := p.Errors();
  }
}
