# nexus-lang interpreter core in Dafny

A model of the interpreter pipeline of nexus-lang, a small Go interpreter. The
pipeline has five stages, plus the two Go library behaviours it depends on.

- **Lexer** (`Lexer`): a byte cursor. Each `NextToken` call consumes exactly one byte. The call recognises the eight punctuation bytes `= ; ( ) , { } +` and end of input, and yields Go's zero `Token{}` (kind `UNSET` here) for every other byte.
- **Token table** (`Token`): the token kinds, their string constants and the keyword lookup `LookupIdent`.
- **AST** (`Ast`): the node types with `TokenLiteral` and `AsString`.
- **Parser**:
  - `ParserSpec` states, as functions of a token sequence, what the parser computes.
  - `Parser` is the stateful parser object: a `currToken`/`peekToken` window and an error list. Each of its methods is proved against the function of `ParserSpec` for it.
  - Both editions of the statement parsers are modelled:
    - `parser/statements.go` with `parser/programs.go` parses the value after `=` or `return`;
    - `parser/parser.go` skips that value.

    A flag selects the edition.
- **Object model and evaluator** (`Object`, `Evaluator`): a tree-walking evaluator over `Integer | Boolean | Null | ReturnValue`, where Go's nil is `None`.
  - A Go run-time panic is the outcome `Panicked`: division by zero, or a method call on a nil object.
- **Go library behaviours**:
  - Go's `int64` arithmetic (`Int64`): two's-complement wrap-around, and truncating division with `MinInt64 / -1 == MinInt64`.
  - `strconv.ParseInt(s, 0, 64)`, `%d` and `%q`, which the parser and `Inspect` call (`Strconv`).

This is how the model represents some Go behaviours:

- **Typed-nil let statement.** The Go let parsers return a nil `*ast.LetStatement` when the identifier or `=` is missing. That value is a non-nil `ast.Statement`, so `ParseProgram` appends it. The model appends it too, as the statement `NilLetStatement`.
  - Rendering a program requires that no such statement occurs, because Go panics on it.
  - Evaluating it gives nil.
- **Skip-to-semicolon loops.** The `for !currTokenIs(SEMICOLON)` loops never end when no semicolon is left. The specification functions give the outcome `Diverges` there. The methods require the specification outcome to be `Parsed`. `EndsWithSemicolonParses` gives a simple sufficient condition.

## Model

| member | source | states |
|---|---|---|
| Int64.Wrap | evaluator/evaluator.go:139-144 | the int64 value is congruent to the exact value modulo 2^64, and equal to it when that is in range |
| Int64.TruncDiv | evaluator/evaluator.go:145-146 | Go's `/` rounds toward zero: the remainder is smaller than the divisor and takes the dividend's sign, and the quotient's magnitude is the quotient of the magnitudes |
| Int64.QuoOverflow | evaluator/evaluator.go:145-146 | `MinInt64 / -1` and `-MinInt64` both wrap to `MinInt64` |
| Int64.QuoExact | evaluator/evaluator.go:145-146 | every other int64 quotient is the exact truncated quotient |
| Int64.WrapAdd | evaluator/evaluator.go:139-140 | wrapped `+` is addition modulo 2^64 |
| Int64.WrapSub | evaluator/evaluator.go:141-142 | wrapped `-` is subtraction modulo 2^64 |
| Int64.WrapMul | evaluator/evaluator.go:143-144 | wrapped `*` is multiplication modulo 2^64 |
| Int64.WrapNeg | evaluator/evaluator.go:117 | wrapped unary `-` is negation modulo 2^64 |
| Int64.NegInvolutive | evaluator/evaluator.go:117 | negating twice gives the value back, the most negative value included |
| Strconv.Digits | object/object.go:25-27 | `%d` digits are non-empty decimal digits without a leading zero |
| Strconv.FormatInt | object/object.go:25-27 | `%d` text is non-empty and starts with `-` exactly for negative values |
| Strconv.DigitsValue | object/object.go:25-27 | the digits of n read back as n |
| Strconv.ParseUint | parser/literals.go:13 | the unsigned scan is bounded by 2^64-1; a syntax error gives 0 and a range error the maximum |
| Strconv.ParseInt | parser/literals.go:13 | a syntax error gives 0; a range error gives MaxInt64 or MinInt64 according to the sign |
| Strconv.FormatParseRoundTrip | parser/literals.go:13 | every int64 printed with `%d` parses back to itself without error |
| Strconv.ScanDecimal | parser/literals.go:13 | scanning decimal digits after a prefix accumulates the decimal value of the whole |
| Strconv.SmallLiterals | parser/literals.go:13 | "0", "5", "10" and "-5" convert exactly |
| Strconv.BadLiteral | parser/literals.go:13-17 | "12a" is a syntax error with value 0 |
| Strconv.PrefixedLiterals | parser/literals.go:13 | base 0 reads "0x1f" as 31, "017" as 15 and "0b101" as 5 |
| Strconv.BadOctalLiteral | parser/literals.go:13 | "08" is a syntax error |
| Strconv.UnderscoreLiterals | parser/literals.go:13 | "1_000" is 1000 and "1__0" is a syntax error |
| Strconv.RangeLimits | parser/literals.go:13 | the int64 limits convert exactly, and one past them is a range error clamped to the limit |
| Strconv.QuotePlain | parser/literals.go:15 | `%q` of printable ASCII text without quotes or backslashes is that text in double quotes |
| Token.NameInjective | token/token.go:10-49 | the constants' strings are pairwise distinct: equal strings mean equal kinds |
| Token.LookupIdent | token/token.go:62-67 | the result is IDENT exactly for words outside the keyword table, and a keyword kind otherwise |
| Token.LookupIdentKeywords | token/token.go:51-67 | lookup and keyword spelling are inverse in both directions |
| Token.LookupIdentCaseSensitive | token/token.go:51-67 | the lookup is exact and case-sensitive |
| Lexer.NewToken | lexer/lexer.go:28-30 | the token has the given kind and the byte as its one-character literal |
| Lexer.TokenFor | lexer/lexer.go:32-55 | EOF exactly for byte 0; the zero token exactly for unrecognised bytes; punctuation carries its byte, spelled as its kind's string; never ILLEGAL, IDENT, INT or a keyword |
| Lexer.Lexer.New | lexer/lexer.go:12-16 | the cursor is on the first byte (0 for empty input) |
| Lexer.Lexer.ReadChar | lexer/lexer.go:18-26 | loads the byte at `readPos` (0 past the end) and advances both indices by one |
| Lexer.Lexer.NextToken | lexer/lexer.go:32-58 | returns the token for the current byte and advances exactly one byte |
| Lexer.PunctuationTokens | lexer/lexer.go:35-51 | each punctuation byte maps to its kind and literal |
| Lexer.UnrecognisedBytes | lexer/lexer.go:33-55 | any other non-zero byte gives the zero token |
| Lexer.EndOfInput | lexer/lexer.go:19-20 | past the end, and at a NUL byte, the token is EOF with an empty literal |
| Lexer.PunctuationStream | lexer/lexer_test.go:9-36 | the lexer test input yields its eight tokens and then EOF |
| Lexer.LexPunctuation | lexer/lexer.go:12-58 | a lexer object driven through its methods hands out the expected tokens, EOF repeating |
| Ast.ProgramTokenLiteral | ast/ast.go:36-42 | an empty program's literal is the empty string (the non-empty case is `Ast.ProgramTokenLiteralAppend`) |
| Ast.ExprStrings | ast/ast.go:272-283 | one rendered string per argument |
| Ast.IdentifierStrings | ast/ast.go:250-262 | parameters render as their names, in order |
| Ast.JoinAppend | ast/ast.go:258 | `strings.Join` of a list with one more item adds the separator and that item |
| Ast.StmtsRenderableAppend | ast/ast.go:28-34 | a statement list renders exactly when both halves do |
| Ast.ProgramStringAppend | ast/ast.go:28-34 | a program's text is the concatenation of its parts' texts |
| Ast.ProgramStringIsJoin | ast/ast.go:28-34 | a program's text is its statements' texts joined with no separator |
| Ast.StmtStrings | ast/ast.go:28-34 | one text per statement |
| Ast.ProgramTokenLiteralAppend | ast/ast.go:36-42 | a non-empty program's literal is its first statement's token literal, whatever follows; one with no statements in front has the literal of the rest |
| Ast.ConstRendersLikeLet | ast/ast.go:89-121 | a const statement renders like the let statement with the same parts, and a return as `return <value>;` |
| Ast.LetStatementExample | ast/ast_test.go:8-27 | the AST test program renders as `let foo = bar;` |
| Ast.SingleStatementBlock | ast/ast.go:234-240 | a one-statement block renders as that statement |
| Ast.IfExpressionExamples | ast/ast.go:214-225 | `if` renders condition, space, consequence and, when present, `else` and the alternative |
| Ast.FunctionLiteralExample | ast/ast.go:250-262 | a function literal renders as `fn(x, y) <body>` |
| Ast.CallExpressionExample | ast/ast.go:272-283 | a call renders as `add(x, (x + y))` |
| Ast.ParenFreeBalanced | ast/ast.go:162-194 | text without parentheses is balanced |
| Ast.BalancedAppend | ast/ast.go:162-194 | concatenating balanced texts keeps them balanced |
| Ast.BalancedWrap | ast/ast.go:162-194 | wrapping balanced text in parentheses gives a single outer group |
| Ast.PrefixWrapped | ast/ast.go:162-171 | a prefix expression renders as one parenthesised group |
| Ast.InfixWrapped | ast/ast.go:184-194 | an infix expression renders as one parenthesised group |
| Ast.OperatorTreeParenthesised | ast/ast.go:148-194 | any tree of operators over literals and identifiers renders balanced, every operator node as one fully parenthesised group |
| ParserSpec.At | parser/parser.go:55-59 | the token source hands out EOF once exhausted |
| ParserSpec.IdentifierOf | parser/identifiers.go:5-7 | the identifier node keeps the token and takes its literal as value |
| ParserSpec.IntegerLiteralShape | parser/literals.go:10-21 | the node keeps the token and the converted value; exactly one error is recorded exactly when `strconv.ParseInt` reports one |
| ParserSpec.IntegerErrorText | parser/literals.go:15 | the integer error text shows the token's kind string and literal, each in double quotes |
| ParserSpec.ExpressionShape | parser/expressions.go:8-16 | a node exactly for kinds with a prefix rule (IDENT, INT), nil without error otherwise, at most one error |
| ParserSpec.PrefixNodesRender | parser/parser.go:51-53 | both prefix rules build a node that renders as its token's literal |
| ParserSpec.SkipToSemicolon | parser/statements.go:51-53 | the skip loop stops on a semicolon at or after its start |
| ParserSpec.SkipToSemicolonFirst | parser/statements.go:51-53 | it stops on the first semicolon, and never stops when none is left |
| ParserSpec.LetStatementShape | parser/statements.go:24-57 | a missing identifier or `=` gives the typed-nil statement with exactly one peek error and the right position; otherwise the let statement with its token and name, the expression after `=` and its errors as value (no value and no errors when values are skipped), ending on the first semicolon after the `=`; divergence exactly when a well-formed head has no semicolon after it |
| ParserSpec.ReturnStatementShape | parser/statements.go:61-71 | a return statement with its token, the expression after `return` and its errors as value (no value and no errors when values are skipped), ending on the first semicolon after `return`; divergence exactly when no semicolon follows |
| ParserSpec.ExpressionStatementShape | parser/statements.go:75-85 | an expression statement with the starting token and the prefix rule's node, consuming one following semicolon only |
| ParserSpec.StatementAt | parser/statements.go:11-20 | a statement parse never moves backwards |
| ParserSpec.ProgramFrom | parser/programs.go:8-20 | a parsed program ends on EOF; at EOF it is empty |
| ParserSpec.ResumesAfterStatement | parser/programs.go:12-17 | inside a program that parses, the statement at the current token parses, and after it the program is still the statements so far plus the rest |
| ParserSpec.ProgramStepDiverges | parser/programs.go:12-17 | the program diverges when its first statement does, or when the program after that statement does |
| ParserSpec.ResumesAtEnd | parser/programs.go:12-19 | at EOF the statements so far are the whole program |
| ParserSpec.EndsWithSemicolonParses | parser/statements.go:51-53 | a stream whose last token is a semicolon always parses |
| ParserSpec.StatementBeforeSemicolonParses | parser/statements.go:11-71 | with a semicolon as the last token, every statement parses |
| ParserSpec.WithoutValues | parser/parser.go:86-116 | the skipping edition keeps each statement without its value |
| ParserSpec.PeekErrorsAppend | parser/parser.go:144-148 | the peek errors of two lists appended are the two lists' peek errors appended |
| ParserSpec.StatementEditionsAgree | parser/parser.go:75-158 | the two editions stop at the same token and agree on the statement up to its value and on the peek errors |
| ParserSpec.ProgramEditionsAgree | parser/parser.go:61-73 | the two `ParseProgram` editions both diverge or both parse, and then agree on the program up to values, its end, and its peek errors |
| ParserSpec.LetParses | parser/statements.go:24-57 | `let <ident> = <token> ;` parses as that let statement, ending on its semicolon |
| ParserSpec.ReturnParses | parser/statements.go:61-71 | `return <token> ;` parses as that return statement |
| ParserSpec.ProgramStep | parser/programs.go:12-17 | one turn of the program loop: the statement, then the program after it |
| ParserSpec.IntegerLiteralRoundTrip | parser/literals.go:10-21 | an INT token spelled as `%d` prints an int64 gives that int64 without error |
| ParserSpec.LexerTokens | lexer/lexer.go:32-58 | the stream a lexer hands out, token for token |
| ParserSpec.EmptyStatementsFrom | parser/statements.go:11-20 | with no token that starts a let, return or expression, only empty expression statements and no errors result |
| ParserSpec.LexedProgram | parser/programs.go:8-20 | fed by this lexer the parser yields only empty expression statements and no errors |
| Parser.Messages | parser/parser.go:144-148 | one message per error, in order |
| Parser.Parser.New | parser/parser.go:37-49 | the window holds the first two tokens, with no errors |
| Parser.Parser.NextToken | parser/parser.go:55-59 | the peek token becomes current and the next source token the peek token |
| Parser.Parser.CurrentTokenIs | parser/parser.go:118-120 | tests the kind of the current source token |
| Parser.Parser.PeekTokenIs | parser/parser.go:122-124 | tests the kind of the next source token |
| Parser.Parser.Errors | parser/parser.go:139-142 | the messages of the recorded errors, in order |
| Parser.Parser.PeekError | parser/parser.go:144-148 | appends one error naming the expected and the actual peek kind |
| Parser.Parser.ExpectPeek | parser/parser.go:126-137 | succeeds exactly when the peek kind matches; success advances once without errors, failure stays put with one peek error |
| Parser.Parser.ParseIdentifier | parser/identifiers.go:5-7 | the identifier node for the current token |
| Parser.Parser.ParseIntegerLiteral | parser/literals.go:10-21 | the integer node, with an error appended exactly when the conversion fails |
| Parser.Parser.ParseExpression | parser/expressions.go:8-16 | the prefix rule's result for the current kind |
| Parser.Parser.ParseExpressionStatement | parser/statements.go:75-85 | the expression statement and position of the specification |
| Parser.Parser.AdvanceToSemicolon | parser/statements.go:51-53 | moves the current token to the first semicolon |
| Parser.Parser.ParseLetStatement | parser/statements.go:24-57 | the let statement, end position and errors of the value-parsing specification |
| Parser.Parser.ParseLetStatementSkippingValue | parser/parser.go:86-116 | the let statement, end position and errors of the skipping specification |
| Parser.Parser.ParseReturnStatement | parser/statements.go:61-71 | the return statement, end position and errors of the value-parsing specification |
| Parser.Parser.ParseReturnStatementSkippingValue | parser/parser.go:150-158 | the return statement and end position of the skipping specification |
| Parser.Parser.ParseStatement | parser/statements.go:11-20 | dispatches by kind to the statement the specification gives |
| Parser.Parser.ParseProgramTurn | parser/programs.go:12-17 | one loop turn: appends one statement and its errors, moves forward, and keeps the program split into statements so far plus the rest |
| Parser.Parser.ParseProgram | parser/programs.go:8-20 | the statements, final EOF position and errors the specification gives |
| ParserExamples.LetStatementsExample | parser/parser_test.go:10-67 | the let test parses to the three let statements x, y and foo, with values and no errors, each with literal "let" |
| ParserExamples.LetStatementsWithoutValues | parser/parser.go:86-116 | the skipping edition gives the same statements without values |
| ParserExamples.ReturnStatementsExample | parser/parser_test.go:82-107 | the return test parses to three return statements, without errors, each with literal "return" |
| ParserExamples.IdentifierExample | parser/parser_test.go:109-136 | `foobar;` is one expression statement holding the identifier foobar |
| ParserExamples.IntegerLiteralExample | parser/parser_test.go:138-169 | `5; foobar; x;` is three expression statements, the first the integer 5 with literal "5" |
| ParserExamples.LastStatement | parser/programs.go:8-20 | an error-free statement ending right before the end of the stream is the whole rest of the program |
| ParserExamples.TwoStatements | parser/programs.go:8-20 | two error-free statements, the second ending right before the end of the stream, are the whole program |
| ParserExamples.FailedLetExample | parser/statements.go:42-44 | a let whose `=` is missing records one peek error and keeps a typed-nil statement |
| ParserExamples.MissingSemicolonDiverges | parser/statements.go:51-53 | a let or return with no semicolon after it never finishes |
| ParserExamples.PeekErrorMessage | parser/parser.go:144-148 | the peek error text |
| ParserExamples.IntegerErrorMessage | parser/literals.go:15 | the integer error text for the token `{INT 12a}` quotes both fields: `Cannot parse {"INT" "12a"} as integer` |
| ParserExamples.BadIntegerExample | parser/literals.go:10-21 | a bad literal still yields a node, with value 0 and one error |
| ParserExamples.ParseLetTest | parser/parser_test.go:10-26 | a parser object run over the let test yields the three statements and no error messages |
| Object.Type | object/object.go:29-61 | each variant's tag, and only that variant's |
| Object.TypeNamesDistinct | object/object.go:9-14 | the four tag strings are distinct |
| Object.Inspect | object/object.go:37-53 | NULL shows "null" and a boolean "true" or "false" |
| Object.InspectIntegerRoundTrip | object/object.go:25-27 | an integer's text reads back as the integer, with a leading `-` exactly for negative values |
| Object.InspectUnwraps | object/object.go:63-65 | a return signal shows as the innermost wrapped value |
| Object.Innermost | object/object.go:63-65 | the innermost wrapped value is not a return signal |
| Evaluator.NativeBooleanObject | evaluator/evaluator.go:81-86 | TRUE exactly for true, FALSE otherwise |
| Evaluator.IsTruthy | evaluator/evaluator.go:172-183 | falsy exactly for NULL and FALSE; nil and every integer, 0 included, are truthy |
| Evaluator.EvalNot | evaluator/evaluator.go:99-110 | TRUE to FALSE, FALSE and NULL to TRUE, everything else to FALSE |
| Evaluator.NotNegatesTruthiness | evaluator/evaluator.go:99-110 | `!` is the negation of truthiness |
| Evaluator.DoubleNot | evaluator/evaluator.go:99-110 | `!!x` is x's truthiness |
| Evaluator.EvalMinus | evaluator/evaluator.go:112-118 | panics exactly on nil; wraps the negation of an integer; NULL for every other object |
| Evaluator.MinusInvolutive | evaluator/evaluator.go:112-118 | `-` twice gives an integer back; MinInt64 negates to itself |
| Evaluator.EvalPrefix | evaluator/evaluator.go:88-97 | `!` and `-` dispatch; any other operator gives NULL |
| Evaluator.EvalIntInfix | evaluator/evaluator.go:133-159 | panics exactly on `/` by zero; never yields nil or a return signal |
| Evaluator.EvalInfix | evaluator/evaluator.go:120-131 | a nil dereference exactly when the left operand is nil, or an integer with a nil right operand |
| Evaluator.IntegerOperators | evaluator/evaluator.go:133-159 | on two integers: wrapped `+ - *`, truncating `/`, division by zero panics, singleton comparisons, NULL for other operators |
| Evaluator.ExactArithmetic | evaluator/evaluator.go:139-146 | without overflow the results are exact, and `/` rounds toward zero (7 / -2 and -7 / 2 are -3) |
| Evaluator.WrappingArithmetic | evaluator/evaluator.go:139-146 | MaxInt64 + 1 is MinInt64, and MinInt64 / -1 is MinInt64 |
| Evaluator.IdentityEquality | evaluator/evaluator.go:120-131 | otherwise `==` holds exactly for two TRUE, two FALSE or two NULL, `!=` is its negation, other operators give NULL |
| Evaluator.MixedOperandsUnequal | evaluator/evaluator.go:120-131 | an integer never equals a non-integer |
| Evaluator.NotEqualNegatesEqual | evaluator/evaluator.go:120-131 | `!=` panics when `==` does and otherwise gives the opposite singleton |
| Evaluator.Literals | evaluator/evaluator.go:20-23 | integer literals give their integer, boolean literals their singleton |
| Evaluator.UnhandledNodes | evaluator/evaluator.go:14-39 | identifiers, function literals, calls, let, const and typed-nil statements, a missing expression, an empty block and an empty program give nil; a bare return wraps nil |
| Evaluator.IfWithoutElse | evaluator/evaluator.go:161-170 | `if` without `else` on a falsy condition gives NULL |
| Evaluator.BlockAppend | evaluator/evaluator.go:67-79 | a block over two parts runs the second only when the first neither panics nor returns |
| Evaluator.BlockReturnsSignal | evaluator/evaluator.go:67-79 | a block yields a return signal only as the result of a statement, with no earlier statement returning or panicking |
| Evaluator.ProgramUnwrapsBlock | evaluator/evaluator.go:41-52 | the program loop is the block loop with the return signal unwrapped |
| Evaluator.ProgramIsUnwrappedBlock | evaluator/evaluator.go:41-79 | a program gives what its statements give as a block, unwrapped |
| Evaluator.ReturnStops | evaluator/evaluator.go:33-34 | after a return, no statement runs; a block keeps the signal and a program yields its value |
| Evaluator.ArithmeticWraps | evaluator/evaluator.go:20-30 | a tree of literals, unary `-` and `+ - *` never panics and evaluates to the exact value modulo 2^64 |
| Evaluator.ArithmeticExact | evaluator/evaluator.go:20-30 | when the exact value is in range the evaluator computes it exactly |
| Evaluator.OperatorExamples | evaluator/evaluator.go:88-159 | `!5` is FALSE, `!!true` TRUE, `-true` NULL, `5 / 0` panics, `-7 / 2` is -3 |
| Evaluator.EqualityExamples | evaluator/evaluator.go:120-131 | `true == true`, `1 == true`, `false != true`, and an identifier operand panics |
| Evaluator.IfExamples | evaluator/evaluator.go:161-170 | `if (false) { 10 }` is NULL and `if (0) { 10 } else { 20 }` is 10 |
| Evaluator.NestedReturnExample | evaluator/evaluator.go:41-79 | a return inside nested blocks ends both blocks and the program with its value |

## Left out

- The REPL (`repl/repl.go`) is left out: it is line reading and writing around the pipeline.
- Token positions are left out, because no modelled code keeps them.
- The evaluator helper `evalStatements` (`evaluator/evaluator.go:54-65`) is left out: nothing calls it.
- Pratt precedences and infix rules are left out. The precedence constants, `registerInfix` and the `infixFns` table are never consulted, because `parseExpression` only applies the prefix rule. The precedence parameter is kept and ignored.
- `prefixFns` is not a map in the model. It is the fixed rule set `New` registers, for IDENT and INT, and `HasPrefixRule` states it.
- Nil children are partly left out. `PrefixExpression.Right`, both `InfixExpression` operands, an `if` condition and consequence, a function body, a callee, and each element of a function literal's parameter list and of a call's argument list are never nil here. The Go code would panic on a nil there in `AsString` and in the evaluator. Nil values of let, const, return and expression statements, and a nil alternative, are modelled.
- Pointer identity is not modelled as such. TRUE, FALSE and NULL are values, and `==`/`!=` on non-integers follow the singleton rule stated in `Evaluator.Identical`: integers and return signals are fresh allocations and are never identical.
- Parser.Parser.ParseLetStatement and the other let/return methods require the specification outcome to be `Parsed`. The Go loops never end otherwise.
  - The same goes for `ParseStatement` and `ParseProgram`.
  - `AdvanceToSemicolon` requires a semicolon ahead.
- The parser's input is left abstract. The modelled lexer produces no keywords, identifiers or integers (`ParserSpec.LexedProgram`). So the parser's own test programs are given as the token sequences a complete lexer would produce, and the parser reads an abstract token sequence that yields EOF forever.
- The Go package does not build as written. `statements.go`, `literals.go`, `expressions.go`, `identifiers.go` and `programs.go` use `p.CurrentToken`, `p.CurrentTokenIs` and `p.PeekTokenIs`, which the Parser type does not define. `ParseProgram` is declared in both `parser.go` and `programs.go`. The model reads those names as the fields and methods of `parser.go`, and keeps both editions side by side.
- Strconv.Quote escapes quotes, backslashes and ASCII control characters only. Go's `%q` also escapes non-printable Unicode and invalid UTF-8; strings here are sequences of characters, not bytes.
- `Inspect` panics on a return signal wrapping nil. The model requires `Inspectable` instead of modelling the panic.
- Rendering (`AsString`/`TokenLiteral`) requires that no typed-nil let statement occurs, because Go panics on it.
