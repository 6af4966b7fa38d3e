/**
 * The syntax tree: a closed union of statements and expressions, the
 * `TokenLiteral` of each node, and `AsString`, which renders a tree as fully
 * parenthesised canonical text.
 *
 * `NilLetStatement` is the typed-nil `*LetStatement` a failed let returns:
 * once stored in a statement list it is a non-nil statement whose
 * `TokenLiteral` and `AsString` dereference nil. Rendering therefore
 * requires that no such statement occurs in the tree.
 */
module Ast {
  import opened Wrappers
  import opened Token
  import opened Int64

  datatype Identifier = Identifier(token: Token, value: string)

  datatype Expression =
    | Ident(id: Identifier)
    | IntegerLiteral(token: Token, value: Int64)
    | PrefixExpression(token: Token, operator: string, right: Expression)
    | InfixExpression(token: Token, left: Expression, operator: string, right: Expression)
    | Boolean(token: Token, truth: bool)
    | IfExpression(token: Token, condition: Expression, consequence: BlockStatement, alternative: Option<BlockStatement>)
    | FunctionLiteral(token: Token, parameters: seq<Identifier>, body: BlockStatement)
    | CallExpression(token: Token, callee: Expression, arguments: seq<Expression>)

  datatype BlockStatement = BlockStatement(token: Token, statements: seq<Statement>)

  datatype Statement =
    | LetStatement(token: Token, name: Identifier, value: Option<Expression>)
    | NilLetStatement
    | ConstStatement(token: Token, name: Identifier, value: Option<Expression>)
    | ReturnStatement(token: Token, returnValue: Option<Expression>)
    | ExpressionStatement(token: Token, expression: Option<Expression>)
    | BlockStmt(block: BlockStatement)

  datatype Program = Program(statements: seq<Statement>)

  // ---------------------------------------------------------------------------
  // Trees that render without a nil dereference

  predicate ExprRenderable(e: Expression) {
    match e
    case Ident(_) => true
    case IntegerLiteral(_, _) => true
    case PrefixExpression(_, _, r) => ExprRenderable(r)
    case InfixExpression(_, l, _, r) => ExprRenderable(l) && ExprRenderable(r)
    case Boolean(_, _) => true
    case IfExpression(_, c, cons, alt) =>
      ExprRenderable(c) && BlockRenderable(cons) && (alt.Some? ==> BlockRenderable(alt.value))
    case FunctionLiteral(_, _, body) => BlockRenderable(body)
    case CallExpression(_, f, args) => ExprRenderable(f) && ExprsRenderable(args)
  }

  predicate ExprsRenderable(es: seq<Expression>) {
    es != [] ==> ExprRenderable(es[0]) && ExprsRenderable(es[1..])
  }

  predicate OptionRenderable(e: Option<Expression>) {
    e.Some? ==> ExprRenderable(e.value)
  }

  predicate BlockRenderable(b: BlockStatement) {
    StmtsRenderable(b.statements)
  }

  predicate StmtsRenderable(ss: seq<Statement>) {
    ss != [] ==> StmtRenderable(ss[0]) && StmtsRenderable(ss[1..])
  }

  predicate StmtRenderable(s: Statement) {
    match s
    case LetStatement(_, _, v) => OptionRenderable(v)
    case NilLetStatement => false
    case ConstStatement(_, _, v) => OptionRenderable(v)
    case ReturnStatement(_, v) => OptionRenderable(v)
    case ExpressionStatement(_, v) => OptionRenderable(v)
    case BlockStmt(b) => BlockRenderable(b)
  }

  predicate ProgramRenderable(p: Program) {
    StmtsRenderable(p.statements)
  }

  // ---------------------------------------------------------------------------
  // TokenLiteral

  function ExprTokenLiteral(e: Expression): string {
    match e
    case Ident(id) => id.token.literal
    case IntegerLiteral(t, _) => t.literal
    case PrefixExpression(t, _, _) => t.literal
    case InfixExpression(t, _, _, _) => t.literal
    case Boolean(t, _) => t.literal
    case IfExpression(t, _, _, _) => t.literal
    case FunctionLiteral(t, _, _) => t.literal
    case CallExpression(t, _, _) => t.literal
  }

  function StmtTokenLiteral(s: Statement): string
    requires !s.NilLetStatement?
  {
    match s
    case LetStatement(t, _, _) => t.literal
    case ConstStatement(t, _, _) => t.literal
    case ReturnStatement(t, _) => t.literal
    case ExpressionStatement(t, _) => t.literal
    case BlockStmt(b) => b.token.literal
  }

  /** `Program.TokenLiteral`: the first statement's literal, or "" for an empty program. */
  function ProgramTokenLiteral(p: Program): (lit: string)
    requires p.statements == [] || !p.statements[0].NilLetStatement?
    ensures p.statements == [] ==> lit == ""
  {
    if |p.statements| > 0 then StmtTokenLiteral(p.statements[0]) else ""
  }

  // ---------------------------------------------------------------------------
  // AsString

  /** `strings.Join`. */
  function Join(items: seq<string>, sep: string): string {
    if items == [] then ""
    else if |items| == 1 then items[0]
    else items[0] + sep + Join(items[1..], sep)
  }

  function ExprString(e: Expression): string
    requires ExprRenderable(e)
  {
    match e
    case Ident(id) => id.value
    case IntegerLiteral(t, _) => t.literal
    case PrefixExpression(_, op, r) => "(" + op + ExprString(r) + ")"
    case InfixExpression(_, l, op, r) => "(" + ExprString(l) + " " + op + " " + ExprString(r) + ")"
    case Boolean(t, _) => t.literal
    case IfExpression(_, c, cons, alt) =>
      "if" + ExprString(c) + " " + BlockString(cons) + (if alt.Some? then "else " + BlockString(alt.value) else "")
    case FunctionLiteral(t, ps, body) =>
      t.literal + "(" + Join(IdentifierStrings(ps), ", ") + ") " + BlockString(body)
    case CallExpression(_, f, args) => ExprString(f) + "(" + Join(ExprStrings(args), ", ") + ")"
  }

  /** The rendering of each argument, in order. */
  function ExprStrings(es: seq<Expression>): (r: seq<string>)
    requires ExprsRenderable(es)
    ensures |r| == |es|
    ensures forall i :: 0 <= i < |es| ==> ExprRenderable(es[i]) && r[i] == ExprString(es[i])
  {
    if es == [] then [] else [ExprString(es[0])] + ExprStrings(es[1..])
  }

  /** The rendering of each parameter: its name. */
  function IdentifierStrings(ps: seq<Identifier>): (r: seq<string>)
    ensures |r| == |ps| && forall i :: 0 <= i < |ps| ==> r[i] == ps[i].value
  {
    if ps == [] then [] else [ps[0].value] + IdentifierStrings(ps[1..])
  }

  function OptionString(e: Option<Expression>): string
    requires OptionRenderable(e)
  {
    if e.Some? then ExprString(e.value) else ""
  }

  function BlockString(b: BlockStatement): string
    requires BlockRenderable(b)
  {
    StmtsString(b.statements)
  }

  function StmtsString(ss: seq<Statement>): string
    requires StmtsRenderable(ss)
  {
    if ss == [] then "" else StmtString(ss[0]) + StmtsString(ss[1..])
  }

  function StmtString(s: Statement): string
    requires StmtRenderable(s)
  {
    match s
    case LetStatement(t, n, v) => t.literal + " " + n.value + " = " + OptionString(v) + ";"
    case ConstStatement(t, n, v) => t.literal + " " + n.value + " = " + OptionString(v) + ";"
    case ReturnStatement(t, v) => t.literal + " " + OptionString(v) + ";"
    case ExpressionStatement(_, v) => OptionString(v)
    case BlockStmt(b) => BlockString(b)
  }

  function ProgramString(p: Program): string
    requires ProgramRenderable(p)
  {
    StmtsString(p.statements)
  }

  // ---------------------------------------------------------------------------
  // Properties of the rendering

  /** `strings.Join` grows by one separator and one item per appended item. */
  lemma {:induction false} JoinAppend(items: seq<string>, x: string, sep: string)
    ensures Join(items + [x], sep) == if items == [] then x else Join(items, sep) + sep + x
  {
    if |items| > 1 {
      assert (items + [x])[1..] == items[1..] + [x];
      JoinAppend(items[1..], x, sep);
    } else if |items| == 1 {
      assert (items + [x])[1..] == [x];
    }
  }

  lemma {:induction false} StmtsRenderableAppend(a: seq<Statement>, b: seq<Statement>)
    ensures StmtsRenderable(a + b) <==> StmtsRenderable(a) && StmtsRenderable(b)
  {
    if a != [] {
      assert (a + b)[0] == a[0] && (a + b)[1..] == a[1..] + b;
      StmtsRenderableAppend(a[1..], b);
    } else {
      assert a + b == b;
    }
  }

  /** A program renders as the concatenation of its parts, with no separator. */
  lemma {:induction false} ProgramStringAppend(a: seq<Statement>, b: seq<Statement>)
    requires StmtsRenderable(a) && StmtsRenderable(b)
    ensures ProgramRenderable(Program(a + b))
    ensures ProgramString(Program(a + b)) == ProgramString(Program(a)) + ProgramString(Program(b))
  {
    StmtsRenderableAppend(a, b);
    if a != [] {
      assert (a + b)[0] == a[0] && (a + b)[1..] == a[1..] + b;
      ProgramStringAppend(a[1..], b);
    } else {
      assert a + b == b;
    }
  }

  /** Each statement contributes exactly its own rendering: the program text is the statements' texts joined with "". */
  lemma {:induction false} ProgramStringIsJoin(ss: seq<Statement>)
    requires StmtsRenderable(ss)
    ensures ProgramString(Program(ss)) == Join(StmtStrings(ss), "")
  {
    if |ss| > 1 {
      ProgramStringIsJoin(ss[1..]);
      assert StmtStrings(ss)[1..] == StmtStrings(ss[1..]);
    } else if |ss| == 1 {
      assert StmtsString(ss[1..]) == "";
    }
  }

  /** The rendering of each statement, in order. */
  function StmtStrings(ss: seq<Statement>): (r: seq<string>)
    requires StmtsRenderable(ss)
    ensures |r| == |ss|
    ensures forall i :: 0 <= i < |ss| ==> StmtRenderable(ss[i]) && r[i] == StmtString(ss[i])
  {
    if ss == [] then [] else [StmtString(ss[0])] + StmtStrings(ss[1..])
  }

  /**
   * The program's literal is the literal of its first non-empty part, and so
   * the token literal of the first statement, whatever follows it.
   */
  lemma ProgramTokenLiteralAppend(a: seq<Statement>, b: seq<Statement>)
    requires a != [] ==> !a[0].NilLetStatement?
    requires a == [] && b != [] ==> !b[0].NilLetStatement?
    ensures ProgramTokenLiteral(Program(a + b)) ==
            if a == [] then ProgramTokenLiteral(Program(b)) else ProgramTokenLiteral(Program(a))
    ensures a != [] ==> ProgramTokenLiteral(Program(a + b)) == StmtTokenLiteral(a[0])
  {
    if a == [] {
      assert a + b == b;
    } else {
      assert (a + b)[0] == a[0];
    }
  }

  /** A const statement renders exactly like a let statement with the same parts. */
  lemma ConstRendersLikeLet(t: Token, n: Identifier, v: Option<Expression>)
    requires OptionRenderable(v)
    ensures StmtString(ConstStatement(t, n, v)) == StmtString(LetStatement(t, n, v))
    ensures StmtString(ReturnStatement(t, v)) == t.literal + " " + OptionString(v) + ";"
  {
  }

  /** `let foo = bar;` as a tree renders back to that text. */
  lemma LetStatementExample()
    ensures var p := Program([LetStatement(Token(LET, "let"), Identifier(Token(IDENT, "foo"), "foo"),
                                           Some(Ident(Identifier(Token(IDENT, "bar"), "bar"))))]);
      ProgramRenderable(p) && ProgramString(p) == "let foo = bar;" && ProgramTokenLiteral(p) == "let"
  {
  }

  /** A block of one statement renders as that statement. */
  lemma SingleStatementBlock(t: Token, s: Statement)
    requires StmtRenderable(s)
    ensures BlockRenderable(BlockStatement(t, [s])) && BlockString(BlockStatement(t, [s])) == StmtString(s)
  {
    assert [s][1..] == [];
    assert StmtsRenderable([s][1..]) && StmtsString([s][1..]) == "";
  }

  const ExampleX: Expression := Ident(Identifier(Token(IDENT, "x"), "x"))
  const ExampleY: Expression := Ident(Identifier(Token(IDENT, "y"), "y"))
  const ExampleSum: Expression := InfixExpression(Token(PLUS, "+"), ExampleX, "+", ExampleY)
  const ExampleLess: Expression := InfixExpression(Token(LT, "<"), ExampleX, "<", ExampleY)

  function ExampleBlock(e: Expression): BlockStatement {
    BlockStatement(Token(LBRACE, "{"), [ExpressionStatement(Token(IDENT, "x"), Some(e))])
  }

  /** A conditional renders "if", the condition, a space, the consequence, then "else " and the alternative only when one exists. */
  lemma IfExpressionExamples()
    ensures ExprRenderable(IfExpression(Token(IF, "if"), ExampleLess, ExampleBlock(ExampleX), None))
    ensures ExprString(IfExpression(Token(IF, "if"), ExampleLess, ExampleBlock(ExampleX), None)) == "if(x < y) x"
    ensures ExprRenderable(IfExpression(Token(IF, "if"), ExampleLess, ExampleBlock(ExampleX), Some(ExampleBlock(ExampleY))))
    ensures ExprString(IfExpression(Token(IF, "if"), ExampleLess, ExampleBlock(ExampleX), Some(ExampleBlock(ExampleY))))
            == "if(x < y) xelse y"
  {
    SingleStatementBlock(Token(LBRACE, "{"), ExpressionStatement(Token(IDENT, "x"), Some(ExampleX)));
    SingleStatementBlock(Token(LBRACE, "{"), ExpressionStatement(Token(IDENT, "x"), Some(ExampleY)));
  }

  /** The one-statement block around a sum renders as the sum. */
  lemma SumBlock()
    ensures BlockRenderable(ExampleBlock(ExampleSum)) && BlockString(ExampleBlock(ExampleSum)) == "(x + y)"
  {
    SingleStatementBlock(Token(LBRACE, "{"), ExpressionStatement(Token(IDENT, "x"), Some(ExampleSum)));
  }

  /** Two parameter names joined with ", ". */
  lemma TwoParameters()
    ensures IdentifierStrings([Identifier(Token(IDENT, "x"), "x"), Identifier(Token(IDENT, "y"), "y")]) == ["x", "y"]
    ensures Join(["x", "y"], ", ") == "x, y"
  {
    assert Join(["x", "y"], ", ") == "x" + ", " + Join(["y"], ", ");
  }

  /** A function literal renders its literal, the parameter names joined with ", " in parentheses, a space and the body. */
  lemma FunctionLiteralExample()
    ensures var params := [Identifier(Token(IDENT, "x"), "x"), Identifier(Token(IDENT, "y"), "y")];
      ExprRenderable(FunctionLiteral(Token(FUNCTION, "fn"), params, ExampleBlock(ExampleSum))) &&
      ExprString(FunctionLiteral(Token(FUNCTION, "fn"), params, ExampleBlock(ExampleSum))) == "fn(x, y) (x + y)"
  {
    SumBlock();
    TwoParameters();
  }

  /** A call renders the callee and the arguments joined with ", " in parentheses. */
  lemma CallExpressionExample()
    ensures var call := CallExpression(Token(LPAREN, "("), Ident(Identifier(Token(IDENT, "add"), "add")), [ExampleX, ExampleSum]);
      ExprRenderable(call) && ExprString(call) == "add(x, (x + y))"
  {
    var args := [ExampleX, ExampleSum];
    assert args[1..] == [ExampleSum] && args[1..][1..] == [];
    assert ExprRenderable(ExampleSum) && ExprString(ExampleSum) == "(x + y)";
    assert ExprsRenderable(args[1..][1..]) && ExprStrings(args[1..][1..]) == [];
    assert ExprsRenderable(args[1..]) && ExprStrings(args[1..]) == ["(x + y)"];
    assert ExprsRenderable(args) && ExprStrings(args) == ["x", "(x + y)"];
    assert Join(["x", "(x + y)"], ", ") == "x" + ", " + Join(["(x + y)"], ", ");
  }
  // ---------------------------------------------------------------------------
  // Full parenthesisation

  /** Opening minus closing parentheses. */
  function Depth(s: string): int {
    multiset(s)['('] as int - multiset(s)[')'] as int
  }

  /** Every opening parenthesis is closed, and no prefix closes more than it opened. */
  predicate Balanced(s: string) {
    Depth(s) == 0 && forall k :: 0 <= k <= |s| ==> Depth(s[..k]) >= 0
  }

  /** Balanced, and the first parenthesis is only closed by the last character. */
  predicate Wrapped(s: string) {
    Balanced(s) && |s| >= 2 && forall k :: 0 < k < |s| ==> Depth(s[..k]) > 0
  }

  predicate ParenFree(s: string) {
    '(' !in s && ')' !in s
  }

  /** The expressions the operators build over parenthesis-free leaves and operators. */
  predicate OperatorTree(e: Expression) {
    match e
    case Ident(id) => ParenFree(id.value)
    case IntegerLiteral(t, _) => ParenFree(t.literal)
    case Boolean(t, _) => ParenFree(t.literal)
    case PrefixExpression(_, op, r) => ParenFree(op) && OperatorTree(r)
    case InfixExpression(_, l, op, r) => ParenFree(op) && OperatorTree(l) && OperatorTree(r)
    case _ => false
  }

  lemma ParenFreeBalanced(s: string)
    requires ParenFree(s)
    ensures Balanced(s) && Depth(s) == 0
  {
    forall k | 0 <= k <= |s|
      ensures Depth(s[..k]) == 0
    {
      assert '(' !in s[..k] && ')' !in s[..k] by {
        forall i | 0 <= i < k ensures s[..k][i] == s[i] { }
      }
    }
  }

  lemma BalancedAppend(a: string, b: string)
    requires Balanced(a) && Balanced(b)
    ensures Balanced(a + b)
  {
    assert multiset(a + b) == multiset(a) + multiset(b);
    forall k | 0 <= k <= |a + b|
      ensures Depth((a + b)[..k]) >= 0
    {
      if k <= |a| {
        assert (a + b)[..k] == a[..k];
      } else {
        assert (a + b)[..k] == a + b[..k - |a|];
        assert multiset(a + b[..k - |a|]) == multiset(a) + multiset(b[..k - |a|]);
      }
    }
  }

  lemma BalancedWrap(s: string)
    requires Balanced(s)
    ensures Wrapped("(" + s + ")")
  {
    var w := "(" + s + ")";
    assert w == "(" + (s + ")");
    assert multiset(w) == multiset("(") + multiset(s) + multiset(")");
    forall k | 0 <= k <= |w|
      ensures Depth(w[..k]) >= 0 && (0 < k < |w| ==> Depth(w[..k]) > 0)
    {
      if k == 0 {
        assert w[..k] == [];
      } else if k < |w| {
        assert w[..k] == "(" + s[..k - 1];
        assert multiset(w[..k]) == multiset("(") + multiset(s[..k - 1]);
      } else {
        assert w[..k] == w;
      }
    }
  }

  /** The prefix rendering `"(" + op + right + ")"` wraps a balanced operand. */
  lemma PrefixWrapped(op: string, right: string)
    requires ParenFree(op) && Balanced(right)
    ensures Wrapped("(" + op + right + ")")
  {
    ParenFreeBalanced(op);
    BalancedAppend(op, right);
    BalancedWrap(op + right);
    assert "(" + op + right + ")" == "(" + (op + right) + ")";
  }

  /** The infix rendering `"(" + left + " " + op + " " + right + ")"` wraps balanced operands. */
  lemma InfixWrapped(left: string, op: string, right: string)
    requires ParenFree(op) && Balanced(left) && Balanced(right)
    ensures Wrapped("(" + left + " " + op + " " + right + ")")
  {
    var mid := " " + op + " ";
    assert '(' !in mid && ')' !in mid;
    ParenFreeBalanced(mid);
    BalancedAppend(left, mid);
    BalancedAppend(left + mid, right);
    BalancedWrap(left + mid + right);
    assert "(" + left + " " + op + " " + right + ")" == "(" + (left + mid + right) + ")";
  }

  /** `AsString` on operator expressions yields balanced text, and every prefix or infix node is enclosed by its own pair of parentheses. */
  lemma {:induction false} OperatorTreeParenthesised(e: Expression)
    requires OperatorTree(e)
    ensures ExprRenderable(e) && Balanced(ExprString(e))
    ensures e.PrefixExpression? || e.InfixExpression? ==> Wrapped(ExprString(e))
  {
    match e
    case Ident(id) => ParenFreeBalanced(id.value);
    case IntegerLiteral(t, _) => ParenFreeBalanced(t.literal);
    case Boolean(t, _) => ParenFreeBalanced(t.literal);
    case PrefixExpression(_, op, r) =>
      OperatorTreeParenthesised(r);
      PrefixWrapped(op, ExprString(r));
    case InfixExpression(_, l, op, r) =>
      OperatorTreeParenthesised(l);
      OperatorTreeParenthesised(r);
      InfixWrapped(ExprString(l), op, ExprString(r));
  }
}
