/**
 * The tree-walking evaluator. Booleans and null are the three singletons
 * TRUE, FALSE and NULL, so value equality on them is Go's pointer identity;
 * integers and return signals are fresh allocations and are never identical
 * to anything else. A Go run-time panic (integer division by zero, a method
 * call on a nil object) is the outcome `Panicked`, which every enclosing
 * evaluation passes on unchanged.
 */
module Evaluator {
  import opened Wrappers
  import opened Int64
  import opened Token
  import opened Ast
  import opened Object

  datatype Panic = DivideByZero | NilDereference

  /** What an evaluation yields: an object or nil, or a run-time panic. */
  datatype Outcome = Done(result: Option<Object>) | Panicked(cause: Panic)

  const TRUE: Object := Object.Boolean(true)
  const FALSE: Object := Object.Boolean(false)
  const NULL: Object := Null

  /** A finished evaluation yielding the object `o`. */
  function Value(o: Object): Outcome {
    Done(Some(o))
  }

  /** `nativeBooleanObject`: the singleton for a Go boolean. */
  function NativeBooleanObject(b: bool): (o: Object)
    ensures o == TRUE || o == FALSE
    ensures o == TRUE <==> b
  {
    if b then TRUE else FALSE
  }

  /** `isTruthy`: NULL and FALSE are falsy; everything else, nil and every integer included, is truthy. */
  function IsTruthy(o: Option<Object>): (b: bool)
    ensures !b <==> o == Some(NULL) || o == Some(FALSE)
  {
    match o
    case Some(Null) => false
    case Some(Boolean(false)) => false
    case _ => true
  }

  /** `evalNot`: TRUE to FALSE, FALSE and NULL to TRUE, anything else (integers, nil, return signals) to FALSE. */
  function EvalNot(right: Option<Object>): (o: Object)
    ensures right == Some(TRUE) ==> o == FALSE
    ensures right == Some(FALSE) || right == Some(NULL) ==> o == TRUE
    ensures right != Some(TRUE) && right != Some(FALSE) && right != Some(NULL) ==> o == FALSE
  {
    match right
    case Some(Boolean(true)) => FALSE
    case Some(Boolean(false)) => TRUE
    case Some(Null) => TRUE
    case _ => FALSE
  }

  /** `!` is the negation of truthiness. */
  lemma NotNegatesTruthiness(right: Option<Object>)
    ensures EvalNot(right) == NativeBooleanObject(!IsTruthy(right))
  {
  }

  /** `!!x` is x's truthiness as a singleton. */
  lemma DoubleNot(right: Option<Object>)
    ensures EvalNot(Some(EvalNot(right))) == NativeBooleanObject(IsTruthy(right))
  {
  }

  /** `evalMinus`: wrapping negation of an integer; NULL for any other object; calling `Type` on nil panics. */
  function EvalMinus(right: Option<Object>): (r: Outcome)
    ensures r.Panicked? <==> right.None?
    ensures right.Some? && right.value.Integer? ==> r == Value(Integer(Neg(right.value.value)))
    ensures right.Some? && !right.value.Integer? ==> r == Value(NULL)
  {
    match right
    case None => Panicked(NilDereference)
    case Some(Integer(v)) => Value(Integer(Neg(v)))
    case Some(_) => Value(NULL)
  }

  /** Negating twice gives the integer back, even for the most negative value, which is its own negation. */
  lemma MinusInvolutive(v: Int64)
    ensures EvalMinus(Some(Integer(v))).result.value.Integer?
    ensures EvalMinus(EvalMinus(Some(Integer(v))).result) == Value(Integer(v))
    ensures v == MIN ==> EvalMinus(Some(Integer(v))) == Value(Integer(MIN))
  {
    QuoOverflow();
    NegInvolutive(v);
  }

  /** `evalPrefix`: `!` and `-`; any other operator yields NULL whatever the operand, nil included. */
  function EvalPrefix(operator: string, right: Option<Object>): (r: Outcome)
    ensures operator == "!" ==> r == Value(EvalNot(right))
    ensures operator == "-" ==> r == EvalMinus(right)
    ensures operator != "!" && operator != "-" ==> r == Value(NULL)
  {
    if operator == "!" then Value(EvalNot(right))
    else if operator == "-" then EvalMinus(right)
    else Value(NULL)
  }

  /** Go's `==` on two object interfaces: both nil, or the same singleton. */
  predicate Identical(a: Option<Object>, b: Option<Object>) {
    a == b && (a.None? || a.value.Boolean? || a.value.Null?)
  }

  /** `evalIntInfix`: wrapping `+ - *`, truncating `/` that panics on zero, singleton comparisons, NULL otherwise. */
  function EvalIntInfix(operator: string, l: Int64, r: Int64): (o: Outcome)
    ensures o.Panicked? <==> operator == "/" && r == 0
    ensures o.Panicked? ==> o.cause == DivideByZero
    ensures o.Done? ==> o.result.Some? && !o.result.value.ReturnValue?
  {
    if operator == "+" then Value(Integer(Add(l, r)))
    else if operator == "-" then Value(Integer(Sub(l, r)))
    else if operator == "*" then Value(Integer(Mul(l, r)))
    else if operator == "/" then
      if r == 0 then Panicked(DivideByZero) else Value(Integer(Quo(l, r)))
    else if operator == "<" then Value(NativeBooleanObject(l < r))
    else if operator == ">" then Value(NativeBooleanObject(l > r))
    else if operator == "==" then Value(NativeBooleanObject(l == r))
    else if operator == "!=" then Value(NativeBooleanObject(l != r))
    else Value(NULL)
  }

  /**
   * `evalInfix`: two integers go to the integer operators; otherwise `==` and
   * `!=` compare by identity and every other operator yields NULL. `Type` is
   * called on the left operand, and on the right one only when the left is
   * an integer, so a nil there panics.
   */
  function EvalInfix(operator: string, left: Option<Object>, right: Option<Object>): (o: Outcome)
    ensures o.Panicked? && o.cause == NilDereference <==>
              left.None? || (left.value.Integer? && right.None?)
  {
    match left
    case None => Panicked(NilDereference)
    case Some(l) =>
      if l.Integer? && right.None? then Panicked(NilDereference)
      else if l.Integer? && right.value.Integer? then EvalIntInfix(operator, l.value, right.value.value)
      else if operator == "==" then Value(NativeBooleanObject(Identical(left, right)))
      else if operator == "!=" then Value(NativeBooleanObject(!Identical(left, right)))
      else Value(NULL)
  }

  /** On integers the arithmetic operators are Go's int64 operators, the comparisons compare the values. */
  lemma IntegerOperators(operator: string, a: Int64, b: Int64)
    ensures operator == "+" ==> EvalInfix(operator, Some(Integer(a)), Some(Integer(b))) == Value(Integer(Add(a, b)))
    ensures operator == "-" ==> EvalInfix(operator, Some(Integer(a)), Some(Integer(b))) == Value(Integer(Sub(a, b)))
    ensures operator == "*" ==> EvalInfix(operator, Some(Integer(a)), Some(Integer(b))) == Value(Integer(Mul(a, b)))
    ensures operator == "/" && b != 0 ==> EvalInfix(operator, Some(Integer(a)), Some(Integer(b))) == Value(Integer(Quo(a, b)))
    ensures operator == "/" && b == 0 ==> EvalInfix(operator, Some(Integer(a)), Some(Integer(b))) == Panicked(DivideByZero)
    ensures operator == "<" ==> EvalInfix(operator, Some(Integer(a)), Some(Integer(b))) == Value(NativeBooleanObject(a < b))
    ensures operator == ">" ==> EvalInfix(operator, Some(Integer(a)), Some(Integer(b))) == Value(NativeBooleanObject(a > b))
    ensures operator == "==" ==> EvalInfix(operator, Some(Integer(a)), Some(Integer(b))) == Value(NativeBooleanObject(a == b))
    ensures operator == "!=" ==> EvalInfix(operator, Some(Integer(a)), Some(Integer(b))) == Value(NativeBooleanObject(a != b))
    ensures operator !in {"+", "-", "*", "/", "<", ">", "==", "!="} ==>
              EvalInfix(operator, Some(Integer(a)), Some(Integer(b))) == Value(NULL)
  {
  }

  /** Without overflow the int64 results are the mathematical ones, and `/` rounds toward zero. */
  lemma ExactArithmetic(a: Int64, b: Int64)
    ensures MIN <= a + b <= MAX ==> Add(a, b) == a + b
    ensures MIN <= a - b <= MAX ==> Sub(a, b) == a - b
    ensures MIN <= a * b <= MAX ==> Mul(a, b) == a * b
    ensures b != 0 && !(a == MIN && b == -1) ==> Quo(a, b) == TruncDiv(a, b)
    ensures a == 7 && b == -2 ==> Quo(a, b) == -3
    ensures a == -7 && b == 2 ==> Quo(a, b) == -3
  {
    if b != 0 && !(a == MIN && b == -1) {
      QuoExact(a, b);
    }
  }

  /** Overflow wraps around: MAX + 1 is MIN, and MIN / -1 is MIN. */
  lemma WrappingArithmetic()
    ensures Add(MAX, 1) == MIN && Sub(MIN, 1) == MAX && Mul(MAX, 2) == -2
    ensures Quo(MIN, -1) == MIN
  {
    QuoOverflow();
  }

  /**
   * When the operands are not both integers, `==` is true exactly when both
   * are TRUE, both FALSE or both NULL, `!=` is its negation, and every other
   * operator yields NULL.
   */
  lemma IdentityEquality(operator: string, l: Object, right: Option<Object>)
    requires !l.Integer? || (right.Some? && !right.value.Integer?)
    ensures var both := (l == TRUE && right == Some(TRUE)) || (l == FALSE && right == Some(FALSE)) ||
                        (l == NULL && right == Some(NULL));
      (operator == "==" ==> EvalInfix(operator, Some(l), right) == Value(NativeBooleanObject(both))) &&
      (operator == "!=" ==> EvalInfix(operator, Some(l), right) == Value(NativeBooleanObject(!both))) &&
      (operator != "==" && operator != "!=" ==> EvalInfix(operator, Some(l), right) == Value(NULL))
  {
  }

  /** Two integers are never identical objects: `==` on an integer and a non-integer is always FALSE. */
  lemma MixedOperandsUnequal(v: Int64, right: Object)
    requires !right.Integer?
    ensures EvalInfix("==", Some(Integer(v)), Some(right)) == Value(FALSE)
    ensures EvalInfix("!=", Some(Integer(v)), Some(right)) == Value(TRUE)
  {
  }

  /** `!=` always gives the opposite singleton of `==`, and they panic on the same operands. */
  lemma NotEqualNegatesEqual(left: Option<Object>, right: Option<Object>)
    ensures EvalInfix("==", left, right).Panicked? <==> EvalInfix("!=", left, right).Panicked?
    ensures EvalInfix("==", left, right).Done? ==>
              EvalInfix("==", left, right).result.Some? &&
              EvalInfix("!=", left, right) == Value(EvalNot(EvalInfix("==", left, right).result))
  {
  }

  // ---------------------------------------------------------------------------
  // Eval

  /** `Eval` on an expression node; identifiers, function literals and calls have no case and yield nil. */
  function EvalExpr(e: Expression): Outcome
    decreases e, 1
  {
    match e
    case Ident(_) => Done(None)
    case IntegerLiteral(_, v) => Value(Integer(v))
    case PrefixExpression(_, operator, right) =>
      (match EvalExpr(right)
       case Panicked(p) => Panicked(p)
       case Done(r) => EvalPrefix(operator, r))
    case InfixExpression(_, left, operator, right) =>
      (match EvalExpr(left)
       case Panicked(p) => Panicked(p)
       case Done(l) =>
         match EvalExpr(right)
         case Panicked(p) => Panicked(p)
         case Done(r) => EvalInfix(operator, l, r))
    case Boolean(_, b) => Value(NativeBooleanObject(b))
    case IfExpression(_, _, _, _) => EvalIf(e)
    case FunctionLiteral(_, _, _) => Done(None)
    case CallExpression(_, _, _) => Done(None)
  }

  /** `evalIf`: the consequence when the condition is truthy, else the alternative, else NULL. */
  function EvalIf(ie: Expression): Outcome
    requires ie.IfExpression?
    decreases ie, 0
  {
    match EvalExpr(ie.condition)
    case Panicked(p) => Panicked(p)
    case Done(c) =>
      if IsTruthy(c) then EvalBlock(ie.consequence)
      else if ie.alternative.Some? then EvalBlock(ie.alternative.value)
      else Value(NULL)
  }

  /** `Eval` on a statement node: let, const and the typed-nil let have no case and yield nil; a return wraps its value. */
  function EvalStmt(s: Statement): Outcome {
    match s
    case LetStatement(_, _, _) => Done(None)
    case NilLetStatement => Done(None)
    case ConstStatement(_, _, _) => Done(None)
    case ReturnStatement(_, value) =>
      (match EvalOption(value)
       case Panicked(p) => Panicked(p)
       case Done(v) => Value(ReturnValue(v)))
    case ExpressionStatement(_, expression) => EvalOption(expression)
    case BlockStmt(block) => EvalBlock(block)
  }

  /** `Eval` on a child that may be nil. */
  function EvalOption(e: Option<Expression>): Outcome {
    match e
    case None => Done(None)
    case Some(x) => EvalExpr(x)
  }

  /** `evalBlockStatement`. */
  function EvalBlock(b: BlockStatement): Outcome {
    EvalBlockFrom(b.statements, None)
  }

  /** The block loop from `last`, the previous statement's result: it stops at a RETURN-typed result and keeps it wrapped. */
  function EvalBlockFrom(ss: seq<Statement>, last: Option<Object>): Outcome {
    if ss == [] then Done(last)
    else
      match EvalStmt(ss[0])
      case Panicked(p) => Panicked(p)
      case Done(r) =>
        if r.Some? && Type(r.value) == RETURN then Done(r) else EvalBlockFrom(ss[1..], r)
  }

  /** `evalProgram`. */
  function EvalProgram(p: Program): Outcome {
    EvalProgramFrom(p.statements, None)
  }

  /** The program loop from `last`: it stops at a return signal and yields the value inside it. */
  function EvalProgramFrom(ss: seq<Statement>, last: Option<Object>): Outcome {
    if ss == [] then Done(last)
    else
      match EvalStmt(ss[0])
      case Panicked(p) => Panicked(p)
      case Done(r) =>
        if r.Some? && r.value.ReturnValue? then Done(r.value.wrapped) else EvalProgramFrom(ss[1..], r)
  }

  // ---------------------------------------------------------------------------
  // Properties of Eval

  /** Literals: an integer literal gives an integer with its value, a boolean literal the matching singleton. */
  lemma Literals(t: Token, v: Int64, b: bool)
    ensures EvalExpr(IntegerLiteral(t, v)) == Value(Integer(v))
    ensures EvalExpr(Expression.Boolean(t, b)) == Value(if b then TRUE else FALSE)
  {
  }

  /** Nodes without a case in the type switch, and absent children, evaluate to nil. */
  lemma UnhandledNodes(t: Token, id: Identifier, v: Option<Expression>, ps: seq<Identifier>, body: BlockStatement,
                       callee: Expression, args: seq<Expression>)
    ensures EvalExpr(Ident(id)) == Done(None)
    ensures EvalExpr(FunctionLiteral(t, ps, body)) == Done(None)
    ensures EvalExpr(CallExpression(t, callee, args)) == Done(None)
    ensures EvalStmt(LetStatement(t, id, v)) == Done(None)
    ensures EvalStmt(NilLetStatement) == Done(None)
    ensures EvalStmt(ConstStatement(t, id, v)) == Done(None)
    ensures EvalStmt(ExpressionStatement(t, None)) == Done(None)
    ensures EvalStmt(ReturnStatement(t, None)) == Value(ReturnValue(None))
    ensures EvalBlock(BlockStatement(t, [])) == Done(None)
    ensures EvalProgram(Program([])) == Done(None)
  {
  }

  /** `if` without `else` on a falsy condition gives NULL; a truthy condition (any integer, 0 included) runs the consequence. */
  lemma IfWithoutElse(t: Token, condition: Expression, consequence: BlockStatement)
    ensures var e := IfExpression(t, condition, consequence, None);
      match EvalExpr(condition)
      case Panicked(p) => EvalExpr(e) == Panicked(p)
      case Done(c) => EvalExpr(e) == if IsTruthy(c) then EvalBlock(consequence) else Value(NULL)
    ensures IsTruthy(Some(Integer(0))) && IsTruthy(None) && !IsTruthy(Some(NULL)) && !IsTruthy(Some(FALSE))
  {
  }

  /** A return signal: what `Type` calls RETURN. */
  predicate IsReturn(r: Option<Object>) {
    r.Some? && r.value.ReturnValue?
  }

  /** What a block does with the statements after a prefix of it has produced `o`. */
  function ThenBlock(o: Outcome, rest: seq<Statement>): Outcome {
    match o
    case Panicked(_) => o
    case Done(r) => if IsReturn(r) then o else EvalBlockFrom(rest, r)
  }

  /**
   * A block over `ss1 + ss2` first runs `ss1`; a panic or a return signal
   * there ends the block, and otherwise `ss2` continues from the last result.
   */
  lemma {:induction false} BlockAppend(ss1: seq<Statement>, ss2: seq<Statement>, last: Option<Object>)
    requires !IsReturn(last)
    ensures EvalBlockFrom(ss1 + ss2, last) == ThenBlock(EvalBlockFrom(ss1, last), ss2)
  {
    if ss1 == [] {
      assert ss1 + ss2 == ss2;
    } else {
      assert (ss1 + ss2)[0] == ss1[0];
      assert (ss1 + ss2)[1..] == ss1[1..] + ss2;
      match EvalStmt(ss1[0])
      case Panicked(_) =>
      case Done(r) =>
        if !(r.Some? && Type(r.value) == RETURN) {
          BlockAppend(ss1[1..], ss2, r);
        }
    }
  }

  /** A block's result is a return signal only if one of its statements produced that signal, which ended the block. */
  lemma {:induction false} BlockReturnsSignal(ss: seq<Statement>, last: Option<Object>)
    requires !IsReturn(last)
    ensures var o := EvalBlockFrom(ss, last);
      o.Done? && IsReturn(o.result) ==>
        exists k :: 0 <= k < |ss| && EvalStmt(ss[k]) == o &&
          forall j :: 0 <= j < k ==> EvalStmt(ss[j]).Done? && !IsReturn(EvalStmt(ss[j]).result)
  {
    if ss != [] {
      match EvalStmt(ss[0])
      case Panicked(_) =>
      case Done(r) =>
        if !IsReturn(r) {
          BlockReturnsSignal(ss[1..], r);
          var o := EvalBlockFrom(ss, last);
          if o.Done? && IsReturn(o.result) {
            var k :| 0 <= k < |ss[1..]| && EvalStmt(ss[1..][k]) == o &&
              forall j :: 0 <= j < k ==> EvalStmt(ss[1..][j]).Done? && !IsReturn(EvalStmt(ss[1..][j]).result);
            assert EvalStmt(ss[k + 1]) == o;
            forall j | 0 <= j < k + 1
              ensures EvalStmt(ss[j]).Done? && !IsReturn(EvalStmt(ss[j]).result)
            {
              if j > 0 {
                assert ss[j] == ss[1..][j - 1];
              }
            }
          }
        } else {
          assert EvalStmt(ss[0]) == EvalBlockFrom(ss, last);
        }
    }
  }

  /** Removes one return signal from a finished evaluation. */
  function Unwrap(o: Outcome): Outcome {
    if o.Done? && IsReturn(o.result) then Done(o.result.value.wrapped) else o
  }

  /** The program loop is the block loop with the final return signal unwrapped. */
  lemma {:induction false} ProgramUnwrapsBlock(ss: seq<Statement>, last: Option<Object>)
    requires !IsReturn(last)
    ensures EvalProgramFrom(ss, last) == Unwrap(EvalBlockFrom(ss, last))
  {
    if ss != [] {
      match EvalStmt(ss[0])
      case Panicked(_) =>
      case Done(r) =>
        if !IsReturn(r) {
          ProgramUnwrapsBlock(ss[1..], r);
        }
    }
  }

  /** A program gives what the same statements give as a block, with a return signal unwrapped. */
  lemma ProgramIsUnwrappedBlock(p: Program, t: Token)
    ensures EvalProgram(p) == Unwrap(EvalBlock(BlockStatement(t, p.statements)))
  {
    ProgramUnwrapsBlock(p.statements, None);
  }

  /** Statements after one that returns are never evaluated: the block keeps the signal, the program yields its value. */
  lemma ReturnStops(s: Statement, rest: seq<Statement>, last: Option<Object>, w: Option<Object>)
    requires EvalStmt(s) == Value(ReturnValue(w))
    ensures EvalBlockFrom([s] + rest, last) == Value(ReturnValue(w))
    ensures EvalProgramFrom([s] + rest, last) == Done(w)
  {
    assert ([s] + rest)[0] == s;
  }

  // ---------------------------------------------------------------------------
  // Integer arithmetic against the mathematical integers

  /** Expressions of integer literals, unary `-` and binary `+ - *`: the operators that cannot panic. */
  predicate Arithmetic(e: Expression) {
    match e
    case IntegerLiteral(_, _) => true
    case PrefixExpression(_, operator, right) => operator == "-" && Arithmetic(right)
    case InfixExpression(_, left, operator, right) =>
      operator in {"+", "-", "*"} && Arithmetic(left) && Arithmetic(right)
    case _ => false
  }

  /** The value of an arithmetic expression over unbounded integers, an independent reference for Eval. */
  function Exact(e: Expression): int
    requires Arithmetic(e)
  {
    match e
    case IntegerLiteral(_, v) => v
    case PrefixExpression(_, _, right) => -Exact(right)
    case InfixExpression(_, left, operator, right) =>
      if operator == "+" then Exact(left) + Exact(right)
      else if operator == "-" then Exact(left) - Exact(right)
      else Exact(left) * Exact(right)
  }

  /** An arithmetic expression never panics, and it evaluates to the exact value wrapped to 64 bits. */
  lemma {:induction false} ArithmeticWraps(e: Expression)
    requires Arithmetic(e)
    ensures EvalExpr(e) == Value(Integer(Wrap(Exact(e))))
  {
    match e
    case IntegerLiteral(_, v) =>
    case PrefixExpression(_, _, right) =>
      ArithmeticWraps(right);
      NegationWraps(e);
    case InfixExpression(_, left, _, right) =>
      ArithmeticWraps(left);
      ArithmeticWraps(right);
      OperatorWraps(e);
  }

  /** The step of ArithmeticWraps for unary `-`. */
  lemma NegationWraps(e: Expression)
    requires e.PrefixExpression? && Arithmetic(e)
    requires EvalExpr(e.right) == Value(Integer(Wrap(Exact(e.right))))
    ensures EvalExpr(e) == Value(Integer(Wrap(Exact(e))))
  {
    var x := Exact(e.right);
    assert EvalExpr(e) == EvalMinus(Some(Integer(Wrap(x))));
    WrapNeg(x);
  }

  /** The step of ArithmeticWraps for a binary operator. */
  lemma OperatorWraps(e: Expression)
    requires e.InfixExpression? && Arithmetic(e)
    requires EvalExpr(e.left) == Value(Integer(Wrap(Exact(e.left))))
    requires EvalExpr(e.right) == Value(Integer(Wrap(Exact(e.right))))
    ensures EvalExpr(e) == Value(Integer(Wrap(Exact(e))))
  {
    var x, y := Exact(e.left), Exact(e.right);
    assert EvalExpr(e) == EvalIntInfix(e.operator, Wrap(x), Wrap(y));
    if e.operator == "+" {
      WrapAdd(x, y);
    } else if e.operator == "-" {
      WrapSub(x, y);
    } else {
      WrapMul(x, y);
    }
  }

  /** When no intermediate value leaves the int64 range the evaluator computes the exact value. */
  lemma ArithmeticExact(e: Expression)
    requires Arithmetic(e) && MIN <= Exact(e) <= MAX
    ensures EvalExpr(e) == Value(Integer(Exact(e)))
  {
    ArithmeticWraps(e);
  }

  // ---------------------------------------------------------------------------
  // Examples

  const tok: Token := Token(INT, "")

  function Int(v: Int64): Expression { IntegerLiteral(tok, v) }
  function Bool(b: bool): Expression { Expression.Boolean(tok, b) }
  function Infix(l: Expression, operator: string, r: Expression): Expression { InfixExpression(tok, l, operator, r) }
  function Block(ss: seq<Statement>): BlockStatement { BlockStatement(tok, ss) }
  function Return(e: Expression): Statement { ReturnStatement(tok, Some(e)) }
  function Expr(e: Expression): Statement { ExpressionStatement(tok, Some(e)) }

  /** `!5` is FALSE, `!!true` is TRUE, `-true` is NULL, and `5 / 0` panics. */
  lemma OperatorExamples()
    ensures EvalExpr(PrefixExpression(tok, "!", Int(5))) == Value(FALSE)
    ensures EvalExpr(PrefixExpression(tok, "!", PrefixExpression(tok, "!", Bool(true)))) == Value(TRUE)
    ensures EvalExpr(PrefixExpression(tok, "-", Bool(true))) == Value(NULL)
    ensures EvalExpr(Infix(Int(5), "/", Int(0))) == Panicked(DivideByZero)
    ensures EvalExpr(Infix(Int(-7), "/", Int(2))) == Value(Integer(-3))
  {
    assert EvalExpr(Infix(Int(-7), "/", Int(2))) == Value(Integer(Quo(-7, 2)));
    ExactArithmetic(-7, 2);
  }

  /** `true == true` is TRUE, `1 == true` is FALSE, and an identifier operand (nil) panics. */
  lemma EqualityExamples(id: Identifier)
    ensures EvalExpr(Infix(Bool(true), "==", Bool(true))) == Value(TRUE)
    ensures EvalExpr(Infix(Int(1), "==", Bool(true))) == Value(FALSE)
    ensures EvalExpr(Infix(Bool(false), "!=", Bool(true))) == Value(TRUE)
    ensures EvalExpr(Infix(Ident(id), "==", Int(1))) == Panicked(NilDereference)
  {
  }

  /** `if (false) { 10 }` is NULL, `if (0) { 10 } else { 20 }` is 10. */
  lemma IfExamples()
    ensures EvalExpr(IfExpression(tok, Bool(false), Block([Expr(Int(10))]), None)) == Value(NULL)
    ensures EvalExpr(IfExpression(tok, Int(0), Block([Expr(Int(10))]), Some(Block([Expr(Int(20))])))) ==
            Value(Integer(10))
  {
  }

  /** The inner `if (true) { return 10; }` followed by `return 1;`: the inner signal passes through both blocks. */
  function NestedReturn(): Program {
    Program([Expr(IfExpression(tok, Bool(true),
                               Block([Expr(IfExpression(tok, Bool(true), Block([Return(Int(10))]), None)),
                                      Return(Int(1))]),
                               None)),
             Expr(Int(99))])
  }

  /** The nested return yields 10: statements after it, in either block, are not evaluated. */
  lemma NestedReturnExample()
    ensures EvalProgram(NestedReturn()) == Value(Integer(10))
  {
    var inner := IfExpression(tok, Bool(true), Block([Return(Int(10))]), None);
    assert EvalStmt(Return(Int(10))) == Value(ReturnValue(Some(Integer(10))));
    ReturnStops(Return(Int(10)), [], None, Some(Integer(10)));
    assert EvalExpr(inner) == Value(ReturnValue(Some(Integer(10))));
    ReturnStops(Expr(inner), [Return(Int(1))], None, Some(Integer(10)));
    var outer := IfExpression(tok, Bool(true), Block([Expr(inner), Return(Int(1))]), None);
    assert [Expr(inner), Return(Int(1))] == [Expr(inner)] + [Return(Int(1))];
    assert EvalBlock(outer.consequence) == Value(ReturnValue(Some(Integer(10))));
    assert EvalExpr(outer) == EvalBlock(outer.consequence);
    assert NestedReturn().statements == [Expr(outer)] + [Expr(Int(99))];
    ReturnStops(Expr(outer), [Expr(Int(99))], None, Some(Integer(10)));
  }
}
