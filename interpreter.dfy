/**
 * The expression evaluator of the Kotlin interpreter (Interpreter.kt): literals, groupings, unary
 * and binary operators, truthiness and `stringify`. The Kotlin class has visitors for exactly
 * these four kinds of expression; `Evaluate` takes the trees made of them. A RuntimeError is the
 * `Err` of a Result.
 *
 * Numbers are host doubles (see Numbers); addition, comparison and the rest are the host's.
 */
module Interpreter {
  import opened Wrappers
  import opened TokenTypes
  import opened Ast
  import opened Numbers
  import opened Runtime

  const NumberOperandMessage := "Operand must be a number"
  const NumberOperandsMessage := "Operands must be numbers."
  const PlusOperandsMessage := "Operands must be two numbers or new strings."

  /** The expressions the interpreter has visitors for. */
  predicate Evaluable(e: Expr) {
    match e
    case Literal(_) => true
    case Grouping(inner) => Evaluable(inner)
    case Unary(_, right) => Evaluable(right)
    case Binary(left, _, right) => Evaluable(left) && Evaluable(right)
    case _ => false
  }

  /** The values an evaluable expression can produce: no functions, classes or instances. */
  predicate IsData(v: Value) {
    v.NilVal? || v.BoolVal? || v.NumVal? || v.StrVal?
  }

  /** `isTruthy`: `nil` and `false` are false; every other value is true. */
  function IsTruthy(v: Value): (b: bool)
    ensures !b <==> (v == NilVal || v == BoolVal(false))
  {
    match v
    case NilVal => false
    case BoolVal(b) => b
    case _ => true
  }

  /** `visitLiteralExpr`: the value the literal stores. A number literal holds the double its digits denote. */
  function LiteralToValue(l: LiteralValue, ops: NumberOps): (v: Value)
    ensures IsData(v)
    ensures l.NilValue? <==> v.NilVal?
    ensures l.BoolValue? ==> v == BoolVal(l.b)
    ensures l.StringValue? ==> v == StrVal(l.s)
    ensures l.NumberValue? ==> v == NumVal(ops.fromText(l.text))
  {
    match l
    case NilValue => NilVal
    case BoolValue(b) => BoolVal(b)
    case NumberValue(text) => NumVal(ops.fromText(text))
    case StringValue(s) => StrVal(s)
  }

  /** `visitUnaryExpr` once the operand is known: `!` negates truthiness, `-` needs a number, other operators give `nil`. */
  function EvalUnary(operator: Token, right: Value, ops: NumberOps): (r: Result<Value, RuntimeError>)
    ensures operator.kind == Bang ==> r == Ok(BoolVal(!IsTruthy(right)))
    ensures operator.kind == Minus ==> (r.Err? <==> !right.NumVal?)
    ensures operator.kind == Minus && r.Ok? ==> r.value == NumVal(ops.negate(right.n))
    ensures r.Err? ==> r.error == RuntimeError(operator, NumberOperandMessage)
    ensures operator.kind != Bang && operator.kind != Minus ==> r == Ok(NilVal)
  {
    match operator.kind
    case Bang => Ok(BoolVal(!IsTruthy(right)))
    case Minus =>
      if right.NumVal? then Ok(NumVal(ops.negate(right.n)))
      else Err(RuntimeError(operator, NumberOperandMessage))
    case _ => Ok(NilVal)
  }

  /** The operators that need two numbers: `- / *` and the comparisons. */
  predicate NumericOperator(kind: TokenType) {
    kind in {Minus, Slash, Star, Greater, GreaterEqual, Less, LessEqual}
  }

  /** `checkNumberOperands` followed by the host operation. */
  function Numeric(operator: Token, left: Value, right: Value, ops: NumberOps): (r: Result<Value, RuntimeError>)
    requires NumericOperator(operator.kind)
  {
    if !(left.NumVal? && right.NumVal?) then Err(RuntimeError(operator, NumberOperandsMessage))
    else
      var a := left.n;
      var b := right.n;
      match operator.kind
      case Minus => Ok(NumVal(ops.subtract(a, b)))
      case Slash => Ok(NumVal(ops.divide(a, b)))
      case Star => Ok(NumVal(ops.multiply(a, b)))
      case Greater => Ok(BoolVal(ops.less(b, a)))
      case GreaterEqual => Ok(BoolVal(ops.lessEqual(b, a)))
      case Less => Ok(BoolVal(ops.less(a, b)))
      case LessEqual => Ok(BoolVal(ops.lessEqual(a, b)))
  }

  /**
   * `visitBinaryExpr` once both operands are known. The numeric operators fail exactly when an
   * operand is not a number; `+` adds two numbers or joins two strings and fails otherwise;
   * `==` and `!=` never fail and are each other's negation; other operators give `nil`.
   */
  function EvalBinary(operator: Token, left: Value, right: Value, ops: NumberOps): (r: Result<Value, RuntimeError>)
    ensures NumericOperator(operator.kind) ==>
      && (r.Err? <==> !(left.NumVal? && right.NumVal?))
      && (r.Err? ==> r.error == RuntimeError(operator, NumberOperandsMessage))
      && (r.Ok? && operator.kind in {Minus, Slash, Star} ==> r.value.NumVal?)
      && (r.Ok? && operator.kind in {Greater, GreaterEqual, Less, LessEqual} ==> r.value.BoolVal?)
    ensures operator.kind == Plus ==>
      && (left.NumVal? && right.NumVal? ==> r == Ok(NumVal(ops.add(left.n, right.n))))
      && (left.StrVal? && right.StrVal? ==> r == Ok(StrVal(left.s + right.s)))
      && (r.Err? <==> !((left.NumVal? && right.NumVal?) || (left.StrVal? && right.StrVal?)))
      && (r.Err? ==> r.error == RuntimeError(operator, PlusOperandsMessage))
    ensures operator.kind == EqualEqual ==> r == Ok(BoolVal(left == right))
    ensures operator.kind == BangEqual ==> r == Ok(BoolVal(left != right))
    ensures !NumericOperator(operator.kind) && operator.kind !in {Plus, EqualEqual, BangEqual} ==> r == Ok(NilVal)
  {
    if NumericOperator(operator.kind) then Numeric(operator, left, right, ops)
    else
      match operator.kind
      case Plus =>
        if left.NumVal? && right.NumVal? then Ok(NumVal(ops.add(left.n, right.n)))
        else if left.StrVal? && right.StrVal? then Ok(StrVal(left.s + right.s))
        else Err(RuntimeError(operator, PlusOperandsMessage))
      case BangEqual => Ok(BoolVal(left != right))
      case EqualEqual => Ok(BoolVal(left == right))
      case _ => Ok(NilVal)
  }

  /** `evaluate`: operands first, the left one before the right one, then the operator. */
  function Evaluate(e: Expr, ops: NumberOps): Result<Value, RuntimeError>
    requires Evaluable(e)
    decreases e
  {
    match e
    case Literal(l) => Ok(LiteralToValue(l, ops))
    case Grouping(inner) => Evaluate(inner, ops)
    case Unary(operator, right) =>
      var r :- Evaluate(right, ops);
      EvalUnary(operator, r, ops)
    case Binary(left, operator, right) =>
      var l :- Evaluate(left, ops);
      var r :- Evaluate(right, ops);
      EvalBinary(operator, l, r, ops)
  }

  /** Whether the token is the operator of a unary or binary node of the tree. */
  predicate OperatorOf(e: Expr, token: Token) {
    match e
    case Grouping(inner) => OperatorOf(inner, token)
    case Unary(operator, right) => operator == token || OperatorOf(right, token)
    case Binary(left, operator, right) => operator == token || OperatorOf(left, token) || OperatorOf(right, token)
    case _ => false
  }

  /** Evaluating never yields a function, a class or an instance. */
  lemma {:induction false} EvaluateYieldsData(e: Expr, ops: NumberOps)
    requires Evaluable(e)
    ensures Evaluate(e, ops).Ok? ==> IsData(Evaluate(e, ops).value)
    decreases e
  {
    match e
    case Literal(_) =>
    case Grouping(inner) => EvaluateYieldsData(inner, ops);
    case Unary(_, right) => EvaluateYieldsData(right, ops);
    case Binary(left, _, right) =>
      EvaluateYieldsData(left, ops);
      EvaluateYieldsData(right, ops);
  }

  /** Every runtime error is one of the three operand checks, reported at an operator of the tree. */
  lemma {:induction false} EvaluateErrors(e: Expr, ops: NumberOps)
    requires Evaluable(e)
    ensures var r := Evaluate(e, ops);
      r.Err? ==> (OperatorOf(e, r.error.token)
        && r.error.message in {NumberOperandMessage, NumberOperandsMessage, PlusOperandsMessage})
    decreases e
  {
    match e
    case Literal(_) =>
    case Grouping(inner) => EvaluateErrors(inner, ops);
    case Unary(_, right) => EvaluateErrors(right, ops);
    case Binary(left, _, right) =>
      EvaluateErrors(left, ops);
      EvaluateErrors(right, ops);
  }

  /** Both operands are evaluated before the operator is checked: a failing left operand's error wins, then the right one's. */
  lemma OperandErrorsFirst(left: Expr, operator: Token, right: Expr, ops: NumberOps)
    requires Evaluable(left) && Evaluable(right)
    ensures Evaluate(left, ops).Err? ==> Evaluate(Binary(left, operator, right), ops) == Err(Evaluate(left, ops).error)
    ensures Evaluate(left, ops).Ok? && Evaluate(right, ops).Err? ==>
      Evaluate(Binary(left, operator, right), ops) == Err(Evaluate(right, ops).error)
  {
  }

  /** A grouping is transparent, and a literal evaluates to the value it stores. */
  lemma GroupingAndLiteral(inner: Expr, l: LiteralValue, ops: NumberOps)
    requires Evaluable(inner)
    ensures Evaluate(Grouping(inner), ops) == Evaluate(inner, ops)
    ensures Evaluate(Literal(l), ops) == Ok(LiteralToValue(l, ops))
  {
  }

  /** `x == x` is true for every operand that evaluates, NaN included, as boxed doubles compare by `equals`. */
  lemma EqualityIsReflexive(e: Expr, operator: Token, ops: NumberOps)
    requires Evaluable(e) && operator.kind == EqualEqual && Evaluate(e, ops).Ok?
    ensures Evaluate(Binary(e, operator, e), ops) == Ok(BoolVal(true))
  {
  }

  /** Whether a number's text ends in `.0`. */
  predicate EndsWithPointZero(text: string) {
    |text| >= 2 && text[|text| - 2..] == ".0"
  }

  /** The `.0` rule of `stringify`: a trailing `.0` is dropped, and nothing else changes. */
  function StripPointZero(text: string): (r: string)
    ensures EndsWithPointZero(text) ==> r + ".0" == text
    ensures !EndsWithPointZero(text) ==> r == text
  {
    if EndsWithPointZero(text) then text[..|text| - 2] else text
  }

  /** Whether the text has at most one `.`, as every `Double.toString` does. */
  predicate AtMostOnePoint(text: string) {
    forall i, j :: 0 <= i < j < |text| ==> !(text[i] == '.' && text[j] == '.')
  }

  /** Stripping a number's text that has at most one `.` leaves no `.0` at its end. */
  lemma StrippedTextEndsWithoutPointZero(text: string)
    requires AtMostOnePoint(text)
    ensures !EndsWithPointZero(StripPointZero(text))
  {
    if EndsWithPointZero(text) {
      var r := StripPointZero(text);
      assert text[|text| - 2] == '.';
      assert |r| >= 2 ==> r[|r| - 2] == text[|text| - 4];
    }
  }

  /** `stringify`: `nil`, a number's text without a trailing `.0`, or the value's own `toString`. */
  function Stringify(v: Value, ops: NumberOps): (s: string)
    ensures v.NilVal? ==> s == "nil"
    ensures v.NumVal? ==> s == StripPointZero(ops.toText(v.n))
    ensures v.BoolVal? ==> s == (if v.b then "true" else "false")
    ensures v.StrVal? ==> s == v.s
    ensures v.FunctionVal? ==> s == "<fn " + v.f.declaration.name.lexeme + ">"
    ensures v.ClassVal? ==> s == v.c.name
    ensures v.InstanceVal? ==> s == v.i.klass.name + " instance"
  {
    match v
    case NilVal => "nil"
    case NumVal(n) => StripPointZero(ops.toText(n))
    case BoolVal(b) => if b then "true" else "false"
    case StrVal(s) => s
    case FunctionVal(f) => f.ToString()
    case ClassVal(c) => c.ToString()
    case InstanceVal(i) => i.ToString()
  }
}
