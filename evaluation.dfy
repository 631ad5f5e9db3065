/**
 * The expression evaluator: literals, groupings, prefix operators and the
 * arithmetic operators, with the host's failures made explicit. Numbers stay
 * symbolic: a result records which operation made it, not its IEEE value.
 */
module Evaluation {
  import opened Tokens
  import opened Outcomes
  import opened Syntax
  import opened Runtime

  /** Null and false are falsey; every other value, 0 and "" included, is truthy. */
  function IsTruthy(v: Value): (truthy: bool)
    ensures !truthy <==> v == Nil || v == Bool(false)
    ensures v.Bool? ==> truthy == v.b
  {
    if v.Nil? then false
    else if v.Bool? then v.b
    else true
  }

  /** The runtime value a literal node stores. */
  function FromLiteral(literal: LiteralValue): (v: Value)
    ensures literal.NilLiteral? <==> v.Nil?
    ensures literal.BoolLiteral? <==> v.Bool?
    ensures literal.NumberLiteral? <==> v.Num?
    ensures literal.StringLiteral? <==> v.Str?
    ensures literal.BoolLiteral? ==> v == Bool(literal.b)
    ensures literal.NumberLiteral? ==> v == Num(literal.n)
    ensures literal.StringLiteral? ==> v == Str(literal.s)
  {
    match literal
    case NilLiteral => Nil
    case BoolLiteral(b) => Bool(b)
    case NumberLiteral(n) => Num(n)
    case StringLiteral(s) => Str(s)
  }

  /** Unboxing to a number: null is a null reference, anything but a number an invalid cast. */
  function AsNumber(v: Value): (r: Result<Number>)
    ensures r.Ok? <==> v.Num?
    ensures v.Num? ==> r == Ok(v.n)
    ensures v.Nil? ==> r == Err(Host(NullReference))
    ensures !v.Nil? && !v.Num? ==> r == Err(Host(InvalidCast))
  {
    match v
    case Num(n) => Ok(n)
    case Nil => Err(Host(NullReference))
    case _ => Err(Host(InvalidCast))
  }

  /** The values an expression without variables, calls or objects can have. */
  predicate Plain(v: Value) {
    v.Nil? || v.Bool? || v.Num? || v.Str?
  }

  /**
   * A prefix operator applied to its evaluated operand: `!` negates the
   * operand's truthiness and never fails; `-` succeeds exactly on a number, and
   * null and other operands fail differently; any other operator gives null.
   */
  function EvalUnary(operator: Token, right: Value): (r: Result<Value>)
    ensures operator.kind == BANG ==> r.Ok? && r.value.Bool? && IsTruthy(r.value) == !IsTruthy(right)
    ensures operator.kind == MINUS ==> (r.Ok? <==> right.Num?)
    ensures operator.kind == MINUS && right.Num? ==> r == Ok(Num(Negated(right.n)))
    ensures operator.kind == MINUS && right.Nil? ==> r == Err(Host(NullReference))
    ensures operator.kind == MINUS && !right.Nil? && !right.Num? ==> r == Err(Host(InvalidCast))
    ensures operator.kind !in [BANG, MINUS] ==> r == Ok(Nil)
    ensures r.Ok? ==> Plain(r.value)
  {
    match operator.kind
    case BANG => Ok(Bool(!IsTruthy(right)))
    case MINUS =>
      var n :- AsNumber(right);
      Ok(Num(Negated(n)))
    case _ => Ok(Nil)
  }

  /**
   * `+` on two evaluated operands: the type tests read the left operand's type
   * first and the right one's only when the left is a number or a string.
   * Any other combination leaves the switch without a value. It succeeds
   * exactly on two numbers (their sum) or two strings (their concatenation).
   */
  function Plus(left: Value, right: Value): (r: Result<Value>)
    ensures r.Ok? <==> (left.Num? && right.Num?) || (left.Str? && right.Str?)
    ensures left.Num? && right.Num? ==> r == Ok(Num(Sum(left.n, right.n)))
    ensures left.Str? && right.Str? ==> r == Ok(Str(left.s + right.s))
    ensures left.Nil? ==> r == Err(Host(NullReference))
  {
    if left.Nil? then Err(Host(NullReference))
    else if left.Num? && right.Nil? then Err(Host(NullReference))
    else if left.Num? && right.Num? then Ok(Num(Sum(left.n, right.n)))
    else if left.Str? && right.Nil? then Err(Host(NullReference))
    else if left.Str? && right.Str? then Ok(Str(left.s + right.s))
    else Err(Host(MissingReturn))
  }

  /**
   * `-`, `*` and `/`: both operands unboxed to numbers, the left one first.
   * They succeed exactly on two numbers, with a number; otherwise the left
   * operand's failure, when it has one, is the one raised.
   */
  function Arithmetic(kind: TokenType, left: Value, right: Value): (r: Result<Value>)
    requires kind in [MINUS, SLASH, STAR]
    ensures r.Ok? <==> left.Num? && right.Num?
    ensures r.Ok? ==> r.value.Num?
    ensures kind == MINUS && left.Num? && right.Num? ==> r == Ok(Num(Difference(left.n, right.n)))
    ensures kind == SLASH && left.Num? && right.Num? ==> r == Ok(Num(Quotient(left.n, right.n)))
    ensures kind == STAR && left.Num? && right.Num? ==> r == Ok(Num(Product(left.n, right.n)))
    ensures !left.Num? ==> r == Err(AsNumber(left).fault)
    ensures left.Num? && !right.Num? ==> r == Err(AsNumber(right).fault)
  {
    var l :- AsNumber(left);
    var r :- AsNumber(right);
    Ok(Num(match kind
           case MINUS => Difference(l, r)
           case SLASH => Quotient(l, r)
           case _ => Product(l, r)))
  }

  /**
   * A binary operator applied to its evaluated operands; one without a case
   * leaves the switch without a value. Every failure is a host exception,
   * and a success is a number or a string.
   */
  function EvalBinary(operator: Token, left: Value, right: Value): (r: Result<Value>)
    ensures operator.kind == PLUS ==> r == Plus(left, right)
    ensures operator.kind in [MINUS, SLASH, STAR] ==> r == Arithmetic(operator.kind, left, right)
    ensures operator.kind !in [PLUS, MINUS, SLASH, STAR] ==> r == Err(Host(MissingReturn))
    ensures r.Ok? ==> r.value.Num? || r.value.Str?
    ensures r.Err? ==> r.fault.Host?
  {
    match operator.kind
    case PLUS => Plus(left, right)
    case MINUS => Arithmetic(MINUS, left, right)
    case SLASH => Arithmetic(SLASH, left, right)
    case STAR => Arithmetic(STAR, left, right)
    case _ => Err(Host(MissingReturn))
  }

  /**
   * Evaluates an expression: both operands of a binary node, left then right,
   * before its operator. The result is never a function, class or instance,
   * and no failure is a Lox runtime error: every one is a host exception.
   */
  function Evaluate(e: Expr): (r: Result<Value>)
    requires Core(e)
    ensures r.Ok? ==> Plain(r.value)
    ensures r.Err? ==> r.fault.Host?
  {
    match e
    case Binary(left, operator, right) =>
      var l :- Evaluate(left);
      var r :- Evaluate(right);
      EvalBinary(operator, l, r)
    case Grouping(inner) => Evaluate(inner)
    case Literal(literal) => Ok(FromLiteral(literal))
    case Unary(operator, right) =>
      var r :- Evaluate(right);
      EvalUnary(operator, r)
  }

  /** A failing left operand stops a binary node before its right operand and its operator matter. */
  lemma LeftFailureFirst(left: Expr, operator: Token, right: Expr)
    requires Core(left) && Core(right)
    requires Evaluate(left).Err?
    ensures Evaluate(Binary(left, operator, right)) == Err(Evaluate(left).fault)
  {
  }

  /** Expressions built only from number literals, `-`, `+`, `*`, `/`, unary `-` and grouping. */
  predicate Numeric(e: Expr) {
    match e
    case Binary(l, op, r) => op.kind in [MINUS, PLUS, SLASH, STAR] && Numeric(l) && Numeric(r)
    case Grouping(x) => Numeric(x)
    case Literal(literal) => literal.NumberLiteral?
    case Unary(op, x) => op.kind == MINUS && Numeric(x)
    case _ => false
  }

  /** Arithmetic over number literals never fails and always yields a number. */
  lemma {:induction false} NumericEvaluates(e: Expr)
    requires Numeric(e)
    ensures Core(e) && Evaluate(e).Ok? && Evaluate(e).value.Num?
  {
    match e
    case Binary(l, op, r) =>
      NumericEvaluates(l);
      NumericEvaluates(r);
    case Grouping(x) =>
      NumericEvaluates(x);
    case Literal(_) =>
    case Unary(_, x) =>
      NumericEvaluates(x);
  }

  /** Expressions built only from string literals, `+` and grouping. */
  predicate Concatenation(e: Expr) {
    match e
    case Binary(l, op, r) => op.kind == PLUS && Concatenation(l) && Concatenation(r)
    case Grouping(x) => Concatenation(x)
    case Literal(literal) => literal.StringLiteral?
    case _ => false
  }

  /** The string literals of an expression, left to right, joined. */
  function Joined(e: Expr): string
    requires Concatenation(e)
  {
    match e
    case Binary(l, _, r) => Joined(l) + Joined(r)
    case Grouping(x) => Joined(x)
    case Literal(literal) => literal.s
  }

  /** A `+` chain of string literals evaluates to their concatenation in source order. */
  lemma {:induction false} ConcatenationEvaluates(e: Expr)
    requires Concatenation(e)
    ensures Core(e) && Evaluate(e) == Ok(Str(Joined(e)))
  {
    match e
    case Binary(l, op, r) =>
      ConcatenationEvaluates(l);
      ConcatenationEvaluates(r);
    case Grouping(x) =>
      ConcatenationEvaluates(x);
    case Literal(_) =>
  }
}
