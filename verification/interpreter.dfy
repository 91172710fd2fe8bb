/** The tree-walking evaluator for arithmetic (interpreter.py). Python's
    `None` result is `NoValue`; the exceptions Python raises while
    evaluating are `Error` outcomes. Numbers are exact reals. */
module Interpreter {
  import opened Tokens
  import opened Ast

  datatype RuntimeError = TypeError | ZeroDivisionError

  datatype Outcome = Value(v: real) | NoValue | Error(err: RuntimeError)

  /** The binary operators the interpreter implements. */
  const ArithOps: set<TokenType> := {PLUS, STAR, MINUS, SLASH}

  /** The prefix operators the interpreter implements (`~` is not one). */
  const SignOps: set<TokenType> := {PLUS, MINUS}

  /** Trees the interpreter fully implements: numeric literals, groupings,
      the four arithmetic operators and prefix `+`/`-`. */
  predicate Numeric(n: Node) {
    match n
    case Integer(_, _) => true
    case Float(_, _) => true
    case Grouping(e, _) => Numeric(e)
    case BinOp(op, l, r, _) => op.kind in ArithOps && Numeric(l) && Numeric(r)
    case UnOp(op, e, _) => op.kind in SignOps && Numeric(e)
    case _ => false
  }

  /** One of the four arithmetic operators on two numbers; a zero divisor
      raises. */
  function Arith(op: TokenType, l: real, r: real): (o: Outcome)
    requires op in ArithOps
    ensures o.Error? <==> op == SLASH && r == 0.0
    ensures o.Error? ==> o.err == ZeroDivisionError
    ensures op == PLUS ==> o == Value(l + r)
    ensures op == MINUS ==> o == Value(l - r)
    ensures op == STAR ==> o == Value(l * r)
    ensures op == SLASH && r != 0.0 ==> o.Value? && o.v * r == l
  {
    match op
    case PLUS => Value(l + r)
    case STAR => Value(l * r)
    case MINUS => Value(l - r)
    case SLASH => if r == 0.0 then Error(ZeroDivisionError) else Value(l / r)
  }

  /** A binary operator on what its operands evaluated to: the left
      operand's error first, then the right's; an operator outside the
      four yields no value, and an operand without a value is a type
      error. */
  function Combine(kind: TokenType, lv: Outcome, rv: Outcome): Outcome {
    if lv.Error? then lv
    else if rv.Error? then rv
    else if kind !in ArithOps then NoValue
    else if lv.NoValue? || rv.NoValue? then Error(TypeError)
    else Arith(kind, lv.v, rv.v)
  }

  /** `interpret`: a value exactly for the fully implemented trees, unless a
      division by zero intervenes; every other tree yields no value or a
      type error (Python's `None + 1`). */
  function Interpret(n: Node): (r: Outcome)
    ensures r.Value? ==> Numeric(n)
    ensures Numeric(n) ==> r.Value? || r == Error(ZeroDivisionError)
  {
    match n
    case Integer(i, _) => Value(i as real)
    case Float(f, _) => Value(f)
    case Grouping(e, _) => Interpret(e)
    case BinOp(op, l, rt, _) => Combine(op.kind, Interpret(l), Interpret(rt))
    case UnOp(op, e, _) =>
      var v := Interpret(e);
      if v.Error? then v
      else if op.kind !in SignOps then NoValue
      else if v.NoValue? then Error(TypeError)
      else if op.kind == PLUS then v
      else Value(-v.v)
    case _ => NoValue
  }

  /** The left operand is evaluated first: its error wins over anything on
      the right, and the right operand's error wins over the operator
      check. */
  lemma {:induction false} EvaluationOrder(op: Token, l: Node, r: Node, line: int)
    ensures Interpret(l).Error? ==> Interpret(BinOp(op, l, r, line)) == Interpret(l)
    ensures !Interpret(l).Error? && Interpret(r).Error?
            ==> Interpret(BinOp(op, l, r, line)) == Interpret(r)
    ensures op.kind !in ArithOps && !Interpret(l).Error? && !Interpret(r).Error?
            ==> Interpret(BinOp(op, l, r, line)) == NoValue
  {
  }

  /** What each kind of tree evaluates to: a literal its value, a grouping
      its inner expression, an arithmetic operator on two values the
      operation, and a sign operator on a value its sign rule. */
  lemma {:induction false} InterpretComputes(n: Node)
    ensures n.Integer? ==> Interpret(n) == Value(n.ival as real)
    ensures n.Float? ==> Interpret(n) == Value(n.fval)
    ensures n.Grouping? ==> Interpret(n) == Interpret(n.inner)
    ensures n.BinOp? && n.op.kind in ArithOps && Interpret(n.left).Value? && Interpret(n.right).Value? ==>
              Interpret(n) == Arith(n.op.kind, Interpret(n.left).v, Interpret(n.right).v)
    ensures n.UnOp? && n.op.kind == MINUS && Interpret(n.operand).Value? ==>
              Interpret(n) == Value(-Interpret(n.operand).v)
    ensures n.UnOp? && n.op.kind == PLUS && Interpret(n.operand).Value? ==> Interpret(n) == Interpret(n.operand)
  {
  }

  /** Removes every `Grouping` node from an arithmetic tree. */
  function StripGroupings(n: Node): (s: Node)
    ensures !s.Grouping?
    ensures Numeric(n) ==> Numeric(s)
  {
    match n
    case Grouping(e, _) => StripGroupings(e)
    case BinOp(op, l, r, line) => BinOp(op, StripGroupings(l), StripGroupings(r), line)
    case UnOp(op, e, line) => UnOp(op, StripGroupings(e), line)
    case _ => n
  }

  /** Parentheses are transparent: removing every grouping anywhere in the
      tree changes nothing about its outcome. */
  lemma {:induction false} GroupingsAreTransparent(n: Node)
    ensures Interpret(StripGroupings(n)) == Interpret(n)
  {
    match n
    case Grouping(e, _) =>
      GroupingsAreTransparent(e);
    case BinOp(op, l, r, line) =>
      GroupingsAreTransparent(l);
      GroupingsAreTransparent(r);
    case UnOp(op, e, line) =>
      GroupingsAreTransparent(e);
    case _ =>
  }

  /** Prefix `+` is the identity and prefix `-` negates, on any operand
      that has a value; `~` yields no value. */
  lemma {:induction false} SignOperators(op: Token, e: Node, line: int)
    requires Interpret(e).Value?
    ensures op.kind == PLUS ==> Interpret(UnOp(op, e, line)) == Interpret(e)
    ensures op.kind == MINUS ==> Interpret(UnOp(op, e, line)) == Value(-Interpret(e).v)
    ensures op.kind == NOT ==> Interpret(UnOp(op, e, line)) == NoValue
  {
  }
}
