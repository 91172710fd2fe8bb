/** Consequences of the parser's grammar (associativity and precedence) and
    its handling of literals, missing operands and surplus tokens. */
module ParserFacts {
  import opened Common
  import opened Tokens
  import opened Ast
  import opened Parser

  function Num(i: int): Token { Token(INTEGER, "", 1, IntLiteral(i)) }
  function Sym(k: TokenType): Token { Token(k, "", 1, NoLiteral) }

  /** An additive node never has an additive node as its right operand:
      `+` and `-` group to the left, and every operand on the right of one
      comes from `term`. */
  lemma {:induction false} AdditiveRightOperandIsTerm(e: Node)
    requires ExprShape(e) && e.BinOp? && e.op.kind in AddOps
    ensures TermShape(e.right)
    ensures !(e.right.BinOp? && e.right.op.kind in AddOps)
  {
    if TermShape(e) {
      assert UnaryShape(e) || e.op.kind in MulOps;
      assert !UnaryShape(e);
    }
    TermIsNotAdditive(e.right);
  }

  /** What `term` builds is never an additive node. */
  lemma {:induction false} TermIsNotAdditive(e: Node)
    requires TermShape(e)
    ensures !(e.BinOp? && e.op.kind in AddOps)
  {
    if e.BinOp? {
      assert !UnaryShape(e);
    }
  }

  /** A product's right operand is a single unary expression: `*` and `/`
      group to the left, and a sum or product on their right needs
      parentheses. */
  lemma {:induction false} MultiplicativeRightOperandIsUnary(e: Node)
    requires TermShape(e) && e.BinOp? && e.op.kind in MulOps
    ensures UnaryShape(e.right)
    ensures !e.right.BinOp?
  {
    assert !UnaryShape(e);
    if e.right.BinOp? {
      assert !PrimaryShape(e.right);
    }
  }

  /** Prefix operators are right-recursive: an operator in front of a
      unary expression wraps it in one more `UnOp`, so `--1` nests two. */
  lemma {:induction false} PrefixWrapsOperand(t: seq<Token>, pos: nat, e: Node, q: nat)
    requires pos < |t| && t[pos].kind in UnaryOps
    requires Unary(t, pos + 1) == Success(Parsed(Some(e), q))
    ensures Unary(t, pos) == Success(Parsed(Some(UnOp(t[pos], e, t[pos].line)), q))
  {
    assert UnaryShape(e);
    assert MatchAny(t, pos, [NOT, MINUS, PLUS]) == (true, pos + 1);
  }

  /** Every tree of the grammar's shape is an `Expr` node. */
  lemma {:induction false} ShapedIsExpr(e: Node)
    requires ExprShape(e)
    ensures IsExpr(e)
  {
    if !e.BinOp? {
      assert TermShape(e) && UnaryShape(e);
      if !e.UnOp? {
        assert PrimaryShape(e);
      }
    }
  }

  /** A tree returned by `expr` is an `Expr` node. */
  lemma {:induction false} ExprBuildsExpr(t: seq<Token>, pos: nat, e: Node, q: nat)
    requires pos <= |t| && Expr(t, pos) == Success(Parsed(Some(e), q))
    ensures IsExpr(e) && q <= |t|
  {
    assert ExprShape(e);
    ShapedIsExpr(e);
  }

  /** The sum loop folds to the left: after `a`, the operator and the next
      term `b` become the new left operand `a op b`, so `a-b-c` is
      `(a-b)-c`. */
  lemma {:induction false} SumFoldsLeft(t: seq<Token>, a: Node, pos: nat, b: Node, q: nat)
    requires pos < |t| && t[pos].kind in AddOps && IsExpr(a)
    requires Term(t, pos + 1) == Success(Parsed(Some(b), q))
    ensures ExprLoop(t, Some(a), pos) == ExprLoop(t, Some(BinOp(t[pos], a, b, t[pos].line)), q)
  {
    assert MatchAny(t, pos, [PLUS, MINUS]) == (true, pos + 1);
    assert ExprShape(b);
    ShapedIsExpr(b);
    assert MakeBinOp(t[pos], Some(a), Some(b)) == Success(BinOp(t[pos], a, b, t[pos].line));
  }

  /** The product loop folds to the left in the same way. */
  lemma {:induction false} ProductFoldsLeft(t: seq<Token>, a: Node, pos: nat, b: Node, q: nat)
    requires pos < |t| && t[pos].kind in MulOps && IsExpr(a)
    requires Factor(t, pos + 1) == Success(Parsed(Some(b), q))
    ensures TermLoop(t, Some(a), pos) == TermLoop(t, Some(BinOp(t[pos], a, b, t[pos].line)), q)
  {
    assert MatchAny(t, pos, [STAR, SLASH]) == (true, pos + 1);
    assert TermShape(b) && ExprShape(b);
    ShapedIsExpr(b);
    assert MakeBinOp(t[pos], Some(a), Some(b)) == Success(BinOp(t[pos], a, b, t[pos].line));
  }

  /** After `(`, `primary` parses an expression and hands it to the
      closing step. */
  lemma {:induction false} PrimaryOpensGroup(t: seq<Token>, pos: nat)
    requires pos < |t| && t[pos].kind == LPAREN
    ensures Expr(t, pos + 1).Failure? ==> Primary(t, pos) == Expr(t, pos + 1)
    ensures Expr(t, pos + 1).Success? ==> Primary(t, pos) == CloseGroup(t, Expr(t, pos + 1).value, t[pos].line)
  {
    assert Match(t, pos, INTEGER) == (false, pos) && Match(t, pos, FLOAT) == (false, pos);
    assert Match(t, pos, LPAREN) == (true, pos + 1);
  }

  /** `( e` without the closing `)` is an error. */
  lemma {:induction false} UnclosedParenthesis(t: seq<Token>, pos: nat, e: Node, q: nat)
    requires pos < |t| && t[pos].kind == LPAREN
    requires Expr(t, pos + 1) == Success(Parsed(Some(e), q))
    requires !(q < |t| && t[q].kind == RPAREN)
    ensures Primary(t, pos) == Failure(RParenExpected)
  {
    PrimaryOpensGroup(t, pos);
  }

  /** Nothing to parse yields nothing. */
  lemma {:induction false} EmptyYieldsNothing()
    ensures Parse([]) == Success(None)
  {
  }

  /** Prefix operators with nothing after them fail in the `UnOp`
      constructor, which rejects the missing operand: the innermost one
      finds no primary, and the outer ones pass its error on. */
  lemma {:induction false} PrefixWithoutOperand(t: seq<Token>, pos: nat)
    requires pos < |t| && forall i | pos <= i < |t| :: t[i].kind in UnaryOps
    ensures Unary(t, pos) == Failure(Malformed(AssertionError("operand")))
    ensures pos == 0 ==> Parse(t) == Failure(Malformed(AssertionError("operand")))
    decreases |t| - pos
  {
    assert MatchAny(t, pos, [NOT, MINUS, PLUS]) == (true, pos + 1);
    if pos + 1 < |t| {
      PrefixWithoutOperand(t, pos + 1);
    } else {
      assert Unary(t, pos + 1) == Success(Parsed(None, pos + 1));
    }
    if pos == 0 {
      assert Factor(t, 0) == Unary(t, 0);
      assert Term(t, 0) == Failure(Malformed(AssertionError("operand")));
    }
  }

  /** `parse` yields nothing, without an error, exactly when the first
      token can start no expression: the input is empty, or its first
      token is neither a literal, `(`, a prefix operator, nor `*` or `/`
      (which fail for want of a left operand). */
  lemma {:induction false} NothingParsedIff(t: seq<Token>)
    ensures Parse(t) == Success(None) <==>
              |t| == 0 || t[0].kind !in {INTEGER, FLOAT, LPAREN, NOT, MINUS, PLUS, STAR, SLASH}
  {
    if |t| == 0 || t[0].kind !in {INTEGER, FLOAT, LPAREN, NOT, MINUS, PLUS, STAR, SLASH} {
      assert MatchAny(t, 0, [NOT, MINUS, PLUS]).0 == false;
      assert Unary(t, 0) == Success(Parsed(None, 0));
      assert Term(t, 0) == Success(Parsed(None, 0));
    } else if t[0].kind in UnaryOps {
      assert MatchAny(t, 0, [NOT, MINUS, PLUS]) == (true, 1);
      assert Unary(t, 0).Success? ==> Unary(t, 0).value.node.Some?;
      PrefixNotEmpty(t);
    } else if t[0].kind in MulOps {
      assert Unary(t, 0) == Success(Parsed(None, 0));
      assert Term(t, 0).Failure?;
    } else {
      assert Unary(t, 0) == Primary(t, 0);
      PrefixNotEmpty(t);
    }
  }

  /** When the first unary expression is a tree, so is the parse. */
  lemma {:induction false} PrefixNotEmpty(t: seq<Token>)
    requires |t| > 0
    requires Unary(t, 0).Success? ==> Unary(t, 0).value.node.Some?
    ensures Parse(t) != Success(None)
  {
    if Term(t, 0).Success? {
      assert Term(t, 0).value.node.Some?;
    }
  }

  /** `1 )`: the surplus `)` is never looked at. */
  lemma {:induction false} TrailingTokensIgnored()
    ensures Parse([Num(1), Sym(RPAREN)]) == Success(Some(Integer(1, 1)))
  {
    var t := [Num(1), Sym(RPAREN)];
    LiteralExpr(t, 0, 1);
  }

  /** A numeric literal is a unary expression on its own: an `Integer`
      node of the token's value, on the token's line. */
  lemma {:induction false} LiteralUnary(t: seq<Token>, pos: nat, i: int)
    requires pos < |t| && t[pos].kind == INTEGER && t[pos].literal == IntLiteral(i)
    ensures Unary(t, pos) == Success(Parsed(Some(Integer(i, t[pos].line)), pos + 1))
  {
    assert Primary(t, pos) == Success(Parsed(Some(Integer(i, t[pos].line)), pos + 1));
  }

  /** A numeric literal is a factor on its own. */
  lemma {:induction false} LiteralFactor(t: seq<Token>, pos: nat, i: int)
    requires pos < |t| && t[pos].kind == INTEGER && t[pos].literal == IntLiteral(i)
    ensures Factor(t, pos) == Success(Parsed(Some(Integer(i, t[pos].line)), pos + 1))
  {
    LiteralUnary(t, pos, i);
  }

  /** A numeric literal followed by anything but `*` or `/` is a whole term. */
  lemma {:induction false} LiteralTerm(t: seq<Token>, pos: nat, i: int)
    requires pos < |t| && t[pos].kind == INTEGER && t[pos].literal == IntLiteral(i)
    requires pos + 1 < |t| ==> t[pos + 1].kind !in MulOps
    ensures Term(t, pos) == Success(Parsed(Some(Integer(i, t[pos].line)), pos + 1))
  {
    LiteralFactor(t, pos, i);
  }

  /** A numeric literal followed by no operator is a whole expression. */
  lemma {:induction false} LiteralExpr(t: seq<Token>, pos: nat, i: int)
    requires pos < |t| && t[pos].kind == INTEGER && t[pos].literal == IntLiteral(i)
    requires pos + 1 < |t| ==> t[pos + 1].kind !in MulOps + AddOps
    ensures Expr(t, pos) == Success(Parsed(Some(Integer(i, t[pos].line)), pos + 1))
  {
    LiteralTerm(t, pos, i);
  }
}
