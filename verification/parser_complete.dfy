/** The converse of the parser's contracts: every token list that spells a
    tree of the grammar's shape parses, and the parser builds exactly that
    tree, with its operator tokens and lines taken from the tokens read.
    Together with `Parser.Parse`, which says a returned tree spells the
    tokens it was read from, the parser accepts exactly the spellings of
    the grammar's trees. */
module ParserCompleteness {
  import opened Common
  import opened Tokens
  import opened Ast
  import opened Parser
  import opened ParserFacts

  type Spelling = seq<(TokenType, Literal)>

  /** The number of tokens in the spelling of a tree. */
  function Width(e: Node): nat
    decreases e
  {
    match e
    case Integer(_, _) => 1
    case Float(_, _) => 1
    case Grouping(inner, _) => Width(inner) + 2
    case UnOp(_, operand, _) => 1 + Width(operand)
    case BinOp(_, l, r, _) => Width(l) + 1 + Width(r)
    case _ => 0
  }

  /** `toks[pos..end]` spells `e`, told node by node: each literal token
      carries the literal's value, each operator token reads as the
      operator, and the parentheses of a grouping sit at both ends. */
  predicate Spells(toks: seq<Token>, pos: nat, e: Node, end: nat)
    decreases e
  {
    && pos <= end <= |toks| && end == pos + Width(e)
    && match e
       case Integer(i, _) => Sig(toks[pos]) == (INTEGER, IntLiteral(i))
       case Float(f, _) => Sig(toks[pos]) == (FLOAT, FloatLiteral(f))
       case Grouping(inner, _) =>
         toks[pos].kind == LPAREN && toks[end - 1].kind == RPAREN && Spells(toks, pos + 1, inner, end - 1)
       case UnOp(op, operand, _) => Sig(toks[pos]) == Sig(op) && Spells(toks, pos + 1, operand, end)
       case BinOp(op, l, r, _) =>
         var m := pos + Width(l);
         Sig(toks[m]) == Sig(op) && Spells(toks, pos, l, m) && Spells(toks, m + 1, r, end)
       case _ => true
  }

  /** The token at `i`, or `dflt` past the end. */
  function TokenAt(toks: seq<Token>, i: nat, dflt: Token): Token {
    if i < |toks| then toks[i] else dflt
  }

  /** The line of the token at `i`, or 0 past the end. */
  function LineAt(toks: seq<Token>, i: nat): int {
    if i < |toks| then toks[i].line else 0
  }

  /** The tree the parser builds when it reads the spelling of `e` from
      `pos` on: the structure and values of `e`, with each operator token
      and each line taken from the tokens read. */
  function Rebuilt(toks: seq<Token>, pos: nat, e: Node): Node
    decreases e
  {
    match e
    case Integer(i, _) => Integer(i, LineAt(toks, pos))
    case Float(f, _) => Float(f, LineAt(toks, pos))
    case Grouping(inner, _) => Grouping(Rebuilt(toks, pos + 1, inner), LineAt(toks, pos))
    case UnOp(op, operand, _) =>
      var t := TokenAt(toks, pos, op);
      UnOp(t, Rebuilt(toks, pos + 1, operand), t.line)
    case BinOp(op, l, r, _) =>
      var m := pos + Width(l);
      var t := TokenAt(toks, m, op);
      BinOp(t, Rebuilt(toks, pos, l), Rebuilt(toks, m + 1, r), t.line)
    case _ => e
  }

  // ---------------------------------------------------------------------
  // Reading spellings off the tokens

  /** What the parser reads of a stretch of tokens has one entry per token. */
  lemma {:induction false} SigsLength(toks: seq<Token>, a: nat, b: nat)
    requires a <= b <= |toks|
    ensures |Sigs(toks, a, b)| == b - a
    decreases b - a
  {
    if a < b {
      SigsLength(toks, a + 1, b);
    }
  }

  /** A stretch that reads as `x + y` splits into a stretch reading `x`
      followed by one reading `y`. */
  lemma {:induction false} SigsSplit(toks: seq<Token>, a: nat, b: nat, x: Spelling, y: Spelling)
    requires a <= b <= |toks| && Sigs(toks, a, b) == x + y
    ensures a + |x| <= b
    ensures Sigs(toks, a, a + |x|) == x && Sigs(toks, a + |x|, b) == y
  {
    SigsLength(toks, a, b);
    var m := a + |x|;
    SigsAppend(toks, a, m, b);
    SigsLength(toks, a, m);
    assert Sigs(toks, a, m) == (x + y)[..|x|];
    assert Sigs(toks, m, b) == (x + y)[|x|..];
  }

  /** A stretch that reads as one entry is one token with that reading. */
  lemma {:induction false} SigsSingle(toks: seq<Token>, a: nat, b: nat, s: (TokenType, Literal))
    requires a <= b <= |toks| && Sigs(toks, a, b) == [s]
    ensures b == a + 1 && Sig(toks[a]) == s
  {
    SigsLength(toks, a, b);
    assert Sigs(toks, a + 1, b) == [];
    assert Sigs(toks, a, b) == [Sig(toks[a])] + Sigs(toks, a + 1, b);
    assert Sigs(toks, a, b)[0] == Sig(toks[a]);
  }

  /** The tokens spelling a grouping: `(`, the inner expression's spelling,
      and `)` just before `end`. */
  lemma {:induction false} GroupTokens(toks: seq<Token>, pos: nat, e: Node, end: nat)
    requires pos <= end <= |toks| && e.Grouping? && Sigs(toks, pos, end) == Spell(e)
    ensures pos + 2 + |Spell(e.inner)| == end
    ensures toks[pos].kind == LPAREN && toks[end - 1].kind == RPAREN
    ensures Sigs(toks, pos + 1, end - 1) == Spell(e.inner)
  {
    var lp, rp := (LPAREN, NoLiteral), (RPAREN, NoLiteral);
    assert Spell(e) == [lp] + (Spell(e.inner) + [rp]);
    SigsSplit(toks, pos, end, [lp], Spell(e.inner) + [rp]);
    SigsSingle(toks, pos, pos + 1, lp);
    SigsSplit(toks, pos + 1, end, Spell(e.inner), [rp]);
    SigsSingle(toks, pos + 1 + |Spell(e.inner)|, end, rp);
  }

  /** The tokens spelling a prefix operator node: the operator, then its
      operand's spelling. */
  lemma {:induction false} PrefixTokens(toks: seq<Token>, pos: nat, e: Node, end: nat)
    requires pos <= end <= |toks| && e.UnOp? && Sigs(toks, pos, end) == Spell(e)
    ensures pos < end && toks[pos].kind == e.op.kind && Sig(toks[pos]) == Sig(e.op)
    ensures Sigs(toks, pos + 1, end) == Spell(e.operand)
  {
    SigsSplit(toks, pos, end, [Sig(e.op)], Spell(e.operand));
    SigsSingle(toks, pos, pos + 1, Sig(e.op));
  }

  /** The tokens spelling a binary node: its left operand's spelling, the
      operator, and its right operand's spelling. */
  lemma {:induction false} SplitAtOperator(toks: seq<Token>, pos: nat, e: Node, end: nat)
    requires pos <= end <= |toks| && e.BinOp? && Sigs(toks, pos, end) == Spell(e)
    ensures pos + |Spell(e.left)| < end
    ensures Sigs(toks, pos, pos + |Spell(e.left)|) == Spell(e.left)
    ensures Sigs(toks, pos + |Spell(e.left)| + 1, end) == Spell(e.right)
    ensures toks[pos + |Spell(e.left)|].kind == e.op.kind && Sig(toks[pos + |Spell(e.left)|]) == Sig(e.op)
  {
    assert Spell(e) == Spell(e.left) + ([Sig(e.op)] + Spell(e.right));
    SigsSplit(toks, pos, end, Spell(e.left), [Sig(e.op)] + Spell(e.right));
    var m := pos + |Spell(e.left)|;
    SigsSplit(toks, m, end, [Sig(e.op)], Spell(e.right));
    SigsSingle(toks, m, m + 1, Sig(e.op));
  }

  /** A stretch of tokens whose reading is the spelling of `e` spells `e`
      node by node. */
  lemma {:induction false} SpellsFromSigs(toks: seq<Token>, pos: nat, e: Node, end: nat)
    requires pos <= end <= |toks| && Sigs(toks, pos, end) == Spell(e)
    ensures Spells(toks, pos, e, end)
    decreases e, 1
  {
    match e
    case Integer(_, _) =>
      SigsSingle(toks, pos, end, Spell(e)[0]);
    case Float(_, _) =>
      SigsSingle(toks, pos, end, Spell(e)[0]);
    case Grouping(inner, _) =>
      GroupTokens(toks, pos, e, end);
      SpellsFromSigs(toks, pos + 1, inner, end - 1);
    case UnOp(op, operand, _) =>
      PrefixTokens(toks, pos, e, end);
      SpellsFromSigs(toks, pos + 1, operand, end);
    case BinOp(_, _, _, _) =>
      SpellsFromSigsBinary(toks, pos, e, end);
    case _ =>
      SigsLength(toks, pos, end);
  }

  /** The binary case of `SpellsFromSigs`. */
  lemma {:induction false} SpellsFromSigsBinary(toks: seq<Token>, pos: nat, e: Node, end: nat)
    requires e.BinOp? && pos <= end <= |toks| && Sigs(toks, pos, end) == Spell(e)
    ensures Spells(toks, pos, e, end)
    decreases e, 0
  {
    SplitAtOperator(toks, pos, e, end);
    var m := pos + |Spell(e.left)|;
    SpellsFromSigs(toks, pos, e.left, m);
    SpellsFromSigs(toks, m + 1, e.right, end);
  }

  // ---------------------------------------------------------------------
  // The rebuilt tree

  /** The rebuilt tree has the spelling it was read from. */
  lemma {:induction false} RebuiltSpell(toks: seq<Token>, pos: nat, e: Node, end: nat)
    requires Spells(toks, pos, e, end)
    ensures Spell(Rebuilt(toks, pos, e)) == Spell(e)
    decreases e, 1
  {
    match e
    case Grouping(inner, _) =>
      RebuiltSpell(toks, pos + 1, inner, end - 1);
    case UnOp(op, operand, _) =>
      RebuiltSpell(toks, pos + 1, operand, end);
    case BinOp(_, _, _, _) =>
      RebuiltSpellBinary(toks, pos, e, end);
    case _ =>
  }

  /** The binary case of `RebuiltSpell`. */
  lemma {:induction false} RebuiltSpellBinary(toks: seq<Token>, pos: nat, e: Node, end: nat)
    requires e.BinOp? && Spells(toks, pos, e, end)
    ensures Spell(Rebuilt(toks, pos, e)) == Spell(e)
    decreases e, 0
  {
    var m := pos + Width(e.left);
    RebuiltSpell(toks, pos, e.left, m);
    RebuiltSpell(toks, m + 1, e.right, end);
  }

  /** The rebuilt tree keeps the grammar's shape of the tree it spells. */
  lemma {:induction false} RebuiltShape(toks: seq<Token>, pos: nat, e: Node, end: nat)
    requires Spells(toks, pos, e, end)
    ensures UnaryShape(e) ==> UnaryShape(Rebuilt(toks, pos, e))
    ensures TermShape(e) ==> TermShape(Rebuilt(toks, pos, e))
    ensures ExprShape(e) ==> ExprShape(Rebuilt(toks, pos, e))
    decreases e, 1
  {
    match e
    case Grouping(inner, _) =>
      RebuiltShape(toks, pos + 1, inner, end - 1);
    case UnOp(_, _, _) =>
      RebuiltShapeUnary(toks, pos, e, end);
    case BinOp(_, _, _, _) =>
      RebuiltShapeBinary(toks, pos, e, end);
    case _ =>
  }

  /** The prefix-operator case of `RebuiltShape`. */
  lemma {:induction false} RebuiltShapeUnary(toks: seq<Token>, pos: nat, e: Node, end: nat)
    requires e.UnOp? && Spells(toks, pos, e, end)
    ensures UnaryShape(e) ==> UnaryShape(Rebuilt(toks, pos, e))
    ensures TermShape(e) ==> TermShape(Rebuilt(toks, pos, e))
    ensures ExprShape(e) ==> ExprShape(Rebuilt(toks, pos, e))
    decreases e, 0
  {
    RebuiltShape(toks, pos + 1, e.operand, end);
  }

  /** The binary case of `RebuiltShape`. */
  lemma {:induction false} RebuiltShapeBinary(toks: seq<Token>, pos: nat, e: Node, end: nat)
    requires e.BinOp? && Spells(toks, pos, e, end)
    ensures UnaryShape(e) ==> UnaryShape(Rebuilt(toks, pos, e))
    ensures TermShape(e) ==> TermShape(Rebuilt(toks, pos, e))
    ensures ExprShape(e) ==> ExprShape(Rebuilt(toks, pos, e))
    decreases e, 0
  {
    var m := pos + Width(e.left);
    RebuiltShape(toks, pos, e.left, m);
    RebuiltShape(toks, m + 1, e.right, end);
  }

  // ---------------------------------------------------------------------
  // Single steps of the parser

  /** `(` is no prefix operator, so `unary` there is `primary`. */
  lemma {:induction false} UnaryAtParen(toks: seq<Token>, pos: nat)
    requires pos < |toks| && toks[pos].kind == LPAREN
    ensures Unary(toks, pos) == Primary(toks, pos)
  {
    assert MatchAny(toks, pos, [NOT, MINUS, PLUS]).0 == false;
  }

  /** A `)` after an expression closes the group. */
  lemma {:induction false} CloseGroupCloses(toks: seq<Token>, inner: Node, m: nat, line: int, g: Node, end: nat)
    requires m < |toks| && toks[m].kind == RPAREN && IsExpr(inner)
    requires g == Grouping(inner, line) && end == m + 1
    ensures CloseGroup(toks, Parsed(Some(inner), m), line) == Success(Parsed(Some(g), end))
  {
  }

  /** `primary` at `(` whose expression `inner` ends at a `)` reads the
      grouping of `inner`. */
  lemma {:induction false} ParenPrimary(toks: seq<Token>, pos: nat, inner: Node, m: nat, g: Node, end: nat)
    requires pos < m < |toks| && toks[pos].kind == LPAREN && toks[m].kind == RPAREN && IsExpr(inner)
    requires Expr(toks, pos + 1) == Success(Parsed(Some(inner), m))
    requires g == Grouping(inner, toks[pos].line) && end == m + 1
    ensures Primary(toks, pos) == Success(Parsed(Some(g), end))
  {
    CloseGroupCloses(toks, inner, m, toks[pos].line, g, end);
    PrimaryOpensGroup(toks, pos);
  }

  /** After a unary expression, `term` enters its product loop. */
  lemma {:induction false} TermAfterUnary(toks: seq<Token>, pos: nat, n: Node, q: nat)
    requires pos <= |toks| && Unary(toks, pos) == Success(Parsed(Some(n), q))
    ensures Term(toks, pos) == TermLoop(toks, Some(n), q)
  {
    assert Factor(toks, pos) == Unary(toks, pos);
  }

  /** After a term, `expr` enters its sum loop. */
  lemma {:induction false} ExprAfterTerm(toks: seq<Token>, pos: nat, n: Node, q: nat)
    requires pos <= |toks| && Term(toks, pos) == Success(Parsed(Some(n), q))
    ensures Expr(toks, pos) == ExprLoop(toks, Some(n), q)
  {
  }

  /** One round of the product loop: a term read up to the operator at
      `m`, then the unary expression after it. */
  lemma {:induction false} ProductStep(toks: seq<Token>, pos: nat, left: Node, m: nat, right: Node, mid: nat, built: Node)
    requires pos <= m < |toks| && toks[m].kind in MulOps && TermShape(left)
    requires Term(toks, pos) == TermLoop(toks, Some(left), m)
    requires Unary(toks, m + 1) == Success(Parsed(Some(right), mid))
    requires built == BinOp(toks[m], left, right, toks[m].line)
    ensures Term(toks, pos) == TermLoop(toks, Some(built), mid)
  {
    assert Factor(toks, m + 1) == Unary(toks, m + 1);
    ShapedIsExpr(left);
    ProductFoldsLeft(toks, left, m, right, mid);
  }

  /** One round of the sum loop: an expression read up to the operator at
      `m`, then the term after it, which no `*` or `/` follows. */
  lemma {:induction false} SumStep(toks: seq<Token>, pos: nat, left: Node, m: nat, right: Node, mid: nat, built: Node)
    requires pos <= m < mid <= |toks| && toks[m].kind in AddOps && ExprShape(left)
    requires mid == |toks| || toks[mid].kind !in MulOps
    requires Expr(toks, pos) == ExprLoop(toks, Some(left), m)
    requires Term(toks, m + 1) == TermLoop(toks, Some(right), mid)
    requires built == BinOp(toks[m], left, right, toks[m].line)
    ensures Expr(toks, pos) == ExprLoop(toks, Some(built), mid)
  {
    assert TermLoop(toks, Some(right), mid) == Success(Parsed(Some(right), mid));
    ShapedIsExpr(left);
    SumFoldsLeft(toks, left, m, right, mid);
  }

  // ---------------------------------------------------------------------
  // Each rule reads the spelling of a tree of its shape

  /** `unary` reads a whole unary expression from its spelling, whatever
      follows it. */
  lemma {:induction false} UnaryComplete(toks: seq<Token>, pos: nat, e: Node, end: nat)
    requires UnaryShape(e) && Spells(toks, pos, e, end)
    ensures Unary(toks, pos) == Success(Parsed(Some(Rebuilt(toks, pos, e)), end))
    decreases e, 1
  {
    if e.Integer? || e.Float? {
      LiteralComplete(toks, pos, e, end);
    } else if e.Grouping? {
      GroupComplete(toks, pos, e, end);
    } else {
      PrefixComplete(toks, pos, e, end);
    }
  }

  /** A literal's spelling is one numeric token, which `unary` reads as a
      literal node of the same value on that token's line. */
  lemma {:induction false} LiteralComplete(toks: seq<Token>, pos: nat, e: Node, end: nat)
    requires (e.Integer? || e.Float?) && Spells(toks, pos, e, end)
    ensures Unary(toks, pos) == Success(Parsed(Some(Rebuilt(toks, pos, e)), end))
  {
    assert MatchAny(toks, pos, [NOT, MINUS, PLUS]).0 == false;
    assert Primary(toks, pos) == LiteralNode(toks, pos);
  }

  /** A grouping's spelling is `(`, an expression's spelling and `)`, which
      `unary` reads as the grouping of that expression. */
  lemma {:induction false} GroupComplete(toks: seq<Token>, pos: nat, e: Node, end: nat)
    requires e.Grouping? && ExprShape(e.inner) && Spells(toks, pos, e, end)
    ensures Unary(toks, pos) == Success(Parsed(Some(Rebuilt(toks, pos, e)), end))
    decreases e, 0
  {
    var m := end - 1;
    var inner := Rebuilt(toks, pos + 1, e.inner);
    assert Expr(toks, pos + 1) == Success(Parsed(Some(inner), m)) by {
      ExprComplete(toks, pos + 1, e.inner, m);
    }
    assert IsExpr(inner) by {
      RebuiltShape(toks, pos + 1, e.inner, m);
      ShapedIsExpr(inner);
    }
    assert Unary(toks, pos) == Success(Parsed(Some(Rebuilt(toks, pos, e)), end)) by {
      ParenPrimary(toks, pos, inner, m, Rebuilt(toks, pos, e), end);
      UnaryAtParen(toks, pos);
    }
  }

  /** A prefix operator's spelling is the operator, then its operand's
      spelling, which `unary` reads as the operator around the operand. */
  lemma {:induction false} PrefixComplete(toks: seq<Token>, pos: nat, e: Node, end: nat)
    requires e.UnOp? && e.op.kind in UnaryOps && UnaryShape(e.operand) && Spells(toks, pos, e, end)
    ensures Unary(toks, pos) == Success(Parsed(Some(Rebuilt(toks, pos, e)), end))
    decreases e, 0
  {
    var operand := Rebuilt(toks, pos + 1, e.operand);
    assert Unary(toks, pos + 1) == Success(Parsed(Some(operand), end)) by {
      UnaryComplete(toks, pos + 1, e.operand, end);
    }
    PrefixWrapsOperand(toks, pos, operand, end);
  }

  /** After reading the spelling of a term, `term` is in its product loop
      just past it, with the rebuilt term as the tree so far. */
  lemma {:induction false} TermPrefix(toks: seq<Token>, pos: nat, e: Node, mid: nat)
    requires TermShape(e) && Spells(toks, pos, e, mid)
    ensures Term(toks, pos) == TermLoop(toks, Some(Rebuilt(toks, pos, e)), mid)
    decreases e, 3
  {
    if UnaryShape(e) {
      UnaryComplete(toks, pos, e, mid);
      TermAfterUnary(toks, pos, Rebuilt(toks, pos, e), mid);
    } else {
      ProductPrefix(toks, pos, e, pos + Width(e.left), mid);
    }
  }

  /** The operands of a product: `term` reads the left one up to the
      operator at `m`, and `unary` the right one after it. */
  lemma {:induction false} ProductOperands(toks: seq<Token>, pos: nat, e: Node, m: nat, mid: nat)
    requires e.BinOp? && TermShape(e.left) && UnaryShape(e.right)
    requires Spells(toks, pos, e.left, m) && Spells(toks, m + 1, e.right, mid)
    ensures Term(toks, pos) == TermLoop(toks, Some(Rebuilt(toks, pos, e.left)), m)
    ensures TermShape(Rebuilt(toks, pos, e.left))
    ensures Unary(toks, m + 1) == Success(Parsed(Some(Rebuilt(toks, m + 1, e.right)), mid))
    decreases e, 1
  {
    TermPrefix(toks, pos, e.left, m);
    RebuiltShape(toks, pos, e.left, m);
    UnaryComplete(toks, m + 1, e.right, mid);
  }

  /** A product node folds its operands as `term`'s loop reads them. */
  lemma {:induction false} ProductFold(toks: seq<Token>, pos: nat, e: Node, m: nat, mid: nat)
    requires e.BinOp? && m == pos + Width(e.left) && m < |toks| && toks[m].kind in MulOps
    requires Term(toks, pos) == TermLoop(toks, Some(Rebuilt(toks, pos, e.left)), m)
    requires TermShape(Rebuilt(toks, pos, e.left))
    requires Unary(toks, m + 1) == Success(Parsed(Some(Rebuilt(toks, m + 1, e.right)), mid))
    ensures Term(toks, pos) == TermLoop(toks, Some(Rebuilt(toks, pos, e)), mid)
  {
    ProductStep(toks, pos, Rebuilt(toks, pos, e.left), m, Rebuilt(toks, m + 1, e.right), mid, Rebuilt(toks, pos, e));
  }

  /** The spelling of a product: the left term's, the operator at `m`,
      then the right operand's. */
  lemma {:induction false} ProductPrefix(toks: seq<Token>, pos: nat, e: Node, m: nat, mid: nat)
    requires e.BinOp? && e.op.kind in MulOps && TermShape(e.left) && UnaryShape(e.right)
    requires m == pos + Width(e.left) && m < mid <= |toks| && toks[m].kind == e.op.kind
    requires Spells(toks, pos, e.left, m) && Spells(toks, m + 1, e.right, mid)
    ensures Term(toks, pos) == TermLoop(toks, Some(Rebuilt(toks, pos, e)), mid)
    decreases e, 2
  {
    ProductOperands(toks, pos, e, m, mid);
    ProductFold(toks, pos, e, m, mid);
  }

  /** After reading the spelling of an expression that no `*` or `/`
      follows, `expr` is in its sum loop just past it, with the rebuilt
      expression as the tree so far. */
  lemma {:induction false} ExprPrefix(toks: seq<Token>, pos: nat, e: Node, mid: nat)
    requires ExprShape(e) && Spells(toks, pos, e, mid)
    requires mid == |toks| || toks[mid].kind !in MulOps
    ensures Expr(toks, pos) == ExprLoop(toks, Some(Rebuilt(toks, pos, e)), mid)
    decreases e, 5
  {
    if TermShape(e) {
      var b := Rebuilt(toks, pos, e);
      TermPrefix(toks, pos, e, mid);
      assert TermLoop(toks, Some(b), mid) == Success(Parsed(Some(b), mid));
      ExprAfterTerm(toks, pos, b, mid);
    } else {
      SumPrefix(toks, pos, e, pos + Width(e.left), mid);
    }
  }

  /** The operands of a sum: `expr` reads the left one up to the operator
      at `m`, and `term` the right one after it. */
  lemma {:induction false} SumOperands(toks: seq<Token>, pos: nat, e: Node, m: nat, mid: nat)
    requires e.BinOp? && ExprShape(e.left) && TermShape(e.right) && m < |toks| && toks[m].kind !in MulOps
    requires Spells(toks, pos, e.left, m) && Spells(toks, m + 1, e.right, mid)
    ensures Expr(toks, pos) == ExprLoop(toks, Some(Rebuilt(toks, pos, e.left)), m)
    ensures ExprShape(Rebuilt(toks, pos, e.left))
    ensures Term(toks, m + 1) == TermLoop(toks, Some(Rebuilt(toks, m + 1, e.right)), mid)
    decreases e, 3
  {
    ExprPrefix(toks, pos, e.left, m);
    RebuiltShape(toks, pos, e.left, m);
    TermPrefix(toks, m + 1, e.right, mid);
  }

  /** A sum node folds its operands as `expr`'s loop reads them. */
  lemma {:induction false} SumFold(toks: seq<Token>, pos: nat, e: Node, m: nat, mid: nat)
    requires e.BinOp? && m == pos + Width(e.left) && m < mid <= |toks| && toks[m].kind in AddOps
    requires mid == |toks| || toks[mid].kind !in MulOps
    requires Expr(toks, pos) == ExprLoop(toks, Some(Rebuilt(toks, pos, e.left)), m)
    requires ExprShape(Rebuilt(toks, pos, e.left))
    requires Term(toks, m + 1) == TermLoop(toks, Some(Rebuilt(toks, m + 1, e.right)), mid)
    ensures Expr(toks, pos) == ExprLoop(toks, Some(Rebuilt(toks, pos, e)), mid)
  {
    SumStep(toks, pos, Rebuilt(toks, pos, e.left), m, Rebuilt(toks, m + 1, e.right), mid, Rebuilt(toks, pos, e));
  }

  /** The spelling of a sum: the left expression's, the operator at `m`,
      then the right term's. */
  lemma {:induction false} SumPrefix(toks: seq<Token>, pos: nat, e: Node, m: nat, mid: nat)
    requires e.BinOp? && e.op.kind in AddOps && ExprShape(e.left) && TermShape(e.right)
    requires m == pos + Width(e.left) && m < mid <= |toks| && toks[m].kind == e.op.kind
    requires Spells(toks, pos, e.left, m) && Spells(toks, m + 1, e.right, mid)
    requires mid == |toks| || toks[mid].kind !in MulOps
    ensures Expr(toks, pos) == ExprLoop(toks, Some(Rebuilt(toks, pos, e)), mid)
    decreases e, 4
  {
    SumOperands(toks, pos, e, m, mid);
    SumFold(toks, pos, e, m, mid);
  }

  /** `expr` reads a whole expression from its spelling when no operator
      follows it. */
  lemma {:induction false} ExprComplete(toks: seq<Token>, pos: nat, e: Node, end: nat)
    requires ExprShape(e) && Spells(toks, pos, e, end)
    requires end == |toks| || toks[end].kind !in AddOps + MulOps
    ensures Expr(toks, pos) == Success(Parsed(Some(Rebuilt(toks, pos, e)), end))
    decreases e, 6
  {
    ExprPrefix(toks, pos, e, end);
  }

  /** `parse` accepts every spelling of a tree of the grammar's shape at
      the front of the tokens, up to a token that no operator continues,
      and returns that tree rebuilt from the tokens: same structure, same
      values, same spelling. */
  lemma {:induction false} ParseComplete(toks: seq<Token>, e: Node, n: nat)
    requires n <= |toks| && ExprShape(e) && Sigs(toks, 0, n) == Spell(e)
    requires n == |toks| || toks[n].kind !in AddOps + MulOps
    ensures Parse(toks) == Success(Some(Rebuilt(toks, 0, e)))
    ensures Spell(Rebuilt(toks, 0, e)) == Spell(e) && ExprShape(Rebuilt(toks, 0, e))
  {
    SpellsFromSigs(toks, 0, e, n);
    ExprComplete(toks, 0, e, n);
    RebuiltSpell(toks, 0, e, n);
    RebuiltShape(toks, 0, e, n);
  }

  /** A token list that is exactly the spelling of a tree of the grammar's
      shape parses to a tree with that spelling. */
  lemma {:induction false} ParseAcceptsSpelling(toks: seq<Token>, e: Node)
    requires ExprShape(e) && Sigs(toks, 0, |toks|) == Spell(e)
    ensures Parse(toks).Success? && Parse(toks).value.Some?
    ensures Spell(Parse(toks).value.value) == Spell(e)
  {
    ParseComplete(toks, e, |toks|);
  }
}
