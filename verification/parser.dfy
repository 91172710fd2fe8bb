/** The recursive-descent expression parser (parser.py). The parser state
    is the cursor `pos` into the token list; each rule returns the node it
    built (or nothing, where Python returns `None`) and the new cursor. */
module Parser {
  import opened Common
  import opened Tokens
  import opened Ast

  datatype ParseError =
    | EndOfStream                                      // IndexError from `advance`
    | UnexpectedEnd(expected: TokenType)               // `expect` at end of input
    | UnexpectedToken(expected: TokenType, found: Token)
    | RParenExpected                                   // `primary`: missing ")"
    | BadLiteral(token: Token)                         // `int(...)`/`float(...)` rejects the lexeme
    | Malformed(error: AssertionError)                 // a node constructor's assertion

  /** A rule's result: the node built, if any, and the cursor after it. */
  datatype Parsed = Parsed(node: Option<Node>, pos: nat)

  // ---------------------------------------------------------------------
  // Cursor primitives

  /** Consumes and returns the current token; fails at the end. */
  function Advance(toks: seq<Token>, pos: nat): (r: Result<(Token, nat), ParseError>)
    ensures r.Success? <==> pos < |toks|
    ensures r.Success? ==> r.value == (toks[pos], pos + 1)
  {
    if pos >= |toks| then Failure(EndOfStream) else Success((toks[pos], pos + 1))
  }

  /** Whether the token after the current one has the given kind. */
  function IsNext(toks: seq<Token>, pos: nat, expected: TokenType): (r: bool)
    ensures r <==> pos + 1 < |toks| && toks[pos + 1].kind == expected
  {
    if pos + 1 >= |toks| then false else toks[pos + 1].kind == expected
  }

  /** Consumes the current token if it has the expected kind, else fails
      without consuming. */
  function Expect(toks: seq<Token>, pos: nat, expected: TokenType): (r: Result<(Token, nat), ParseError>)
    ensures r.Success? <==> pos < |toks| && toks[pos].kind == expected
    ensures r.Success? ==> r.value == (toks[pos], pos + 1)
    ensures pos >= |toks| ==> r == Failure(UnexpectedEnd(expected))
    ensures pos < |toks| && toks[pos].kind != expected ==> r == Failure(UnexpectedToken(expected, toks[pos]))
  {
    if pos >= |toks| then Failure(UnexpectedEnd(expected))
    else if toks[pos].kind == expected then Advance(toks, pos)
    else Failure(UnexpectedToken(expected, toks[pos]))
  }

  /** Consumes the current token if it has the expected kind. */
  function Match(toks: seq<Token>, pos: nat, expected: TokenType): (r: (bool, nat))
    ensures r.0 <==> pos < |toks| && toks[pos].kind == expected
    ensures r.0 ==> r.1 == pos + 1
    ensures !r.0 ==> r.1 == pos
  {
    if pos >= |toks| then (false, pos)
    else if toks[pos].kind != expected then (false, pos)
    else (true, pos + 1)
  }

  /** `match(k1) or match(k2) or ...`: tries each kind in turn. */
  function MatchAny(toks: seq<Token>, pos: nat, kinds: seq<TokenType>): (r: (bool, nat))
    ensures r.0 <==> pos < |toks| && toks[pos].kind in kinds
    ensures r.0 ==> r.1 == pos + 1
    ensures !r.0 ==> r.1 == pos
  {
    if pos < |toks| && toks[pos].kind in kinds then (true, pos + 1) else (false, pos)
  }

  // ---------------------------------------------------------------------
  // The shapes each rule builds

  const UnaryOps: set<TokenType> := {NOT, MINUS, PLUS}
  const MulOps: set<TokenType> := {STAR, SLASH}
  const AddOps: set<TokenType> := {PLUS, MINUS}

  /** `<primary> ::= <integer> | <float> | '(' <expr> ')'` */
  predicate PrimaryShape(e: Node)
    decreases e, 0
  {
    e.Integer? || e.Float? || (e.Grouping? && ExprShape(e.inner))
  }

  /** `<unary> ::= ('+'|'-'|'~') <unary> | <primary>` */
  predicate UnaryShape(e: Node)
    decreases e, 1
  {
    PrimaryShape(e) || (e.UnOp? && e.op.kind in UnaryOps && UnaryShape(e.operand))
  }

  /** `<term> ::= <unary> (('*'|'/') <unary>)*`, grouped to the left. */
  predicate TermShape(e: Node)
    decreases e, 2
  {
    UnaryShape(e) || (e.BinOp? && e.op.kind in MulOps && TermShape(e.left) && UnaryShape(e.right))
  }

  /** `<expr> ::= <term> (('+'|'-') <term>)*`, grouped to the left. */
  predicate ExprShape(e: Node)
    decreases e, 3
  {
    TermShape(e) || (e.BinOp? && e.op.kind in AddOps && ExprShape(e.left) && TermShape(e.right))
  }

  /** Some numeric literal token lies before position `p`. */
  predicate HasLiteral(toks: seq<Token>, p: nat) {
    exists i :: 0 <= i < p && i < |toks| && toks[i].kind in {INTEGER, FLOAT}
  }

  // ---------------------------------------------------------------------
  // The tokens a tree was read from

  /** What the parser reads of a token: its kind, and the value of a
      numeric literal. */
  function Sig(t: Token): (TokenType, Literal) {
    if t.kind in {INTEGER, FLOAT} then (t.kind, t.literal) else (t.kind, NoLiteral)
  }

  /** What the parser reads of `toks[a..b]`. */
  function Sigs(toks: seq<Token>, a: nat, b: nat): seq<(TokenType, Literal)>
    requires a <= b <= |toks|
    decreases b - a
  {
    if a == b then [] else [Sig(toks[a])] + Sigs(toks, a + 1, b)
  }

  /** The tokens a tree stands for, parentheses included, in source order. */
  function Spell(n: Node): seq<(TokenType, Literal)> {
    match n
    case Integer(i, _) => [(INTEGER, IntLiteral(i))]
    case Float(f, _) => [(FLOAT, FloatLiteral(f))]
    case Grouping(e, _) => [(LPAREN, NoLiteral)] + Spell(e) + [(RPAREN, NoLiteral)]
    case UnOp(op, e, _) => [Sig(op)] + Spell(e)
    case BinOp(op, l, r, _) => Spell(l) + [Sig(op)] + Spell(r)
    case _ => []
  }

  lemma {:induction false} SigsAppend(toks: seq<Token>, a: nat, b: nat, c: nat)
    requires a <= b <= c <= |toks|
    ensures Sigs(toks, a, c) == Sigs(toks, a, b) + Sigs(toks, b, c)
    decreases b - a
  {
    if a == b {
      assert Sigs(toks, a, b) == [];
    } else {
      SigsAppend(toks, a + 1, b, c);
      assert [Sig(toks[a])] + (Sigs(toks, a + 1, b) + Sigs(toks, b, c))
          == ([Sig(toks[a])] + Sigs(toks, a + 1, b)) + Sigs(toks, b, c);
    }
  }

  /** A built tree, if any, is well formed, has the rule's shape and needs
      a numeric literal token before `p`. */
  predicate Shaped(n: Option<Node>, toks: seq<Token>, p: nat, shape: Node -> bool) {
    n.Some? ==> WellFormed(n.value) && shape(n.value) && HasLiteral(toks, p)
  }

  /** A rule's successful result: the cursor stayed put when nothing was
      built, and otherwise moved forward within the token list over
      exactly the tokens the tree stands for, with the tree well formed and
      of the rule's shape. */
  predicate Good(r: Result<Parsed, ParseError>, toks: seq<Token>, pos: nat, shape: Node -> bool) {
    r.Success? ==>
      && pos <= r.value.pos <= |toks|
      && (r.value.node.None? ==> r.value.pos == pos)
      && Shaped(r.value.node, toks, r.value.pos, shape)
      && (r.value.node.Some? ==> Spell(r.value.node.value) == Sigs(toks, pos, r.value.pos))
  }

  // ---------------------------------------------------------------------
  // The rules

  /** `primary`: a literal, a parenthesised expression, or nothing (Python's
      `None`) when the current token starts neither. */
  function Primary(toks: seq<Token>, pos: nat): (r: Result<Parsed, ParseError>)
    requires pos <= |toks|
    ensures Good(r, toks, pos, PrimaryShape)
    ensures pos == |toks| || toks[pos].kind !in {INTEGER, FLOAT, LPAREN} ==> r == Success(Parsed(None, pos))
    ensures pos < |toks| && toks[pos].kind in {INTEGER, FLOAT, LPAREN} && r.Success? ==> r.value.node.Some?
    decreases |toks| - pos, 1
  {
    var (isInt, p1) := Match(toks, pos, INTEGER);
    if isInt then LiteralNode(toks, pos)
    else
    var (isFloat, p2) := Match(toks, pos, FLOAT);
    if isFloat then LiteralNode(toks, pos)
    else
    var (isParen, p3) := Match(toks, pos, LPAREN);
    if isParen then Group(toks, pos)
    else Success(Parsed(None, pos))
  }

  /** The parenthesis branch of `primary`: the inner expression after the
      `(`, then the closing step. */
  function Group(toks: seq<Token>, pos: nat): (r: Result<Parsed, ParseError>)
    requires pos < |toks| && toks[pos].kind == LPAREN
    ensures Good(r, toks, pos, PrimaryShape)
    ensures r.Success? ==> r.value.node.Some? && r.value.node.value.Grouping? && r.value.node.value.line == toks[pos].line
    decreases |toks| - pos, 0
  {
    match Expr(toks, pos + 1)
    case Failure(e) => Failure(e)
    case Success(inner) =>
      var r := CloseGroup(toks, inner, toks[pos].line);
      if r.Success? then GroupResult(toks, pos, inner.node.value, inner.pos, r); r else r
  }

  /** A closed group is a good primary: a `Grouping` read from the `(` to
      the `)`. */
  lemma {:induction false} GroupResult(toks: seq<Token>, pos: nat, e: Node, q: nat, r: Result<Parsed, ParseError>)
    requires pos < q < |toks| && toks[pos].kind == LPAREN && toks[q].kind == RPAREN
    requires Shaped(Some(e), toks, q, ExprShape) && IsExpr(e) && Spell(e) == Sigs(toks, pos + 1, q)
    requires r == Success(Parsed(Some(Grouping(e, toks[pos].line)), q + 1))
    ensures Good(r, toks, pos, PrimaryShape)
  {
    GroupSpell(toks, pos, e, q, toks[pos].line);
    GroupShaped(toks, e, q, toks[pos].line);
  }

  /** A closed group stands for its `(`, the inner expression's tokens and
      its `)`. */
  lemma {:induction false} GroupSpell(toks: seq<Token>, pos: nat, e: Node, q: nat, line: int)
    requires pos < q < |toks| && toks[pos].kind == LPAREN && toks[q].kind == RPAREN
    requires Spell(e) == Sigs(toks, pos + 1, q)
    ensures Spell(Grouping(e, line)) == Sigs(toks, pos, q + 1)
  {
    SigsAppend(toks, pos + 1, q, q + 1);
    assert Sigs(toks, pos, q + 1) == [Sig(toks[pos])] + Sigs(toks, pos + 1, q + 1);
    assert Sigs(toks, q, q + 1) == [(RPAREN, NoLiteral)];
  }

  /** A grouped expression keeps the shape, well-formedness and literal of
      the expression inside it. */
  lemma {:induction false} GroupShaped(toks: seq<Token>, e: Node, q: nat, line: int)
    requires Shaped(Some(e), toks, q, ExprShape) && IsExpr(e)
    ensures Shaped(Some(Grouping(e, line)), toks, q + 1, PrimaryShape)
  {
    var i :| 0 <= i < q && i < |toks| && toks[i].kind in {INTEGER, FLOAT};
    assert HasLiteral(toks, q + 1);
  }

  /** The literal branches of `primary`: `int(...)` or `float(...)` of the
      matched token, here the value the lexer attached to it, on the
      token's line. */
  function LiteralNode(toks: seq<Token>, pos: nat): (r: Result<Parsed, ParseError>)
    requires pos < |toks| && toks[pos].kind in {INTEGER, FLOAT}
    ensures Good(r, toks, pos, PrimaryShape)
    ensures toks[pos].kind == INTEGER && toks[pos].literal.IntLiteral? ==>
              r == Success(Parsed(Some(Integer(toks[pos].literal.i, toks[pos].line)), pos + 1))
    ensures toks[pos].kind == FLOAT && toks[pos].literal.FloatLiteral? ==>
              r == Success(Parsed(Some(Float(toks[pos].literal.f, toks[pos].line)), pos + 1))
    ensures r.Failure? <==> !(toks[pos].kind == INTEGER && toks[pos].literal.IntLiteral?)
                            && !(toks[pos].kind == FLOAT && toks[pos].literal.FloatLiteral?)
    ensures r.Failure? ==> r.error == BadLiteral(toks[pos])
  {
    var t := toks[pos];
    assert HasLiteral(toks, pos + 1) by { assert 0 <= pos < pos + 1 && toks[pos].kind in {INTEGER, FLOAT}; }
    match t.literal
    case IntLiteral(i) =>
      if t.kind == INTEGER then Success(Parsed(Some(Integer(i, t.line)), pos + 1)) else Failure(BadLiteral(t))
    case FloatLiteral(f) =>
      if t.kind == FLOAT then Success(Parsed(Some(Float(f, t.line)), pos + 1)) else Failure(BadLiteral(t))
    case _ => Failure(BadLiteral(t))
  }

  /** The end of the parenthesis branch of `primary`: the `)` after the
      inner expression, then the `Grouping` node. */
  function CloseGroup(toks: seq<Token>, inner: Parsed, line: int): (r: Result<Parsed, ParseError>)
    ensures !(inner.pos < |toks| && toks[inner.pos].kind == RPAREN) ==> r == Failure(RParenExpected)
    ensures inner.pos < |toks| && toks[inner.pos].kind == RPAREN ==>
      && (inner.node.None? ==> r == Failure(Malformed(AssertionError("value"))))
      && (inner.node.Some? && IsExpr(inner.node.value) ==>
            r == Success(Parsed(Some(Grouping(inner.node.value, line)), inner.pos + 1)))
      && (inner.node.Some? && !IsExpr(inner.node.value) ==> r.Failure? && r.error.Malformed?)
  {
    var (closed, p4) := Match(toks, inner.pos, RPAREN);
    if !closed then Failure(RParenExpected)
    else
      match inner.node
      case None => Failure(Malformed(AssertionError("value")))
      case Some(e) =>
        match Construct(Grouping(e, line))
        case Failure(a) => Failure(Malformed(a))
        case Success(g) => Success(Parsed(Some(g), p4))
  }

  /** `unary`: a prefix operator wraps the unary expression after it;
      otherwise `primary`. */
  function Unary(toks: seq<Token>, pos: nat): (r: Result<Parsed, ParseError>)
    requires pos <= |toks|
    ensures Good(r, toks, pos, UnaryShape)
    decreases |toks| - pos, 2
  {
    var (isOp, p1) := MatchAny(toks, pos, [NOT, MINUS, PLUS]);
    if isOp then
      var op := toks[pos];
      match Unary(toks, p1)
      case Failure(e) => Failure(e)
      case Success(operand) =>
        match operand.node
        case None => Failure(Malformed(AssertionError("operand")))
        case Some(e) =>
          match Construct(UnOp(op, e, op.line))
          case Failure(a) => Failure(Malformed(a))
          case Success(u) =>
            assert HasLiteral(toks, operand.pos);
            Success(Parsed(Some(u), operand.pos))
    else
      Primary(toks, pos)
  }

  /** `<factor> ::= <unary>` */
  function Factor(toks: seq<Token>, pos: nat): (r: Result<Parsed, ParseError>)
    requires pos <= |toks|
    ensures Good(r, toks, pos, UnaryShape)
    decreases |toks| - pos, 3
  {
    Unary(toks, pos)
  }

  /** Builds `BinOp(op, left, right)`, failing as its constructor does when
      an operand is missing. */
  function MakeBinOp(op: Token, left: Option<Node>, right: Option<Node>): (r: Result<Node, ParseError>)
    ensures r.Success? <==> left.Some? && IsExpr(left.value) && right.Some? && IsExpr(right.value)
    ensures r.Success? ==> r.value == BinOp(op, left.value, right.value, op.line)
  {
    match (left, right)
    case (None, _) => Failure(Malformed(AssertionError("left")))
    case (_, None) => Failure(Malformed(AssertionError("right")))
    case (Some(l), Some(rt)) =>
      match Construct(BinOp(op, l, rt, op.line))
      case Failure(a) => Failure(Malformed(a))
      case Success(b) => Success(b)
  }

  /** The `while` loop of `term`, with the tree built so far in `acc`: it
      stops at the first token that is not `*` or `/`, having extended
      `acc` by exactly the tokens it read. */
  function TermLoop(toks: seq<Token>, acc: Option<Node>, pos: nat): (r: Result<Parsed, ParseError>)
    requires pos <= |toks|
    ensures pos == |toks| || toks[pos].kind !in MulOps ==> r == Success(Parsed(acc, pos))
    ensures r.Success? ==> pos <= r.value.pos <= |toks|
    ensures r.Success? ==> r.value.pos == |toks| || toks[r.value.pos].kind !in MulOps
    ensures r.Success? && acc.None? ==> r.value == Parsed(None, pos)
    ensures r.Success? && acc.Some? ==>
              r.value.node.Some? && Spell(r.value.node.value) == Spell(acc.value) + Sigs(toks, pos, r.value.pos)
    ensures r.Success? && Shaped(acc, toks, pos, TermShape) ==> Shaped(r.value.node, toks, r.value.pos, TermShape)
    decreases |toks| - pos, 4
  {
    var (isOp, p1) := MatchAny(toks, pos, [STAR, SLASH]);
    if !isOp then Success(Parsed(acc, pos))
    else
      var op := toks[pos];
      match Factor(toks, p1)
      case Failure(e) => Failure(e)
      case Success(right) =>
        match MakeBinOp(op, acc, right.node)
        case Failure(e) => Failure(e)
        case Success(b) =>
          assert Shaped(acc, toks, pos, TermShape) ==> Shaped(Some(b), toks, right.pos, TermShape);
          var r := TermLoop(toks, Some(b), right.pos);
          if r.Success? then
            LoopSpell(toks, acc.value, op, right.node.value, b, pos, right.pos, r.value.pos);
            r
          else r
  }

  /** The tokens of one more turn of a loop: the tree so far, the operator
      at `pos`, the operand read up to `q`, then whatever the rest of the
      loop reads up to `end`. */
  lemma {:induction false} LoopSpell(toks: seq<Token>, acc: Node, op: Token, right: Node, b: Node,
                                     pos: nat, q: nat, end: nat)
    requires pos < q <= end <= |toks| && op == toks[pos]
    requires Spell(right) == Sigs(toks, pos + 1, q) && b == BinOp(op, acc, right, op.line)
    ensures Spell(b) + Sigs(toks, q, end) == Spell(acc) + Sigs(toks, pos, end)
  {
    SigsAppend(toks, pos + 1, q, end);
    assert Sigs(toks, pos, end) == [Sig(op)] + (Sigs(toks, pos + 1, q) + Sigs(toks, q, end));
    assert Spell(b) == Spell(acc) + [Sig(op)] + Spell(right);
    Regroup(Spell(acc), [Sig(op)], Spell(right), Sigs(toks, q, end));
  }

  lemma {:induction false} Regroup<T>(a: seq<T>, b: seq<T>, c: seq<T>, d: seq<T>)
    ensures a + b + c + d == a + (b + (c + d))
  {
  }

  /** `term`: a factor, then the product loop. */
  function Term(toks: seq<Token>, pos: nat): (r: Result<Parsed, ParseError>)
    requires pos <= |toks|
    ensures Good(r, toks, pos, TermShape)
    ensures r.Success? ==> r.value.pos == |toks| || toks[r.value.pos].kind !in MulOps
    decreases |toks| - pos, 5
  {
    match Factor(toks, pos)
    case Failure(e) => Failure(e)
    case Success(left) =>
      var r := TermLoop(toks, left.node, left.pos);
      if r.Success? then
        SigsAppend(toks, pos, left.pos, r.value.pos);
        r
      else r
  }

  /** The `while` loop of `expr`, with the tree built so far in `acc`: it
      stops at the first token that is not `+` or `-`, having extended
      `acc` by exactly the tokens it read. */
  function ExprLoop(toks: seq<Token>, acc: Option<Node>, pos: nat): (r: Result<Parsed, ParseError>)
    requires pos <= |toks|
    ensures pos == |toks| || toks[pos].kind !in AddOps ==> r == Success(Parsed(acc, pos))
    ensures r.Success? ==> pos <= r.value.pos <= |toks|
    ensures r.Success? ==> r.value.pos == |toks| || toks[r.value.pos].kind !in AddOps
    ensures r.Success? && (pos == |toks| || toks[pos].kind !in MulOps) ==>
              r.value.pos == |toks| || toks[r.value.pos].kind !in MulOps
    ensures r.Success? && acc.None? ==> r.value == Parsed(None, pos)
    ensures r.Success? && acc.Some? ==>
              r.value.node.Some? && Spell(r.value.node.value) == Spell(acc.value) + Sigs(toks, pos, r.value.pos)
    ensures r.Success? && Shaped(acc, toks, pos, ExprShape) ==> Shaped(r.value.node, toks, r.value.pos, ExprShape)
    decreases |toks| - pos, 6
  {
    var (isOp, p1) := MatchAny(toks, pos, [PLUS, MINUS]);
    if !isOp then Success(Parsed(acc, pos))
    else
      var op := toks[pos];
      match Term(toks, p1)
      case Failure(e) => Failure(e)
      case Success(right) =>
        match MakeBinOp(op, acc, right.node)
        case Failure(e) => Failure(e)
        case Success(b) =>
          assert Shaped(acc, toks, pos, ExprShape) ==> Shaped(Some(b), toks, right.pos, ExprShape);
          var r := ExprLoop(toks, Some(b), right.pos);
          if r.Success? then
            LoopSpell(toks, acc.value, op, right.node.value, b, pos, right.pos, r.value.pos);
            r
          else r
  }

  /** `expr`: a term, then the sum loop. It stops at the first token that
      can continue neither, having read exactly the tokens of its tree. */
  function Expr(toks: seq<Token>, pos: nat): (r: Result<Parsed, ParseError>)
    requires pos <= |toks|
    ensures Good(r, toks, pos, ExprShape)
    ensures r.Success? ==> r.value.pos == |toks| || toks[r.value.pos].kind !in AddOps + MulOps
    decreases |toks| - pos, 7
  {
    match Term(toks, pos)
    case Failure(e) => Failure(e)
    case Success(left) =>
      var r := ExprLoop(toks, left.node, left.pos);
      if r.Success? then
        SigsAppend(toks, pos, left.pos, r.value.pos);
        r
      else r
  }

  /** `Parser(tokens).parse()`: one expression from the front of the list;
      the tree stands for exactly a prefix of the tokens, which ends where
      no operator continues it, and whatever follows is not examined. */
  function Parse(toks: seq<Token>): (r: Result<Option<Node>, ParseError>)
    ensures r.Success? && r.value.Some? ==> WellFormed(r.value.value) && ExprShape(r.value.value)
    ensures r.Success? && r.value.Some? ==> exists i :: 0 <= i < |toks| && toks[i].kind in {INTEGER, FLOAT}
    ensures r.Success? && r.value.Some? ==>
              exists n: nat :: n <= |toks| && Spell(r.value.value) == Sigs(toks, 0, n)
                               && (n == |toks| || toks[n].kind !in AddOps + MulOps)
  {
    match Expr(toks, 0)
    case Failure(e) => Failure(e)
    case Success(p) => Success(p.node)
  }
}
