/** The syntax-tree node family (model.py). Python checks the kind of each
    child in the constructors with `assert isinstance(...)`; here every node
    is one `Node` value, the class hierarchy is `IsExpr`/`IsStmt`, and the
    constructor assertions are the predicate `LocalWF`. Payload types
    (int, float, bool, str) are carried by the field types. */
module Ast {
  import opened Common
  import opened Tokens

  datatype Node =
    // expressions
    | Integer(ival: int, line: int)
    | Float(fval: real, line: int)
    | UnOp(op: Token, operand: Node, line: int)
    | BinOp(op: Token, left: Node, right: Node, line: int)
    | LogicalOp(op: Token, left: Node, right: Node, line: int)
    | Grouping(inner: Node, line: int)
    | Bool(bval: bool, line: int)
    | String(sval: string, line: int)
    | Identifier(name: string, line: int)
    | FuncCall(name: string, args: seq<Node>, line: int)
    // a block: neither an expression nor a statement
    | Stmts(stmts: seq<Node>, line: int)
    // statements
    | PrintStmt(value: Node, endText: string, line: int)
    | IfStmt(test: Node, thenStmts: Node, elseStmts: Option<Node>, line: int)
    | WhileStmt(test: Node, body: Node, line: int)
    | ForStmt(ident: Node, start: Node, stop: Node, step: Node, body: Node, line: int)
    | Assignment(left: Node, right: Node, line: int)
    | FuncDecl(name: string, params: seq<Node>, body: Node, line: int)
    | Param(name: string, line: int)
    | FuncCallStmt(call: Node)

  /** The subclasses of `Expr`. */
  predicate IsExpr(n: Node) {
    n.Integer? || n.Float? || n.UnOp? || n.BinOp? || n.LogicalOp? || n.Grouping?
    || n.Bool? || n.String? || n.Identifier? || n.FuncCall?
  }

  /** The subclasses of `Stmt`, including `Param`, which is a `Decl`. */
  predicate IsStmt(n: Node) {
    n.PrintStmt? || n.IfStmt? || n.WhileStmt? || n.ForStmt? || n.Assignment?
    || n.FuncDecl? || n.Param? || n.FuncCallStmt?
  }

  /** What each constructor asserts about its arguments. */
  predicate LocalWF(n: Node) {
    match n
    case UnOp(_, operand, _) => IsExpr(operand)
    case BinOp(_, left, right, _) => IsExpr(left) && IsExpr(right)
    case LogicalOp(_, left, right, _) => IsExpr(left) && IsExpr(right)
    case Grouping(inner, _) => IsExpr(inner)
    case Stmts(stmts, _) => forall i | 0 <= i < |stmts| :: IsStmt(stmts[i])
    case PrintStmt(value, _, _) => IsExpr(value)
    case IfStmt(test, thenStmts, elseStmts, _) =>
      IsExpr(test) && thenStmts.Stmts? && (elseStmts.None? || elseStmts.value.Stmts?)
    case WhileStmt(test, body, _) => IsExpr(test) && body.Stmts?
    case ForStmt(ident, start, stop, step, body, _) =>
      ident.Identifier? && IsExpr(start) && IsExpr(stop) && IsExpr(step) && body.Stmts?
    case Assignment(left, right, _) => IsExpr(left) && IsExpr(right)
    case FuncDecl(_, params, body, _) =>
      body.Stmts? && forall i | 0 <= i < |params| :: params[i].Param?
    case FuncCallStmt(call) => call.FuncCall?
    case _ => true
  }

  /** Every node of the tree passed its constructor's assertions. */
  predicate WellFormed(n: Node) {
    LocalWF(n) &&
    match n
    case UnOp(_, operand, _) => WellFormed(operand)
    case BinOp(_, left, right, _) => WellFormed(left) && WellFormed(right)
    case LogicalOp(_, left, right, _) => WellFormed(left) && WellFormed(right)
    case Grouping(inner, _) => WellFormed(inner)
    case FuncCall(_, args, _) => forall i | 0 <= i < |args| :: WellFormed(args[i])
    case Stmts(stmts, _) => forall i | 0 <= i < |stmts| :: WellFormed(stmts[i])
    case PrintStmt(value, _, _) => WellFormed(value)
    case IfStmt(test, thenStmts, elseStmts, _) =>
      WellFormed(test) && WellFormed(thenStmts)
      && (match elseStmts case None => true case Some(e) => WellFormed(e))
    case WhileStmt(test, body, _) => WellFormed(test) && WellFormed(body)
    case ForStmt(ident, start, stop, step, body, _) =>
      WellFormed(ident) && WellFormed(start) && WellFormed(stop) && WellFormed(step) && WellFormed(body)
    case Assignment(left, right, _) => WellFormed(left) && WellFormed(right)
    case FuncDecl(_, params, body, _) =>
      WellFormed(body) && forall i | 0 <= i < |params| :: WellFormed(params[i])
    case FuncCallStmt(call) => WellFormed(call)
    case _ => true
  }

  /** A failed constructor assertion, naming the offending argument. */
  datatype AssertionError = AssertionError(argument: string)

  /** Every check in the list holds. */
  predicate AllHold(checks: seq<(bool, string)>) {
    checks == [] || (checks[0].0 && AllHold(checks[1..]))
  }

  /** The name attached to the first failing check, if any. */
  function FirstFailing(checks: seq<(bool, string)>): (r: Option<string>)
    ensures r.None? <==> AllHold(checks)
    ensures r.Some? ==>
              exists i | 0 <= i < |checks| :: !checks[i].0 && checks[i].1 == r.value && AllHold(checks[..i])
  {
    if checks == [] then None
    else if !checks[0].0 then
      assert AllHold(checks[..0]);
      Some(checks[0].1)
    else
      var r := FirstFailing(checks[1..]);
      assert r.Some? ==>
        exists i | 0 <= i < |checks| :: !checks[i].0 && checks[i].1 == r.value && AllHold(checks[..i]) by {
        if r.Some? {
          var i :| 0 <= i < |checks[1..]| && !checks[1..][i].0 && checks[1..][i].1 == r.value
                   && AllHold(checks[1..][..i]);
          assert checks[..i + 1][1..] == checks[1..][..i];
          assert AllHold(checks[..i + 1]);
        }
      }
      r
  }

  /** The assertions of a constructor, in the order `__init__` runs them. */
  function Checks(n: Node): seq<(bool, string)> {
    match n
    case UnOp(_, operand, _) => [(IsExpr(operand), "operand")]
    case BinOp(_, left, right, _) => [(IsExpr(left), "left"), (IsExpr(right), "right")]
    case LogicalOp(_, left, right, _) => [(IsExpr(left), "left"), (IsExpr(right), "right")]
    case Grouping(inner, _) => [(IsExpr(inner), "value")]
    case Stmts(stmts, _) => [(forall i | 0 <= i < |stmts| :: IsStmt(stmts[i]), "stmts")]
    case PrintStmt(value, _, _) => [(IsExpr(value), "value")]
    case IfStmt(test, thenStmts, elseStmts, _) =>
      [(IsExpr(test), "test"), (thenStmts.Stmts?, "then_stmts"),
       (elseStmts.None? || elseStmts.value.Stmts?, "else_stmts")]
    case WhileStmt(test, body, _) => [(IsExpr(test), "test"), (body.Stmts?, "while_stmts")]
    case ForStmt(ident, start, stop, step, body, _) =>
      [(ident.Identifier?, "identifier"), (IsExpr(start), "start"), (IsExpr(stop), "end"),
       (IsExpr(step), "step"), (body.Stmts?, "for_stmts")]
    case Assignment(left, right, _) => [(IsExpr(left), "left"), (IsExpr(right), "right")]
    case FuncDecl(_, params, body, _) =>
      [(body.Stmts?, "body_stmts"), (forall i | 0 <= i < |params| :: params[i].Param?, "params")]
    case FuncCallStmt(call) => [(call.FuncCall?, "expr")]
    case _ => []
  }

  /** Building a node: the constructor's assertions run in order and the
      first failing one aborts with that argument's name. */
  function Construct(n: Node): (r: Result<Node, AssertionError>)
    ensures r.Success? <==> LocalWF(n)
    ensures r.Success? ==> r.value == n
    ensures n.UnOp? ==> (r.Success? <==> IsExpr(n.operand))
    ensures n.BinOp? || n.LogicalOp? ==> (r.Success? <==> IsExpr(n.left) && IsExpr(n.right))
    ensures n.BinOp? && !IsExpr(n.left) ==> r == Failure(AssertionError("left"))
    ensures n.Grouping? ==> (r.Success? <==> IsExpr(n.inner))
    ensures n.Stmts? ==> (r.Success? <==> forall i | 0 <= i < |n.stmts| :: IsStmt(n.stmts[i]))
    ensures n.IfStmt? ==>
              (r.Success? <==> IsExpr(n.test) && n.thenStmts.Stmts?
                               && (n.elseStmts.None? || n.elseStmts.value.Stmts?))
    ensures n.ForStmt? ==>
              (r.Success? <==> n.ident.Identifier? && IsExpr(n.start) && IsExpr(n.stop)
                               && IsExpr(n.step) && n.body.Stmts?)
    ensures n.FuncDecl? ==>
              (r.Success? <==> n.body.Stmts? && forall i | 0 <= i < |n.params| :: n.params[i].Param?)
    ensures n.FuncCallStmt? ==> (r.Success? <==> n.call.FuncCall?)
    ensures (n.Integer? || n.Float? || n.Bool? || n.String? || n.Identifier? || n.Param? || n.FuncCall?)
              ==> r.Success?
  {
    ChecksAreLocalWF(n);
    match FirstFailing(Checks(n))
    case None => Success(n)
    case Some(arg) => Failure(AssertionError(arg))
  }

  /** The ordered checks hold together exactly when `LocalWF` does. */
  lemma {:induction false} ChecksAreLocalWF(n: Node)
    ensures AllHold(Checks(n)) <==> LocalWF(n)
  {
    var c := Checks(n);
    var k := |c|;
    while k > 0
      invariant 0 <= k <= |c|
      invariant forall j | k <= j <= |c| :: AllHold(c[j..]) <==> forall i | j <= i < |c| :: c[i].0
    {
      k := k - 1;
      assert c[k..][1..] == c[k + 1..];
    }
    assert c[0..] == c;
  }
}
