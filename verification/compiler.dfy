/** The code generator to flat stack bytecode (compiler.py). The Python
    instruction tuples are the closed datatype `Instr`; the string that
    compiler.py:73 emits in place of a one-element tuple is `RawText`. */
module Compiler {
  import opened Common
  import opened Tokens
  import opened Ast

  /** The type tags of runtime values (`TYPE_NUMBER`, `TYPE_BOOL`,
      `TYPE_STRING`). */
  datatype Tag = NumberTag | BoolTag | StringTag

  /** A tagged runtime value, the pair `(tag, payload)`. */
  datatype Value = NumberVal(n: real) | BoolVal(b: bool) | StringVal(s: string)

  function TagOf(v: Value): Tag {
    match v
    case NumberVal(_) => NumberTag
    case BoolVal(_) => BoolTag
    case StringVal(_) => StringTag
  }

  /** The opcodes of the binary instructions (`ADD`, `SUB`, ...). */
  datatype Opcode = Add | Sub | Mul | Div | Exp | Mod | Lt | Gt | Le | Ge | Eq | Ne

  datatype Instr =
    | Halt
    | Push(val: Value)
    | Pop
    | Binary(opcode: Opcode)
    | Print
    | PrintLn
    | Label(name: string)
    | RawText(text: string)  // a bare string where a tuple belongs

  datatype CompileError = UnsupportedBinaryOperator(kind: TokenType)

  /** The token kinds the compiler can translate into a binary instruction. */
  const BinaryKinds: set<TokenType> := {PLUS, MINUS, STAR, SLASH, CARET, TokenType.MOD, TokenType.LT, TokenType.GT,
                                          TokenType.LE, TokenType.GE, TokenType.EQ, TokenType.NE}

  /** The instruction chosen for each binary operator token. */
  function OpcodeFor(kind: TokenType): (r: Option<Opcode>)
    ensures r.Some? <==> kind in BinaryKinds
    ensures kind == PLUS <==> r == Some(Add)
    ensures kind == MINUS <==> r == Some(Sub)
    ensures kind == STAR <==> r == Some(Mul)
    ensures kind == SLASH <==> r == Some(Div)
    ensures kind == CARET <==> r == Some(Exp)
    ensures kind == TokenType.MOD <==> r == Some(Opcode.Mod)
    ensures kind == TokenType.LT <==> r == Some(Opcode.Lt)
    ensures kind == TokenType.GT <==> r == Some(Opcode.Gt)
    ensures kind == TokenType.LE <==> r == Some(Opcode.Le)
    ensures kind == TokenType.GE <==> r == Some(Opcode.Ge)
    ensures kind == TokenType.EQ <==> r == Some(Opcode.Eq)
    ensures kind == TokenType.NE <==> r == Some(Opcode.Ne)
  {
    match kind
    case PLUS => Some(Add)
    case MINUS => Some(Sub)
    case STAR => Some(Mul)
    case SLASH => Some(Div)
    case CARET => Some(Exp)
    case MOD => Some(Mod)
    case LT => Some(Lt)
    case GT => Some(Gt)
    case LE => Some(Le)
    case GE => Some(Ge)
    case EQ => Some(Eq)
    case NE => Some(Ne)
    case _ => None
  }

  /** `emit`: append one instruction to the code emitted so far. */
  function Emit(code: seq<Instr>, instr: Instr): (r: seq<Instr>)
    ensures |r| == |code| + 1 && r[..|code|] == code && r[|code|] == instr
  {
    code + [instr]
  }

  /** The instruction that ends a `print` statement: PRINT when the line
      ending is empty, PRINTLN otherwise. */
  function PrintOp(endText: string): (i: Instr)
    ensures i == Print || i == PrintLn
    ensures i == Print <==> endText == ""
  {
    if endText == "" then Print else PrintLn
  }

  /** The same choice as compiler.py:73 writes it: the string "PRINTLN"
      rather than the one-element tuple ("PRINTLN",). */
  function PrintOpAsWritten(endText: string): (i: Instr)
    ensures endText == "" ==> i == PrintOp(endText)
    ensures endText != "" ==> i == RawText("PRINTLN") && i != PrintOp(endText)
  {
    if endText == "" then Print else RawText("PRINTLN")
  }

  /** Trees the compiler translates without raising: every binary operator
      it reaches has an instruction. */
  predicate Compilable(n: Node) {
    match n
    case BinOp(op, l, r, _) => op.kind in BinaryKinds && Compilable(l) && Compilable(r)
    case Stmts(ss, _) => forall i | 0 <= i < |ss| :: Compilable(ss[i])
    case PrintStmt(v, _, _) => Compilable(v)
    case _ => true
  }

  /** The instructions `compile` can produce: no HALT, POP or LABEL. */
  predicate Emittable(code: seq<Instr>) {
    forall i | 0 <= i < |code| ::
      code[i].Push? || code[i].Binary? || code[i].Print? || code[i].PrintLn?
  }

  /** A binary node from its operands' code: left, then right, then the
      operator's instruction; the first failure wins. */
  function CompileBinary(kind: TokenType, lr: Result<seq<Instr>, CompileError>,
                         rr: Result<seq<Instr>, CompileError>): Result<seq<Instr>, CompileError> {
    match lr
    case Failure(e) => Failure(e)
    case Success(lc) =>
      match rr
      case Failure(e) => Failure(e)
      case Success(rc) =>
        match OpcodeFor(kind)
        case None => Failure(UnsupportedBinaryOperator(kind))
        case Some(code) => Success(lc + rc + [Binary(code)])
  }

  /** `compile`: the code for one node; the first unsupported binary
      operator met in evaluation order is an error. */
  function Compile(n: Node): (r: Result<seq<Instr>, CompileError>)
    ensures r.Success? <==> Compilable(n)
    ensures r.Success? ==> Emittable(r.value)
    ensures r.Failure? ==> r.error.kind !in BinaryKinds
    decreases n, 1
  {
    match n
    case Integer(i, _) => Success([Push(NumberVal(i as real))])
    case Float(f, _) => Success([Push(NumberVal(f))])
    case Bool(b, _) => Success([Push(BoolVal(b))])
    case String(s, _) => Success([Push(StringVal(s))])
    case BinOp(op, l, rt, _) => CompileBinary(op.kind, Compile(l), Compile(rt))
    case Stmts(ss, _) => CompileSeq(ss)
    case PrintStmt(v, endText, _) =>
      (match Compile(v)
       case Failure(e) => Failure(e)
       case Success(vc) => Success(vc + [PrintOp(endText)]))
    case _ => Success([])
  }

  /** How `compile` lays out the code of an operator and of a `print`: a
      binary node is its left operand's code, then its right operand's,
      then the operator's instruction, the left operand's error winning
      over the right's; a `print` is its value's code, then the print
      instruction. */
  lemma {:induction false} CompileLayout(n: Node)
    ensures n.BinOp? && Compile(n.left).Failure? ==> Compile(n) == Compile(n.left)
    ensures n.BinOp? && Compile(n.left).Success? && Compile(n.right).Failure? ==>
              Compile(n) == Compile(n.right)
    ensures n.BinOp? && Compile(n).Success? ==>
              && Compile(n.left).Success? && Compile(n.right).Success? && OpcodeFor(n.op.kind).Some?
              && Compile(n).value == Compile(n.left).value + Compile(n.right).value
                                     + [Binary(OpcodeFor(n.op.kind).value)]
    ensures n.PrintStmt? && Compile(n.value).Failure? ==> Compile(n) == Compile(n.value)
    ensures n.PrintStmt? && Compile(n).Success? ==>
              Compile(n.value).Success? && Compile(n).value == Compile(n.value).value + [PrintOp(n.endText)]
  {
  }

  /** The `for stmt in node.stmts` loop: each statement's code, in order. */
  function CompileSeq(ss: seq<Node>): (r: Result<seq<Instr>, CompileError>)
    ensures r.Success? <==> forall i | 0 <= i < |ss| :: Compilable(ss[i])
    ensures r.Success? ==> Emittable(r.value)
    ensures r.Failure? ==> r.error.kind !in BinaryKinds
    decreases ss, 0
  {
    if ss == [] then Success([])
    else
      match Compile(ss[0])
      case Failure(e) => Failure(e)
      case Success(c) =>
        match CompileSeq(ss[1..])
        case Failure(e) => Failure(e)
        case Success(rest) => Success(c + rest)
  }

  /** `compile_code`: the program is framed by `LABEL START` and `HALT`. */
  function CompileCode(n: Node): (r: Result<seq<Instr>, CompileError>)
    ensures r.Success? <==> Compilable(n)
    ensures r.Failure? ==> r == Failure(Compile(n).error)
    ensures r.Success? ==>
      |r.value| >= 2 && r.value[0] == Label("START") && r.value[|r.value| - 1] == Halt
      && r.value[1..|r.value| - 1] == Compile(n).value
  {
    match Compile(n)
    case Failure(e) => Failure(e)
    case Success(code) => Success(Emit([Label("START")] + code, Halt))
  }

  /** Node count of a tree. */
  function Size(n: Node): nat {
    match n
    case BinOp(_, l, r, _) => 1 + Size(l) + Size(r)
    case _ => 1
  }

  /** Trees of literals and compilable binary operators. */
  predicate LiteralTree(n: Node) {
    match n
    case Integer(_, _) => true
    case Float(_, _) => true
    case Bool(_, _) => true
    case String(_, _) => true
    case BinOp(op, l, r, _) => op.kind in BinaryKinds && LiteralTree(l) && LiteralTree(r)
    case _ => false
  }

  /** One instruction per node: a PUSH per literal and one binary
      instruction per operator, the operator after both operands. */
  lemma {:induction false} CodeSizeIsNodeCount(n: Node)
    requires LiteralTree(n)
    ensures Compile(n).Success? && |Compile(n).value| == Size(n)
    ensures Compile(n).value[|Compile(n).value| - 1].Push? <==> !n.BinOp?
  {
    match n
    case BinOp(_, l, r, _) =>
      CodeSizeIsNodeCount(l);
      CodeSizeIsNodeCount(r);
    case _ =>
  }

  /** Each literal is exactly one PUSH of a value with the literal's tag:
      integers and floats are numbers. */
  lemma {:induction false} LiteralsPushTaggedValues(n: Node)
    requires n.Integer? || n.Float? || n.Bool? || n.String?
    ensures Compile(n).Success? && |Compile(n).value| == 1 && Compile(n).value[0].Push?
    ensures var v := Compile(n).value[0].val;
      && (n.Integer? ==> v == NumberVal(n.ival as real))
      && (n.Float? ==> v == NumberVal(n.fval))
      && (n.Bool? ==> v == BoolVal(n.bval))
      && (n.String? ==> v == StringVal(n.sval))
      && (TagOf(v) == NumberTag <==> n.Integer? || n.Float?)
  {
  }

  /** Node kinds that `compile` has no branch for emit nothing. */
  lemma {:induction false} UnhandledKindsEmitNothing(n: Node)
    requires !(n.Integer? || n.Float? || n.Bool? || n.String? || n.BinOp? || n.Stmts? || n.PrintStmt?)
    ensures Compile(n) == Success([])
  {
  }

  /** A block's code is its first statement's code, then the rest's. */
  lemma {:induction false} CompileSeqFront(ss: seq<Node>)
    requires ss != [] && Compile(ss[0]).Success? && CompileSeq(ss[1..]).Success?
    ensures CompileSeq(ss) == Success(Compile(ss[0]).value + CompileSeq(ss[1..]).value)
  {
  }

  /** A block's code is the concatenation of its parts' code, split at
      any point. */
  lemma {:induction false} CompileSeqAppend(a: seq<Node>, b: seq<Node>)
    requires CompileSeq(a).Success? && CompileSeq(b).Success?
    ensures CompileSeq(a + b) == Success(CompileSeq(a).value + CompileSeq(b).value)
  {
    if a == [] {
      assert a + b == b;
      assert CompileSeq(a).value == [];
      assert CompileSeq(a).value + CompileSeq(b).value == CompileSeq(b).value;
    } else {
      var c, rest, tail := Compile(a[0]).value, CompileSeq(a[1..]).value, CompileSeq(b).value;
      CompileSeqFront(a);
      CompileSeqAppend(a[1..], b);
      assert (a + b)[0] == a[0] && (a + b)[1..] == a[1..] + b;
      CompileSeqFront(a + b);
      assert c + (rest + tail) == (c + rest) + tail;
    }
  }
}
