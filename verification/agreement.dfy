/** The two back ends agree: for a tree of numeric literals and the four
    arithmetic operators, running the compiled code leaves on the stack
    exactly the number the interpreter computes, and a division by zero
    stops both. Groupings and prefix operators are outside this fragment
    because `compile` emits nothing for them. */
module Agreement {
  import opened Common
  import opened Tokens
  import opened Ast
  import opened Interpreter
  import opened Compiler
  import opened Vm

  /** Literals and `+`, `-`, `*`, `/` only. */
  predicate ArithTree(n: Node) {
    match n
    case Integer(_, _) => true
    case Float(_, _) => true
    case BinOp(op, l, r, _) => op.kind in ArithOps && ArithTree(l) && ArithTree(r)
    case _ => false
  }

  function BinOpCount(n: Node): nat {
    match n
    case BinOp(_, l, r, _) => 1 + BinOpCount(l) + BinOpCount(r)
    case _ => 0
  }

  /** Arithmetic trees are evaluable by the interpreter and translatable
      by the compiler. */
  lemma {:induction false} ArithTreeIsSupported(n: Node)
    requires ArithTree(n)
    ensures Numeric(n) && Compilable(n)
    ensures Interpret(n).Value? || Interpret(n) == Error(ZeroDivisionError)
  {
    match n
    case BinOp(_, l, r, _) =>
      ArithTreeIsSupported(l);
      ArithTreeIsSupported(r);
    case _ =>
  }

  /** The last instruction of a binary node's code, on two numbers on top
      of the stack. */
  lemma {:induction false} BinaryOnNumbers(m: Machine, op: TokenType, x: real, y: real, below: Stack)
    requires op in ArithOps && m.stack == Cons(NumberVal(y), Cons(NumberVal(x), below))
    ensures OpcodeFor(op).Some? && OpcodeFor(op).value in Handled
    ensures var r := Exec(m, Binary(OpcodeFor(op).value));
      && (Arith(op, x, y).Error? ==> r == Failure(DivisionByZero))
      && (Arith(op, x, y).Value? ==>
            r == Success(m.(stack := Cons(NumberVal(Arith(op, x, y).v), below), sp := m.sp - 4)))
  {
    ComputeIsArith(op, x, y);
    HandlerStep(m, OpcodeFor(op).value, x, y, below, Arith(op, x, y));
  }

  /** A handled binary instruction on two numbers, given the outcome its
      handler computes. */
  lemma {:induction false} HandlerStep(m: Machine, opc: Opcode, x: real, y: real, below: Stack, o: Outcome)
    requires opc in Handled && m.stack == Cons(NumberVal(y), Cons(NumberVal(x), below))
    requires (Compute(opc, x, y).Failure? <==> o.Error?) && (Compute(opc, x, y).Success? ==> o.Value? && Compute(opc, x, y).value == o.v)
    ensures o.Error? ==> Exec(m, Binary(opc)) == Failure(DivisionByZero)
    ensures o.Value? ==> Exec(m, Binary(opc)) == Success(m.(stack := Cons(NumberVal(o.v), below), sp := m.sp - 4))
  {
    assert Exec(m, Binary(opc)) == BinaryStep(m, opc);
  }

  /** The machine's handler for an operator's instruction computes what
      the interpreter computes. */
  lemma {:induction false} ComputeIsArith(op: TokenType, x: real, y: real)
    requires op in ArithOps
    ensures OpcodeFor(op).Some? && OpcodeFor(op).value in Handled
    ensures var c := Compute(OpcodeFor(op).value, x, y);
      && (c.Failure? <==> Arith(op, x, y).Error?)
      && (c.Success? ==> c.value == Arith(op, x, y).v)
  {
    if op == SLASH {
      assert Compute(Div, x, y) == Divide(x, y);
    }
  }

  /** Running `left ++ right ++ [instr]` stops at the first crash in
      either part. */
  lemma {:induction false} RunThreeParts(lc: seq<Instr>, rc: seq<Instr>, b: Instr, m: Machine, code: seq<Instr>)
    requires code == lc + rc + [b]
    ensures ExecSeq(lc, m).Failure? ==> ExecSeq(code, m) == ExecSeq(lc, m)
    ensures ExecSeq(lc, m).Success? && ExecSeq(rc, ExecSeq(lc, m).value).Failure? ==>
      ExecSeq(code, m) == ExecSeq(rc, ExecSeq(lc, m).value)
  {
    assert code == lc + (rc + [b]);
    ExecSeqAppend(lc, rc + [b], m);
    match ExecSeq(lc, m)
    case Failure(_) =>
    case Success(m1) =>
      ExecSeqAppend(rc, [b], m1);
  }

  /** What running a fragment of length `len` from `m` must give for the
      outcome `o`: one number more on the stack, `pc` past the fragment
      and `sp` three lower per operator (`k` of them) than the height
      suggests; a crash for an outcome without a number, which for the
      trees considered here is a division by zero. */
  function Expected(m: Machine, len: nat, o: Outcome, k: nat): Result<Machine, Crash> {
    match o
    case Value(v) => Success(Pushed(m, len, v, k))
    case _ => Failure(DivisionByZero)
  }

  /** Compiled code computes what the interpreter computes. */
  lemma {:induction false} CompiledCodeComputes(e: Node, m: Machine)
    requires ArithTree(e)
    ensures Compile(e).Success? && ExecSeq(Compile(e).value, m) == Expected(m, |Compile(e).value|, Interpret(e), BinOpCount(e))
  {
    match e
    case Integer(_, _) =>
      ExecSeqOne(Compile(e).value[0], m);
    case Float(_, _) =>
      ExecSeqOne(Compile(e).value[0], m);
    case BinOp(op, l, r, line) =>
      ArithTreeIsSupported(l);
      ArithTreeIsSupported(r);
      CompiledCodeComputes(l, m);
      if Interpret(l).Value? {
        CompiledCodeComputes(r, Pushed(m, |Compile(l).value|, Interpret(l).v, BinOpCount(l)));
      }
      BinOpComputes(op, l, r, line, m);
  }

  /** A binary node computes what it evaluates to once its operands do. */
  lemma {:induction false} BinOpComputes(op: Token, l: Node, r: Node, line: int, m: Machine)
    requires op.kind in ArithOps && Compile(l).Success? && Compile(r).Success?
    requires (Interpret(l).Value? || Interpret(l).Error?) && (Interpret(r).Value? || Interpret(r).Error?)
    requires ExecSeq(Compile(l).value, m) == Expected(m, |Compile(l).value|, Interpret(l), BinOpCount(l))
    requires Interpret(l).Value? ==>
      var m1 := Pushed(m, |Compile(l).value|, Interpret(l).v, BinOpCount(l));
      ExecSeq(Compile(r).value, m1) == Expected(m1, |Compile(r).value|, Interpret(r), BinOpCount(r))
    ensures var e := BinOp(op, l, r, line);
      Compile(e).Success? && ExecSeq(Compile(e).value, m) == Expected(m, |Compile(e).value|, Interpret(e), BinOpCount(e))
  {
    var e := BinOp(op, l, r, line);
    BinOpParts(op, l, r, line);
    StepComputes(op.kind, Compile(l), Compile(r), Interpret(l), Interpret(r), BinOpCount(l), BinOpCount(r), m,
                 Compile(e), Interpret(e), BinOpCount(e));
  }

  /** How a binary node is compiled, evaluated and counted, in terms of
      its operands. */
  lemma {:induction false} BinOpParts(op: Token, l: Node, r: Node, line: int)
    ensures Compile(BinOp(op, l, r, line)) == CompileBinary(op.kind, Compile(l), Compile(r))
    ensures Interpret(BinOp(op, l, r, line)) == Combine(op.kind, Interpret(l), Interpret(r))
    ensures BinOpCount(BinOp(op, l, r, line)) == BinOpCount(l) + BinOpCount(r) + 1
  {
  }

  /** The step case: if the operands' code `lr`, `rr` computes their
      outcomes `ol`, `or`, the operator's code `code` computes the
      combined outcome `o`. */
  lemma {:induction false} StepComputes(kind: TokenType, lr: Result<seq<Instr>, CompileError>,
                                        rr: Result<seq<Instr>, CompileError>,
                                        ol: Outcome, or: Outcome, kl: nat, kr: nat, m: Machine,
                                        code: Result<seq<Instr>, CompileError>, o: Outcome, k: nat)
    requires code == CompileBinary(kind, lr, rr) && o == Combine(kind, ol, or) && k == kl + kr + 1
    requires kind in ArithOps && lr.Success? && rr.Success?
    requires (ol.Value? || ol.Error?) && (or.Value? || or.Error?)
    requires ExecSeq(lr.value, m) == Expected(m, |lr.value|, ol, kl)
    requires ol.Value? ==>
      var m1 := Pushed(m, |lr.value|, ol.v, kl);
      ExecSeq(rr.value, m1) == Expected(m1, |rr.value|, or, kr)
    ensures code.Success? && ExecSeq(code.value, m) == Expected(m, |code.value|, o, k)
  {
    if ol.Value? && or.Value? {
      StepValue(kind, lr, rr, ol, or, kl, kr, m, code, o, k);
    } else {
      StepCrash(kind, lr, rr, ol, or, kl, kr, m, code, o, k);
    }
  }

  /** The step case when both operands have a number. */
  lemma {:induction false} StepValue(kind: TokenType, lr: Result<seq<Instr>, CompileError>,
                                        rr: Result<seq<Instr>, CompileError>,
                                        ol: Outcome, or: Outcome, kl: nat, kr: nat, m: Machine,
                                        code: Result<seq<Instr>, CompileError>, o: Outcome, k: nat)
    requires code == CompileBinary(kind, lr, rr) && o == Combine(kind, ol, or) && k == kl + kr + 1
    requires kind in ArithOps && lr.Success? && rr.Success?
    requires (ol.Value? || ol.Error?) && (or.Value? || or.Error?)
    requires ExecSeq(lr.value, m) == Expected(m, |lr.value|, ol, kl)
    requires ol.Value? ==>
      var m1 := Pushed(m, |lr.value|, ol.v, kl);
      ExecSeq(rr.value, m1) == Expected(m1, |rr.value|, or, kr)
    requires ol.Value? && or.Value?
    ensures code.Success? && ExecSeq(code.value, m) == Expected(m, |code.value|, o, k)
  {
    BinaryCodeParts(kind, lr, rr, code);
    BinaryOutcome(kind, ol, or, o);
    StepRuns(lr.value, rr.value, kind, m, ol, or, kl, kr, code.value, o, k);
  }

  /** A binary node's code from its operands' code, for an arithmetic
      operator: left, right, then the operator's instruction. */
  lemma {:induction false} BinaryCodeParts(kind: TokenType, lr: Result<seq<Instr>, CompileError>,
                                           rr: Result<seq<Instr>, CompileError>, code: Result<seq<Instr>, CompileError>)
    requires code == CompileBinary(kind, lr, rr) && kind in ArithOps && lr.Success? && rr.Success?
    ensures OpcodeFor(kind).Some? && code.Success?
    ensures code.value == lr.value + rr.value + [Binary(OpcodeFor(kind).value)]
  {
  }

  /** A binary node's outcome when both operands have a number. */
  lemma {:induction false} BinaryOutcome(kind: TokenType, ol: Outcome, or: Outcome, o: Outcome)
    requires o == Combine(kind, ol, or) && kind in ArithOps && ol.Value? && or.Value?
    ensures o == Arith(kind, ol.v, or.v)
  {
  }

  /** The step case when an operand crashes. */
  lemma {:induction false} StepCrash(kind: TokenType, lr: Result<seq<Instr>, CompileError>,
                                        rr: Result<seq<Instr>, CompileError>,
                                        ol: Outcome, or: Outcome, kl: nat, kr: nat, m: Machine,
                                        code: Result<seq<Instr>, CompileError>, o: Outcome, k: nat)
    requires code == CompileBinary(kind, lr, rr) && o == Combine(kind, ol, or) && k == kl + kr + 1
    requires kind in ArithOps && lr.Success? && rr.Success?
    requires (ol.Value? || ol.Error?) && (or.Value? || or.Error?)
    requires ExecSeq(lr.value, m) == Expected(m, |lr.value|, ol, kl)
    requires ol.Value? ==>
      var m1 := Pushed(m, |lr.value|, ol.v, kl);
      ExecSeq(rr.value, m1) == Expected(m1, |rr.value|, or, kr)
    requires !(ol.Value? && or.Value?)
    ensures code.Success? && ExecSeq(code.value, m) == Expected(m, |code.value|, o, k)
  {
    var lc, rc := lr.value, rr.value;
    var b := Binary(OpcodeFor(kind).value);
    assert code.value == lc + rc + [b];
    RunThreeParts(lc, rc, b, m, code.value);
    assert o.Error? && Expected(m, |code.value|, o, k) == Failure(DivisionByZero);
    if ol.Error? {
      assert Expected(m, |lc|, ol, kl) == Failure(DivisionByZero);
    } else {
      var m1 := Pushed(m, |lc|, ol.v, kl);
      assert Expected(m1, |rc|, or, kr) == Failure(DivisionByZero);
    }
  }


  /** Two fragments that each compute a number, then an arithmetic
      operator's instruction: the code computes the operator's outcome. */
  lemma {:induction false} StepRuns(lc: seq<Instr>, rc: seq<Instr>, op: TokenType, m: Machine,
                                    ol: Outcome, or: Outcome, k1: nat, k2: nat, code: seq<Instr>, o: Outcome, k: nat)
    requires op in ArithOps && ol.Value? && or.Value? && k == k1 + k2 + 1
    requires OpcodeFor(op).Some? && code == lc + rc + [Binary(OpcodeFor(op).value)] && o == Arith(op, ol.v, or.v)
    requires ExecSeq(lc, m) == Expected(m, |lc|, ol, k1)
    requires ExecSeq(rc, Pushed(m, |lc|, ol.v, k1)) == Expected(Pushed(m, |lc|, ol.v, k1), |rc|, or, k2)
    ensures ExecSeq(code, m) == Expected(m, |code|, o, k)
  {
    OperandsInSequence(lc, rc, m, ol.v, or.v, k1, k2);
    OperatorCode(lc, rc, op, m, ol.v, or.v, k1, k2, code, o, k);
  }

  /** Two fragments that pushed one number each, then the operator: its
      result replaces both, or the division by zero crashes. */
  lemma {:induction false} OperatorCode(lc: seq<Instr>, rc: seq<Instr>, op: TokenType, m: Machine,
                     x: real, y: real, k1: nat, k2: nat, code: seq<Instr>, o: Outcome, k: nat)
    requires op in ArithOps && OpcodeFor(op).Some?
    requires code == lc + rc + [Binary(OpcodeFor(op).value)] && o == Arith(op, x, y) && k == k1 + k2 + 1
    requires ExecSeq(lc + rc, m) == Success(Pushed(Pushed(m, |lc|, x, k1), |rc|, y, k2))
    ensures ExecSeq(code, m) == Expected(m, |code|, o, k)
  {
    var b := Binary(OpcodeFor(op).value);
    var m2 := Pushed(Pushed(m, |lc|, x, k1), |rc|, y, k2);
    ThenOne(lc + rc, b, m, m2);
    OperatorOnOperands(op, m, |lc|, |rc|, |code|, x, y, k1, k2, m2.(pc := m2.pc + 1), o, k);
  }

  /** The machine after a fragment that pushed one number and ran `k`
      binary instructions. */
  function Pushed(m: Machine, len: nat, v: real, k: nat): Machine {
    m.(pc := m.pc + len, stack := Cons(NumberVal(v), m.stack), sp := m.sp + 1 - 3 * k)
  }

  /** Two fragments that each push one number, one after the other. */
  lemma {:induction false} OperandsInSequence(lc: seq<Instr>, rc: seq<Instr>, m: Machine, x: real, y: real, k1: nat, k2: nat)
    requires ExecSeq(lc, m) == Success(Pushed(m, |lc|, x, k1))
    requires ExecSeq(rc, Pushed(m, |lc|, x, k1)) == Success(Pushed(Pushed(m, |lc|, x, k1), |rc|, y, k2))
    ensures ExecSeq(lc + rc, m) == Success(Pushed(Pushed(m, |lc|, x, k1), |rc|, y, k2))
  {
    ExecSeqAppend(lc, rc, m);
  }

  /** A fragment followed by one instruction. */
  lemma {:induction false} ThenOne(code: seq<Instr>, b: Instr, m: Machine, m2: Machine)
    requires ExecSeq(code, m) == Success(m2)
    ensures ExecSeq(code + [b], m) == Exec(m2.(pc := m2.pc + 1), b)
  {
    ExecSeqAppend(code, [b], m);
    ExecSeqOne(b, m2);
  }

  /** The operator on the two numbers its operands pushed: the result
      replaces both. */
  lemma {:induction false} OperatorOnOperands(op: TokenType, m: Machine, n1: nat, n2: nat, len: nat, x: real, y: real,
                                              k1: nat, k2: nat, m3: Machine, o: Outcome, k: nat)
    requires op in ArithOps && len == n1 + n2 + 1 && o == Arith(op, x, y) && k == k1 + k2 + 1
    requires m3 == var m2 := Pushed(Pushed(m, n1, x, k1), n2, y, k2); m2.(pc := m2.pc + 1)
    ensures OpcodeFor(op).Some?
    ensures Exec(m3, Binary(OpcodeFor(op).value)) == Expected(m, len, o, k)
  {
    OperandsOnStack(m, n1, n2, len, x, y, k1, k2, m3, k);
    BinaryOnNumbers(m3, op, x, y, m.stack);
  }

  /** The machine that reaches the operator's instruction holds both
      operands on top of the stack, and replacing them by one number
      gives the machine after the whole binary node. */
  lemma {:induction false} OperandsOnStack(m: Machine, n1: nat, n2: nat, len: nat, x: real, y: real, k1: nat, k2: nat,
                                           m3: Machine, k: nat)
    requires len == n1 + n2 + 1 && k == k1 + k2 + 1
    requires m3 == var m2 := Pushed(Pushed(m, n1, x, k1), n2, y, k2); m2.(pc := m2.pc + 1)
    ensures m3.stack == Cons(NumberVal(y), Cons(NumberVal(x), m.stack))
    ensures forall v :: m3.(stack := Cons(NumberVal(v), m.stack), sp := m3.sp - 4) == Pushed(m, len, v, k)
  {
  }

  /** A PUSH followed by the corrected print instruction: the value is
      printed and the stack and `sp` are as before. */
  lemma {:induction false} PushThenPrint(val: Value, endText: string, m: Machine)
    ensures val != BoolVal(false) ==>
              ExecSeq([Push(val), PrintOp(endText)], m) ==
              Success(m.(pc := m.pc + 2, out := m.out + [Printed(val, endText != "")]))
    ensures val == BoolVal(false) ==> ExecSeq([Push(val), PrintOp(endText)], m) == Failure(Unprintable)
  {
    var op := PrintOp(endText);
    var m1 := PushValue(m.(pc := m.pc + 1), val);
    assert Exec(m.(pc := m.pc + 1), Push(val)) == Success(m1);
    if val != BoolVal(false) {
      assert Exec(m1.(pc := m1.pc + 1), op) ==
        Success(m.(pc := m.pc + 2, out := m.out + [Printed(val, endText != "")]));
    }
    ExecSeqOne(Push(val), m);
    assert ExecSeq([Push(val)], m) == Success(m1);
    ExecSeqOne(op, m1);
    assert [Push(val), op] == [Push(val)] + [op];
    ExecSeqAppend([Push(val)], [op], m);
  }

  /** With the corrected print instruction, `print` of a literal pushes
      its value and prints it, with a line break exactly when the line
      ending is not empty, leaving the stack and `sp` as they were;
      `print false` crashes. */
  lemma {:induction false} PrintStatementPrints(v: Node, endText: string, line: int, m: Machine)
    requires v.Integer? || v.Float? || v.Bool? || v.String?
    ensures Compile(PrintStmt(v, endText, line)).Success?
    ensures v != Bool(false, v.line) ==>
              ExecSeq(Compile(PrintStmt(v, endText, line)).value, m) ==
              Success(m.(pc := m.pc + 2, out := m.out + [Printed(Compile(v).value[0].val, endText != "")]))
    ensures v == Bool(false, v.line) ==> ExecSeq(Compile(PrintStmt(v, endText, line)).value, m) == Failure(Unprintable)
  {
    LiteralsPushTaggedValues(v);
    var val := Compile(v).value[0].val;
    assert Compile(PrintStmt(v, endText, line)).value == [Push(val), PrintOp(endText)];
    PushThenPrint(val, endText, m);
  }

  /** The loop on a `HALT` at `pc`: one cycle, and the loop stops. */
  lemma {:induction false} LoopAtHalt(code: seq<Instr>, m: Machine)
    requires m.running && m.pc < |code| && code[m.pc] == Halt
    ensures Loop(code, m) == Success(m.(pc := m.pc + 1, running := false))
  {
    var m1 := m.(pc := m.pc + 1, running := false);
    assert Cycle(code, m) == Success(m1);
    assert Loop(code, m1) == Success(m1);
  }

  /** The loop on a `LABEL` at `pc`: one cycle that changes only `pc`. */
  lemma {:induction false} LoopAtLabel(code: seq<Instr>, m: Machine)
    requires m.running && m.pc < |code| && code[m.pc].Label?
    ensures Loop(code, m) == Loop(code, m.(pc := m.pc + 1))
  {
    assert Cycle(code, m) == Success(m.(pc := m.pc + 1));
  }

  /** A fragment framed by `LABEL START` and `HALT` and run from the
      start: the fragment's outcome, with `pc` past the final `HALT` and
      the flag cleared. */
  lemma {:induction false} RunFramed(body: seq<Instr>, m: Machine, o: Outcome, k: nat)
    requires Emittable(body) && ExecSeq(body, m.(pc := 1, running := true)) == Expected(m.(pc := 1, running := true), |body|, o, k)
    ensures var code := [Label("START")] + body + [Halt];
      && (o.Value? ==>
            Run(code, m) == Success(Machine(|code|, Cons(NumberVal(o.v), m.stack), m.sp + 1 - 3 * k, false, m.out)))
      && (o.Error? ==> Run(code, m) == Failure(DivisionByZero))
  {
    var code := [Label("START")] + body + [Halt];
    var m1 := m.(pc := 1, running := true);
    LoopAtLabel(code, m.(pc := 0, running := true));
    assert code[1..1 + |body|] == body;
    LoopRunsFragment(code, body, m1);
    if o.Value? {
      var m2 := Pushed(m1, |body|, o.v, k);
      assert code[m2.pc] == Halt;
      LoopAtHalt(code, m2);
    }
  }

  /** The whole program: `run` on the output of `compile_code` halts after
      the last instruction with the interpreter's number on top of the
      stack it started with, or crashes on a division by zero. */
  lemma {:induction false} RunAgreesWithInterpreter(e: Node, m: Machine)
    requires ArithTree(e)
    ensures CompileCode(e).Success?
    ensures var code := CompileCode(e).value;
      && (Interpret(e).Value? ==>
            Run(code, m) == Success(Machine(|code|, Cons(NumberVal(Interpret(e).v), m.stack),
                                            m.sp + 1 - 3 * BinOpCount(e), false, m.out)))
      && (Interpret(e).Error? ==> Run(code, m) == Failure(DivisionByZero))
  {
    ArithTreeIsSupported(e);
    CompiledCodeComputes(e, m.(pc := 1, running := true));
    var body := Compile(e).value;
    assert CompileCode(e).value == [Label("START")] + body + [Halt];
    RunFramed(body, m, Interpret(e), BinOpCount(e));
  }
}
