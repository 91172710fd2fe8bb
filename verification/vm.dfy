/** The stack virtual machine (vm.py). A machine is a record of program
    counter, value stack, the separately kept stack pointer `sp`, the
    running flag and the output produced so far. Python's `getattr`
    dispatch is a match over `Instr`; whatever makes the Python loop raise
    (an empty stack, a `pc` past the end, an opcode with no handler, a
    division by zero) is a `Crash`. `vm_error` only prints and execution
    goes on, so a type error is a `Reported` event in the output. The
    Python list used as the stack is a linked stack with its top first. */
module Vm {
  import opened Common
  import opened Compiler

  datatype Event =
    | Printed(val: Value, newline: bool)
    | Reported(pc: nat, opcode: Opcode, left: Tag, right: Tag)

  /** What makes the Python loop raise. `Unprintable` is printing `false`:
      `stringify(False)` returns the bool itself rather than a string, and
      `bytes(False, "utf-8")` raises a TypeError. */
  datatype Crash = StackUnderflow | PcOutOfRange | NoHandler(name: string) | Unpackable | DivisionByZero | Unprintable

  /** The value stack, top first: `append` is `Cons`, `pop` takes the
      head. */
  datatype Stack = Empty | Cons(top: Value, rest: Stack)

  function Height(s: Stack): nat {
    match s
    case Empty => 0
    case Cons(_, rest) => 1 + Height(rest)
  }

  datatype Machine = Machine(pc: nat, stack: Stack, sp: int, running: bool, out: seq<Event>)

  /** `VM()`: empty stack, `pc` and `sp` zero. */
  function Init(): (m: Machine)
    ensures m.stack == Empty && m.sp - Height(m.stack) == 0 && m.pc == 0 && m.out == []
  {
    Machine(0, Empty, 0, false, [])
  }

  /** How far the stack pointer has drifted from the true stack height. */
  function Drift(m: Machine): int {
    m.sp - Height(m.stack)
  }

  /** The opcodes with a handler method. */
  const Handled: set<Opcode> := {Add, Sub, Mul, Div}

  function OpcodeName(opc: Opcode): string {
    match opc
    case Add => "ADD"
    case Sub => "SUB"
    case Mul => "MUL"
    case Div => "DIV"
    case Exp => "EXP"
    case Mod => "MOD"
    case Lt => "LT"
    case Gt => "GT"
    case Le => "LE"
    case Ge => "GE"
    case Eq => "EQ"
    case Ne => "NE"
  }

  /** `PUSH`: the value goes on top and `sp` follows. */
  function PushValue(m: Machine, v: Value): (r: Machine)
    ensures r.stack.Cons? && r.stack.top == v && r.stack.rest == m.stack
    ensures Drift(r) == Drift(m)
    ensures r.pc == m.pc && r.running == m.running && r.out == m.out
  {
    m.(stack := Cons(v, m.stack), sp := m.sp + 1)
  }

  /** `POP`: removes and returns the top value; an empty stack raises. */
  function PopValue(m: Machine): (r: Result<(Machine, Value), Crash>)
    ensures r.Failure? <==> m.stack == Empty
    ensures r.Success? ==> m.stack == Cons(r.value.1, r.value.0.stack)
    ensures r.Success? ==> Drift(r.value.0) == Drift(m)
    ensures r.Success? ==> r.value.0.pc == m.pc && r.value.0.running == m.running && r.value.0.out == m.out
  {
    match m.stack
    case Empty => Failure(StackUnderflow)
    case Cons(top, rest) => Success((m.(stack := rest, sp := m.sp - 1), top))
  }

  /** Division with the operands in their intended order: left / right. */
  function Divide(left: real, right: real): (r: Result<real, Crash>)
    ensures r.Failure? <==> right == 0.0
    ensures r.Success? ==> r.value * right == left
  {
    if right == 0.0 then Failure(DivisionByZero) else Success(left / right)
  }

  /** Division as vm.py:65 writes it: right / left, raising when the left
      operand is zero. */
  function DivideAsWritten(left: real, right: real): (r: Result<real, Crash>)
    ensures r == Divide(right, left)
  {
    if left == 0.0 then Failure(DivisionByZero) else Success(right / left)
  }

  /** The number an arithmetic handler computes from two numbers. */
  function Compute(opc: Opcode, left: real, right: real): (r: Result<real, Crash>)
    requires opc in Handled
    ensures r.Failure? <==> opc == Div && right == 0.0
    ensures r.Failure? ==> r.error == DivisionByZero
    ensures opc == Add ==> r == Success(left + right)
    ensures opc == Sub ==> r == Success(left - right)
    ensures opc == Mul ==> r == Success(left * right)
    ensures opc == Div ==> r == Divide(left, right)
  {
    match opc
    case Add => Success(right + left)
    case Sub => Success(left - right)
    case Mul => Success(left * right)
    case Div => Divide(left, right)
  }

  /** `ADD`, `SUB`, `MUL` and `DIV`: pop right, then left, lower `sp` by
      two more; push the result when both are numbers, otherwise report
      the tags and push nothing. */
  function BinaryStep(m: Machine, opc: Opcode): (r: Result<Machine, Crash>)
    requires opc in Handled
    ensures !(m.stack.Cons? && m.stack.rest.Cons?) ==> r == Failure(StackUnderflow)
    ensures m.stack.Cons? && m.stack.rest.Cons? ==>
      var rest, left, right := m.stack.rest.rest, m.stack.rest.top, m.stack.top;
      if left.NumberVal? && right.NumberVal? then
        var x := Compute(opc, left.n, right.n);
        && (x.Failure? ==> r == Failure(DivisionByZero))
        && (x.Success? ==> r == Success(m.(stack := Cons(NumberVal(x.value), rest), sp := m.sp - 4)))
      else
        r == Success(m.(stack := rest, sp := m.sp - 4,
                        out := m.out + [Reported(m.pc, opc, TagOf(left), TagOf(right))]))
  {
    match PopValue(m)
    case Failure(e) => Failure(e)
    case Success((m1, right)) =>
      match PopValue(m1)
      case Failure(e) => Failure(e)
      case Success((m2, left)) =>
        var m3 := m2.(sp := m2.sp - 2);
        if left.NumberVal? && right.NumberVal? then
          match Compute(opc, left.n, right.n)
          case Failure(e) => Failure(e)
          case Success(x) => Success(m3.(stack := Cons(NumberVal(x), m3.stack)))
        else
          Success(m3.(out := m3.out + [Reported(m.pc, opc, TagOf(left), TagOf(right))]))
  }

  /** The stack pointer of a binary instruction: `sp` drops by four while
      the stack shrinks by one (a result pushed) or by two (a reported
      type error), so `sp` drifts below the stack height by three or two. */
  lemma {:induction false} BinaryDrift(m: Machine, opc: Opcode)
    requires opc in Handled && BinaryStep(m, opc).Success?
    ensures var r := BinaryStep(m, opc).value;
      || (Height(r.stack) == Height(m.stack) - 1 && Drift(r) == Drift(m) - 3 && r.out == m.out)
      || (Height(r.stack) == Height(m.stack) - 2 && Drift(r) == Drift(m) - 2 && |r.out| == |m.out| + 1
          && r.out[|m.out|].Reported?)
  {
  }

  /** `PRINT` and `PRINTLN`: pop one value and emit it, with or without a
      line break; `false` cannot be turned into text. */
  function PrintStep(m: Machine, newline: bool): (r: Result<Machine, Crash>)
    ensures r.Failure? <==> m.stack == Empty || m.stack.top == BoolVal(false)
    ensures m.stack == Empty ==> r == Failure(StackUnderflow)
    ensures m.stack.Cons? && m.stack.top == BoolVal(false) ==> r == Failure(Unprintable)
    ensures r.Success? ==>
      m.stack == Cons(m.stack.top, r.value.stack)
      && r.value.out == m.out + [Printed(m.stack.top, newline)]
      && Drift(r.value) == Drift(m) && r.value.pc == m.pc && r.value.running == m.running
  {
    match PopValue(m)
    case Failure(e) => Failure(e)
    case Success((m1, v)) =>
      if v == BoolVal(false) then Failure(Unprintable) else Success(m1.(out := m1.out + [Printed(v, newline)]))
  }

  /** Dispatch one instruction whose `pc` has already been advanced. */
  function Exec(m: Machine, instr: Instr): (r: Result<Machine, Crash>)
    ensures r.Success? ==> r.value.pc == m.pc
    ensures r.Success? ==> (r.value.running <==> m.running && !instr.Halt?)
    ensures instr.Halt? || instr.Label? ==> r.Success? && r.value.stack == m.stack && r.value.sp == m.sp
    ensures instr.Binary? && instr.opcode !in Handled ==> r == Failure(NoHandler(OpcodeName(instr.opcode)))
    ensures instr.RawText? ==> r.Failure?
    ensures r.Success? && !instr.Binary? ==> Drift(r.value) == Drift(m)
    ensures instr.Push? ==> r == Success(PushValue(m, instr.val))
    ensures instr.Pop? ==> (PopValue(m).Failure? ==> r == Failure(PopValue(m).error))
                           && (PopValue(m).Success? ==> r == Success(PopValue(m).value.0))
    ensures instr.Binary? && instr.opcode in Handled ==> r == BinaryStep(m, instr.opcode)
    ensures instr.Print? ==> r == PrintStep(m, false)
    ensures instr.PrintLn? ==> r == PrintStep(m, true)
    ensures instr.RawText? ==>
              r == Failure(if instr.text == [] then Unpackable else NoHandler(instr.text[..1]))
  {
    match instr
    case Halt => Success(m.(running := false))
    case Push(v) => Success(PushValue(m, v))
    case Pop =>
      (match PopValue(m)
       case Failure(e) => Failure(e)
       case Success((m1, _)) => Success(m1))
    case Binary(opc) =>
      if opc in Handled then BinaryStep(m, opc) else Failure(NoHandler(OpcodeName(opc)))
    case Print => PrintStep(m, false)
    case PrintLn => PrintStep(m, true)
    case Label(_) => Success(m)
    case RawText(text) =>
      // `opcode, *args = text` splits the string into characters: the
      // opcode is its first character, and no handler has a
      // one-character name.
      if text == [] then Failure(Unpackable) else Failure(NoHandler(text[..1]))
  }

  /** `PUSH` then `POP` is the identity on the machine and yields the
      pushed value (last in, first out). */
  lemma {:induction false} PopUndoesPush(m: Machine, v: Value)
    ensures PopValue(PushValue(m, v)) == Success((m, v))
  {
  }

  /** The two halves of the division finding: vm.py:65 divides right by
      left, so 6 / 3 gives 0.5 instead of 2, and a zero dividend raises
      where the quotient 0 was meant. */
  lemma {:induction false} DivisionAsWrittenSwapsOperands()
    ensures DivideAsWritten(6.0, 3.0) == Success(0.5) && Divide(6.0, 3.0) == Success(2.0)
    ensures DivideAsWritten(0.0, 5.0) == Failure(DivisionByZero) && Divide(0.0, 5.0) == Success(0.0)
  {
  }

  /** The two halves of the print finding: the bare string compiler.py:73
      emits dispatches on its first character "P", which has no handler,
      while the intended `PRINTLN` pops the top and prints it with a line
      break (unless it is `false`). */
  lemma {:induction false} PrintlnAsWrittenHasNoHandler(m: Machine, endText: string)
    requires endText != ""
    ensures Exec(m, PrintOpAsWritten(endText)) == Failure(NoHandler("P"))
    ensures m.stack.Cons? && m.stack.top != BoolVal(false) ==>
      Exec(m, PrintOp(endText)) ==
      Success(m.(stack := m.stack.rest, sp := m.sp - 1, out := m.out + [Printed(m.stack.top, true)]))
  {
    assert "PRINTLN"[..1] == "P";
  }

  /** One cycle of the `while self.is_running` loop: fetch, advance `pc`,
      dispatch. */
  function Cycle(instrs: seq<Instr>, m: Machine): (r: Result<Machine, Crash>)
    ensures m.pc >= |instrs| ==> r == Failure(PcOutOfRange)
    ensures r.Success? ==> r.value.pc == m.pc + 1 && m.pc < |instrs|
  {
    if m.pc >= |instrs| then Failure(PcOutOfRange)
    else Exec(m.(pc := m.pc + 1), instrs[m.pc])
  }

  /** The `while self.is_running` loop: cycles until a `HALT` clears the
      flag. It ends because `pc` grows every cycle and the fetch past the
      end raises. */
  function Loop(instrs: seq<Instr>, m: Machine): (r: Result<Machine, Crash>)
    ensures r.Success? ==> !r.value.running
    ensures r.Success? && m.running ==>
      0 < r.value.pc <= |instrs| && instrs[r.value.pc - 1] == Halt
    decreases |instrs| - m.pc
  {
    if !m.running then Success(m)
    else
      match Cycle(instrs, m)
      case Failure(e) => Failure(e)
      case Success(m1) => Loop(instrs, m1)
  }

  /** `run`: restart at instruction 0 with the flag set. The stack, `sp`
      and the output carry over from whatever ran before. */
  function Run(instrs: seq<Instr>, m: Machine): (r: Result<Machine, Crash>)
    ensures r.Success? ==> !r.value.running && 0 < r.value.pc <= |instrs| && instrs[r.value.pc - 1] == Halt
    ensures instrs == [] ==> r == Failure(PcOutOfRange)
  {
    Loop(instrs, m.(pc := 0, running := true))
  }

  /** `run` does not depend on where a previous run left `pc` or the
      flag. */
  lemma {:induction false} RunResetsPc(instrs: seq<Instr>, m: Machine, pc: nat, running: bool)
    ensures Run(instrs, m) == Run(instrs, m.(pc := pc, running := running))
  {
    assert m.(pc := 0, running := true) == m.(pc := pc, running := running).(pc := 0, running := true);
  }

  /** Straight-line execution of a code fragment, each instruction with
      `pc` advanced as the loop does it. */
  function ExecSeq(code: seq<Instr>, m: Machine): (r: Result<Machine, Crash>)
    ensures r.Success? ==> r.value.pc == m.pc + |code|
    ensures r.Success? && Emittable(code) ==> r.value.running == m.running
  {
    if code == [] then Success(m)
    else
      match Exec(m.(pc := m.pc + 1), code[0])
      case Failure(e) => Failure(e)
      case Success(m1) => ExecSeq(code[1..], m1)
  }

  /** A one-instruction fragment is one step. */
  lemma {:induction false} ExecSeqOne(instr: Instr, m: Machine)
    ensures ExecSeq([instr], m) == Exec(m.(pc := m.pc + 1), instr)
  {
    var r := Exec(m.(pc := m.pc + 1), instr);
    assert [instr][0] == instr && [instr][1..] == [];
    if r.Success? {
      assert ExecSeq([instr], m) == ExecSeq([], r.value);
    }
  }

  /** Running a fragment in two pieces is running it whole. */
  lemma {:induction false} ExecSeqAppend(a: seq<Instr>, b: seq<Instr>, m: Machine)
    ensures ExecSeq(a, m).Failure? ==> ExecSeq(a + b, m) == ExecSeq(a, m)
    ensures ExecSeq(a, m).Success? ==> ExecSeq(a + b, m) == ExecSeq(b, ExecSeq(a, m).value)
  {
    if a == [] {
      assert a + b == b;
    } else {
      assert (a + b)[0] == a[0];
      assert (a + b)[1..] == a[1..] + b;
      var r := Exec(m.(pc := m.pc + 1), a[0]);
      if r.Success? {
        ExecSeqAppend(a[1..], b, r.value);
      }
    }
  }

  /** Inside the loop, a fragment without `HALT` laid out at `pc` runs as
      straight-line code. */
  lemma {:induction false} LoopRunsFragment(instrs: seq<Instr>, code: seq<Instr>, m: Machine)
    requires m.running && Emittable(code)
    requires m.pc + |code| <= |instrs| && instrs[m.pc..m.pc + |code|] == code
    ensures Loop(instrs, m) ==
      match ExecSeq(code, m)
      case Failure(e) => Failure(e)
      case Success(m1) => Loop(instrs, m1)
    decreases |code|
  {
    if code != [] {
      assert instrs[m.pc] == code[0];
      assert instrs[m.pc + 1..m.pc + 1 + |code[1..]|] == code[1..];
      match Exec(m.(pc := m.pc + 1), code[0])
      case Failure(_) =>
      case Success(m1) =>
        assert Emittable(code[1..]) by {
          forall i | 0 <= i < |code[1..]| ensures code[1..][i] == code[i + 1] { }
        }
        LoopRunsFragment(instrs, code[1..], m1);
    }
  }
}
