# pinky, the core of an early toolchain snapshot, in Dafny

This project models the pure core of the `pinky` scripting-language
toolchain and proves properties of it:

- **the lexer**, `lexer.py`: a single-pass character scanner;
- **the expression parser**, `parser.py`: recursive descent over
  `primary`, `unary`, `factor`, `term` and `expr`;
- **the syntax-tree nodes**, `model.py`: one `Node` datatype, whose
  constructor assertions are the predicate `Ast.LocalWF`;
- **the tree-walking interpreter** for arithmetic, `interpreter.py`;
- **the compiler** to flat stack bytecode, `compiler.py`;
- **the stack virtual machine**, `vm.py`;
- **the scope chain** of environments, `state.py`.

Every stage is a pure function over immutable data:

- The lexer and the VM are records that each step returns updated.
- The environment chain is a sequence of frames, innermost first.
- Python exceptions are `Failure` values of a `Result`, or `Crash` values in the VM.
- Python's `None` is `Option.None`, or `NoValue` for the interpreter.

Numbers are exact reals. A literal token carries its numeric value in the
token itself.

The central results are these:

- **The two back ends agree, once the machine's division is corrected**
  (`Agreement.RunAgreesWithInterpreter`). Running `compile_code`'s
  output on any tree of numeric literals and `+ - * /` halts with the
  interpreter's number on top of the stack the machine started with.
  When the interpreter divides by zero, the machine crashes on the same
  division. The machine as written divides the right operand by the
  left, so there the two back ends disagree on most divisions (see
  Findings).
- **The lexer equals an independent reference definition.** The lexer's
  scan is proved equal to a reference that reads the tokens straight off
  the text. From this it follows that the lexer fails exactly on a
  comment without a closing newline, and that its final line counter is
  one plus the number of newlines.
- **The parser's trees have the grammar's shape.** Its left folding gives
  `+`/`-` and `*`/`/` their left associativity and precedence.
- **The parser accepts every spelling of such a tree**
  (`ParserCompleteness.ParseComplete`). On tokens that spell a tree of the
  grammar's shape, `parse` returns exactly that tree, with its operator
  tokens and lines taken from the tokens read. Together with
  `Parser.Parse`, the parser reads exactly the spellings of the grammar's
  trees.
- **The environment operations keep the scope discipline.**
  - `get_var` after `set_var` sees the new value.
  - Nothing else changes.
  - A new scope sees its parent.

The snapshot's files do not fit together everywhere, so the model fixes
the glue as follows:

- **Tokens** are `(kind, lexeme, line, literal)`.
  - The lexer builds `Token(type, lexeme)` without a line (lexer.py:55); here it records the current line.
  - The fourth field holds the value of an `INTEGER`/`FLOAT` token.
- **Nodes** carry `line` as a plain field. The parser omits it. Here a literal node takes its literal token's line, an operator node its operator token's line, and a grouping the line of its `(`.
- **The runtime tags** (`TYPE_NUMBER`, `TYPE_BOOL`, `TYPE_STRING`), which compiler.py:1 imports from a module that does not define them, are the datatype `Compiler.Tag`.

The snapshot implements only part of the language, and the model follows
its code:

- The lexer recognises only single-character punctuation. Every other
  character, such as a digit, a letter, `=` or a quote, is dropped
  without an error.
- A comment runs from `#` only.
- `compile` emits nothing for `UnOp` and `Grouping`.
- The VM has handlers only for `HALT PUSH POP ADD SUB MUL DIV PRINT
  PRINTLN LABEL`.
- A VM type error prints a message and execution goes on.
- Printing `false` crashes: `stringify(False)` returns a boolean, not a
  string, and the VM's `bytes(...)` call rejects it.

Two places are modelled corrected rather than as written. Each has an
as-written member and a counterexample (see Findings):

- DIV divides the left operand by the right (vm.py:65 divides the right
  by the left). The whole machine (`Vm.Compute` and everything built on
  it) uses the corrected DIV.
- `print` with a non-empty line ending emits the PRINTLN instruction
  (compiler.py:73 emits the bare string `"PRINTLN"`). `Compiler.Compile`
  emits the corrected instruction.

## Model

| member | source | states |
|---|---|---|
| Ast.Construct | model.py:68-330 | a constructor succeeds exactly when all its `isinstance` assertions hold, and returns the node unchanged; it fails on a `BinOp` with a non-expression left child by naming `left`; literals, identifiers, params and calls always succeed |
| Ast.FirstFailing | model.py:194-197 | running a constructor's assertions in order reports a failing one exactly when not all of them hold, and the name it reports is that of the first failing assertion, all earlier ones holding |
| Ast.ChecksAreLocalWF | model.py:40-330 | the ordered assertion list of each constructor holds exactly when the node is locally well formed |
| Lexer.Init | lexer.py:26-31 | a fresh scanner holds the given source, is at position 0 on line 1, and has no tokens |
| Lexer.Advance | lexer.py:34-37 | `advance` returns the character under the cursor and moves the cursor by exactly one |
| Lexer.Peek | lexer.py:39-40 | `peek` returns the character under the cursor and has none at the end, where Python's index raises |
| Lexer.Lookahead | lexer.py:42-44 | `lookahead(n)` yields the character `n` places ahead, and nothing past the end |
| Lexer.Match | lexer.py:46-52 | `match` consumes exactly one character when it is the expected one; otherwise, including at the end, it returns false without moving |
| Lexer.AddToken | lexer.py:54-55 | `add_token` appends one token whose lexeme is `source[start:curr]` and changes nothing else |
| Lexer.SkipComment | lexer.py:70-72 | the comment loop stops on the first newline and leaves it unconsumed; it fails exactly when no newline follows |
| Lexer.Step | lexer.py:58-104 | one loop iteration: a newline adds one to `line` and emits nothing; space, tab and CR are skipped; each punctuation character emits one token with that character as lexeme; any other character emits nothing; `#` fails exactly when no newline follows |
| Lexer.Scan | lexer.py:57-60 | the loop runs to the end of the source |
| Lexer.Tokenize | lexer.py:57-106 | `tokenize` yields exactly the reference token list read straight off the text; it fails exactly on a `#` with no newline after it, and otherwise yields at most one token per character, each a single punctuation character of the matching kind |
| Lexer.FinalLine | lexer.py:62-63 | after a successful scan, `line` is 1 plus the number of newlines in the source |
| Lexer.ScanFailsIffOpenComment | lexer.py:70-72 | scanning from any position fails exactly when some `#` at or after it has no newline after it |
| Lexer.ScanCountsLines | lexer.py:62-63 | scanning adds to `line` exactly the number of newlines still ahead of the cursor |
| Lexer.ScanMatchesReference | lexer.py:57-106 | the scan keeps the tokens already emitted and appends exactly the tokens of the reference definition, in source order, and fails exactly when the reference does |
| Lexer.CharMatchesReference | lexer.py:62-104 | one step on any character but `#` agrees with one unfolding of the reference |
| Lexer.CommentMatchesReference | lexer.py:70-72 | one step on `#` agrees with the reference: both drop the comment up to, but not including, its newline, and both fail without one |
| Lexer.ReferenceTokens | lexer.py:73-104 | the reference tokens are single punctuation characters, at most one per source character, on lines that never decrease and lie between the first line and the first line plus the number of newlines |
| Parser.Advance | parser.py:14-19 | `advance` returns the current token and moves one forward, and fails past the end |
| Parser.IsNext | parser.py:24-28 | `is_next` looks only at the token after the current one and is false when there is none |
| Parser.Expect | parser.py:30-39 | `expect` consumes the current token exactly when it has the expected kind; otherwise it fails with an end-of-input error or an unexpected-token error, without consuming |
| Parser.Match | parser.py:41-47 | `match` consumes exactly one token of the expected kind; otherwise, including at the end, it returns false without moving |
| Parser.MatchAny | parser.py:67-71 | a chain of `match` calls joined by `or` consumes one token exactly when its kind is among those tried |
| Parser.Primary | parser.py:53-63 | `primary` moves forward within the token list; a node it returns is well formed, is a literal or a grouping of an expression, follows a numeric literal token, and spells exactly the tokens read; when the current token is not a number or `(` it returns nothing and does not move, and otherwise it returns a node or fails |
| Parser.LiteralNode | parser.py:54-57 | an `INTEGER` token gives an `Integer` node of its value and a `FLOAT` token a `Float` node of its value, on the token's line and one token further on; a numeric token without a value of its kind fails with `BadLiteral` |
| Parser.Group | parser.py:58-63 | the parenthesis branch gives a well-formed `Grouping` on the line of its `(`, spelling exactly the tokens from `(` to `)`, or fails |
| Parser.GroupResult | parser.py:58-63 | a closed group read from `(` to `)` around an expression of the grammar's shape is a good primary: well formed, within the tokens, and spelling exactly the tokens from `(` to `)` |
| Parser.CloseGroup | parser.py:60-63 | a missing `)` is an error; a present one wraps the inner expression in `Grouping` one token further on; a missing inner expression fails in the `Grouping` constructor |
| Parser.Unary | parser.py:66-76 | `unary` builds well-formed trees of prefix operators around a primary |
| Parser.Factor | parser.py:79-80 | `factor` has the shape of `unary` |
| Parser.MakeBinOp | parser.py:89 | `BinOp(op, expr, right)` succeeds exactly when both operands are expressions, and then builds that node |
| Parser.TermLoop | parser.py:86-89 | when no `*` or `/` follows, the product loop returns the accumulated tree unchanged without moving; otherwise it stops before the first token that is not `*` or `/` after a factor, keeps the tree well formed and of term shape, and the tree spells the accumulated tree followed by the tokens read |
| Parser.Term | parser.py:83-91 | `term` builds well-formed trees of term shape that spell exactly the tokens read, and stops only where no `*` or `/` follows |
| Parser.ExprLoop | parser.py:96-99 | when no `+` or `-` follows, the sum loop returns the accumulated tree unchanged without moving; otherwise it stops before the first token that is not `+` or `-` after a term, keeps the tree well formed and of expression shape, and the tree spells the accumulated tree followed by the tokens read |
| Parser.Expr | parser.py:94-100 | `expr` builds well-formed trees of expression shape that spell exactly the tokens read, and stops only where no operator of `+ - * /` follows |
| Parser.Parse | parser.py:102-104 | a tree from `parse` is well formed, has the grammar's shape, needs a numeric literal token, and spells exactly a prefix of the tokens that ends where no `+ - * /` follows |
| ParserFacts.AdditiveRightOperandIsTerm | parser.py:94-100 | the right operand of `+`/`-` is a term and never another sum, so `+` and `-` group to the left and bind more loosely than `*` and `/` |
| ParserFacts.TermIsNotAdditive | parser.py:83-91 | a term is never a sum |
| ParserFacts.MultiplicativeRightOperandIsUnary | parser.py:83-91 | the right operand of `*`/`/` is a unary expression, never a binary node |
| ParserFacts.PrefixWrapsOperand | parser.py:66-76 | a prefix operator wraps the unary expression after it in one more `UnOp` (`--1` nests two) |
| ParserFacts.ShapedIsExpr | parser.py:53-100 | every tree of the grammar's shape is an expression node |
| ParserFacts.ExprBuildsExpr | parser.py:94-100 | what `expr` returns is an expression node within the token list |
| ParserFacts.SumFoldsLeft | parser.py:96-99 | after `a`, an additive operator and the next term `b` continue the loop with `a op b` as the new left operand, so `a-b-c` is `(a-b)-c` |
| ParserFacts.ProductFoldsLeft | parser.py:86-89 | the product loop folds to the left in the same way |
| ParserFacts.PrimaryOpensGroup | parser.py:58-59 | after `(`, `primary` parses an expression and hands it to the closing step; errors in it propagate |
| ParserFacts.UnclosedParenthesis | parser.py:60-61 | `( e` without `)` is the missing-parenthesis error |
| ParserFacts.EmptyYieldsNothing | parser.py:53-63 | with no tokens, `parse` yields nothing and no error |
| ParserFacts.PrefixWithoutOperand | parser.py:66-76 | a run of prefix operators reaching the end of the tokens fails in the innermost `UnOp` constructor, on `operand`, and every outer operator passes that error on; so does `parse` of such a list |
| ParserFacts.NothingParsedIff | parser.py:53-104 | `parse` yields nothing, without an error, exactly when the input is empty or its first token is not a number, `(`, a prefix operator, `*` or `/` |
| ParserFacts.TrailingTokensIgnored | parser.py:102-104 | `parse` reads only a prefix: `1 )` parses to the literal 1 |
| ParserFacts.LiteralExpr | parser.py:94-100 | an integer literal token followed by no operator is a whole expression, one token long: an `Integer` node of its value on its line |
| ParserFacts.LiteralUnary | parser.py:53-76 | an integer literal token is a unary expression on its own: an `Integer` node of its value on its line |
| ParserFacts.LiteralTerm | parser.py:83-91 | an integer literal token followed by no `*` or `/` is a whole term |
| ParserCompleteness.ParseComplete | parser.py:53-104 | on tokens that begin with the spelling of a tree of the grammar's shape, followed by the end or a token that is not `+ - * /`, `parse` succeeds with exactly that tree, rebuilt from the tokens read: same structure and values, same spelling, same shape |
| ParserCompleteness.ParseAcceptsSpelling | parser.py:102-104 | a token list that is exactly the spelling of a tree of the grammar's shape parses to a tree with that spelling |
| ParserCompleteness.ExprComplete | parser.py:94-100 | `expr` reads the whole spelling of an expression when no operator follows it, and returns the rebuilt expression |
| ParserCompleteness.ExprPrefix | parser.py:94-99 | after the spelling of an expression that no `*` or `/` follows, `expr` is in its sum loop just past it, holding the rebuilt expression |
| ParserCompleteness.TermPrefix | parser.py:83-89 | after the spelling of a term, `term` is in its product loop just past it, holding the rebuilt term |
| ParserCompleteness.UnaryComplete | parser.py:53-76 | `unary` reads the whole spelling of a literal, grouping or prefix expression, whatever follows it, and returns the rebuilt tree |
| ParserCompleteness.SpellsFromSigs | parser.py:53-100 | tokens that read as a tree's spelling spell it node by node: literal values on literal tokens, operator kinds on operator tokens, parentheses at both ends of a grouping |
| ParserCompleteness.RebuiltSpell | parser.py:73-75 | the tree rebuilt from its tokens has the spelling it was read from |
| ParserCompleteness.RebuiltShape | parser.py:53-100 | the tree rebuilt from its tokens keeps the unary, term and expression shape of the tree spelt |
| Pipeline.LexedSourceParsesToNothing | lexer.py:73-104 | the lexer never emits a numeric token, so parsing its output yields no tree |
| Pipeline.NoLiteralNoTree | parser.py:53-104 | from punctuation and operator tokens alone, `parse` builds no tree |
| Interpreter.Arith | interpreter.py:18-25 | `+`, `-` and `*` give sum, difference and product; `/` gives the number that times the divisor is the dividend, and fails exactly on a zero divisor |
| Interpreter.Interpret | interpreter.py:8-33 | a tree yields a number only if it uses only literals, groupings, the four operators and prefix `+`/`-`; such a tree always yields a number or the division error |
| Interpreter.InterpretComputes | interpreter.py:8-33 | an integer literal yields its value, a float literal its value, a grouping the value of its inner expression, `+ - * /` on two numbers their arithmetic result, prefix `-` the negation and prefix `+` the operand's number |
| Interpreter.EvaluationOrder | interpreter.py:15-25 | the left operand is evaluated first and its error wins, then the right operand's; an operator outside the four yields no value |
| Interpreter.GroupingsAreTransparent | interpreter.py:13-14 | removing every grouping anywhere in a tree does not change its outcome |
| Interpreter.SignOperators | interpreter.py:26-33 | prefix `+` is the identity and prefix `-` negates; `~` yields no value |
| Compiler.OpcodeFor | compiler.py:37-62 | exactly the twelve arithmetic and comparison token kinds have an instruction: `+ - * / ^ %` map to ADD, SUB, MUL, DIV, EXP and MOD, and `< > <= >= == ~=` to LT, GT, LE, GE, EQ and NE |
| Compiler.Emit | compiler.py:11-12 | `emit` appends exactly one instruction and keeps the code before it |
| Compiler.PrintOp | compiler.py:70-73 | the instruction that ends a print is PRINT exactly when the line ending is empty, and PRINTLN otherwise |
| Compiler.PrintOpAsWritten | compiler.py:70-73 | as written, a non-empty line ending emits the bare string `"PRINTLN"`, which is not the PRINTLN instruction |
| Compiler.Compile | compiler.py:14-73 | `compile` fails exactly on a tree that reaches a binary operator without an instruction; when it fails, the reported kind is one of those; its code contains only PUSH, binary and print instructions, a `print` ending with the corrected PRINTLN instruction |
| Compiler.CompileSeq | compiler.py:64-66 | a block compiles exactly when all its statements do |
| Compiler.CompileCode | compiler.py:75-79 | `compile_code` is `LABEL START`, then the node's code, then `HALT`, and fails exactly when `compile` does |
| Compiler.CodeSizeIsNodeCount | compiler.py:14-62 | a tree of literals and binary operators compiles to one instruction per node, and its code ends in a PUSH exactly when it is a literal |
| Compiler.LiteralsPushTaggedValues | compiler.py:15-32 | each literal is a single PUSH of its value; the value is number-tagged exactly for integers and floats |
| Compiler.UnhandledKindsEmitNothing | compiler.py:14-73 | node kinds without a branch emit no code |
| Compiler.CompileLayout | compiler.py:34-73 | the code of a binary operator is its left operand's code, then its right operand's, then the operator's instruction, and a failure in the left operand wins over one in the right; the code of a `print` is its value's code followed by the print instruction |
| Compiler.CompileSeqAppend | compiler.py:64-66 | a block's code is the concatenation of its parts' code, split anywhere |
| Vm.Init | vm.py:7-10 | a new machine has an empty stack and `pc` and `sp` zero |
| Vm.PushValue | vm.py:25-27 | PUSH puts the value on top and keeps `sp` in step with the height |
| Vm.PopValue | vm.py:29-31 | POP removes and returns the top, keeping `sp` in step; it crashes exactly on an empty stack |
| Vm.PopUndoesPush | vm.py:25-31 | POP after PUSH restores the machine and returns the pushed value (last in, first out) |
| Vm.Divide | vm.py:60-67 | corrected division: the quotient times the right operand is the left operand, and it fails exactly on a zero right operand |
| Vm.DivideAsWritten | vm.py:65 | as written, DIV divides the right operand by the left |
| Vm.Compute | vm.py:33-67 | ADD, SUB and MUL compute sum, left minus right and product; the corrected DIV divides left by right; only DIV on a zero right operand fails, with the division error |
| Vm.BinaryStep | vm.py:33-67 | with fewer than two values the stack underflows; on two numbers the result replaces both; otherwise a reported type error at the current `pc` consumes both and pushes nothing; `sp` drops by four in every case |
| Vm.BinaryDrift | vm.py:33-40 | a binary instruction shrinks the stack by one and moves `sp` three below the height, or on a type error shrinks it by two, moves `sp` two below, and adds one report |
| Vm.PrintStep | vm.py:69-81 | PRINT and PRINTLN pop exactly one value and emit it without or with a line break; they crash exactly on an empty stack, and on `false`, which `stringify` (utils.py:286-291) leaves a boolean; escape decoding is not modelled (see Left out) |
| Vm.Exec | vm.py:18-84 | dispatch: each instruction runs its own handler (PUSH pushes its value, POP pops or crashes on an empty stack, ADD SUB MUL DIV run the binary handler, PRINT and PRINTLN the print handler without or with a line break); HALT clears the flag, LABEL changes nothing, EXP, MOD and the comparison opcodes have no handler, a bare string crashes as unpackable when empty and otherwise on the missing handler named by its first character, and every handler except a binary one keeps `sp` in step with the height |
| Vm.DivisionAsWrittenSwapsOperands | vm.py:60-67 | as written, 6 / 3 gives 0.5 and 0 / 5 crashes; the corrected division gives 2 and 0 |
| Vm.PrintlnAsWrittenHasNoHandler | vm.py:18-20 | the bare string `"PRINTLN"` dispatches on its first character and finds no handler, while the PRINTLN instruction pops and prints any top value but `false` with a line break |
| Vm.Cycle | vm.py:18-20 | a cycle past the last instruction crashes; otherwise `pc` moves one forward |
| Vm.Loop | vm.py:17-20 | the loop stops only after executing a HALT |
| Vm.Run | vm.py:12-20 | `run` ends only just after a HALT, with the flag cleared; an empty program crashes |
| Vm.RunResetsPc | vm.py:12-15 | `run` does not depend on where an earlier run left `pc` or the flag |
| Vm.ExecSeq | vm.py:17-20 | running a fragment straight through advances `pc` by its length and, without HALT, keeps the flag |
| Vm.LoopRunsFragment | vm.py:17-20 | inside the loop, a fragment laid out at `pc` runs as straight-line code |
| State.Root | state.py:2-5 | a new environment has empty tables and no parent |
| State.FirstHolding | state.py:7-18 | finds the nearest environment holding a non-`None` value for the name, with none nearer |
| State.Lookup | state.py:7-18 | `get_var` and `get_func` return the value from the nearest environment holding a non-`None` value, and `None` when there is none |
| State.Nearest | state.py:20-25 | finds the nearest environment whose variable table has the name as a key |
| State.Overwrite | state.py:20-25 | overwrites the variable only in the nearest environment that has the key; nothing when none has it |
| State.SetVar | state.py:20-30 | `set_var` overwrites the nearest binding and returns the value, or creates the name in the current environment and returns `None` |
| State.SetFunc | state.py:48-49 | `set_func` writes only the current function table |
| State.NewEnv | state.py:32-37 | `new_env` adds a child with empty tables whose parent is the current chain, unchanged |
| State.GetVarAfterSetVar | state.py:7-30 | `get_var(n)` after `set_var(n, v)`, with `v` not `None`, is `v` |
| State.SetVarKeepsTheRest | state.py:20-30 | `set_var` changes no other variable and no function |
| State.SetFuncEffect | state.py:39-49 | `get_func(n)` after `set_func(n, v)`, with `v` not `None`, is `v`; other functions and every variable are unchanged |
| State.NewEnvSeesParent | state.py:32-37 | a new scope sees every binding of its parent |
| State.SetVarInNewScope | state.py:20-37 | in a new scope, `set_var` of an unbound name binds it there and leaves the chain as it was; `set_var` of a name bound further out overwrites it there |
| Agreement.ArithTreeIsSupported | interpreter.py:8-25 | a tree of literals and `+ - * /` has a number or the division error from the interpreter, and compiles |
| Agreement.ComputeIsArith | vm.py:33-67 | with the corrected DIV, the handler of each operator's instruction computes what the interpreter computes, and fails exactly when the interpreter does |
| Agreement.BinaryOnNumbers | vm.py:33-67 | with the corrected DIV, an operator's instruction on two numbers replaces them by the interpreter's result, or crashes on the division by zero |
| Agreement.CompiledCodeComputes | compiler.py:34-62 | with the corrected DIV, the code for a tree of literals and `+ - * /` pushes exactly the interpreter's number, or crashes on a division by zero |
| Agreement.RunAgreesWithInterpreter | vm.py:12-67 | `run` of `compile_code`'s output halts with the interpreter's number on the stack it started with, or crashes when the interpreter divides by zero |
| Agreement.RunFramed | vm.py:12-23 | code framed by `LABEL START` and `HALT` has the outcome of its body, with `pc` past the `HALT` |
| Agreement.LoopAtHalt | vm.py:22-23 | HALT ends the loop after one cycle |
| Agreement.LoopAtLabel | vm.py:83-84 | a LABEL changes only `pc` |
| Agreement.PushThenPrint | vm.py:69-81 | PUSH followed by PRINT or PRINTLN prints the value and leaves the stack and `sp` as before, except that `false` crashes as unprintable |
| Agreement.PrintStatementPrints | compiler.py:68-73 | with the corrected instruction, `print` of a literal prints its value with a line break exactly when the line ending is not empty; `print false` crashes as unprintable |

## Left out

- I/O: printing, escape decoding and `stringify` (utils.py). Output is a sequence of events that records the printed value and whether a line break follows. `vm_error` is an event that records `pc`, opcode and operand tags.
- Python float behaviour: rounding, infinities and NaN. Numbers are exact reals, and an integer literal's value is turned into a real where `float(...)` is applied.
- The `int(...)`/`float(...)` conversion of lexeme text in `primary`. A numeric token carries its value; a numeric token without one is a `BadLiteral` error.
- The int/float distinction of Python values in the interpreter: both are reals.
- The `getattr` dispatch. The instruction set is a closed datatype, and a missing handler is a crash that names the opcode.
- The statement `self.sp - 0` in `run` (vm.py:14) has no effect. The model keeps `sp` and the stack across runs, as the code does.
- `Environment.__repr__` (printing only). Python object identity: environments are values, so two handles to one environment are not modelled.
- Language features the snapshot's lexer, parser and interpreter do not implement: numbers, identifiers, strings, keywords, statements and two-character operators in the lexer; statements in the parser and interpreter. The node kinds for them exist only in `Ast`.
- pinky.py (the command-line driver) and the rest of utils.py (console rendering and error printing) are not part of this model.
- Agreement.RunAgreesWithInterpreter: covers only literals and `+ - * /`. `compile` emits nothing for groupings and prefix operators, so for those the back ends disagree by construction.
- Agreement.RunAgreesWithInterpreter: uses the corrected DIV (see Findings).
- Agreement.RunAgreesWithInterpreter: the agreement holds over exact reals. In Python the interpreter keeps integers exact while `compile` applies `float(...)` (compiler.py:16), so the two can differ on large integers: `9007199254740993 + 0` is exact in the interpreter and rounded on the machine. `float(10**400)` raises `OverflowError` at compiler.py:16, which the model does not raise.
- Agreement.CompiledCodeComputes: stated through a helper that maps an outcome without a number to the division crash. On the trees it covers, the interpreter never yields such an outcome, except the division error.
- Vm.Compute: the machine's DIV is the corrected one, left divided by right. vm.py:65 as written is `Vm.DivideAsWritten` (see Findings).
- Vm.BinaryStep: DIV steps with the corrected division, as `Vm.Compute` does; so do `Vm.Exec`, `Vm.Loop` and `Vm.Run`.
- Compiler.Compile: a `print` with a non-empty line ending emits the corrected PRINTLN instruction. compiler.py:73 as written is `Compiler.PrintOpAsWritten` (see Findings).
- Vm.PrintStep: escape decoding (`codecs.escape_decode`, vm.py:72 and vm.py:79) is not modelled. A value whose text ends in a lone backslash, which the source fails to decode, prints here.
- Parser.Primary: its contract says a literal or grouping is built and what it spells; which node exactly is stated by `Parser.LiteralNode` and `Parser.Group`.

## Findings

| source | as written | input that shows it | evidently intended | confidence | as-written member | corrected member |
|---|---|---|---|---|---|---|
| compiler.py:73 | `self.emit(("PRINTLN"))` emits the bare string `"PRINTLN"`; the parentheses do not make a tuple | `print` with a non-empty line ending: `run` unpacks the string, dispatches on `"P"` and raises | emit the one-element tuple `("PRINTLN",)` | not executed | Compiler.PrintOpAsWritten, Vm.PrintlnAsWrittenHasNoHandler | Compiler.PrintOp, Agreement.PrintStatementPrints |
| vm.py:65 | DIV pushes `right_val / left_val` | `PUSH 6, PUSH 3, DIV` leaves 0.5; `PUSH 0, PUSH 5, DIV` raises a division error | `left_val / right_val`, as SUB and the interpreter compute | not executed | Vm.DivideAsWritten, Vm.DivisionAsWrittenSwapsOperands | Vm.Divide, Agreement.RunAgreesWithInterpreter |
