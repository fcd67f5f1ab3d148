# phoenix_gui formula toolchain — a Dafny model

This project models the formula plotter of phoenix_gui. The plotter turns a
formula such as `3x+sin(pi*x^2/4)` into a flat list of stack-machine
instructions. It can fold the constant parts of that list, then evaluate it
against the values of the variables. The model has six parts:

- the builtin function table (`Functions`);
- the 64-slot value stack (`ValueStack`);
- the scanner with its implicit-multiplication flag (`Scanning`, with its
  properties in `ScannerFacts`);
- the Pratt parser and code generator: the precedence table in `ParseRules`,
  the handlers as state functions in `Compiling`, and the imperative `Compiler`
  class in `Compilers` proved against them;
- the constant-folding optimizer (`Optimizing`);
- the virtual machine (`Machine`), with the stack discipline of the emitted
  code in `Bytecode`.

Four smaller parts come from the rest of the program:

- the row-major `Matrix` (`Matrices`);
- the output check, batch counting, layer shapes and round-robin batch split
  of the neural network (`NeuralNetworks`);
- the data-file reader and its one-hot targets (`Data`);
- the colour table, hex parsing and column extraction of the CSV plot tab
  (`PlotFiles`).

Plotter numbers (`f64`) form the free term algebra `Float.F64`. Literals stay
as their text, and `powf`, `sin`, `log`, factorial and the arithmetic
operators are constructors. Every equation proved about them therefore holds
for any floating-point implementation. The `f32` numbers of the other parts
are `real`.

In the plotter, a panic of the source is the outcome `Panics` of `Outcome`.
Elsewhere, a panic becomes a `requires`, or a `None` result where the model
has to say what happens.

## Model

| member | source | states |
|---|---|---|
| Functions.Repr | src/gui/tab_types/plotter/functions.rs:19-42 | ids follow declaration order: every id is at most 18, and only `None` has id 0 |
| Functions.FromRepr | src/gui/tab_types/plotter/functions.rs:19-42 | `from_repr` finds a function exactly for the ids 0..18 |
| Functions.ReprRoundTrip | src/gui/tab_types/plotter/functions.rs:19-42 | `from_repr(f as u8) == Some(f)`, and every id that `from_repr` accepts is the id of the function it returns |
| Functions.NameInjective | src/gui/tab_types/plotter/functions.rs:18-42 | distinct functions have distinct snake-case names |
| Functions.Execute | src/gui/tab_types/plotter/functions.rs:45-99 | an unknown id fails with "Function with index <id> does not exist"; id 0 fails with "No function provided"; a known id succeeds iff it is given exactly its arity (1, or 2 for `log`) of arguments, with the value of that function; otherwise it fails with the "expects n arguments" message |
| Functions.LogTakesBaseFirst | src/gui/tab_types/plotter/functions.rs:70-82 | `log` with arguments `[base, x]` computes `x.log(base)` |
| ValueStack.PopManyClosedForm | src/gui/tab_types/plotter/stack.rs:54-60 | `pop_n(n)` returns exactly n entries, top first, with `None` for each pop past the bottom, and leaves the stack without its top n values (empty if it held fewer) |
| ValueStack.PopUndoesPush | src/gui/tab_types/plotter/stack.rs:36-52 | a pop right after a push returns the pushed value and restores the previous contents |
| ValueStack.Stack.constructor | src/gui/tab_types/plotter/stack.rs:29-34 | a new stack is empty, and the invariant (size at most 64, held in the array) holds |
| ValueStack.Stack.Push | src/gui/tab_types/plotter/stack.rs:36-44 | push succeeds iff fewer than 64 values are held; on success the item becomes the new top, and on failure nothing changes |
| ValueStack.Stack.Pop | src/gui/tab_types/plotter/stack.rs:46-52 | pop on an empty stack returns `None` and changes nothing; otherwise it returns the top and removes it |
| ValueStack.Stack.PopN | src/gui/tab_types/plotter/stack.rs:54-60 | the loop of `pop_n` returns and leaves exactly what n successive pops do |
| Scanning.DigitsEnd | src/gui/tab_types/plotter/parser.rs:103-105 | the digit loop stops at the end of a maximal run of digits |
| Scanning.WordEnd | src/gui/tab_types/plotter/parser.rs:184-186 | the identifier loop stops at the end of a maximal run of letters, digits and `_` |
| Scanning.WordToken | src/gui/tab_types/plotter/parser.rs:139-152 | a word always yields a token that is neither EOF nor an error, whose lexeme is the text it consumed |
| Scanning.Scan | src/gui/tab_types/plotter/parser.rs:129-178 | `scan_token` starts its token at the cursor; at the end it returns EOF and does not move; otherwise it consumes at least one character, and a non-error token's lexeme is the consumed text |
| Scanning.Parser.constructor | src/gui/tab_types/plotter/parser.rs:65-72 | a new scanner is at position 0 with `mult` cleared |
| Scanning.Parser.Advance | src/gui/tab_types/plotter/parser.rs:428-439 | `advance` returns the character under the cursor (NUL at the end) and moves the cursor by one |
| Scanning.Parser.SkipDigits | src/gui/tab_types/plotter/parser.rs:103-105 | the loop leaves the cursor where `DigitsEnd` says |
| Scanning.Parser.Number | src/gui/tab_types/plotter/parser.rs:99-120 | `number` leaves the cursor after the decimal literal and returns a Constant token for that text |
| Scanning.Parser.Identifier | src/gui/tab_types/plotter/parser.rs:180-193 | `identifier` consumes the maximal word, classifies it with `identifier_type`, and leaves `mult` set only for a plain identifier |
| Scanning.Parser.Operator | src/gui/tab_types/plotter/parser.rs:154-177 | the operator match returns the token `OperatorToken` gives and clears `mult` |
| Scanning.Parser.ScanToken | src/gui/tab_types/plotter/parser.rs:129-178 | the imperative `scan_token` returns the token, and leaves the cursor, that `Scan` gives |
| ScannerFacts.EndOfInputRepeats | src/gui/tab_types/plotter/parser.rs:133-135 | at the end of the input every further scan returns EOF again without moving |
| ScannerFacts.NumberTokenIsMaximal | src/gui/tab_types/plotter/parser.rs:99-120 | a number token is a Constant holding its own text, which parses as a float; it sets `mult`, is followed by no digit, and leaves no unread `.` followed by a digit |
| ScannerFacts.NumberTextIsDecimal | src/gui/tab_types/plotter/parser.rs:99-113 | the text of a number token is digits, optionally followed by `.` and digits |
| ScannerFacts.TrailingDotStaysUnconsumed | src/gui/tab_types/plotter/parser.rs:107-113 | in "3." the number is "3", and the dot is left unread |
| ScannerFacts.ImplicitMultiplication | src/gui/tab_types/plotter/parser.rs:139-152 | with `mult` set, a letter or `(` first yields a `*` with an empty lexeme, without moving, and clears `mult`; the next scan is the scan of that character with `mult` clear |
| ScannerFacts.IdentifierTokenIsMaximal | src/gui/tab_types/plotter/parser.rs:180-193 | an identifier is the maximal word from a letter or `_`, classified by `identifier_type`; a keyword clears `mult` and a plain identifier sets it |
| ScannerFacts.BlankIsAnError | src/gui/tab_types/plotter/parser.rs:154-177 | the scanner itself does not skip blanks: a blank is an "Unexpected character" error (`compile` removes blanks before scanning) |
| ScannerFacts.OperatorCharacters | src/gui/tab_types/plotter/parser.rs:154-177 | each of `+ - * / ^ ( ) , ! %` becomes its own one-character token (or the implicit `*` before `(`); any other character is an "Unexpected character" error that consumes it; `mult` ends cleared |
| ScannerFacts.ExactKeywordIsRecognised | src/gui/tab_types/plotter/parser.rs:383-402 | a word that spells out an exact keyword (abs, acos, asin, atan, floor, round, sqrt, ceil, ln, log, exp, pi, e) gets that keyword's kind |
| ScannerFacts.ExactKeywordIsSpelledOut | src/gui/tab_types/plotter/parser.rs:383-402 | conversely, an exact-match keyword kind is given only to that exact spelling |
| ScannerFacts.TruncIsNeverRecognised | src/gui/tab_types/plotter/parser.rs:316 | no word is ever classified as `trunc` |
| ScannerFacts.SineMatchesByPrefix | src/gui/tab_types/plotter/parser.rs:246-264 | keywords starting with `s` match by prefix: a word is `sinh` iff it starts with "sinh", and `sin` iff it starts with "sin", the text goes on for a fourth character and that character is not `h` (so "sinx" is `sin`, and "sin" at the very end of the text is a plain identifier) |
| ScannerFacts.CosineMatchesByPrefix | src/gui/tab_types/plotter/parser.rs:281-299 | the same prefix rule for `cos` and `cosh` |
| ScannerFacts.TangentMatchesByPrefix | src/gui/tab_types/plotter/parser.rs:317-335 | the same prefix rule for `tan` and `tanh` |
| ParseRules.PrecedenceIsTotallyOrdered | src/gui/tab_types/plotter/precedence.rs:5-15 | the derived order of `Precedence` is total and antisymmetric, in declaration order |
| ParseRules.NextPrecedence | src/gui/tab_types/plotter/precedence.rs:37-50 | `next_precedence` is the immediate successor, and `Primary` maps to itself |
| ParseRules.GetRule | src/gui/tab_types/plotter/precedence.rs:52-131 | only `-` has the Unary prefix; only `(` and `!` have Grouping; `+ - * / ^` are the binary infixes at Term, Term, Factor, Factor and Power; `!` is the Factorial postfix and `(` the Call infix; numbers, identifiers and function names have prefix rules only; every other kind (`%`, `)`, `,`, EOF, Error, ...) has the all-None rule; a rule has an infix handler iff it has a precedence |
| Bytecode.NetAppend | src/gui/tab_types/plotter/compiler.rs:34-36 | the stack-height change of concatenated code is the sum of the parts' changes |
| Bytecode.RunsAppend | src/gui/tab_types/plotter/compiler.rs:34-36 | code that never underflows, followed by code that never underflows from the height it leaves, never underflows |
| Bytecode.ExpressionThenContinuation | src/gui/tab_types/plotter/compiler.rs:94-109 | a prefix expression followed by infix continuations is one expression |
| Bytecode.ExpressionThenOperator | src/gui/tab_types/plotter/compiler.rs:228-238 | an expression followed by a one-result instruction never underflows when the instruction's other operands are already below, and changes the height by 2 minus the operands it takes |
| Compiling.ErrorAt | src/gui/tab_types/plotter/compiler.rs:84-88 | `error` appends "Error: <msg> at <current lexeme>\n" and changes nothing else |
| Compiling.Advance | src/gui/tab_types/plotter/compiler.rs:59-65 | `advance` reads at least one token and never stops on an error token; each error token read is recorded with its message and skipped; it stays clean iff the first token read is not an error; it emits nothing and strictly consumes input unless the current token is EOF |
| Compiling.Consume | src/gui/tab_types/plotter/compiler.rs:221-226 | `consume` reads on and emits nothing; when the token read is `op` the state is exactly that of `advance`, otherwise an error is reported, so a clean `consume` has just read `op` |
| Compiling.MatchCur | src/gui/tab_types/plotter/compiler.rs:67-74 | `match_cur` emits nothing and keeps the table; a reported match is on a real token (or on EOF when EOF was asked for) and then consumes input |
| Compiling.Expression | src/gui/tab_types/plotter/compiler.rs:204-206 | a clean expression emits code that computes exactly one value and never underflows, and keeps the symbol-table invariant |
| Compiling.ParsePrecedence | src/gui/tab_types/plotter/compiler.rs:94-109 | a clean `parse_precedence` emits one expression, and keeps the symbol-table invariant |
| Compiling.InfixLoop | src/gui/tab_types/plotter/compiler.rs:103-108 | the infix loop emits code that turns one value into one value |
| Compiling.InfixLoopStopsAtUnboundToken | src/gui/tab_types/plotter/compiler.rs:104 | the loop stops, emitting and reporting nothing, at any token whose rule has no precedence, so text after such a token is never read (`compile` does not ask for EOF) |
| Compiling.InfixLoopStopsAtLowerPrecedence | src/gui/tab_types/plotter/compiler.rs:104 | the loop stops, emitting and reporting nothing, at an operator binding more loosely than the level asked for, which makes binary operators of one level group to the left |
| Compiling.Handle | src/gui/tab_types/plotter/compiler.rs:96-107 | reading a token and running its prefix handler emits an expression; its infix handler emits a continuation |
| Compiling.CallParseFn | src/gui/tab_types/plotter/compiler.rs:111-123 | a token without a handler is never clean ("Expected expression"); infix handlers emit continuations, prefix handlers expressions |
| Compiling.Factorial | src/gui/tab_types/plotter/compiler.rs:125-127 | the postfix `!` emits exactly `Factorial` |
| Compiling.Call | src/gui/tab_types/plotter/compiler.rs:197-202 | the infix `(` handler emits nothing and changes nothing |
| Compiling.Binary | src/gui/tab_types/plotter/compiler.rs:228-247 | a clean binary handler emits a continuation of its left operand |
| Compiling.BinaryEmitsOperatorLast | src/gui/tab_types/plotter/compiler.rs:228-238 | a clean `binary` was on one of `+ - * / ^`; it emits the right operand, parsed one level tighter than the operator, then the operator (left code, right code, opcode: left-associative) |
| Compiling.Unary | src/gui/tab_types/plotter/compiler.rs:213-219 | a clean prefix operator emits one expression |
| Compiling.MinusEmitsNegateLast | src/gui/tab_types/plotter/compiler.rs:213-219 | a prefix `-` emits its operand, parsed at the Unary level, followed by `Negate` |
| Compiling.Grouping | src/gui/tab_types/plotter/compiler.rs:208-211 | a clean group emits one expression |
| Compiling.GroupingNeedsCloseParenthesis | src/gui/tab_types/plotter/compiler.rs:208-211 | a group emits only its inner expression's code, and is clean only when the token after it is `)` |
| Compiling.Number | src/gui/tab_types/plotter/compiler.rs:181-195 | a lexeme that parses as `f64` emits `Constant` of that value; otherwise a `pi`/`e` token emits `Constant` of the value it carries; it is clean exactly in these two cases, and otherwise reports "Invalid number" and emits nothing |
| Compiling.Position | src/gui/tab_types/plotter/compiler.rs:138 | `position` finds the first entry equal to the name, or reports that there is none |
| Compiling.IdentifierConstant | src/gui/tab_types/plotter/compiler.rs:135-145 | a known name returns its first slot and leaves the table alone; a new name is appended and gets the last slot; a duplicate-free table stays duplicate-free |
| Compiling.Variable | src/gui/tab_types/plotter/compiler.rs:129-133 | a variable emits exactly `GetVar` of its slot, and that slot is in the table |
| Compiling.FunctionCall | src/gui/tab_types/plotter/compiler.rs:147-156 | a clean function call read `(` after the name and emits one expression: code that leaves `n` values, then `Call` of this function with arity `n` |
| Compiling.CallAfterArguments | src/gui/tab_types/plotter/compiler.rs:155 | n argument values followed by `Call(id, n)` form one expression |
| Compiling.ArgumentList | src/gui/tab_types/plotter/compiler.rs:159-179 | a clean argument list emits code that leaves exactly as many values as the count it returns |
| Compiling.ArgLoop | src/gui/tab_types/plotter/compiler.rs:162-173 | the argument loop counts at least one argument, and its clean code leaves one value per counted argument |
| Compiling.Argument | src/gui/tab_types/plotter/compiler.rs:163-171 | one pass of the loop emits one expression, and a 256th argument is never clean ("Cannot have more than 255 arguments") |
| Compiling.CompileResult | src/gui/tab_types/plotter/compiler.rs:44-48 | `compile` returns Ok with the code and the table iff no error text was recorded, and otherwise Err with all of it |
| Compiling.CompiledCodeIsWellFormed | src/gui/tab_types/plotter/compiler.rs:38-49 | whatever the text, code that compiles is a non-empty expression that never underflows and leaves one value; its table is duplicate-free, and every `GetVar` refers to an entry |
| Compilers.Compiler.constructor | src/gui/tab_types/plotter/compiler.rs:24-32 | a new compiler has no tokens, code, symbols or errors |
| Compilers.Compiler.Push | src/gui/tab_types/plotter/compiler.rs:34-36 | `push` appends one instruction |
| Compilers.Compiler.Compile | src/gui/tab_types/plotter/compiler.rs:38-49 | `compile` leaves the fields as `CompileState` says and returns `CompileResult` of them |
| Compilers.Compiler.OptimizedCompile | src/gui/tab_types/plotter/compiler.rs:51-57 | a failed compile is returned unchanged; otherwise the result is that of `optimize` on the compiled code |
| Compilers.Compiler.Optimize | src/gui/tab_types/plotter/compiler.rs:251-360 | the while loop and the fold of `optimize` compute `Optimizing.Optimize`, replace the code with its result on success, and leave every other field unchanged |
| Compilers.Compiler.Advance | src/gui/tab_types/plotter/compiler.rs:59-65 | the recursive `advance` on the fields is `Compiling.Advance` |
| Compilers.Compiler.MatchCur | src/gui/tab_types/plotter/compiler.rs:67-74 | is `Compiling.MatchCur` |
| Compilers.Compiler.Error | src/gui/tab_types/plotter/compiler.rs:84-88 | is `Compiling.ErrorAt` |
| Compilers.Compiler.Consume | src/gui/tab_types/plotter/compiler.rs:221-226 | is `Compiling.Consume` |
| Compilers.Compiler.Expression | src/gui/tab_types/plotter/compiler.rs:204-206 | is `Compiling.Expression` |
| Compilers.Compiler.ParsePrecedence | src/gui/tab_types/plotter/compiler.rs:94-109 | the prefix call and the while loop are `Compiling.ParsePrecedence` |
| Compilers.Compiler.Handle | src/gui/tab_types/plotter/compiler.rs:96-107 | is `Compiling.Handle` |
| Compilers.Compiler.CallParseFn | src/gui/tab_types/plotter/compiler.rs:111-123 | is `Compiling.CallParseFn` |
| Compilers.Compiler.Factorial | src/gui/tab_types/plotter/compiler.rs:125-127 | is `Compiling.Factorial` |
| Compilers.Compiler.Call | src/gui/tab_types/plotter/compiler.rs:197-202 | changes nothing |
| Compilers.Compiler.Variable | src/gui/tab_types/plotter/compiler.rs:129-133 | is `Compiling.Variable` |
| Compilers.Compiler.IdentifierConstant | src/gui/tab_types/plotter/compiler.rs:135-145 | is `Compiling.IdentifierConstant` on the table, and changes nothing else |
| Compilers.Compiler.FunctionCall | src/gui/tab_types/plotter/compiler.rs:147-156 | is `Compiling.FunctionCall` |
| Compilers.Compiler.ArgumentList | src/gui/tab_types/plotter/compiler.rs:159-179 | the loop is `Compiling.ArgumentList` |
| Compilers.Compiler.Number | src/gui/tab_types/plotter/compiler.rs:181-195 | is `Compiling.Number` |
| Compilers.Compiler.Grouping | src/gui/tab_types/plotter/compiler.rs:208-211 | is `Compiling.Grouping` |
| Compilers.Compiler.Unary | src/gui/tab_types/plotter/compiler.rs:213-219 | is `Compiling.Unary` |
| Compilers.Compiler.Binary | src/gui/tab_types/plotter/compiler.rs:228-247 | is `Compiling.Binary` |
| Machine.PushValue | src/gui/tab_types/plotter/vm.rs:18-24 | `push!` succeeds iff fewer than 64 values are held, and otherwise fails with "Stack overflow (max: 64)" |
| Machine.AllPresent | src/gui/tab_types/plotter/vm.rs:74-84 | the arguments are collected iff every popped entry is present, and they are the popped values in order |
| Machine.BinaryPopsRightOperandFirst | src/gui/tab_types/plotter/vm.rs:25-60 | a two-operand instruction pops the right operand a, then the left b, and pushes `b op a` (`b.powf(a)` for Power); with fewer than two values it fails with "Stack underflow" |
| Machine.UnaryReplacesTop | src/gui/tab_types/plotter/vm.rs:52-59 | `Negate` and `Factorial` replace the top value; on an empty stack they underflow |
| Machine.LoadReadsItsSlot | src/gui/tab_types/plotter/vm.rs:62-71 | `GetVar(i)` pushes `values[i]` when it exists and otherwise fails with "Undefined Variable: <identifiers[i]>"; values past the slot are never read |
| Machine.NoneAndTokenKinds | src/gui/tab_types/plotter/vm.rs:42-96 | `None` changes nothing, and parentheses, comma, EOF, Error and Identifier fail with "Invalid instruction" |
| Machine.CallTakesTopValues | src/gui/tab_types/plotter/vm.rs:72-93 | `Call(id, n)` fails with "Not enough arguments provided for function: <name>" when fewer than n values are held; otherwise it calls `execute` on the top n values in source order (deepest first) and pushes the value, or passes its error on |
| Machine.CallArguments | src/gui/tab_types/plotter/vm.rs:73-85 | `pop_n(n)` then `reverse` yields the top n values bottom first, present iff the stack holds n values |
| Machine.RunAnswersTop | src/gui/tab_types/plotter/vm.rs:10-99 | empty code fails with "No instructions provided"; otherwise the answer is the top value that the instructions leave, whatever lies below it, and an empty final stack panics |
| Machine.ExecAppend | src/gui/tab_types/plotter/vm.rs:17-97 | running `a + b` is running `a`, then `b` on what `a` left |
| Machine.StepWellFormed | src/gui/tab_types/plotter/vm.rs:41-96 | an executable instruction with enough operands never panics, changes the height by pushes minus pops, and fails only by overflow, an undefined variable or an `execute` error |
| Machine.ExecWellFormed | src/gui/tab_types/plotter/vm.rs:17-97 | code that never underflows and loads only table slots never panics, leaves its net height, and fails only for those reasons |
| Machine.ExpressionRunsWithoutPanic | src/gui/tab_types/plotter/vm.rs:10-99 | an expression never panics, not even at the final `unwrap` |
| Machine.RunCode | src/gui/tab_types/plotter/vm.rs:10-99 | the loop over the fixed-size stack returns exactly `Run`: a fresh stack per call, so equal inputs give equal answers |
| Machine.Execute1 | src/gui/tab_types/plotter/vm.rs:41-96 | one pass of the loop on the array stack does what `Step` says to the contents |
| Machine.CallFunction | src/gui/tab_types/plotter/vm.rs:72-93 | the `Call` arm on the array stack does what `Step` says |
| Machine.PushOrFail | src/gui/tab_types/plotter/vm.rs:18-24 | `push!` on the array stack does what `PushValue` says |
| Optimizing.Flatten | src/gui/tab_types/plotter/compiler.rs:351-357 | the final fold emits one instruction per stack entry |
| Optimizing.Values | src/gui/tab_types/plotter/compiler.rs:324-330 | the values of an all-constant entry list, in order |
| Optimizing.BinaryFold | src/gui/tab_types/plotter/compiler.rs:267-295 | a binary instruction panics (the `unwrap`) iff fewer than two entries are there, and never fails |
| Optimizing.UnaryFold | src/gui/tab_types/plotter/compiler.rs:296-313 | a unary instruction panics iff the stack is empty, and never fails |
| Optimizing.CallFold | src/gui/tab_types/plotter/compiler.rs:318-341 | a call panics iff its arity exceeds the entries (`split_off`), and fails iff all its arguments are constants and `execute` rejects them |
| Optimizing.Optimize | src/gui/tab_types/plotter/compiler.rs:251-256 | an empty list fails with "No instructions provided" |
| Optimizing.OptimizePreservesRun | src/gui/tab_types/plotter/compiler.rs:251-360 | with folding in machine order, running the optimized code gives the same answer as running the original, unless the original overflows the 64-slot stack |
| Optimizing.OptExecSimulates | src/gui/tab_types/plotter/compiler.rs:264-349 | after any prefix of the loop, the flattened entry stack runs like the code it replaced |
| Optimizing.FoldIsExact | src/gui/tab_types/plotter/compiler.rs:264-349 | one folding step replaces code by code that runs the same |
| Optimizing.OptimizedIsNonEmpty | src/gui/tab_types/plotter/compiler.rs:264-357 | a successful optimization of non-empty code emits at least one instruction |
| Optimizing.KnownCodeStaysKnown | src/gui/tab_types/plotter/compiler.rs:264-349 | code without loads, run on constant entries, leaves only constants above what was below |
| Optimizing.ConstantSubexpressionFolds | src/gui/tab_types/plotter/compiler.rs:264-349 | an expression without `GetVar` folds to exactly one constant entry, or fails |
| Optimizing.ConstantExpressionCollapses | src/gui/tab_types/plotter/compiler.rs:251-360 | optimizing an expression without `GetVar` never panics and gives a single `Constant` |
| Optimizing.FoldedCallReportsError | src/gui/tab_types/plotter/compiler.rs:323-338 | a call whose arguments are all constants fails with the error of `execute` |
| Optimizing.OptimizeKeepsLoads | src/gui/tab_types/plotter/compiler.rs:342-345 | optimizing keeps every `GetVar`, in its original order |
| Optimizing.OptExecKeepsLoads | src/gui/tab_types/plotter/compiler.rs:264-349 | the loop keeps the loads of the code it read, in order |
| Optimizing.OptimizeIsIdempotent | src/gui/tab_types/plotter/compiler.rs:251-360 | optimizing the output of `optimize` again gives the same output |
| Optimizing.ReplayStable | src/gui/tab_types/plotter/compiler.rs:264-349 | replaying the flattened code of a fully folded stack rebuilds that stack |
| Optimizing.OptExecKeepsStable | src/gui/tab_types/plotter/compiler.rs:264-349 | every stack the loop builds is fully folded |
| Optimizing.OrderFreeCodeOptimizesAlike | src/gui/tab_types/plotter/compiler.rs:285-339 | without `Power` and without calls of two or more arguments, the source's folding and the machine-order folding agree |
| Optimizing.PowerFoldIsReversed | src/gui/tab_types/plotter/compiler.rs:285-295 | the source folds `2^3` to `3.powf(2)`, while the machine computes `2.powf(3)` |
| Optimizing.LogFoldSwapsArguments | src/gui/tab_types/plotter/compiler.rs:318-339 | the source folds `log(base, x)` with its arguments swapped |
| Optimizing.LogFoldIsReversed | src/gui/tab_types/plotter/compiler.rs:318-339 | the source folds `log(2, 8)` to `2.log(8)`, while the machine computes `8.log(2)` |
| Optimizing.LogCallRuns | src/gui/tab_types/plotter/vm.rs:72-93 | the machine runs `log` on `[2, 8]` as `8.log(2)` |
| Matrices.Matrix.constructor | src/matrix.rs:46-52 | `new(r, c)` holds `r*c` cells, all zero |
| Matrices.Matrix.Set | src/matrix.rs:69-71 | `set` writes cell `row*cols + col` and only that cell |
| Matrices.AtUpdate | src/matrix.rs:65-71 | after `set(r, c, v)`, `get(r, c) == v` and every other cell keeps its value |
| Matrices.Matrix.AddMatrix | src/matrix.rs:82-94 | with equal shapes, `add_matrix` adds elementwise in place |
| Matrices.Matrix.MultiplyWithMatrix | src/matrix.rs:259-268 | with equal shapes, `multiply_with_matrix` multiplies elementwise in place |
| Matrices.Matrix.SubtractTwo | src/matrix.rs:98-109 | `subtract_two` returns a new matrix of the same shape holding the elementwise difference |
| Matrices.SubtractThenAdd | src/matrix.rs:82-109 | subtracting, then adding back the same matrix, gives the original |
| Matrices.Matrix.Transpose | src/matrix.rs:112-120 | `transpose` swaps rows and columns with `t[c][r] == m[r][c]` |
| Matrices.TransposeTwice | src/matrix.rs:112-120 | transposing twice returns the original cells |
| Matrices.TransposeRoundTrip | src/matrix.rs:112-120 | the imperative transpose, applied twice, returns a matrix of the same shape and cells |
| Matrices.Matrix.MultiplyTwoNormal | src/matrix.rs:124-139 | with `m1.cols == m2.rows`, the product is `m1.rows x m2.cols`, and cell [r][c] is the sum over i of `m1[r][i]*m2[i][c]` |
| Matrices.Matrix.DotLoop | src/matrix.rs:129-134 | the inner loop computes that sum |
| Matrices.Matrix.FromVec | src/matrix.rs:298-304 | `from_vec(v)` is `len(v) x 1` and holds `v` |
| Matrices.Matrix.ToVec | src/matrix.rs:318-326 | `to_vec` returns the cells in row-major order |
| Matrices.VecRoundTrip | src/matrix.rs:298-326 | `to_vec(from_vec(v)) == v` |
| Matrices.Matrix.From2dVec | src/matrix.rs:307-315 | a non-empty rectangular list of rows becomes a matrix of that shape, holding the rows one after another |
| Matrices.Matrix.To2dVec | src/matrix.rs:328-338 | `to_2d_vec` returns the rows |
| Matrices.RowsOfConcat | src/matrix.rs:307-338 | cutting the concatenation of rectangular rows gives back the rows |
| Matrices.ConcatOfRows | src/matrix.rs:307-338 | concatenating the rows of a matrix gives back its cells |
| Matrices.RowsRoundTrip | src/matrix.rs:307-338 | `to_2d_vec(from_2d_vec(a)) == a` for non-empty rectangular `a` |
| Matrices.Matrix.Max | src/matrix.rs:365-375 | `max` returns a cell at least as large as every cell |
| NeuralNetworks.OneHot | src/neural_network.rs:169-170 | the one-hot vector has n cells, and exactly cell k holds 1.0 |
| NeuralNetworks.Strongest | src/neural_network.rs:161-168 | the loop's (max, index) starts at (0.0, 0): max bounds every output, and a positive max is the value at index, with every earlier output strictly smaller |
| NeuralNetworks.StrongestIsFirstMaximum | src/neural_network.rs:161-168 | the chosen index is the first index of the greatest value when some output is positive, and 0 otherwise |
| NeuralNetworks.Check | src/neural_network.rs:159-180 | `check` is true iff the target's first n cells equal the one-hot vector of the chosen index; it requires a non-empty prediction and a target at least as long |
| NeuralNetworks.Successes | src/neural_network.rs:142-156 | the count of successes is at most the batch length; it equals it iff every example succeeds, and is 0 iff none does |
| NeuralNetworks.TrainBatch | src/neural_network.rs:142-156 | `train_batch` returns one correction per example, in order, and counts the examples that succeeded |
| NeuralNetworks.NeuralNetwork.constructor | src/neural_network.rs:256-265 | `new` builds `len-1` weights and biases; weight i is `sizes[i+1] x sizes[i]` and bias i is `sizes[i+1] x 1` |
| NeuralNetworks.Zip | src/neural_network.rs:304-306 | example i is paired with target i |
| NeuralNetworks.SplitIntoBatches | src/neural_network.rs:292-306 | the split builds `batch_number` batches, and batch b holds the examples dealt to it round-robin |
| NeuralNetworks.DealtPosition | src/neural_network.rs:304-306 | example i lands in batch `i % n`, at position `i / n` |
| NeuralNetworks.DealtOrigin | src/neural_network.rs:304-306 | every entry of batch b at position p is example `p*n + b`, so no batch holds anything else |
| NeuralNetworks.DealtSize | src/neural_network.rs:304-306 | batch b holds `len / n` examples, plus one when `b < len % n` |
| NeuralNetworks.BatchSizesDifferByAtMostOne | src/neural_network.rs:292-306 | any two batch sizes differ by at most one |
| Data.Consume | src/data.rs:81-88 | `consume` returns the first index holding `c`, and requires that `c` occurs |
| Data.ConsumeFrom | src/data.rs:26-54 | `consume` on a suffix, without the panic: it finds the first `c` at or after `from`, exactly when there is one |
| Data.Strip | src/data.rs:21-22 | the two `replace` calls: no newline or blank is left, every other character occurs exactly as often as before, and the text never grows |
| Data.StripAppend | src/data.rs:21-22 | stripping works piece by piece, and one character survives exactly when it is not a newline or blank; so the kept characters stay in their order |
| Data.StripIsIdempotent | src/data.rs:21-22 | stripping twice is stripping once |
| Data.ParseInputs | src/data.rs:23-55 | a parse that does not panic yields 7 x 100 = 700 inputs, each a 4 x 1 matrix |
| Data.Targets | src/data.rs:67-74 | there are 700 targets, and target k is the 7 x 1 one-hot vector of group `k / 100` |
| Data.GetData | src/data.rs:12-77 | a successful read pairs 700 4 x 1 inputs with the one-hot target of their group |
| PlotFiles.HexDigit | src/gui/tab_types/plot_file.rs:367-369 | a character is a base-16 digit exactly when its value is found, and that value is below 16 |
| PlotFiles.IndexColorsAreHex | src/gui/tab_types/plot_file.rs:11-28 | the table holds 128 entries, each `#` followed by six hex digits |
| PlotFiles.WithoutHash | src/gui/tab_types/plot_file.rs:364-366 | the text is either kept whole or loses exactly its one leading `#` |
| PlotFiles.ParseByte | src/gui/tab_types/plot_file.rs:367-369 | `u8::from_str_radix(pair, 16)` succeeds exactly on two hex digits, or on `+` and one hex digit |
| PlotFiles.HexText | src/gui/tab_types/plot_file.rs:361-371 | writing a colour gives `#` and six hex digits |
| PlotFiles.HexColorIsConvertible | src/gui/tab_types/plot_file.rs:362-371 | every `#rrggbb` text converts without panicking, to the three pair values |
| PlotFiles.HexRoundTrip | src/gui/tab_types/plot_file.rs:362-371 | converting the text of a colour gives back the colour |
| PlotFiles.RgbRoundTrip | src/gui/tab_types/plot_file.rs:362-371 | writing the converted colour gives back the text, in lower case |
| PlotFiles.GetColorIsTableEntry | src/gui/tab_types/plot_file.rs:374-377 | colour i is table entry `i % 128` |
| PlotFiles.GetColorWraps | src/gui/tab_types/plot_file.rs:374-377 | `get_color(i + 128) == get_color(i)` |
| PlotFiles.LongRows | src/gui/tab_types/plot_file.rs:323-337 | the `j` counter never exceeds the number of rows |
| PlotFiles.IndexedColumnIncreases | src/gui/tab_types/plot_file.rs:332-336 | without an x axis, the x values increase strictly and stay below the number of rows long enough for the column |
| PlotFiles.AxisColumnPairsCells | src/gui/tab_types/plot_file.rs:328-331 | with an x axis, every point pairs the x cell and the column cell of one row that has both |
| PlotFiles.AsWrittenAgreesOnFirstColumn | src/gui/tab_types/plot_file.rs:324-337 | with no x axis, or the x axis in column 0, the source's loop and the corrected one agree |
| PlotFiles.AsWrittenPanicsOnEmptyAxisCell | src/gui/tab_types/plot_file.rs:328-331 | with x axis 1, the row `[0, empty, 5]` makes the source's loop panic, while the corrected one skips the row |
| PlotFiles.AsWrittenSkipsRowWithEmptyFirstCell | src/gui/tab_types/plot_file.rs:328-331 | with x axis 1 and column 2, the row `[empty, 1, 5]` is skipped by the source's loop, which tests `row[0]`, while the corrected one plots `(1, 5)` |
| PlotFiles.Lines | src/gui/tab_types/plot_file.rs:318-342 | exactly one line per header column, its points taken with the corrected x-axis test (`row[x_axis]` where the source tests `row[0]`) |
| PlotFiles.Resized | src/gui/tab_types/plot_file.rs:343-351 | the scaling factors end with exactly one entry per column: the old factor where there was one, and 1.0 for each new column |
| PlotFiles.ResizedIsIdempotent | src/gui/tab_types/plot_file.rs:343-351 | resizing twice is resizing once |
| PlotFiles.PlotFile.constructor | src/gui/tab_types/plot_file.rs:59-71 | `default`: no data, file name "data.csv", no error or message, x axis -1 |
| PlotFiles.PlotFile.BuildColumn | src/gui/tab_types/plot_file.rs:322-337 | the inner loop collects `ColumnPoints`, with the corrected x-axis test: a row is plotted when `row[x_axis]` and `row[i]` are present (the source tests `row[0]`; see Findings) |
| PlotFiles.PlotFile.BuildLines | src/gui/tab_types/plot_file.rs:318-342 | the outer loop builds line i from column i (with the corrected x-axis test), named `header[i]` and coloured with colour i |
| PlotFiles.PlotFile.FitFactors | src/gui/tab_types/plot_file.rs:343-351 | the push and pop loops keep the old factors below the column count and add 1.0 for each new column |
| PlotFiles.PlotFile.UpdateData | src/gui/tab_types/plot_file.rs:310-358 | with a loading error nothing changes; otherwise the lines, the factors and the message are rebuilt as above (the lines with the corrected x-axis test), and the table, header and x axis are kept |

## Left out

- Floating point: `f64` is an uninterpreted term algebra and `f32` is `real`. Rounding, NaN, infinities and the numeric values of `powf`, `sin`, `log`, factorial and `%` are not modelled.
- Parsing of float text (`str::parse::<f64>` and `::<f32>`) is the abstract `ParseF64` in the plotter and a `parse` parameter in `Data.GetData`.
- Text is one `char` per byte, which matches the source only for ASCII input.
- `Stack`'s `MaybeUninit` storage is a plain array plus a size.
- `Parser::parse_function` and the `print_*` methods of `Compiler` are debug output.
- Data.GetData: the normalisation by `max_value` (lines 56-66 of `src/data.rs`) is float arithmetic and is not modelled.
- Data.ParseInputs: states only that a successful parse yields 700 samples of shape 4 x 1, not which numbers they hold, because float parsing is the `parse` parameter.
- Data.Consume: modelled as a loop over the whole text; the parse loop uses `ConsumeFrom`, which returns `None` where `consume` panics.
- NeuralNetworks.NeuralNetwork.constructor: weights and biases start at zero instead of random values, and the shapes are what is stated.
- NeuralNetworks.SplitIntoBatches: only the round-robin split of `train_batches` is modelled. The threads, channels, shuffling and averaging of corrections are not.
- NeuralNetworks.TrainBatch: the `train` closure is a parameter; back-propagation itself is not modelled.
- Training, prediction, save and load of the network, and the `Matrix` helpers `random`, `sigmoid`, `sigmoid_derivative`, `average`, `contains_nan`, `add_f32`, `multiply_with_f32` and `multiply_two_blas`, are float numerics, randomness, threads or foreign calls.
- Matrices.Matrix.AddMatrix: requires equal shapes, standing for the "Matrix add: matrices have different dimensions" panic of `add_matrix` (`src/matrix.rs` lines 83-88); it also requires distinct arrays, which Rust's borrow rules guarantee.
- Matrices.Matrix.MultiplyWithMatrix: requires equal shapes, standing for the "Matrix multiply: matrices have different dimensions" panic of `multiply_with_matrix` (lines 260-262); distinct arrays as for `AddMatrix`.
- Matrices.Matrix.SubtractTwo: requires equal shapes, standing for the "Matrix subtract: matrices have different dimensions" panic of `subtract_two` (lines 99-101).
- Matrices.Matrix.MultiplyTwoNormal: requires `m1.cols == m2.rows`, standing for the "Matrix multiply: matrices have different dimensions" panic of `multiply_two_normal` (lines 125-127).
- Matrices.Matrix.Max: requires a non-empty matrix, standing for the out-of-bounds panic of `get(0, 0)` (line 366).
- NeuralNetworks.Check: requires a non-empty prediction and a target at least as long, standing for the out-of-bounds panics of `m.data[max_index] = 1.0` on an empty prediction and of `target.data[i]` on a short target (`src/neural_network.rs` lines 170 and 175).
- Matrices.Matrix.From2dVec: requires a rectangular, non-empty list; the source reads `arr[0]` and indexes every row by the first row's width.
- Matrices.Matrix.Get: the source does not check `col < cols`, only that the flat index is in range; the model requires the same and nothing more.
- PlotFiles.PlotFile.UpdateData: the colour of line i is `GetColor(i)`, passed to `BuildLines` as a function; the `j as f32` conversion is exact in `real`.
- PlotFile::load_data, the egui interface and plotting are file I/O and UI.
- PlotFiles.Lines: its ensures states only the number of lines; `BuildLines` states the whole result, and `IndexedColumnIncreases` and `AxisColumnPairsCells` state what a column holds.
- Machine.Step, Machine.Exec and Machine.Run are specification functions without ensures of their own; the Machine lemmas state their properties.
- The concrete examples `2^3^2` and `2)3` are not evaluated; `BinaryEmitsOperatorLast`, `InfixLoopStopsAtUnboundToken` and `ParseRules.GetRule` state the rules that produce them.

## Findings

| source | as written | input that shows it | evidently intended | confidence | as-written member | corrected member |
|---|---|---|---|---|---|---|
| src/gui/tab_types/plotter/compiler.rs:285-295 | a constant `Power` is folded as `a.powf(b)`, with `a` the right operand | `[Constant 2, Constant 3, Power]` folds to `3.powf(2)` | `b.powf(a)`, as the machine computes it | not executed | Optimizing.PowerFoldIsReversed | Optimizing.OptimizePreservesRun |
| src/gui/tab_types/plotter/compiler.rs:318-339 | `split_off` already gives the call's arguments in source order, and they are reversed again | `log(2, 8)` folds to `2.log(8)` | arguments in source order, as the machine passes them | not executed | Optimizing.LogFoldIsReversed | Optimizing.OptimizePreservesRun |
| src/gui/tab_types/plot_file.rs:328-331 | with an x axis, a row is used when `row[0]` and `row[i]` are present, but `row[x_axis]` is unwrapped | x axis 1 and the row `[0, empty, 5]` panic; x axis 1, column 2 and the row `[empty, 1, 5]` are skipped although both used cells are present | test `row[x_axis]` (and that the row is long enough) | not executed | PlotFiles.AsWrittenPanicsOnEmptyAxisCell | PlotFiles.PlotFile.UpdateData |
