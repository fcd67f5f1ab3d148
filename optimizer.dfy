/**
 * `Compiler::optimize`: one pass over the code with a stack of entries that
 * are either a value already computed (`Value::Constant`) or an instruction
 * kept for run time (`Value::Operations`, always a one-element vector);
 * the stack is then flattened back into code.
 */
module Optimizing {

  import opened Wrappers
  import opened Float
  import opened Functions
  import opened Seqs
  import opened Scanning
  import opened ValueStack
  import opened Bytecode
  import opened Machine

  datatype Entry = Known(value: F64) | Pending(op: Operation)

  /**
   * How constant `Power` and `Call` instructions are folded: as the source
   * does, or with the operand order the machine uses.
   */
  datatype Mode = AsWritten | Intended

  /** The fold stack as code: a known value becomes a `Constant`. */
  function Flatten(stack: seq<Entry>): (code: seq<Operation>)
    ensures |code| == |stack|
  {
    if |stack| == 0 then [] else [EntryCode(stack[0])] + Flatten(stack[1..])
  }

  function EntryCode(e: Entry): Operation
  {
    if e.Known? then Constant(e.value) else e.op
  }

  predicate AllKnown(entries: seq<Entry>)
  {
    forall i :: 0 <= i < |entries| ==> entries[i].Known?
  }

  /** The values of entries that are all known, in order. */
  function Values(entries: seq<Entry>): (vs: seq<F64>)
    requires AllKnown(entries)
    ensures |vs| == |entries| && forall i :: 0 <= i < |entries| ==> vs[i] == entries[i].value
  {
    if |entries| == 0 then [] else [entries[0].value] + Values(entries[1..])
  }

  /** The folded value of a constant `Power`: `a.powf(b)` with `a` the right operand, as written. */
  function FoldedPower(b: F64, a: F64, mode: Mode): F64
  {
    if mode == AsWritten then Powf(a, b) else Powf(b, a)
  }

  /** The argument list handed to `execute` when a call is folded: reversed once more, as written. */
  function FoldedArguments(args: seq<F64>, mode: Mode): seq<F64>
  {
    if mode == AsWritten then Reverse(args) else args
  }

  /** One instruction of the `while` loop of `optimize`; an `unwrap` on an empty stack panics. */
  function OptStep(stack: seq<Entry>, op: Operation, mode: Mode): Outcome<seq<Entry>>
  {
    if op in {Add, Subtract, Multiply, Divide, Power, Modulo} then BinaryFold(stack, op, mode)
    else if op in {Negate, Operation.Factorial} then UnaryFold(stack, op)
    else if op.Constant? then Done(stack + [Known(op.value)])
    else if op.Call? then CallFold(stack, op, mode)
    else if op.GetVar? then Done(stack + [Pending(op)])
    else Fails(InvalidInstruction)
  }

  /** A binary instruction: folded when both operands are known, kept after them otherwise. */
  function BinaryFold(stack: seq<Entry>, op: Operation, mode: Mode): (r: Outcome<seq<Entry>>)
    requires op in {Add, Subtract, Multiply, Divide, Power, Modulo}
    ensures r.Panics? <==> |stack| < 2
    ensures !r.Fails?
  {
    if |stack| < 2 then Panics
    else
      var b, a := stack[|stack| - 2], stack[|stack| - 1];
      if a.Known? && b.Known? then
        var v := if op == Power then FoldedPower(b.value, a.value, mode) else BinaryValue(op, b.value, a.value);
        Done(stack[..|stack| - 2] + [Known(v)])
      else Done(stack + [Pending(op)])
  }

  /** `Negate` or `Factorial`: folded when the operand is known. */
  function UnaryFold(stack: seq<Entry>, op: Operation): (r: Outcome<seq<Entry>>)
    requires op in {Negate, Operation.Factorial}
    ensures r.Panics? <==> |stack| < 1
    ensures !r.Fails?
  {
    if |stack| < 1 then Panics
    else
      var a := stack[|stack| - 1];
      if a.Known? then Done(stack[..|stack| - 1] + [Known(UnaryValue(op, a.value))])
      else Done(stack + [Pending(op)])
  }

  /**
   * A call: `split_off` panics when the stack is shorter than the arity; with
   * every argument known the function is evaluated now and its error returned.
   */
  function CallFold(stack: seq<Entry>, op: Operation, mode: Mode): (r: Outcome<seq<Entry>>)
    requires op.Call?
    ensures r.Panics? <==> op.arity > |stack|
    ensures r.Fails? <==> (op.arity <= |stack| && AllKnown(stack[|stack| - op.arity..])
                           && Execute(op.index, FoldedArguments(Values(stack[|stack| - op.arity..]), mode)).Err?)
  {
    if op.arity > |stack| then Panics
    else
      var args := stack[|stack| - op.arity..];
      if !AllKnown(args) then Done(stack + [Pending(op)])
      else
        match Execute(op.index, FoldedArguments(Values(args), mode))
        case Ok(v) => Done(stack[..|stack| - op.arity] + [Known(v)])
        case Err(e) => Fails(e)
  }

  /** The loop over the rest of the code, from the fold stack `stack`. */
  function OptExec(code: seq<Operation>, stack: seq<Entry>, mode: Mode): Outcome<seq<Entry>>
  {
    if |code| == 0 then Done(stack)
    else match OptStep(stack, code[0], mode)
      case Done(stack1) => OptExec(code[1..], stack1, mode)
      case Fails(e) => Fails(e)
      case Panics => Panics
  }

  /** `optimize`: the new code, or the first error; empty code is refused. */
  function Optimize(code: seq<Operation>, mode: Mode): (r: Outcome<seq<Operation>>)
    ensures |code| == 0 ==> r == Fails(NoInstructions)
  {
    if |code| == 0 then Fails(NoInstructions)
    else match OptExec(code, [], mode)
      case Done(stack) => Done(Flatten(stack))
      case Fails(e) => Fails(e)
      case Panics => Panics
  }

  // ---------------------------------------------------------------------------
  // Run equivalence, for the intended folding order

  /**
   * `x` is as good as `y`: the same outcome, unless `y` ran out of stack.
   * Folding needs fewer slots, so optimized code can finish where the original
   * overflows.
   */
  predicate Better<T(==)>(x: Outcome<T>, y: Outcome<T>)
  {
    x == y || y == Fails(Overflow)
  }

  lemma {:induction false} FlattenAppend(a: seq<Entry>, b: seq<Entry>)
    ensures Flatten(a + b) == Flatten(a) + Flatten(b)
    decreases |a|
  {
    if |a| == 0 {
      assert a + b == b;
    } else {
      assert (a + b)[0] == a[0] && (a + b)[1..] == a[1..] + b;
      FlattenAppend(a[1..], b);
    }
  }

  /** Code that pushes the given values in order. */
  function Consts(vs: seq<F64>): (code: seq<Operation>)
    ensures |code| == |vs|
  {
    if |vs| == 0 then [] else [Constant(vs[0])] + Consts(vs[1..])
  }

  lemma {:induction false} FlattenKnown(entries: seq<Entry>)
    requires AllKnown(entries)
    ensures Flatten(entries) == Consts(Values(entries))
    decreases |entries|
  {
    if |entries| > 0 {
      FlattenKnown(entries[1..]);
      assert Values(entries)[1..] == Values(entries[1..]);
    }
  }

  lemma ExecPush(v: F64, rest: seq<Operation>, st: seq<F64>, ids: seq<string>, values: seq<F64>)
    ensures Exec([Constant(v)] + rest, st, ids, values)
      == if |st| < STACK_SIZE then Exec(rest, st + [v], ids, values) else Fails(Overflow)
  {
    assert ([Constant(v)] + rest)[0] == Constant(v) && ([Constant(v)] + rest)[1..] == rest;
  }

  /** Pushing constants: their values on top, or an overflow when they do not fit. */
  lemma {:induction false} ExecConstants(vs: seq<F64>, st: seq<F64>, ids: seq<string>, values: seq<F64>)
    ensures Exec(Consts(vs), st, ids, values)
      == if |vs| == 0 || |st| + |vs| <= STACK_SIZE then Done(st + vs) else Fails(Overflow)
    decreases |vs|
  {
    if |vs| > 0 {
      ExecPush(vs[0], Consts(vs[1..]), st, ids, values);
      if |st| < STACK_SIZE {
        ExecConstants(vs[1..], st + [vs[0]], ids, values);
        assert st + [vs[0]] + vs[1..] == st + vs;
      }
    } else {
      assert st + vs == st;
    }
  }

  /** An instruction that turns the pushed constants into `v` is as good as pushing `v`. */
  lemma ConstantsThenOp(vs: seq<F64>, op: Operation, v: F64, s: seq<F64>, ids: seq<string>, values: seq<F64>)
    requires Step(s + vs, op, ids, values) == PushValue(s, v)
    ensures Better(Exec([Constant(v)], s, ids, values), Exec(Consts(vs) + [op], s, ids, values))
  {
    ExecConstants(vs, s, ids, values);
    ExecAppend(Consts(vs), [op], s, ids, values);
    assert [op][1..] == [] && [Constant(v)][1..] == [];
  }

  /** Code in front keeps the relation between two continuations. */
  lemma LiftBelow(below: seq<Operation>, c1: seq<Operation>, c2: seq<Operation>, st: seq<F64>,
                  ids: seq<string>, values: seq<F64>)
    requires forall s :: Better(Exec(c1, s, ids, values), Exec(c2, s, ids, values))
    ensures Better(Exec(below + c1, st, ids, values), Exec(below + c2, st, ids, values))
  {
    ExecAppend(below, c1, st, ids, values);
    ExecAppend(below, c2, st, ids, values);
  }

  /** The fold stack before and after a fold, flattened: only the top `k` entries differ. */
  lemma FlattenFold(below: seq<Entry>, operands: seq<Entry>, op: Operation, v: F64)
    requires AllKnown(operands)
    ensures Flatten(below + operands) + [op] == Flatten(below) + (Consts(Values(operands)) + [op])
    ensures Flatten(below + [Known(v)]) == Flatten(below) + [Constant(v)]
  {
    FlattenAppend(below, operands);
    FlattenKnown(operands);
    var fb, fo := Flatten(below), Flatten(operands);
    assert fb + fo + [op] == fb + (fo + [op]);
    FlattenAppend(below, [Known(v)]);
    FlattenOne(Known(v));
  }

  lemma FlattenOne(e: Entry)
    ensures Flatten([e]) == [EntryCode(e)]
  {
    assert [e][1..] == [];
  }

  /** The instruction turns the values `vs`, pushed on any stack, into `v`. */
  ghost predicate FoldsTo(vs: seq<F64>, op: Operation, v: F64, ids: seq<string>, values: seq<F64>)
  {
    forall s :: Step(s + vs, op, ids, values) == PushValue(s, v)
  }

  /**
   * Replacing known entries on top and the instruction by the constant `v` is
   * sound when the instruction maps their values to `v` on any stack.
   */
  lemma FoldOperands(below: seq<Entry>, operands: seq<Entry>, op: Operation, v: F64, st: seq<F64>,
                     ids: seq<string>, values: seq<F64>)
    requires AllKnown(operands) && FoldsTo(Values(operands), op, v, ids, values)
    ensures Better(Exec(Flatten(below + [Known(v)]), st, ids, values),
                   Exec(Flatten(below + operands) + [op], st, ids, values))
  {
    var vs := Values(operands);
    FlattenFold(below, operands, op, v);
    forall s
      ensures Better(Exec([Constant(v)], s, ids, values), Exec(Consts(vs) + [op], s, ids, values))
    {
      assert Step(s + vs, op, ids, values) == PushValue(s, v);
      ConstantsThenOp(vs, op, v, s, ids, values);
    }
    LiftBelow(Flatten(below), [Constant(v)], Consts(vs) + [op], st, ids, values);
  }

  lemma FoldBinary(stack: seq<Entry>, op: Operation, st: seq<F64>, ids: seq<string>, values: seq<F64>)
    requires op in {Add, Subtract, Multiply, Divide, Power, Modulo}
    requires |stack| >= 2 && stack[|stack| - 2].Known? && stack[|stack| - 1].Known?
    ensures BinaryFold(stack, op, Intended).Done?
    ensures Better(Exec(Flatten(BinaryFold(stack, op, Intended).value), st, ids, values),
                   Exec(Flatten(stack) + [op], st, ids, values))
  {
    var n := |stack|;
    var below, operands := stack[..n - 2], stack[n - 2..];
    var b, a := stack[n - 2].value, stack[n - 1].value;
    var v := BinaryValue(op, b, a);
    assert stack == below + operands;
    assert AllKnown(operands) && Values(operands) == [b, a];
    forall s
      ensures Step(s + [b, a], op, ids, values) == PushValue(s, v)
    {
      assert (s + [b, a])[..|s|] == s;
    }
    FoldOperands(below, operands, op, v, st, ids, values);
  }

  lemma FoldUnary(stack: seq<Entry>, op: Operation, st: seq<F64>, ids: seq<string>, values: seq<F64>)
    requires op in {Negate, Operation.Factorial}
    requires |stack| >= 1 && stack[|stack| - 1].Known?
    ensures UnaryFold(stack, op).Done?
    ensures Better(Exec(Flatten(UnaryFold(stack, op).value), st, ids, values),
                   Exec(Flatten(stack) + [op], st, ids, values))
  {
    var n := |stack|;
    var below, operands := stack[..n - 1], stack[n - 1..];
    var a := stack[n - 1].value;
    var v := UnaryValue(op, a);
    assert stack == below + operands;
    assert AllKnown(operands) && Values(operands) == [a];
    forall s
      ensures Step(s + [a], op, ids, values) == PushValue(s, v)
    {
      assert (s + [a])[..|s|] == s;
    }
    FoldOperands(below, operands, op, v, st, ids, values);
  }

  /** A call of `index` on the known values `vs` that `execute` accepts. */
  lemma CallFoldsTo(vs: seq<F64>, index: U8, v: F64, ids: seq<string>, values: seq<F64>)
    requires Execute(index, vs) == Ok(v)
    ensures FoldsTo(vs, Operation.Call(index, |vs|), v, ids, values)
  {
    forall s
      ensures Step(s + vs, Operation.Call(index, |vs|), ids, values) == PushValue(s, v)
    {
      CallArguments(s + vs, |vs|);
      assert (s + vs)[|s + vs| - |vs|..] == vs && (s + vs)[..|s + vs| - |vs|] == s;
    }
  }

  lemma FoldCall(stack: seq<Entry>, op: Operation, st: seq<F64>, ids: seq<string>, values: seq<F64>)
    requires op.Call? && CallFold(stack, op, Intended).Done?
    ensures Better(Exec(Flatten(CallFold(stack, op, Intended).value), st, ids, values),
                   Exec(Flatten(stack) + [op], st, ids, values))
  {
    var n, k := |stack|, op.arity;
    var next := CallFold(stack, op, Intended).value;
    var below, operands := stack[..n - k], stack[n - k..];
    assert stack == below + operands;
    if !AllKnown(operands) {
      assert next == stack + [Pending(op)];
      FlattenAppend(stack, [Pending(op)]);
      FlattenOne(Pending(op));
    } else {
      var vs := Values(operands);
      var v := next[n - k].value;
      assert Execute(op.index, vs) == Ok(v);
      assert next == below + [Known(v)];
      CallFoldsTo(vs, op.index, v, ids, values);
      FoldOperands(below, operands, op, v, st, ids, values);
    }
  }

  /**
   * One step of the loop: the new fold stack, flattened, is as good as the old
   * one followed by the instruction.
   */
  lemma FoldIsExact(stack: seq<Entry>, op: Operation, st: seq<F64>, ids: seq<string>, values: seq<F64>)
    requires OptStep(stack, op, Intended).Done?
    ensures Better(Exec(Flatten(OptStep(stack, op, Intended).value), st, ids, values),
                   Exec(Flatten(stack) + [op], st, ids, values))
  {
    var n := |stack|;
    if op in {Add, Subtract, Multiply, Divide, Power, Modulo} {
      if stack[n - 2].Known? && stack[n - 1].Known? {
        FoldBinary(stack, op, st, ids, values);
      } else {
        FlattenAppend(stack, [Pending(op)]);
        FlattenOne(Pending(op));
      }
    } else if op in {Negate, Operation.Factorial} {
      if stack[n - 1].Known? {
        FoldUnary(stack, op, st, ids, values);
      } else {
        FlattenAppend(stack, [Pending(op)]);
        FlattenOne(Pending(op));
      }
    } else if op.Call? {
      FoldCall(stack, op, st, ids, values);
    } else {
      var e := OptStep(stack, op, Intended).value[n];
      assert OptStep(stack, op, Intended).value == stack + [e] && EntryCode(e) == op;
      FlattenAppend(stack, [e]);
      FlattenOne(e);
    }
  }

  lemma BetterThen(x: Outcome<seq<F64>>, y: Outcome<seq<F64>>, code: seq<Operation>, ids: seq<string>, values: seq<F64>)
    requires Better(x, y)
    ensures Better(Then(x, code, ids, values), Then(y, code, ids, values))
  {
  }

  /** One step of the loop, followed by the code still to read. */
  lemma FoldThenRest(stack: seq<Entry>, code: seq<Operation>, st: seq<F64>, ids: seq<string>, values: seq<F64>)
    requires |code| > 0 && OptStep(stack, code[0], Intended).Done?
    ensures Better(Exec(Flatten(OptStep(stack, code[0], Intended).value) + code[1..], st, ids, values),
                   Exec(Flatten(stack) + code, st, ids, values))
  {
    var op, rest := code[0], code[1..];
    var next := OptStep(stack, op, Intended).value;
    FoldIsExact(stack, op, st, ids, values);
    ExecAppend(Flatten(next), rest, st, ids, values);
    ExecAppend(Flatten(stack) + [op], rest, st, ids, values);
    assert Flatten(stack) + code == Flatten(stack) + [op] + rest;
    BetterThen(Exec(Flatten(next), st, ids, values), Exec(Flatten(stack) + [op], st, ids, values),
               rest, ids, values);
  }

  lemma BetterTransitive<T>(x: Outcome<T>, y: Outcome<T>, z: Outcome<T>)
    requires Better(x, y) && Better(y, z)
    ensures Better(x, z)
  {
  }

  /**
   * The loop keeps its stack equivalent to the code it has read: running the
   * flattened stack is as good as running the original prefix.
   */
  lemma {:induction false} OptExecSimulates(code: seq<Operation>, stack: seq<Entry>, st: seq<F64>,
                                            ids: seq<string>, values: seq<F64>)
    requires OptExec(code, stack, Intended).Done?
    ensures Better(Exec(Flatten(OptExec(code, stack, Intended).value), st, ids, values),
                   Exec(Flatten(stack) + code, st, ids, values))
    decreases |code|
  {
    if |code| == 0 {
      assert Flatten(stack) + code == Flatten(stack);
    } else {
      var op, rest := code[0], code[1..];
      var next := OptStep(stack, op, Intended).value;
      assert OptExec(code, stack, Intended) == OptExec(rest, next, Intended);
      var a := Exec(Flatten(OptExec(rest, next, Intended).value), st, ids, values);
      var b := Exec(Flatten(next) + rest, st, ids, values);
      var c := Exec(Flatten(stack) + code, st, ids, values);
      OptExecSimulates(rest, next, st, ids, values);
      FoldThenRest(stack, code, st, ids, values);
      BetterTransitive(a, b, c);
    }
  }

  /**
   * Folded with the machine's operand order, optimized code gives the same run
   * result as the original for every symbol table and every variable values,
   * unless the original overflows the 64-slot stack.
   */
  lemma OptimizePreservesRun(code: seq<Operation>, ids: seq<string>, values: seq<F64>)
    requires Optimize(code, Intended).Done?
    ensures Better(Run(Optimize(code, Intended).value, ids, values), Run(code, ids, values))
  {
    var stack := OptExec(code, [], Intended).value;
    OptExecSimulates(code, [], [], ids, values);
    assert Flatten([]) + code == code;
    OptimizedIsNonEmpty(code, [], Intended);
  }

  /** Every instruction leaves an entry, so non-empty code never folds to nothing. */
  lemma {:induction false} OptimizedIsNonEmpty(code: seq<Operation>, stack: seq<Entry>, mode: Mode)
    requires OptExec(code, stack, mode).Done? && |code| + |stack| > 0
    ensures |OptExec(code, stack, mode).value| > 0
    decreases |code|
  {
    if |code| > 0 {
      OptimizedIsNonEmpty(code[1..], OptStep(stack, code[0], mode).value, mode);
    }
  }

  // ---------------------------------------------------------------------------
  // Constant sub-expressions

  predicate NoLoads(code: seq<Operation>)
  {
    forall i :: 0 <= i < |code| ==> !code[i].GetVar?
  }

  /** An instruction of variable-free code whose operands are known entries folds them. */
  lemma StepOnKnown(stack: seq<Entry>, known: seq<Entry>, op: Operation, mode: Mode)
    requires AllKnown(known) && Executable(op) && !op.GetVar? && Pops(op) <= |known|
    ensures var r := OptStep(stack + known, op, mode);
      && !r.Panics?
      && (r.Done? ==> |r.value| == |stack| + |known| - Pops(op) + Pushes(op) >= |stack|
                      && r.value[..|stack|] == stack && AllKnown(r.value[|stack|..]))
  {
    var r := OptStep(stack + known, op, mode);
    if r.Done? {
      StepShape(stack + known, op, mode);
      ShapeOnKnown(stack, known, op, r.value);
    }
  }

  /** Keeping or folding over known operands leaves the entries below alone and only known ones above. */
  lemma ShapeOnKnown(stack: seq<Entry>, known: seq<Entry>, op: Operation, next: seq<Entry>)
    requires AllKnown(known) && !op.GetVar? && !op.None? && Pops(op) <= |known|
    requires Kept(stack + known, op, next) || Folded(stack + known, op, next)
    ensures |next| == |stack| + |known| - Pops(op) + Pushes(op) >= |stack|
    ensures next[..|stack|] == stack && AllKnown(next[|stack|..])
  {
    var all := stack + known;
    var n, p := |all|, Pops(op);
    assert all[..|stack|] == stack;
    assert forall i :: |stack| <= i < n ==> all[i] == known[i - |stack|];
    assert AllKnown(all[n - p..]);
    assert next[..|stack|] == all[..|stack|];
  }

  /**
   * Variable-free code that never pops below its own results, run over known
   * entries, only ever folds: the entries below are untouched and every entry
   * above them is a known value.
   */
  lemma {:induction false} KnownCodeStaysKnown(code: seq<Operation>, stack: seq<Entry>, known: seq<Entry>, mode: Mode)
    requires AllKnown(known) && Runs(code, |known|) && NoLoads(code)
    ensures var r := OptExec(code, stack + known, mode);
      && !r.Panics?
      && (r.Done? ==> |r.value| == |stack| + |known| + Net(code) >= |stack|
                      && r.value[..|stack|] == stack && AllKnown(r.value[|stack|..]))
    decreases |code|
  {
    if |code| > 0 {
      StepOnKnown(stack, known, code[0], mode);
      var r := OptStep(stack + known, code[0], mode);
      if r.Done? {
        var known' := r.value[|stack|..];
        assert r.value == stack + known';
        assert NoLoads(code[1..]) by {
          forall i | 0 <= i < |code[1..]| ensures !code[1..][i].GetVar? {
            assert code[1..][i] == code[i + 1];
          }
        }
        KnownCodeStaysKnown(code[1..], stack, known', mode);
      }
    }
  }

  /**
   * A sub-expression made of constants only, wherever it occurs, leaves exactly
   * one known value on the fold stack (or the error of a function it calls).
   */
  lemma ConstantSubexpressionFolds(code: seq<Operation>, stack: seq<Entry>, mode: Mode)
    requires IsExpression(code) && NoLoads(code)
    ensures var r := OptExec(code, stack, mode);
      && !r.Panics?
      && (r.Done? ==> |r.value| == |stack| + 1 && r.value[..|stack|] == stack && r.value[|stack|].Known?)
  {
    assert stack + [] == stack;
    KnownCodeStaysKnown(code, stack, [], mode);
  }

  /** Constant-only code optimizes to a single `Constant`. */
  lemma ConstantExpressionCollapses(code: seq<Operation>, mode: Mode)
    requires IsExpression(code) && NoLoads(code)
    ensures !Optimize(code, mode).Panics?
    ensures Optimize(code, mode).Done? ==>
      |Optimize(code, mode).value| == 1 && Optimize(code, mode).value[0].Constant?
  {
    ConstantSubexpressionFolds(code, [], mode);
    if OptExec(code, [], mode).Done? {
      var e := OptExec(code, [], mode).value;
      assert e == [e[0]];
      FlattenOne(e[0]);
    }
  }

  /** Folding a call whose arguments are all known hands on the error of `execute`. */
  lemma FoldedCallReportsError(stack: seq<Entry>, index: U8, arity: nat, mode: Mode)
    requires arity <= |stack| && AllKnown(stack[|stack| - arity..])
    requires Execute(index, FoldedArguments(Values(stack[|stack| - arity..]), mode)).Err?
    ensures OptStep(stack, Operation.Call(index, arity), mode)
      == Fails(Execute(index, FoldedArguments(Values(stack[|stack| - arity..]), mode)).error)
  {
  }

  // ---------------------------------------------------------------------------
  // Variable loads

  /** The slots of the `GetVar` instructions, in order. */
  function Loads(code: seq<Operation>): (slots: seq<nat>)
    ensures |slots| <= |code|
  {
    if |code| == 0 then []
    else (if code[0].GetVar? then [code[0].slot] else []) + Loads(code[1..])
  }

  lemma {:induction false} LoadsAppend(a: seq<Operation>, b: seq<Operation>)
    ensures Loads(a + b) == Loads(a) + Loads(b)
    decreases |a|
  {
    if |a| == 0 {
      assert a + b == b;
    } else {
      assert (a + b)[0] == a[0] && (a + b)[1..] == a[1..] + b;
      LoadsAppend(a[1..], b);
    }
  }

  lemma {:induction false} LoadsOfConstants(vs: seq<F64>)
    ensures Loads(Consts(vs)) == []
    decreases |vs|
  {
    if |vs| > 0 {
      LoadsOfConstants(vs[1..]);
    }
  }

  /** Pushing one entry adds the loads of its instruction. */
  lemma PushKeepsLoads(stack: seq<Entry>, e: Entry)
    ensures Loads(Flatten(stack + [e])) == Loads(Flatten(stack) + [EntryCode(e)])
  {
    FlattenAppend(stack, [e]);
    FlattenOne(e);
  }

  /** A fold drops known entries and an instruction that is not a load. */
  lemma FoldKeepsLoads(below: seq<Entry>, operands: seq<Entry>, op: Operation, v: F64)
    requires AllKnown(operands) && !op.GetVar?
    ensures Loads(Flatten(below + [Known(v)])) == Loads(Flatten(below + operands) + [op])
  {
    FlattenFold(below, operands, op, v);
    LoadsOfConstants(Values(operands));
    LoadsAppend(Consts(Values(operands)), [op]);
    LoadsAppend(Flatten(below), Consts(Values(operands)) + [op]);
    LoadsAppend(Flatten(below), [Constant(v)]);
  }

  /**
   * The step kept the instruction: a constant pushed as known, or a load or an
   * instruction with an operand that is not known pushed as pending.
   */
  predicate Kept(stack: seq<Entry>, op: Operation, next: seq<Entry>)
  {
    || (op.Constant? && next == stack + [Known(op.value)])
    || (next == stack + [Pending(op)]
        && (op.GetVar? || (Pops(op) <= |stack| && !AllKnown(stack[|stack| - Pops(op)..]))))
  }

  /** The step folded the instruction: its known operands replaced by one known value. */
  predicate Folded(stack: seq<Entry>, op: Operation, next: seq<Entry>)
  {
    var n, k := |stack|, Pops(op);
    && k <= n && !op.GetVar? && !op.Constant? && AllKnown(stack[n - k..])
    && |next| == n - k + 1 && next[..n - k] == stack[..n - k] && next[n - k].Known?
  }

  /** Every successful step either keeps its instruction or folds it. */
  lemma StepShape(stack: seq<Entry>, op: Operation, mode: Mode)
    requires OptStep(stack, op, mode).Done?
    ensures Kept(stack, op, OptStep(stack, op, mode).value) || Folded(stack, op, OptStep(stack, op, mode).value)
  {
    if op in {Add, Subtract, Multiply, Divide, Power, Modulo} {
      BinaryShape(stack, op, mode);
    } else if op in {Negate, Operation.Factorial} {
      UnaryShape(stack, op);
    } else if op.Call? {
      CallShape(stack, op, mode);
    }
  }

  lemma BinaryShape(stack: seq<Entry>, op: Operation, mode: Mode)
    requires op in {Add, Subtract, Multiply, Divide, Power, Modulo} && BinaryFold(stack, op, mode).Done?
    ensures Kept(stack, op, BinaryFold(stack, op, mode).value) || Folded(stack, op, BinaryFold(stack, op, mode).value)
  {
    var n := |stack|;
    assert stack[n - 2..] == [stack[n - 2], stack[n - 1]];
  }

  lemma UnaryShape(stack: seq<Entry>, op: Operation)
    requires op in {Negate, Operation.Factorial} && UnaryFold(stack, op).Done?
    ensures Kept(stack, op, UnaryFold(stack, op).value) || Folded(stack, op, UnaryFold(stack, op).value)
  {
    var n := |stack|;
    assert stack[n - 1..] == [stack[n - 1]];
  }

  lemma CallShape(stack: seq<Entry>, op: Operation, mode: Mode)
    requires op.Call? && CallFold(stack, op, mode).Done?
    ensures Kept(stack, op, CallFold(stack, op, mode).value) || Folded(stack, op, CallFold(stack, op, mode).value)
  {
    var n, k := |stack|, op.arity;
    var args := stack[n - k..];
    if AllKnown(args) {
      var next := CallFold(stack, op, mode).value;
      assert next == stack[..n - k] + [next[n - k]];
    }
  }

  /** Keeping or folding an instruction loads the same variables as the instruction. */
  lemma ShapeKeepsLoads(stack: seq<Entry>, op: Operation, next: seq<Entry>)
    requires Kept(stack, op, next) || Folded(stack, op, next)
    ensures Loads(Flatten(next)) == Loads(Flatten(stack) + [op])
  {
    var n := |stack|;
    if Kept(stack, op, next) {
      assert EntryCode(next[n]) == op;
      PushKeepsLoads(stack, next[n]);
    } else {
      var k := Pops(op);
      var below, operands := stack[..n - k], stack[n - k..];
      assert stack == below + operands;
      assert next == below + [Known(next[n - k].value)];
      FoldKeepsLoads(below, operands, op, next[n - k].value);
    }
  }

  /** One step of the loop loads the same variables as the instruction it read. */
  lemma StepKeepsLoads(stack: seq<Entry>, op: Operation, mode: Mode)
    requires OptStep(stack, op, mode).Done?
    ensures Loads(Flatten(OptStep(stack, op, mode).value)) == Loads(Flatten(stack) + [op])
  {
    StepShape(stack, op, mode);
    ShapeKeepsLoads(stack, op, OptStep(stack, op, mode).value);
  }

  lemma {:induction false} OptExecKeepsLoads(code: seq<Operation>, stack: seq<Entry>, mode: Mode)
    requires OptExec(code, stack, mode).Done?
    ensures Loads(Flatten(OptExec(code, stack, mode).value)) == Loads(Flatten(stack)) + Loads(code)
    decreases |code|
  {
    if |code| > 0 {
      var next := OptStep(stack, code[0], mode).value;
      OptExecKeepsLoads(code[1..], next, mode);
      StepKeepsLoads(stack, code[0], mode);
      LoadsAppend(Flatten(stack), [code[0]]);
      assert code == [code[0]] + code[1..];
      LoadsAppend([code[0]], code[1..]);
    }
  }

  /**
   * `GetVar` is never folded: the optimized code loads the same variable slots
   * in the same order as the original.
   */
  lemma OptimizeKeepsLoads(code: seq<Operation>, mode: Mode)
    requires Optimize(code, mode).Done?
    ensures Loads(Optimize(code, mode).value) == Loads(code)
  {
    OptExecKeepsLoads(code, [], mode);
  }

  // ---------------------------------------------------------------------------
  // Idempotence

  /** Every kept instruction is one that the entries below it do not let fold. */
  ghost predicate Stable(stack: seq<Entry>, mode: Mode)
  {
    forall k :: 0 <= k < |stack| && stack[k].Pending? ==>
      OptStep(stack[..k], stack[k].op, mode) == Done(stack[..k + 1])
  }

  lemma StepKeepsStable(stack: seq<Entry>, op: Operation, mode: Mode)
    requires Stable(stack, mode) && OptStep(stack, op, mode).Done?
    ensures Stable(OptStep(stack, op, mode).value, mode)
  {
    StepShape(stack, op, mode);
    ShapeKeepsStable(stack, op, OptStep(stack, op, mode).value, mode);
  }

  /** Only the entry a step adds is new, and it is pending only when the step kept it. */
  lemma ShapeKeepsStable(stack: seq<Entry>, op: Operation, next: seq<Entry>, mode: Mode)
    requires Stable(stack, mode) && OptStep(stack, op, mode) == Done(next)
    requires Kept(stack, op, next) || Folded(stack, op, next)
    ensures Stable(next, mode)
  {
    var m := |next| - 1;
    assert next[..m] == stack[..m];
    forall k | 0 <= k < |next| && next[k].Pending?
      ensures OptStep(next[..k], next[k].op, mode) == Done(next[..k + 1])
    {
      if k < m {
        assert next[..k] == stack[..k] && next[..k + 1] == stack[..k + 1] && next[k] == stack[k];
      } else {
        assert next[..k] == stack && next[..k + 1] == next;
      }
    }
  }

  lemma {:induction false} OptExecKeepsStable(code: seq<Operation>, stack: seq<Entry>, mode: Mode)
    requires Stable(stack, mode) && OptExec(code, stack, mode).Done?
    ensures Stable(OptExec(code, stack, mode).value, mode)
    decreases |code|
  {
    if |code| > 0 {
      StepKeepsStable(stack, code[0], mode);
      OptExecKeepsStable(code[1..], OptStep(stack, code[0], mode).value, mode);
    }
  }

  /** Reading a stable stack back from its code rebuilds it entry by entry. */
  lemma {:induction false} ReplayStable(stack: seq<Entry>, j: nat, mode: Mode)
    requires Stable(stack, mode) && j <= |stack|
    ensures OptExec(Flatten(stack[j..]), stack[..j], mode) == Done(stack)
    decreases |stack| - j
  {
    if j == |stack| {
      assert stack[..j] == stack;
    } else {
      var e := stack[j];
      assert stack[j..][0] == e && stack[j..][1..] == stack[j + 1..];
      assert stack[..j] + [e] == stack[..j + 1];
      assert OptStep(stack[..j], EntryCode(e), mode) == Done(stack[..j + 1]);
      ReplayStable(stack, j + 1, mode);
    }
  }

  /** Optimizing optimized code changes nothing. */
  lemma OptimizeIsIdempotent(code: seq<Operation>, mode: Mode)
    requires Optimize(code, mode).Done?
    ensures Optimize(Optimize(code, mode).value, mode) == Optimize(code, mode)
  {
    var e := OptExec(code, [], mode).value;
    OptExecKeepsStable(code, [], mode);
    ReplayStable(e, 0, mode);
    assert e[0..] == e && e[..0] == [];
    OptimizedIsNonEmpty(code, [], mode);
  }

  // ---------------------------------------------------------------------------
  // The two folding orders

  /** Code with no `Power` and no call of more than one argument. */
  predicate OrderFree(code: seq<Operation>)
  {
    forall i :: 0 <= i < |code| ==> code[i] != Power && (code[i].Call? ==> code[i].arity <= 1)
  }

  lemma OrderFreeStepAgrees(stack: seq<Entry>, op: Operation)
    requires op != Power && (op.Call? ==> op.arity <= 1)
    ensures OptStep(stack, op, AsWritten) == OptStep(stack, op, Intended)
  {
    if op.Call? && op.arity <= |stack| && AllKnown(stack[|stack| - op.arity..]) {
      var vs := Values(stack[|stack| - op.arity..]);
      assert Reverse(vs) == vs;
    }
  }

  lemma {:induction false} OrderFreeExecAgrees(code: seq<Operation>, stack: seq<Entry>)
    requires OrderFree(code)
    ensures OptExec(code, stack, AsWritten) == OptExec(code, stack, Intended)
    decreases |code|
  {
    if |code| > 0 {
      var op := code[0];
      OrderFreeStepAgrees(stack, op);
      assert OrderFree(code[1..]) by {
        forall i | 0 <= i < |code[1..]| ensures code[1..][i] == code[i + 1] { }
      }
      match OptStep(stack, op, Intended)
      case Done(next) => OrderFreeExecAgrees(code[1..], next);
      case Fails(_) =>
      case Panics =>
    }
  }

  /** Without `Power` and without calls of several arguments, the order mistake never shows. */
  lemma OrderFreeCodeOptimizesAlike(code: seq<Operation>)
    requires OrderFree(code)
    ensures Optimize(code, AsWritten) == Optimize(code, Intended)
  {
    OrderFreeExecAgrees(code, []);
  }

  lemma OptExecOne(op: Operation, stack: seq<Entry>, mode: Mode)
    ensures OptExec([op], stack, mode) == OptStep(stack, op, mode)
  {
    assert [op][1..] == [];
  }

  lemma ExecOne(op: Operation, st: seq<F64>, ids: seq<string>, values: seq<F64>)
    ensures Exec([op], st, ids, values) == Step(st, op, ids, values)
  {
    assert [op][1..] == [];
  }

  /** The first two instructions of both examples push two constants. */
  lemma TwoConstants(x: F64, y: F64, rest: seq<Operation>, mode: Mode)
    ensures OptExec([Constant(x), Constant(y)] + rest, [], mode) == OptExec(rest, [Known(x), Known(y)], mode)
    ensures Exec([Constant(x), Constant(y)] + rest, [], [], []) == Exec(rest, [x, y], [], [])
  {
    var code := [Constant(x), Constant(y)] + rest;
    assert code[0] == Constant(x) && code[1..][0] == Constant(y) && code[1..][1..] == rest;
    assert [] + [Known(x)] == [Known(x)] && [Known(x)] + [Known(y)] == [Known(x), Known(y)];
    assert OptStep([], Constant(x), mode) == Done([Known(x)]);
    assert OptStep([Known(x)], Constant(y), mode) == Done([Known(x), Known(y)]);
    assert [] + [x] == [x] && [x] + [y] == [x, y];
    assert Step([], Constant(x), [], []) == Done([x]);
    assert Step([x], Constant(y), [], []) == Done([x, y]);
  }

  /** `2^3` as compiled: folded as written to `3.powf(2)`, while the machine computes `2.powf(3)`. */
  lemma PowerFoldIsReversed()
    ensures var code := [Constant(Lit("2")), Constant(Lit("3")), Power];
      && Optimize(code, AsWritten) == Done([Constant(Powf(Lit("3"), Lit("2")))])
      && Run(code, [], []) == Done(Powf(Lit("2"), Lit("3")))
      && Run(Optimize(code, AsWritten).value, [], []) != Run(code, [], [])
  {
    var two, three := Lit("2"), Lit("3");
    var code := [Constant(two), Constant(three), Power];
    assert code == [Constant(two), Constant(three)] + [Power];
    TwoConstants(two, three, [Power], AsWritten);
    OptExecOne(Power, [Known(two), Known(three)], AsWritten);
    assert [Known(two), Known(three)][..0] + [Known(Powf(three, two))] == [Known(Powf(three, two))];
    assert OptExec(code, [], AsWritten) == Done([Known(Powf(three, two))]);
    FlattenOne(Known(Powf(three, two)));
    ExecOne(Power, [two, three], [], []);
    assert [two, three][..0] + [Powf(two, three)] == [Powf(two, three)];
    assert Exec(code, [], [], []) == Done([Powf(two, three)]);
    ExecOne(Constant(Powf(three, two)), [], [], []);
    assert [] + [Powf(three, two)] == [Powf(three, two)];
  }

  /**
   * `log(base, x)` as compiled: folded as written to `base.log(x)`, while the
   * machine computes `x.log(base)`.
   */
  lemma LogFoldSwapsArguments(base: F64, x: F64)
    ensures var code := [Constant(base), Constant(x), Operation.Call(Repr(Log), 2)];
      && Optimize(code, AsWritten) == Done([Constant(LogBase(base, x))])
      && Run(code, [], []) == Done(LogBase(x, base))
  {
    var call := Operation.Call(Repr(Log), 2);
    var code := [Constant(base), Constant(x), call];
    assert code == [Constant(base), Constant(x)] + [call];
    TwoConstants(base, x, [call], AsWritten);
    LogFoldAsWritten(base, x);
    FlattenOne(Known(LogBase(base, x)));
    LogCallRuns(base, x);
  }

  /** `log(2, 8)`: the folded code gives `2.log(8)` where the original gives `8.log(2)`. */
  lemma LogFoldIsReversed()
    ensures var code := [Constant(Lit("2")), Constant(Lit("8")), Operation.Call(Repr(Log), 2)];
      && Optimize(code, AsWritten) == Done([Constant(LogBase(Lit("2"), Lit("8")))])
      && Run(code, [], []) == Done(LogBase(Lit("8"), Lit("2")))
      && Run(Optimize(code, AsWritten).value, [], []) != Run(code, [], [])
  {
    var two, eight := Lit("2"), Lit("8");
    LogFoldSwapsArguments(two, eight);
    ExecOne(Constant(LogBase(two, eight)), [], [], []);
    assert [] + [LogBase(two, eight)] == [LogBase(two, eight)];
  }

  lemma LogFoldAsWritten(two: F64, eight: F64)
    ensures OptExec([Operation.Call(Repr(Log), 2)], [Known(two), Known(eight)], AsWritten)
      == Done([Known(LogBase(two, eight))])
  {
    var call := Operation.Call(Repr(Log), 2);
    var entries := [Known(two), Known(eight)];
    OptExecOne(call, entries, AsWritten);
    assert entries[0..] == entries && AllKnown(entries);
    assert Values(entries) == [two, eight];
    assert FoldedArguments([two, eight], AsWritten) == [eight, two];
    LogTakesBaseFirst(eight, two);
    assert entries[..0] + [Known(LogBase(two, eight))] == [Known(LogBase(two, eight))];
    assert CallFold(entries, call, AsWritten) == Done([Known(LogBase(two, eight))]);
  }

  lemma LogCallRuns(two: F64, eight: F64)
    ensures Exec([Operation.Call(Repr(Log), 2)], [two, eight], [], []) == Done([LogBase(eight, two)])
  {
    var call := Operation.Call(Repr(Log), 2);
    var st := [two, eight];
    ExecOne(call, st, [], []);
    LogTakesBaseFirst(two, eight);
    CallFoldsTo(st, Repr(Log), LogBase(eight, two), [], []);
    assert [] + st == st;
    assert Step(st, call, [], []) == PushValue([], LogBase(eight, two));
    assert [] + [LogBase(eight, two)] == [LogBase(eight, two)];
  }
}
