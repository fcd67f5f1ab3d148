/**
 * The expression virtual machine: runs compiled code on a fresh value stack
 * of `STACK_SIZE` slots, reading variable values by symbol-table slot.
 */
module Machine {

  import opened Wrappers
  import opened Float
  import opened Functions
  import opened Text
  import opened Seqs
  import opened Scanning
  import opened ValueStack
  import opened Bytecode

  const Overflow := "Stack overflow (max: " + NatToString(STACK_SIZE) + ")"
  const Underflow := "Stack underflow"
  const InvalidInstruction := "Invalid instruction"
  const NoInstructions := "No instructions provided"

  /** The message for a call that finds too few values on the stack. */
  function NotEnoughArguments(f: Function): string
  {
    "Not enough arguments provided for function: " + Name(f)
  }

  /** `push!`: push, or fail with the overflow message when the stack is full. */
  function PushValue(st: seq<F64>, v: F64): (r: Outcome<seq<F64>>)
    ensures r.Done? <==> |st| < STACK_SIZE
    ensures r.Done? ==> r.value == st + [v]
    ensures r.Fails? ==> r.error == Overflow
  {
    if |st| < STACK_SIZE then Done(st + [v]) else Fails(Overflow)
  }

  /** The value of a binary instruction applied to `b` (left) and `a` (right). */
  function BinaryValue(op: Operation, b: F64, a: F64): F64
    requires op in {Add, Subtract, Multiply, Divide, Power, Modulo}
  {
    match op
    case Add => Plus(b, a)
    case Subtract => Minus(b, a)
    case Multiply => Times(b, a)
    case Divide => Over(b, a)
    case Power => Powf(b, a)
    case Modulo => Rem(b, a)
  }

  /** The value of a one-operand instruction. */
  function UnaryValue(op: Operation, a: F64): F64
    requires op in {Negate, Operation.Factorial}
  {
    if op == Negate then Neg(a) else Fact(a)
  }

  /** The values `pop_n` returned, when none of them is `None`. */
  function AllPresent(v: seq<Option<F64>>): (r: Option<seq<F64>>)
    ensures r.Some? <==> forall i :: 0 <= i < |v| ==> v[i].Some?
    ensures r.Some? ==> |r.value| == |v| && forall i :: 0 <= i < |v| ==> r.value[i] == v[i].value
  {
    if |v| == 0 then Some([])
    else match (v[0], AllPresent(v[1..]))
      case (Some(x), Some(rest)) => Some([x] + rest)
      case _ => Option.None
  }

  /** One instruction of `VM::run` on the stack `st` (top last). */
  function Step(st: seq<F64>, op: Operation, ids: seq<string>, values: seq<F64>): Outcome<seq<F64>>
  {
    if op.None? then Done(st)
    else if op in {Add, Subtract, Multiply, Divide, Power, Modulo} then
      if |st| < 2 then Fails(Underflow)
      else PushValue(st[..|st| - 2], BinaryValue(op, st[|st| - 2], st[|st| - 1]))
    else if op in {Negate, Operation.Factorial} then
      if |st| < 1 then Fails(Underflow)
      else PushValue(st[..|st| - 1], UnaryValue(op, st[|st| - 1]))
    else if op.Constant? then PushValue(st, op.value)
    else if op.GetVar? then
      if op.slot < |values| then PushValue(st, values[op.slot])
      else if op.slot < |ids| then Fails("Undefined Variable: " + ids[op.slot])
      else Panics
    else if op.Call? then
      var (popped, rest) := PopMany(st, op.arity);
      match AllPresent(popped)
      case None =>
        (match FromRepr(op.index)
         case Some(f) => Fails(NotEnoughArguments(f))
         case None => Panics)
      case Some(args) =>
        (match Execute(op.index, Reverse(args))
         case Ok(v) => PushValue(rest, v)
         case Err(e) => Fails(e))
    else Fails(InvalidInstruction)
  }

  /** The instructions of `code` in turn from the stack `st`, stopping at the first failure. */
  function Exec(code: seq<Operation>, st: seq<F64>, ids: seq<string>, values: seq<F64>): Outcome<seq<F64>>
  {
    if |code| == 0 then Done(st)
    else match Step(st, code[0], ids, values)
      case Done(st1) => Exec(code[1..], st1, ids, values)
      case Fails(e) => Fails(e)
      case Panics => Panics
  }

  /** Go on with `code` after an outcome: only a finished run goes on. */
  function Then(o: Outcome<seq<F64>>, code: seq<Operation>, ids: seq<string>, values: seq<F64>): Outcome<seq<F64>>
  {
    match o
    case Done(st) => Exec(code, st, ids, values)
    case Fails(e) => Fails(e)
    case Panics => Panics
  }

  /**
   * `VM::run`: the top of the stack after the last instruction. Values left
   * below it are ignored, and an empty final stack panics at the `unwrap`.
   */
  function Run(code: seq<Operation>, ids: seq<string>, values: seq<F64>): Outcome<F64>
  {
    if |code| == 0 then Fails(NoInstructions)
    else match Exec(code, [], ids, values)
      case Done(st) => if |st| == 0 then Panics else Done(st[|st| - 1])
      case Fails(e) => Fails(e)
      case Panics => Panics
  }

  /** Running `a + b` is running `a`, then `b` on what `a` left. */
  lemma {:induction false} ExecAppend(a: seq<Operation>, b: seq<Operation>, st: seq<F64>,
                                      ids: seq<string>, values: seq<F64>)
    ensures Exec(a + b, st, ids, values) == Then(Exec(a, st, ids, values), b, ids, values)
    decreases |a|
  {
    if |a| == 0 {
      assert a + b == b;
    } else {
      assert (a + b)[0] == a[0] && (a + b)[1..] == a[1..] + b;
      match Step(st, a[0], ids, values)
      case Done(st1) => ExecAppend(a[1..], b, st1, ids, values);
      case Fails(e) =>
      case Panics =>
    }
  }

  /** The `Call` arguments in source order: the top `n` values, bottom first. */
  lemma CallArguments(st: seq<F64>, n: nat)
    ensures AllPresent(PopMany(st, n).0).Some? <==> n <= |st|
    ensures n <= |st| ==> Reverse(AllPresent(PopMany(st, n).0).value) == st[|st| - n..]
    ensures n <= |st| ==> PopMany(st, n).1 == st[..|st| - n]
  {
    PopManyClosedForm(st, n);
    var popped := PopMany(st, n).0;
    if n <= |st| {
      assert forall i :: 0 <= i < n ==> popped[i] == Some(st[|st| - 1 - i]);
      var args := AllPresent(popped).value;
      assert forall i :: 0 <= i < n ==> args[i] == st[|st| - 1 - i];
      var rev := Reverse(args);
      assert forall i :: 0 <= i < n ==> rev[i] == args[n - 1 - i];
      assert |rev| == |st[|st| - n..]|;
      forall i | 0 <= i < n
        ensures rev[i] == st[|st| - n..][i]
      {
        assert rev[i] == args[n - 1 - i] == st[|st| - 1 - (n - 1 - i)];
      }
    } else {
      assert popped[|st|] == Option.None;
    }
  }

  /**
   * A two-operand instruction pops the right operand `a` first, then the left
   * operand `b`, and pushes `b op a`; with fewer than two values it underflows.
   */
  lemma BinaryPopsRightOperandFirst(s: seq<F64>, b: F64, a: F64, op: Operation, ids: seq<string>, values: seq<F64>)
    requires op in {Add, Subtract, Multiply, Divide, Power, Modulo}
    ensures Step(s + [b, a], op, ids, values) == PushValue(s, BinaryValue(op, b, a))
    ensures Step([], op, ids, values) == Step([a], op, ids, values) == Fails(Underflow)
  {
    assert (s + [b, a])[..|s|] == s;
  }

  /** `Negate` and `Factorial` replace the top value; on an empty stack they underflow. */
  lemma UnaryReplacesTop(s: seq<F64>, a: F64, op: Operation, ids: seq<string>, values: seq<F64>)
    requires op in {Negate, Operation.Factorial}
    ensures Step(s + [a], op, ids, values) == PushValue(s, UnaryValue(op, a))
    ensures Step([], op, ids, values) == Fails(Underflow)
  {
    assert (s + [a])[..|s|] == s;
  }

  /**
   * `GetVar(i)` pushes the `i`-th value when there is one and otherwise names
   * the variable in its failure; values beyond the loaded slots are never read.
   */
  lemma LoadReadsItsSlot(st: seq<F64>, slot: nat, ids: seq<string>, values: seq<F64>, extra: seq<F64>)
    ensures slot < |values| ==> Step(st, GetVar(slot), ids, values) == PushValue(st, values[slot])
    ensures |values| <= slot < |ids| ==>
      Step(st, GetVar(slot), ids, values) == Fails("Undefined Variable: " + ids[slot])
    ensures slot < |values| ==> Step(st, GetVar(slot), ids, values + extra) == Step(st, GetVar(slot), ids, values)
  {
  }

  /** `None` changes nothing; the token-only kinds are not instructions. */
  lemma NoneAndTokenKinds(st: seq<F64>, op: Operation, ids: seq<string>, values: seq<F64>)
    ensures op.None? ==> Step(st, op, ids, values) == Done(st)
    ensures !Executable(op) ==> Step(st, op, ids, values) == Fails(InvalidInstruction)
  {
  }

  /**
   * `Call(id, n)` takes the top `n` values as arguments in source order (the
   * deepest first), fails naming the function when fewer are there, and
   * passes on an error of `Function::execute`.
   */
  lemma CallTakesTopValues(st: seq<F64>, index: U8, n: nat, ids: seq<string>, values: seq<F64>)
    requires FromRepr(index).Some?
    ensures n > |st| ==>
      Step(st, Operation.Call(index, n), ids, values) == Fails(NotEnoughArguments(FromRepr(index).value))
    ensures n <= |st| ==>
      Step(st, Operation.Call(index, n), ids, values) ==
        match Execute(index, st[|st| - n..])
        case Ok(v) => PushValue(st[..|st| - n], v)
        case Err(e) => Fails(e)
  {
    CallArguments(st, n);
  }

  /**
   * `VM::run` refuses empty code, and otherwise answers the top of the stack
   * the instructions leave, whatever lies below it.
   */
  lemma RunAnswersTop(code: seq<Operation>, ids: seq<string>, values: seq<F64>, below: seq<F64>, top: F64)
    ensures |code| == 0 ==> Run(code, ids, values) == Fails(NoInstructions)
    ensures |code| > 0 && Exec(code, [], ids, values) == Done(below + [top]) ==> Run(code, ids, values) == Done(top)
    ensures |code| > 0 && Exec(code, [], ids, values) == Done([]) ==> Run(code, ids, values) == Panics
  {
  }

  /**
   * What a failing run of well-formed code can report: a full stack, a variable
   * without a value, or an error of `Function::execute`.
   */
  ghost predicate ExpectedFailure(e: string, ids: seq<string>)
  {
    || e == Overflow
    || (exists i :: 0 <= i < |ids| && e == "Undefined Variable: " + ids[i])
    || (exists index: U8, args: seq<F64> :: Execute(index, args) == Err(e))
  }

  /**
   * Code that never pops a missing value, holds only executable instructions
   * and loads only slots of the symbol table runs without panicking, without
   * underflow and without an invalid instruction, and a finished run leaves
   * `Net(code)` more values.
   */
  lemma {:induction false} ExecWellFormed(code: seq<Operation>, st: seq<F64>, ids: seq<string>, values: seq<F64>)
    requires Runs(code, |st|)
    requires forall i :: 0 <= i < |code| && code[i].GetVar? ==> code[i].slot < |ids|
    ensures var r := Exec(code, st, ids, values);
      && !r.Panics?
      && (r.Done? ==> |r.value| == |st| + Net(code))
      && (r.Fails? ==> ExpectedFailure(r.error, ids))
    decreases |code|
  {
    if |code| > 0 {
      var op := code[0];
      StepWellFormed(st, op, ids, values);
      var step := Step(st, op, ids, values);
      if step.Done? {
        assert forall i :: 0 <= i < |code[1..]| && code[1..][i].GetVar? ==> code[1..][i].slot < |ids| by {
          forall i | 0 <= i < |code[1..]| ensures code[1..][i] == code[i + 1] { }
        }
        ExecWellFormed(code[1..], step.value, ids, values);
      }
    }
  }

  /** One instruction of well-formed code: no panic, the expected height, an expected failure. */
  lemma StepWellFormed(st: seq<F64>, op: Operation, ids: seq<string>, values: seq<F64>)
    requires Executable(op) && Pops(op) <= |st|
    requires op.GetVar? ==> op.slot < |ids|
    ensures var r := Step(st, op, ids, values);
      && !r.Panics?
      && (r.Done? ==> |r.value| == |st| - Pops(op) + Pushes(op))
      && (r.Fails? ==> ExpectedFailure(r.error, ids))
  {
    if op.Call? {
      CallArguments(st, op.arity);
      var args := Reverse(AllPresent(PopMany(st, op.arity).0).value);
      var r := Execute(op.index, args);
      if r.Err? {
        assert ExpectedFailure(r.error, ids);
      }
    } else if op.GetVar? && op.slot >= |values| {
      assert ExpectedFailure("Undefined Variable: " + ids[op.slot], ids);
    }
  }

  /**
   * An expression whose loads refer to the symbol table never panics, not even
   * at the final `unwrap`, and fails only for one of the expected reasons.
   */
  lemma ExpressionRunsWithoutPanic(code: seq<Operation>, ids: seq<string>, values: seq<F64>)
    requires IsExpression(code)
    requires forall i :: 0 <= i < |code| && code[i].GetVar? ==> code[i].slot < |ids|
    ensures var r := Run(code, ids, values);
      !r.Panics? && (r.Fails? ==> ExpectedFailure(r.error, ids))
  {
    ExecWellFormed(code, [], ids, values);
  }

  /**
   * `VM::run` over the fixed-size stack: proved to return exactly `Run`, with
   * `Panics` standing for the two places where the source panics.
   */
  method RunCode(code: seq<Operation>, ids: seq<string>, values: seq<F64>) returns (r: Outcome<F64>)
    ensures r == Run(code, ids, values)
  {
    if |code| == 0 {
      return Fails(NoInstructions);
    }
    var stack := new Stack();
    for k := 0 to |code|
      invariant stack.Valid() && fresh(stack) && fresh(stack.xs)
      invariant Exec(code, [], ids, values) == Exec(code[k..], stack.Contents(), ids, values)
    {
      var op := code[k];
      assert code[k..][0] == op && code[k..][1..] == code[k + 1..];
      var outcome := Execute1(stack, op, ids, values);
      if !outcome.Done? {
        return if outcome.Panics? then Panics else Fails(outcome.error);
      }
    }
    assert code[|code|..] == [];
    var top := stack.Pop();
    if top.None? {
      return Panics;
    }
    return Done(top.value);
  }

  /** One pass of the loop of `VM::run` on the machine's stack. */
  method Execute1(stack: Stack, op: Operation, ids: seq<string>, values: seq<F64>) returns (o: Outcome<()>)
    requires stack.Valid()
    modifies stack, stack.xs
    ensures stack.Valid() && stack.xs == old(stack.xs)
    ensures var spec := Step(old(stack.Contents()), op, ids, values);
      && (o.Done? <==> spec.Done?)
      && (o.Done? ==> stack.Contents() == spec.value)
      && (o.Fails? ==> spec == Fails(o.error))
      && (o.Panics? ==> spec.Panics?)
  {
    ghost var st := stack.Contents();
    if op.None? {
      return Done(());
    } else if op in {Add, Subtract, Multiply, Divide, Power, Modulo} {
      var a := stack.Pop();
      if a.None? { return Fails(Underflow); }
      var b := stack.Pop();
      if b.None? { return Fails(Underflow); }
      o := PushOrFail(stack, BinaryValue(op, b.value, a.value));
    } else if op in {Negate, Operation.Factorial} {
      var a := stack.Pop();
      if a.None? { return Fails(Underflow); }
      o := PushOrFail(stack, UnaryValue(op, a.value));
    } else if op.Constant? {
      o := PushOrFail(stack, op.value);
    } else if op.GetVar? {
      if op.slot < |values| {
        o := PushOrFail(stack, values[op.slot]);
      } else if op.slot < |ids| {
        return Fails("Undefined Variable: " + ids[op.slot]);
      } else {
        return Panics;
      }
    } else if op.Call? {
      o := CallFunction(stack, op.index, op.arity);
    } else {
      return Fails(InvalidInstruction);
    }
  }

  /** The `Call` branch of `VM::run`: pop the arguments, put them in source order, call, push. */
  method CallFunction(stack: Stack, index: U8, arity: nat) returns (o: Outcome<()>)
    requires stack.Valid()
    modifies stack, stack.xs
    ensures stack.Valid() && stack.xs == old(stack.xs)
    ensures var spec := Step(old(stack.Contents()), Operation.Call(index, arity), [], []);
      && (o.Done? <==> spec.Done?)
      && (o.Done? ==> stack.Contents() == spec.value)
      && (o.Fails? ==> spec == Fails(o.error))
      && (o.Panics? ==> spec.Panics?)
  {
    var popped := stack.PopN(arity);
    var args: seq<F64> := [];
    for j := 0 to |popped|
      invariant |args| == j && forall i :: 0 <= i < j ==> popped[i].Some? && args[i] == popped[i].value
    {
      match popped[j] {
        case Some(v) => args := args + [v];
        case None =>
          match FromRepr(index) {
            case Some(f) => return Fails(NotEnoughArguments(f));
            case None => return Panics;
          }
      }
    }
    assert AllPresent(popped).Some?;
    assert AllPresent(popped).value == args;
    args := Reverse(args);
    match Execute(index, args) {
      case Ok(v) => o := PushOrFail(stack, v);
      case Err(e) => return Fails(e);
    }
  }

  /** `push!` on the machine's stack. */
  method PushOrFail(stack: Stack, v: F64) returns (o: Outcome<()>)
    requires stack.Valid()
    modifies stack, stack.xs
    ensures stack.Valid() && stack.xs == old(stack.xs)
    ensures var spec := PushValue(old(stack.Contents()), v);
      && (o.Done? <==> spec.Done?)
      && (o.Done? ==> stack.Contents() == spec.value)
      && (o.Fails? ==> spec == Fails(o.error))
      && !o.Panics?
  {
    var pushed := stack.Push(v);
    if !pushed {
      return Fails(Overflow);
    }
    return Done(());
  }
}
