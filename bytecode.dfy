/**
 * The stack discipline of the machine code the compiler emits: how many values
 * each instruction takes from the stack and how many it leaves.
 */
module Bytecode {

  import opened Scanning

  /** The instructions the machine executes; parentheses, commas and the like are token kinds only. */
  predicate Executable(op: Operation)
  {
    !(op.OpenParenthesis? || op.CloseParenthesis? || op.Comma? || op.EOF? || op.Error? || op.Identifier?)
  }

  /** How many values an instruction pops. */
  function Pops(op: Operation): nat
  {
    match op
    case Add => 2 case Subtract => 2 case Multiply => 2 case Divide => 2
    case Power => 2 case Modulo => 2
    case Negate => 1 case Factorial => 1
    case Call(_, n) => n
    case _ => 0
  }

  /** How many values an instruction pushes: one, except the no-op `None`. */
  function Pushes(op: Operation): nat
  {
    if op.None? then 0 else 1
  }

  /** The change in stack height over a whole instruction sequence. */
  function Net(code: seq<Operation>): int
  {
    if |code| == 0 then 0 else Pushes(code[0]) - Pops(code[0]) + Net(code[1..])
  }

  /** Started on a stack of `depth` values, `code` never pops a value that is not there. */
  predicate Runs(code: seq<Operation>, depth: nat)
  {
    |code| == 0 ||
    (Executable(code[0]) && Pops(code[0]) <= depth
     && Runs(code[1..], depth - Pops(code[0]) + Pushes(code[0])))
  }

  /** Code that computes one value from nothing: an expression. */
  predicate IsExpression(code: seq<Operation>)
  {
    Runs(code, 0) && Net(code) == 1
  }

  /** Code that turns the one value below it into one value: the rest of an expression after an operand. */
  predicate IsContinuation(code: seq<Operation>)
  {
    Runs(code, 1) && Net(code) == 0
  }

  lemma {:induction false} NetAppend(a: seq<Operation>, b: seq<Operation>)
    ensures Net(a + b) == Net(a) + Net(b)
    decreases |a|
  {
    if |a| > 0 {
      assert (a + b)[1..] == a[1..] + b;
      NetAppend(a[1..], b);
    } else {
      assert a + b == b;
    }
  }

  /** More values below never hurt. */
  lemma {:induction false} RunsDeeper(code: seq<Operation>, depth: nat, more: nat)
    requires Runs(code, depth)
    ensures Runs(code, depth + more)
    decreases |code|
  {
    if |code| > 0 {
      RunsDeeper(code[1..], depth - Pops(code[0]) + Pushes(code[0]), more);
    }
  }

  /** Running `a` then `b` is safe when each is safe on the stack it finds. */
  lemma {:induction false} RunsAppend(a: seq<Operation>, b: seq<Operation>, depth: nat)
    requires Runs(a, depth) && depth + Net(a) >= 0 && Runs(b, depth + Net(a))
    ensures Runs(a + b, depth)
    decreases |a|
  {
    if |a| == 0 {
      assert a + b == b;
    } else {
      assert (a + b)[1..] == a[1..] + b;
      assert (a + b)[0] == a[0];
      RunsAppend(a[1..], b, depth - Pops(a[0]) + Pushes(a[0]));
    }
  }

  /** An expression followed by a continuation is an expression. */
  lemma ExpressionThenContinuation(a: seq<Operation>, b: seq<Operation>)
    requires IsExpression(a) && IsContinuation(b)
    ensures IsExpression(a + b)
  {
    RunsAppend(a, b, 0);
    NetAppend(a, b);
  }

  /** Two continuations in a row are a continuation. */
  lemma ContinuationThenContinuation(a: seq<Operation>, b: seq<Operation>)
    requires IsContinuation(a) && IsContinuation(b)
    ensures IsContinuation(a + b)
  {
    RunsAppend(a, b, 1);
    NetAppend(a, b);
  }

  /** An expression followed by an operator that takes `k + 1` operands, `k` of them already below. */
  lemma ExpressionThenOperator(a: seq<Operation>, op: Operation, below: nat)
    requires IsExpression(a) && Executable(op) && Pops(op) <= below + 1 && Pushes(op) == 1
    ensures Runs(a + [op], below) && Net(a + [op]) == 2 - Pops(op)
  {
    RunsDeeper(a, 0, below);
    assert Runs([op], below + 1) by {
      assert [op][1..] == [];
    }
    RunsAppend(a, [op], below);
    NetAppend(a, [op]);
    assert [op][1..] == [];
  }

  /** An expression in front of code that runs on an empty stack pushes one more value. */
  lemma ExpressionThenExpressions(a: seq<Operation>, b: seq<Operation>)
    requires IsExpression(a) && Runs(b, 0) && Net(b) >= 0
    ensures Runs(a + b, 0) && Net(a + b) == Net(b) + 1
  {
    RunsDeeper(b, 0, 1);
    RunsAppend(a, b, 0);
    NetAppend(a, b);
  }
}
