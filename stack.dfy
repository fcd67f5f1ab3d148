/** The fixed-size value stack of the expression virtual machine. */
module ValueStack {

  import opened Wrappers
  import opened Float
  import opened Seqs

  /** The capacity of the stack. */
  const STACK_SIZE: nat := 64

  /** `Stack::pop` on a stack with contents `s` (top last). */
  function PopOne(s: seq<F64>): (Option<F64>, seq<F64>)
  {
    if |s| > 0 then (Some(s[|s| - 1]), s[..|s| - 1]) else (Option.None, s)
  }

  /** `Stack::pop_n`: `n` successive pops, the results in the order they were popped. */
  function PopMany(s: seq<F64>, n: nat): (seq<Option<F64>>, seq<F64>)
  {
    if n == 0 then ([], s)
    else
      var (x, s1) := PopOne(s);
      var (xs, s2) := PopMany(s1, n - 1);
      ([x] + xs, s2)
  }

  /**
   * What `pop_n(n)` returns and leaves: the values from the top down, one `None`
   * for each pop that found the stack empty, and the stack without its top `n`
   * values (empty when it held fewer).
   */
  lemma {:induction false} PopManyClosedForm(s: seq<F64>, n: nat)
    ensures |PopMany(s, n).0| == n
    ensures forall i :: 0 <= i < n ==>
      PopMany(s, n).0[i] == if i < |s| then Some(s[|s| - 1 - i]) else Option.None
    ensures PopMany(s, n).1 == if n <= |s| then s[..|s| - n] else []
    decreases n
  {
    if n > 0 {
      var (x, s1) := PopOne(s);
      PopManyClosedForm(s1, n - 1);
      var (xs, s2) := PopMany(s1, n - 1);
      assert PopMany(s, n) == ([x] + xs, s2);
      if |s| > 0 {
        assert s1 == s[..|s| - 1];
        forall i | 0 <= i < n
          ensures ([x] + xs)[i] == if i < |s| then Some(s[|s| - 1 - i]) else Option.None
        {
          if i > 0 {
            assert ([x] + xs)[i] == xs[i - 1];
          }
        }
      }
    }
  }

  /** A pop undoes the push before it: it returns the pushed value and restores the stack. */
  lemma PopUndoesPush(s: seq<F64>, v: F64)
    ensures PopOne(s + [v]) == (Some(v), s)
  {
    assert (s + [v])[..|s|] == s;
  }

  /** A stack of at most `STACK_SIZE` values held in a fixed array. */
  class Stack {
    var xs: array<F64>
    var sz: nat

    ghost predicate Valid()
      reads this
    {
      xs.Length == STACK_SIZE && sz <= STACK_SIZE
    }

    /** The values on the stack, bottom first. */
    function Contents(): seq<F64>
      reads this, xs
      requires Valid()
    {
      xs[..sz]
    }

    /** `Stack::new`: an empty stack. */
    constructor ()
      ensures Valid() && fresh(xs)
      ensures Contents() == []
    {
      xs := new F64[STACK_SIZE];
      sz := 0;
    }

    /** `Stack::push`: succeeds, and pushes, exactly when there is room. */
    method Push(item: F64) returns (pushed: bool)
      requires Valid()
      modifies this, xs
      ensures Valid() && xs == old(xs)
      ensures pushed <==> |old(Contents())| < STACK_SIZE
      ensures Contents() == if pushed then old(Contents()) + [item] else old(Contents())
    {
      if sz + 1 <= STACK_SIZE {
        xs[sz] := item;
        sz := sz + 1;
        pushed := true;
      } else {
        pushed := false;
      }
    }

    /** `Stack::pop`: the top value, or `None` on an empty stack. */
    method Pop() returns (r: Option<F64>)
      requires Valid()
      modifies this
      ensures Valid() && xs == old(xs)
      ensures (r, Contents()) == PopOne(old(Contents()))
    {
      if sz > 0 {
        sz := sz - 1;
        r := Some(xs[sz]);
        assert Contents() == old(Contents())[..sz];
      } else {
        r := Option.None;
      }
    }

    /** `Stack::pop_n`. */
    method PopN(n: nat) returns (v: seq<Option<F64>>)
      requires Valid()
      modifies this
      ensures Valid() && xs == old(xs)
      ensures (v, Contents()) == PopMany(old(Contents()), n)
    {
      ghost var start := Contents();
      v := [];
      for i := 0 to n
        invariant Valid() && xs == old(xs)
        invariant PopMany(start, n).0 == v + PopMany(Contents(), n - i).0
        invariant PopMany(start, n).1 == PopMany(Contents(), n - i).1
      {
        ghost var before := Contents();
        var x := Pop();
        assert PopMany(before, n - i).0 == [x] + PopMany(Contents(), n - i - 1).0;
        v := v + [x];
      }
      assert v + PopMany(Contents(), 0).0 == v;
    }
  }
}
