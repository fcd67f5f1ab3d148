/** Rust's Option and Result, and the outcome of a call that may also panic. */
module Wrappers {

  datatype Option<T> = None | Some(value: T)

  /** `Result<T, String>`: the error side of every fallible call here is a message. */
  datatype Result<T> = Ok(value: T) | Err(error: string)

  /**
   * The outcome of a Rust function that returns `Result<T, String>` but can also
   * panic (an `unwrap` on `None`, an index out of bounds).
   */
  datatype Outcome<T> = Done(value: T) | Fails(error: string) | Panics
}

/** Formatting helpers standing for Rust's `format!` and `join`. */
module Text {

  /** The decimal digit for `d`. */
  function DigitChar(d: nat): char
    requires d < 10
  {
    ['0', '1', '2', '3', '4', '5', '6', '7', '8', '9'][d]
  }

  /** `format!("{}", n)` for an unsigned integer. */
  function NatToString(n: nat): (s: string)
    ensures |s| > 0
    ensures forall i :: 0 <= i < |s| ==> '0' <= s[i] <= '9'
  {
    if n < 10 then [DigitChar(n)] else NatToString(n / 10) + [DigitChar(n % 10)]
  }

  /** `parts.join(sep)`. */
  function Join(parts: seq<string>, sep: string): string
  {
    if |parts| == 0 then ""
    else if |parts| == 1 then parts[0]
    else parts[0] + sep + Join(parts[1..], sep)
  }

  /** `s.replace(c, "")`: every occurrence of `c` removed, the rest kept in order. */
  function Without(s: string, c: char): (r: string)
    ensures |r| <= |s|
    ensures c !in r
    ensures forall x :: x in r ==> x in s
    ensures forall x :: x != c ==> multiset(r)[x] == multiset(s)[x]
  {
    if |s| == 0 then ""
    else
      assert s == [s[0]] + s[1..];
      (if s[0] == c then "" else [s[0]]) + Without(s[1..], c)
  }

  /**
   * `replace` works piece by piece: removing `c` from a concatenation removes
   * it from each part. With `WithoutOne` this fixes the order of the
   * characters that are kept.
   */
  lemma {:induction false} WithoutAppend(a: string, b: string, c: char)
    ensures Without(a + b, c) == Without(a, c) + Without(b, c)
    decreases |a|
  {
    if |a| > 0 {
      var head: string := if a[0] == c then "" else [a[0]];
      assert (a + b)[0] == a[0] && (a + b)[1..] == a[1..] + b;
      assert Without(a + b, c) == head + Without(a[1..] + b, c);
      WithoutAppend(a[1..], b, c);
      assert Without(a, c) == head + Without(a[1..], c);
    } else {
      assert a + b == b;
    }
  }

  /** A single character is dropped exactly when it is `c`. */
  lemma WithoutOne(x: char, c: char)
    ensures Without([x], c) == if x == c then "" else [x]
  {
    assert [x][1..] == "";
  }

  /** Removing a character that does not occur changes nothing. */
  lemma {:induction false} WithoutAbsent(s: string, c: char)
    requires c !in s
    ensures Without(s, c) == s
    decreases |s|
  {
    if |s| > 0 {
      WithoutAbsent(s[1..], c);
      assert s == [s[0]] + s[1..];
    }
  }
}

/** Sequence helpers: `Vec::reverse`. */
module Seqs {

  function Reverse<T>(s: seq<T>): (r: seq<T>)
    ensures |r| == |s|
    ensures forall i :: 0 <= i < |s| ==> r[i] == s[|s| - 1 - i]
  {
    if |s| == 0 then [] else Reverse(s[1..]) + [s[0]]
  }

  lemma ReverseReverse<T>(s: seq<T>)
    ensures Reverse(Reverse(s)) == s
  {
    var r := Reverse(Reverse(s));
    assert |r| == |s|;
    forall i | 0 <= i < |s| ensures r[i] == s[i] {
    }
  }
}
