/**
 * The training set of colours: 7 groups of 100 samples, each sample four
 * numbers between braces, read by scanning for the next delimiter with
 * `consume`, and for every sample a one-hot target naming its group.
 * The text of the embedded data file and the library's `f32` parser are
 * parameters; the normalisation by the largest value is not modelled.
 */
module Data {
  import opened Wrappers
  import opened Text
  import opened Matrices
  import opened NeuralNetworks

  /** Number of colour groups and samples per group in the data file. */
  const Groups := 7
  const Samples := 100

  /**
   * `consume`: the index of the first occurrence of `c`. The source panics
   * when `c` does not occur, so callers guarantee that it does.
   */
  method Consume(code: seq<char>, c: char) returns (index: nat)
    requires c in code
    ensures index < |code| && code[index] == c
    ensures forall j :: 0 <= j < index ==> code[j] != c
  {
    index := 0;
    while code[index] != c
      invariant index < |code| && c in code[index..]
      invariant forall j :: 0 <= j < index ==> code[j] != c
      decreases |code| - index
    {
      assert code[index..] == [code[index]] + code[index + 1..];
      index := index + 1;
    }
  }

  /**
   * `consume(&data_string[from..], c) + from`, with `None` where the slice
   * (a start past the end) or `consume` itself panics.
   */
  method ConsumeFrom(s: seq<char>, from: nat, c: char) returns (found: Option<nat>)
    ensures found.Some? <==> from <= |s| && c in s[from..]
    ensures found.Some? ==> from <= found.value < |s| && s[found.value] == c
    ensures found.Some? ==> forall j :: from <= j < found.value ==> s[j] != c
  {
    if from > |s| || c !in s[from..] {
      return None;
    }
    var offset := Consume(s[from..], c);
    found := Some(offset + from);
  }

  /**
   * `DATA_FILE.replace('\n', "").replace(' ', "")`: the data file with every
   * newline and space removed and the other characters kept, each as often
   * as it occurs (`StripAppend` states that their order is kept too).
   */
  function Strip(s: seq<char>): (r: seq<char>)
    ensures '\n' !in r && ' ' !in r
    ensures forall x :: x != '\n' && x != ' ' ==> multiset(r)[x] == multiset(s)[x]
    ensures |r| <= |s|
  {
    Without(Without(s, '\n'), ' ')
  }

  /**
   * Stripping works piece by piece, and a single character survives exactly
   * when it is neither a newline nor a space: the kept characters stay in
   * their order.
   */
  lemma StripAppend(a: seq<char>, b: seq<char>)
    ensures Strip(a + b) == Strip(a) + Strip(b)
    ensures forall x :: Strip([x]) == if x == '\n' || x == ' ' then [] else [x]
  {
    WithoutAppend(a, b, '\n');
    WithoutAppend(Without(a, '\n'), Without(b, '\n'), ' ');
    forall x ensures Strip([x]) == if x == '\n' || x == ' ' then [] else [x] {
      WithoutOne(x, '\n');
      WithoutOne(x, ' ');
      assert Without([], ' ') == [];
    }
  }

  /** Removing newlines and spaces a second time changes nothing. */
  lemma StripIsIdempotent(s: seq<char>)
    ensures Strip(Strip(s)) == Strip(s)
  {
    WithoutAbsent(Strip(s), '\n');
    WithoutAbsent(Strip(s), ' ');
  }

  /** A sample as the network reads it: a 4 x 1 column. */
  ghost predicate IsSample(m: Matrix)
  {
    m.Valid() && m.rows == 4 && m.cols == 1
  }

  /**
   * The parse loop of `get_data`: for each of the 7 groups skip to its `{`,
   * then for each of its 100 samples skip to the sample's `{` and read four
   * numbers, each ending before the next `,` (or before the `}` that
   * precedes it, in which case the position moves back), then skip the
   * sample's `}` and finally the group's `}`. `None` stands for the panics:
   * a missing delimiter, an index that underflows, an empty slice range
   * that runs backwards, or a number `parse` rejects.
   */
  method ParseInputs(s: seq<char>, parse: seq<char> -> Option<real>) returns (inputs: Option<seq<Matrix>>)
    ensures inputs.Some? ==> |inputs.value| == Groups * Samples
    ensures inputs.Some? ==> forall k :: 0 <= k < |inputs.value| ==> IsSample(inputs.value[k])
  {
    var index: nat := 0;
    var acc: seq<Matrix> := [];
    TimesOne(4);
    for group := 0 to Groups
      invariant |acc| == Samples * group
      invariant forall k :: 0 <= k < |acc| ==> IsSample(acc[k])
    {
      var found := ConsumeFrom(s, index, '{');
      if found.None? {
        return None;
      }
      index := found.value + 1;
      for sample := 0 to Samples
        invariant |acc| == Samples * group + sample
        invariant forall k :: 0 <= k < |acc| ==> IsSample(acc[k])
      {
        found := ConsumeFrom(s, index, '{');
        if found.None? {
          return None;
        }
        index := found.value + 1;
        var matrix := new Matrix(4, 1);
        for row := 0 to 4
          invariant IsSample(matrix)
        {
          var start := index;
          found := ConsumeFrom(s, index, ',');
          if found.None? {
            return None;
          }
          index := found.value;
          var end := index;
          if end == 0 {
            return None;
          }
          if s[end - 1] == '}' {
            end := end - 1;
            if index < 2 {
              return None;
            }
            index := index - 2;
          }
          if start > end {
            return None;
          }
          var value := parse(s[start..end]);
          if value.None? {
            return None;
          }
          TimesOne(row);
          matrix.Set(row, 0, value.value);
          index := index + 1;
        }
        found := ConsumeFrom(s, index, '}');
        if found.None? {
          return None;
        }
        index := found.value + 1;
        acc := acc + [matrix];
      }
      var closing := ConsumeFrom(s, index, '}');
      if closing.None? {
        return None;
      }
      index := closing.value + 1;
    }
    inputs := Some(acc);
  }

  /**
   * The targets of `get_data`: for each group 100 columns of 7 cells, zero
   * except a `1.0` in the group's row, so sample `k` is labelled with
   * group `k / 100`.
   */
  method Targets() returns (targets: seq<Matrix>)
    ensures |targets| == Groups * Samples
    ensures forall k :: 0 <= k < |targets| ==>
      targets[k].Valid() && targets[k].rows == Groups && targets[k].cols == 1 &&
      targets[k].data[..] == OneHot(Groups, k / Samples)
  {
    targets := [];
    TimesOne(Groups);
    for group := 0 to Groups
      invariant |targets| == Samples * group
      invariant forall k :: 0 <= k < |targets| ==>
        targets[k].Valid() && targets[k].rows == Groups && targets[k].cols == 1 &&
        targets[k].data[..] == OneHot(Groups, k / Samples)
    {
      for sample := 0 to Samples
        invariant |targets| == Samples * group + sample
        invariant forall k :: 0 <= k < |targets| ==>
          targets[k].Valid() && targets[k].rows == Groups && targets[k].cols == 1 &&
          targets[k].data[..] == OneHot(Groups, k / Samples)
      {
        var matrix := new Matrix(Groups, 1);
        TimesOne(group);
        matrix.Set(group, 0, 1.0);
        assert matrix.data[..] == OneHot(Groups, group);
        assert (Samples * group + sample) / Samples == group;
        targets := targets + [matrix];
      }
    }
  }

  /**
   * `get_data` without the normalisation: the stripped file parsed into
   * 700 samples, and their 700 targets.
   */
  method GetData(file: seq<char>, parse: seq<char> -> Option<real>)
    returns (data: Option<(seq<Matrix>, seq<Matrix>)>)
    ensures data.Some? ==> |data.value.0| == |data.value.1| == Groups * Samples
    ensures data.Some? ==> forall k :: 0 <= k < |data.value.0| ==>
      IsSample(data.value.0[k]) && data.value.1[k].data[..] == OneHot(Groups, k / Samples)
  {
    var inputs := ParseInputs(Strip(file), parse);
    if inputs.None? {
      return None;
    }
    var targets := Targets();
    data := Some((inputs.value, targets));
  }
}
