/**
 * The bookkeeping around the neural network: judging one prediction against
 * its one-hot target, counting the correct predictions of a batch, the layer
 * shapes of a new network and the round-robin split of the examples into
 * batches. The numerics of training (forward pass, back-propagation,
 * averaging of corrections, threads) are not part of this model.
 */
module NeuralNetworks {
  import opened Matrices

  /** A vector of `n` zeros with a single `1.0` at index `k`. */
  function OneHot(n: nat, k: nat): (v: seq<real>)
    ensures |v| == n
    ensures forall i :: 0 <= i < n ==> (v[i] == 1.0 <==> i == k)
  {
    seq(n, i => if i == k then 1.0 else 0.0)
  }

  /** The running maximum of `check` and the index where it was found. */
  datatype Pick = Pick(value: real, index: nat)

  /**
   * The pair (`max`, `max_index`) that the first loop of `check` holds after
   * scanning `p`: it starts at (0.0, 0) and moves only on a strictly greater
   * value, so the earliest of several equal maxima wins.
   */
  function Strongest(p: seq<real>): (best: Pick)
    ensures 0.0 <= best.value
    ensures forall j :: 0 <= j < |p| ==> p[j] <= best.value
    ensures best.value == 0.0 ==> best.index == 0
    ensures best.value > 0.0 ==> best.index < |p| && p[best.index] == best.value
    ensures forall j :: 0 <= j < best.index && best.index < |p| ==> p[j] < p[best.index]
  {
    if |p| == 0 then Pick(0.0, 0)
    else
      var front := Strongest(p[..|p| - 1]);
      if p[|p| - 1] > front.value then Pick(p[|p| - 1], |p| - 1) else front
  }

  /**
   * `Strongest` picks exactly the index a reader of `check` expects: when
   * some value is positive, the first index holding the greatest value;
   * otherwise index 0.
   */
  lemma StrongestIsFirstMaximum(p: seq<real>, k: nat)
    ensures Strongest(p).index == k <==>
      if exists j :: 0 <= j < |p| && p[j] > 0.0 then
        k < |p| && (forall j :: 0 <= j < |p| ==> p[j] <= p[k]) && (forall j :: 0 <= j < k ==> p[j] < p[k])
      else
        k == 0
  {
    var best := Strongest(p);
    if exists j :: 0 <= j < |p| && p[j] > 0.0 {
      var j :| 0 <= j < |p| && p[j] > 0.0;
      assert best.value > 0.0;
      if k < |p| && (forall j :: 0 <= j < |p| ==> p[j] <= p[k]) && (forall j :: 0 <= j < k ==> p[j] < p[k]) {
        assert p[k] == best.value;
      }
    }
  }

  /**
   * `NeuralNetworkWorker::check`: find the strongest output as above, build
   * the one-hot vector for it and compare it with the target cell by cell.
   * Writing the one-hot cell panics on an empty prediction, and reading the
   * target panics when it is shorter than the prediction.
   */
  method Check(prediction: Matrix, target: Matrix) returns (correct: bool)
    requires prediction.data.Length > 0
    requires target.data.Length >= prediction.data.Length
    ensures correct <==>
      target.data[..prediction.data.Length] == OneHot(prediction.data.Length, Strongest(prediction.data[..]).index)
  {
    var n := prediction.data.Length;
    var max := 0.0;
    var maxIndex := 0;
    for i := 0 to n
      invariant Pick(max, maxIndex) == Strongest(prediction.data[..i])
    {
      assert prediction.data[..i + 1][..i] == prediction.data[..i];
      if prediction.data[i] > max {
        max := prediction.data[i];
        maxIndex := i;
      }
    }
    assert prediction.data[..n] == prediction.data[..];
    var m := Matrix.FromVec(seq(n, _ => 0.0));
    m.data[maxIndex] := 1.0;
    assert m.data[..] == OneHot(n, maxIndex);
    correct := true;
    for i := 0 to n
      invariant correct <==> forall j :: 0 <= j < i ==> m.data[j] == target.data[j]
    {
      if m.data[i] != target.data[i] {
        correct := false;
      }
    }
    assert correct <==> m.data[..] == target.data[..n];
  }

  /** How many of the examples `train` reports as predicted correctly. */
  function Successes<E, C>(batch: seq<E>, train: E -> (C, bool)): (count: nat)
    ensures count <= |batch|
    ensures count == |batch| <==> forall i :: 0 <= i < |batch| ==> train(batch[i]).1
    ensures count == 0 <==> forall i :: 0 <= i < |batch| ==> !train(batch[i]).1
  {
    if |batch| == 0 then 0
    else
      var front := batch[..|batch| - 1];
      assert forall i :: 0 <= i < |front| ==> front[i] == batch[i];
      Successes(front, train) + if train(batch[|batch| - 1]).1 then 1 else 0
  }

  /**
   * `NeuralNetworkWorker::train_batch`: one list of corrections per example,
   * in order, and the number of examples whose training step predicted
   * correctly. `train` stands for the worker's forward and backward pass.
   */
  method TrainBatch<E, C>(batch: seq<E>, train: E -> (C, bool)) returns (res: seq<C>, correct: nat)
    ensures |res| == |batch| && forall i :: 0 <= i < |batch| ==> res[i] == train(batch[i]).0
    ensures correct == Successes(batch, train)
  {
    res, correct := [], 0;
    for i := 0 to |batch|
      invariant |res| == i && forall j :: 0 <= j < i ==> res[j] == train(batch[j]).0
      invariant correct == Successes(batch[..i], train)
    {
      assert batch[..i + 1][..i] == batch[..i];
      var corrections := train(batch[i]);
      if corrections.1 {
        correct := correct + 1;
      }
      res := res + [corrections.0];
    }
    assert batch[..|batch|] == batch;
  }

  /**
   * `NeuralNetwork`: the layer sizes and, between consecutive layers, a
   * weight matrix and a bias column.
   */
  class NeuralNetwork {
    var learningRate: real
    var layerSizes: seq<nat>
    var weights: seq<Matrix>
    var biases: seq<Matrix>
    var updateInterval: nat

    /** Weights `i` map layer `i` to layer `i + 1`; biases `i` are a column of layer `i + 1`. */
    ghost predicate Shaped()
      reads this
    {
      |layerSizes| >= 1 && |weights| == |layerSizes| - 1 && |biases| == |layerSizes| - 1 &&
      (forall i :: 0 <= i < |weights| ==>
        weights[i].Valid() && weights[i].rows == layerSizes[i + 1] && weights[i].cols == layerSizes[i]) &&
      (forall i :: 0 <= i < |biases| ==>
        biases[i].Valid() && biases[i].rows == layerSizes[i + 1] && biases[i].cols == 1)
    }

    /**
     * `NeuralNetwork::new`; `layer_sizes.len() - 1` underflows on an empty
     * list, so at least one layer is required.
     */
    constructor (layerSizes: seq<nat>)
      requires |layerSizes| >= 1
      ensures this.layerSizes == layerSizes && Shaped()
      ensures learningRate == 0.005 && updateInterval == 100
    {
      var w: seq<Matrix>, b: seq<Matrix> := [], [];
      for i := 0 to |layerSizes| - 1
        invariant |w| == i && |b| == i
        invariant forall j :: 0 <= j < i ==>
          w[j].Valid() && w[j].rows == layerSizes[j + 1] && w[j].cols == layerSizes[j]
        invariant forall j :: 0 <= j < i ==>
          b[j].Valid() && b[j].rows == layerSizes[j + 1] && b[j].cols == 1
      {
        var weight := new Matrix(layerSizes[i + 1], layerSizes[i]);
        var bias := new Matrix(layerSizes[i + 1], 1);
        w, b := w + [weight], b + [bias];
      }
      this.learningRate := 0.005;
      this.layerSizes := layerSizes;
      this.weights, this.biases := w, b;
      this.updateInterval := 100;
    }
  }

  /** Example `i` paired with target `i`, as the batch split reads them. */
  function Zip<I, T>(input: seq<I>, target: seq<T>): (pairs: seq<(I, T)>)
    requires |target| >= |input|
    ensures |pairs| == |input|
    ensures forall i :: 0 <= i < |input| ==> pairs[i] == (input[i], target[i])
  {
    seq(|input|, i requires 0 <= i < |input| => (input[i], target[i]))
  }

  /** The examples whose index is `b` modulo `n`, in their original order. */
  function Dealt<T>(examples: seq<T>, b: nat, n: nat): seq<T>
    requires n > 0
  {
    if |examples| == 0 then []
    else
      var last := |examples| - 1;
      Dealt(examples[..last], b, n) + if last % n == b then [examples[last]] else []
  }

  /**
   * The batch split of `NeuralNetwork::train_batches`: `batch_number` empty
   * batches, then example `i` (with its target) pushed onto batch
   * `i % batch_number`. The remainder panics for zero batches once there is
   * an example, and a missing target panics too. The shuffle before the
   * split is left out: `input` and `target` are taken as already shuffled.
   */
  method SplitIntoBatches<I, T>(input: seq<I>, target: seq<T>, batchNumber: nat)
    returns (batches: seq<seq<(I, T)>>)
    requires batchNumber > 0 || |input| == 0
    requires |target| >= |input|
    ensures |batches| == batchNumber
    ensures forall b :: 0 <= b < batchNumber ==> batches[b] == Dealt(Zip(input, target), b, batchNumber)
  {
    batches := [];
    for b := 0 to batchNumber
      invariant |batches| == b && forall c :: 0 <= c < b ==> batches[c] == []
    {
      batches := batches + [[]];
    }
    var pairs := Zip(input, target);
    for i := 0 to |input|
      invariant |batches| == batchNumber
      invariant forall b :: 0 <= b < batchNumber ==> batches[b] == Dealt(pairs[..i], b, batchNumber)
    {
      assert pairs[..i + 1][..i] == pairs[..i];
      var b := i % batchNumber;
      batches := batches[b := batches[b] + [(input[i], target[i])]];
    }
    assert pairs[..|input|] == pairs;
  }

  /** Euclidean division of `a` by `n` is determined by quotient and remainder. */
  lemma DivModUnique(a: nat, n: nat, q: nat, r: nat)
    requires n > 0 && r < n && a == q * n + r
    ensures a / n == q && a % n == r
  {
    var q', r' := a / n, a % n;
    assert a == q' * n + r';
    if q > q' {
      MultipleAtLeast(q - q', n);
    } else if q < q' {
      MultipleAtLeast(q' - q, n);
    }
  }

  lemma MultipleAtLeast(d: nat, n: nat)
    requires d >= 1
    ensures d * n >= n
  {
  }

  /** Moving from `k` to `k + 1` advances the remainder and, on wrap-around, the quotient. */
  lemma DivModStep(k: nat, n: nat)
    requires n > 0
    ensures (k + 1) % n == if k % n + 1 == n then 0 else k % n + 1
    ensures (k + 1) / n == if k % n + 1 == n then k / n + 1 else k / n
  {
    var q, r := k / n, k % n;
    if r + 1 == n {
      DivModUnique(k + 1, n, q + 1, 0);
    } else {
      DivModUnique(k + 1, n, q, r + 1);
    }
  }

  /**
   * Batch `b` of `n` holds `len / n` examples, plus one when `b` is below
   * `len % n`: the first `len % n` batches get the extra example.
   */
  lemma {:induction false} DealtSize<T>(examples: seq<T>, b: nat, n: nat)
    requires n > 0 && b < n
    ensures |Dealt(examples, b, n)| == |examples| / n + if b < |examples| % n then 1 else 0
  {
    if |examples| > 0 {
      var last := |examples| - 1;
      DealtSize(examples[..last], b, n);
      DivModStep(last, n);
    }
  }

  /** Any two batches differ in size by at most one example. */
  lemma BatchSizesDifferByAtMostOne<T>(examples: seq<T>, b: nat, c: nat, n: nat)
    requires n > 0 && b < n && c < n
    ensures |Dealt(examples, b, n)| <= |Dealt(examples, c, n)| + 1
  {
    DealtSize(examples, b, n);
    DealtSize(examples, c, n);
  }

  /**
   * Example `i` sits at position `i / n` of batch `i % n`; with the sizes
   * above, every example lands in exactly one slot of exactly one batch.
   */
  lemma {:induction false} DealtPosition<T>(examples: seq<T>, i: nat, n: nat)
    requires n > 0 && i < |examples|
    ensures i / n < |Dealt(examples, i % n, n)| && Dealt(examples, i % n, n)[i / n] == examples[i]
  {
    var last := |examples| - 1;
    var front := examples[..last];
    DealtSize(front, i % n, n);
    if i < last {
      DealtPosition(front, i, n);
    } else {
      assert i == last;
      assert |front| == i;
      assert |Dealt(front, i % n, n)| == i / n;
    }
  }

  /** Every batch holds only examples whose index is its own number modulo `n`. */
  lemma {:induction false} DealtOrigin<T>(examples: seq<T>, b: nat, n: nat, p: nat)
    requires n > 0 && b < n && p < |Dealt(examples, b, n)|
    ensures p * n + b < |examples| && Dealt(examples, b, n)[p] == examples[p * n + b]
  {
    var last := |examples| - 1;
    var front := examples[..last];
    if p < |Dealt(front, b, n)| {
      DealtOrigin(front, b, n, p);
    } else {
      DealtSize(front, b, n);
      var q, r := last / n, last % n;
      assert last == q * n + r;
      assert r == b && p == q;
      assert Dealt(examples, b, n) == Dealt(front, b, n) + [examples[last]];
    }
  }
}
