/**
 * The data handling of the time-series forecaster (part5/timeseries_mlx.py):
 * cutting a price series into input windows and next-value targets, and the
 * batch index arithmetic of the training loop. The network, the optimiser
 * and the float normalisation are not modelled: the loss of a batch is an
 * input function, and each epoch's shuffle is an input permutation.
 */
module TimeSeries {
  import opened Wrappers

  /** How many samples `prepare_timeseries_data` builds: `range(len(data) - sequence_length)` (line 57). */
  function SampleCount(n: nat, seqLen: nat): nat {
    if n > seqLen then n - seqLen else 0
  }

  /** The input windows `X` (line 58). */
  function Windows<T>(data: seq<T>, seqLen: nat): (xs: seq<seq<T>>)
    ensures |xs| == SampleCount(|data|, seqLen)
    ensures forall i :: 0 <= i < |xs| ==> |xs[i]| == seqLen && xs[i] == data[i..i + seqLen]
  {
    seq(SampleCount(|data|, seqLen), i requires 0 <= i < SampleCount(|data|, seqLen) => data[i..i + seqLen])
  }

  /** The targets `y` (line 59): the value right after each window. */
  function Targets<T>(data: seq<T>, seqLen: nat): (ys: seq<T>)
    ensures |ys| == SampleCount(|data|, seqLen)
    ensures forall i :: 0 <= i < |ys| ==> ys[i] == data[i + seqLen]
  {
    seq(SampleCount(|data|, seqLen), i requires 0 <= i < SampleCount(|data|, seqLen) => data[i + seqLen])
  }

  /** The sample-building loop of `prepare_timeseries_data` (lines 56-59). */
  method PrepareTimeseriesData<T>(data: seq<T>, seqLen: nat) returns (xs: seq<seq<T>>, ys: seq<T>)
    ensures xs == Windows(data, seqLen) && ys == Targets(data, seqLen)
  {
    xs, ys := [], [];
    var count := if |data| > seqLen then |data| - seqLen else 0;
    for i := 0 to count
      invariant |xs| == i && |ys| == i
      invariant forall k :: 0 <= k < i ==> xs[k] == data[k..k + seqLen] && ys[k] == data[k + seqLen]
    {
      xs := xs + [data[i..i + seqLen]];
      ys := ys + [data[i + seqLen]];
    }
  }

  /** Each window is the previous one shifted by one step, with the previous target appended. */
  lemma WindowShift<T>(data: seq<T>, seqLen: nat, i: nat)
    requires seqLen > 0 && i + 1 < SampleCount(|data|, seqLen)
    ensures Windows(data, seqLen)[i + 1] == Windows(data, seqLen)[i][1..] + [Targets(data, seqLen)[i]]
  {
    var xs, ys := Windows(data, seqLen), Targets(data, seqLen);
    assert xs[i][1..] == data[i + 1..i + seqLen];
    assert data[i + 1..i + 1 + seqLen] == data[i + 1..i + seqLen] + [data[i + seqLen]];
  }

  /** Every value after the first window is the target of exactly one sample. */
  lemma TargetsCoverTail<T>(data: seq<T>, seqLen: nat)
    ensures Targets(data, seqLen) == if |data| > seqLen then data[seqLen..] else []
  {
  }

  // ---------------------------------------------------------------------------
  // batch index arithmetic of train_model

  lemma MulStep(i: nat, bs: nat)
    ensures (i + 1) * bs == i * bs + bs
  {
  }

  lemma MulLe(a: nat, b: nat, bs: nat)
    requires a <= b
    ensures a * bs <= b * bs
  {
  }

  lemma BatchCountFits(n: nat, bs: nat)
    requires bs > 0
    ensures (n / bs) * bs <= n
    ensures n - (n / bs) * bs == n % bs
    ensures n / bs == 0 <==> n < bs
  {
  }

  /** Batch `i` of an epoch: positions `[i*bs, (i+1)*bs)` of the shuffled indices (line 101). */
  function Batch(perm: seq<nat>, bs: nat, i: nat): (b: seq<nat>)
    requires (i + 1) * bs <= |perm|
    ensures |b| == bs
  {
    MulStep(i, bs);
    perm[i * bs..(i + 1) * bs]
  }

  /** The summed loss of the first `count` batches of an epoch (line 106). */
  function LossSum(loss: (nat, nat, seq<nat>) -> real, epoch: nat, perm: seq<nat>, bs: nat, count: nat): real
    requires count * bs <= |perm|
  {
    if count == 0 then 0.0
    else
      MulLe(count - 1, count, bs);
      LossSum(loss, epoch, perm, bs, count - 1) + loss(epoch, count - 1, Batch(perm, bs, count - 1))
  }

  /** `indices` holds each number below `n` exactly once, as `np.random.permutation(n)` does. */
  ghost predicate IsPermutation(indices: seq<nat>, n: nat) {
    && |indices| == n
    && (forall a :: 0 <= a < n ==> indices[a] < n)
    && (forall a, b :: 0 <= a < b < n ==> indices[a] != indices[b])
  }

  /**
   * The loop structure of `train_model` (lines 79-114). `perms[e]` is the
   * shuffle of epoch `e` and `loss(e, i, batch)` the loss `train_step`
   * reports for batch `i` of epoch `e`. Division by zero batches raises.
   */
  method TrainModel(numSamples: nat, batchSize: nat, epochs: nat, perms: seq<seq<nat>>,
                    loss: (nat, nat, seq<nat>) -> real) returns (r: Result<seq<real>>)
    requires |perms| == epochs && forall e :: 0 <= e < epochs ==> |perms[e]| == numSamples
    ensures batchSize == 0 ==> r == Err(ZeroDivisionError)
    ensures batchSize > 0 && numSamples < batchSize && epochs > 0 ==> r == Err(ZeroDivisionError)
    ensures batchSize > 0 && (numSamples >= batchSize || epochs == 0) ==>
      && r.Ok? && |r.value| == epochs
      && forall e :: 0 <= e < epochs ==>
           (numSamples / batchSize) * batchSize <= |perms[e]| &&
           r.value[e] == LossSum(loss, e, perms[e], batchSize, numSamples / batchSize) / (numSamples / batchSize) as real
  {
    if batchSize == 0 {
      return Err(ZeroDivisionError);
    }
    var numBatches := numSamples / batchSize;
    BatchCountFits(numSamples, batchSize);
    var losses: seq<real> := [];
    for epoch := 0 to epochs
      invariant |losses| == epoch
      invariant epoch > 0 ==> numBatches > 0
      invariant forall e :: 0 <= e < epoch ==>
        (numBatches > 0 && losses[e] == LossSum(loss, e, perms[e], batchSize, numBatches) / numBatches as real)
    {
      var epochLoss := SumBatchLosses(loss, epoch, perms[epoch], batchSize, numBatches);
      if numBatches == 0 {
        return Err(ZeroDivisionError);
      }
      epochLoss := epochLoss / numBatches as real;
      losses := losses + [epochLoss];
    }
    return Ok(losses);
  }

  /** The inner loop of `train_model` (lines 100-106): the losses of the first `numBatches` batches, summed. */
  method SumBatchLosses(loss: (nat, nat, seq<nat>) -> real, epoch: nat, indices: seq<nat>, batchSize: nat, numBatches: nat)
    returns (epochLoss: real)
    requires numBatches * batchSize <= |indices|
    ensures epochLoss == LossSum(loss, epoch, indices, batchSize, numBatches)
  {
    epochLoss := 0.0;
    for i := 0 to numBatches
      invariant epochLoss == LossSum(loss, epoch, indices, batchSize, i)
    {
      MulLe(i + 1, numBatches, batchSize);
      MulStep(i, batchSize);
      var batch := indices[i * batchSize..(i + 1) * batchSize];
      epochLoss := epochLoss + loss(epoch, i, batch);
    }
  }

  /** Position `p` of the shuffle, if it is below `numBatches * bs`, is item `p % bs` of batch `p / bs`. */
  lemma BatchPosition(perm: seq<nat>, bs: nat, p: nat)
    requires bs > 0 && p < (|perm| / bs) * bs
    ensures (p / bs + 1) * bs <= |perm|
    ensures Batch(perm, bs, p / bs)[p % bs] == perm[p]
  {
    var i := p / bs;
    assert i * bs + p % bs == p;
    assert i < |perm| / bs by {
      if i >= |perm| / bs {
        MulLe(|perm| / bs, i, bs);
      }
    }
    MulLe(i + 1, |perm| / bs, bs);
    BatchCountFits(|perm|, bs);
    MulStep(i, bs);
  }

  /** Batches of one epoch share no sample. */
  lemma BatchesDisjoint(perm: seq<nat>, bs: nat, i: nat, j: nat)
    requires IsPermutation(perm, |perm|)
    requires i < j && (j + 1) * bs <= |perm|
    ensures (i + 1) * bs <= |perm|
    ensures forall x :: x in Batch(perm, bs, i) ==> x !in Batch(perm, bs, j)
  {
    MulLe(i + 1, j + 1, bs);
    MulLe(i + 1, j, bs);
    MulStep(i, bs);
    MulStep(j, bs);
    var bi, bj := Batch(perm, bs, i), Batch(perm, bs, j);
    forall x | x in bi
      ensures x !in bj
    {
      var a :| 0 <= a < bs && bi[a] == x;
      assert x == perm[i * bs + a];
      forall b | 0 <= b < bs
        ensures bj[b] != x
      {
        assert bj[b] == perm[j * bs + b];
      }
    }
  }

  /**
   * The last `numSamples % bs` positions of the shuffle are in no batch:
   * those samples are skipped in that epoch.
   */
  lemma TailSkipped(perm: seq<nat>, bs: nat, p: nat, i: nat)
    requires IsPermutation(perm, |perm|) && bs > 0
    requires (|perm| / bs) * bs <= p < |perm| && i < |perm| / bs
    ensures (i + 1) * bs <= |perm|
    ensures perm[p] !in Batch(perm, bs, i)
    ensures |perm| - (|perm| / bs) * bs == |perm| % bs
  {
    BatchCountFits(|perm|, bs);
    MulLe(i + 1, |perm| / bs, bs);
    MulStep(i, bs);
    var b := Batch(perm, bs, i);
    forall a | 0 <= a < bs
      ensures b[a] != perm[p]
    {
      assert b[a] == perm[i * bs + a];
    }
  }
}
