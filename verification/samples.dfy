/** Sensor samples and the arithmetic of sums and means, one channel at a time. */
module Samples {

  const CHANNELS: nat := 10

  /** One reading of all the sensors of a board. Floats are modelled as reals. */
  type Sample = s: seq<real> | |s| == CHANNELS
    witness [0.0, 0.0, 0.0, 0.0, 0.0, 0.0, 0.0, 0.0, 0.0, 0.0]

  /** The samples folded together by one aggregation step. */
  type Batch = seq<Sample>

  const ZERO: Sample := [0.0, 0.0, 0.0, 0.0, 0.0, 0.0, 0.0, 0.0, 0.0, 0.0]

  function Sum(p: seq<Sample>, c: nat): real
    requires c < CHANNELS
  {
    if p == [] then 0.0 else Sum(p[..|p| - 1], c) + p[|p| - 1][c]
  }

  function Mean(p: seq<Sample>, c: nat): real
    requires c < CHANNELS && p != []
  {
    Sum(p, c) / |p| as real
  }

  function Flatten(bs: seq<Batch>): seq<Sample> {
    if bs == [] then [] else Flatten(bs[..|bs| - 1]) + bs[|bs| - 1]
  }

  predicate NonEmpty(bs: seq<Batch>) {
    forall i :: 0 <= i < |bs| ==> bs[i] != []
  }

  function SumOfMeans(bs: seq<Batch>, c: nat): real
    requires c < CHANNELS && NonEmpty(bs)
  {
    if bs == [] then 0.0 else SumOfMeans(bs[..|bs| - 1], c) + Mean(bs[|bs| - 1], c)
  }

  /** What two levels of aggregation compute: the mean of the batch means. */
  function MeanOfMeans(bs: seq<Batch>, c: nat): real
    requires c < CHANNELS && bs != [] && NonEmpty(bs)
  {
    SumOfMeans(bs, c) / |bs| as real
  }

  lemma SumAppend(p: seq<Sample>, x: Sample, c: nat)
    requires c < CHANNELS
    ensures Sum(p + [x], c) == Sum(p, c) + x[c]
  {
    assert (p + [x])[..|p|] == p;
  }

  lemma {:induction false} SumConcat(p: seq<Sample>, q: seq<Sample>, c: nat)
    requires c < CHANNELS
    ensures Sum(p + q, c) == Sum(p, c) + Sum(q, c)
  {
    if q == [] {
      assert p + q == p;
    } else {
      var n := |q| - 1;
      assert p + q == (p + q[..n]) + [q[n]];
      SumConcat(p, q[..n], c);
      SumAppend(p + q[..n], q[n], c);
    }
  }

  lemma SumOfMeansAppend(bs: seq<Batch>, b: Batch, c: nat)
    requires c < CHANNELS && NonEmpty(bs) && b != []
    ensures NonEmpty(bs + [b])
    ensures SumOfMeans(bs + [b], c) == SumOfMeans(bs, c) + Mean(b, c)
  {
    assert (bs + [b])[..|bs|] == bs;
  }

  lemma FlattenAppend(bs: seq<Batch>, b: Batch)
    ensures Flatten(bs + [b]) == Flatten(bs) + b
  {
    assert (bs + [b])[..|bs|] == bs;
  }

  lemma MeanOfOne(x: Sample, c: nat)
    requires c < CHANNELS
    ensures Mean([x], c) == x[c]
  {
    SumAppend([], x, c);
    assert [x] == [] + [x];
  }

  lemma DivideBack(x: real, n: nat)
    requires n > 0
    ensures n as real * (x / n as real) == x
  {
  }

  /** Every value of channel c in p lies in [lo, hi]. */
  predicate Within(p: seq<Sample>, c: nat, lo: real, hi: real)
    requires c < CHANNELS
  {
    forall i :: 0 <= i < |p| ==> lo <= p[i][c] <= hi
  }

  lemma {:induction false} SumWithin(p: seq<Sample>, c: nat, lo: real, hi: real)
    requires c < CHANNELS && Within(p, c, lo, hi)
    ensures |p| as real * lo <= Sum(p, c) <= |p| as real * hi
  {
    if p != [] {
      SumWithin(p[..|p| - 1], c, lo, hi);
    }
  }

  lemma Quotient(x: real, n: nat, lo: real, hi: real)
    requires n > 0 && n as real * lo <= x <= n as real * hi
    ensures lo <= x / n as real <= hi
  {
    DivideBack(x, n);
    var q := x / n as real;
    assert q < lo ==> n as real * (lo - q) > 0.0;
    assert q > hi ==> n as real * (q - hi) > 0.0;
  }

  lemma MeanWithin(p: seq<Sample>, c: nat, lo: real, hi: real)
    requires c < CHANNELS && p != [] && Within(p, c, lo, hi)
    ensures lo <= Mean(p, c) <= hi
  {
    SumWithin(p, c, lo, hi);
    Quotient(Sum(p, c), |p|, lo, hi);
  }

  lemma WithinParts(p: seq<Sample>, q: seq<Sample>, c: nat, lo: real, hi: real)
    requires c < CHANNELS && Within(p + q, c, lo, hi)
    ensures Within(p, c, lo, hi) && Within(q, c, lo, hi)
  {
    assert forall i :: 0 <= i < |p| ==> (p + q)[i] == p[i];
    assert forall i :: 0 <= i < |q| ==> (p + q)[|p| + i] == q[i];
  }

  lemma OneMoreWithin(n: nat, sum: real, x: real, lo: real, hi: real)
    requires n as real * lo <= sum <= n as real * hi && lo <= x <= hi
    ensures (n + 1) as real * lo <= sum + x <= (n + 1) as real * hi
  {
    assert (n + 1) as real == n as real + 1.0;
  }

  lemma {:induction false} SumOfMeansWithin(bs: seq<Batch>, c: nat, lo: real, hi: real)
    requires c < CHANNELS && NonEmpty(bs) && Within(Flatten(bs), c, lo, hi)
    ensures |bs| as real * lo <= SumOfMeans(bs, c) <= |bs| as real * hi
  {
    hide Sum, SumOfMeans, Flatten, Within, Mean;
    if bs == [] {
      NoSums(c);
    } else {
      var front, last := bs[..|bs| - 1], bs[|bs| - 1];
      assert bs == front + [last];
      FlattenAppend(front, last);
      WithinParts(Flatten(front), last, c, lo, hi);
      SumOfMeansWithin(front, c, lo, hi);
      MeanWithin(last, c, lo, hi);
      SumOfMeansAppend(front, last, c);
      OneMoreWithin(|front|, SumOfMeans(front, c), Mean(last, c), lo, hi);
    }
  }

  /** The mean of means never leaves the range of the original samples. */
  lemma MeanOfMeansWithin(bs: seq<Batch>, c: nat, lo: real, hi: real)
    requires c < CHANNELS && bs != [] && NonEmpty(bs) && Within(Flatten(bs), c, lo, hi)
    ensures lo <= MeanOfMeans(bs, c) <= hi
  {
    SumOfMeansWithin(bs, c, lo, hi);
    Quotient(SumOfMeans(bs, c), |bs|, lo, hi);
  }

  /** All batches hold n samples. */
  predicate EvenBatches(bs: seq<Batch>, n: nat) {
    forall i :: 0 <= i < |bs| ==> |bs[i]| == n
  }

  lemma Distribute(n: nat, a: real, b: real)
    ensures n as real * (a + b) == n as real * a + n as real * b
  {
  }

  lemma {:induction false} EvenSums(bs: seq<Batch>, n: nat, c: nat)
    requires c < CHANNELS && n > 0 && EvenBatches(bs, n)
    ensures NonEmpty(bs)
    ensures n as real * SumOfMeans(bs, c) == Sum(Flatten(bs), c)
  {
    hide Sum, SumOfMeans, Flatten;
    if bs == [] {
      NoSums(c);
    } else {
      var front, last := bs[..|bs| - 1], bs[|bs| - 1];
      EvenSums(front, n, c);
      assert bs == front + [last];
      SumOfMeansAppend(front, last, c);
      FlattenAppend(front, last);
      SumConcat(Flatten(front), last, c);
      DivideBack(Sum(last, c), n);
      Distribute(n, SumOfMeans(front, c), Mean(last, c));
    }
  }

  lemma Multiply(k: nat, n: nat)
    requires k > 0
    ensures (k - 1) * n + n == k * n
  {
  }

  lemma {:induction false} EvenLength(bs: seq<Batch>, n: nat)
    requires EvenBatches(bs, n)
    ensures |Flatten(bs)| == |bs| * n
  {
    if bs != [] {
      EvenLength(bs[..|bs| - 1], n);
      Multiply(|bs|, n);
    }
  }

  lemma SameFraction(a: real, b: real, n: nat, k: nat)
    requires n > 0 && k > 0 && n as real * a == b
    ensures k * n > 0 && a / k as real == b / (k * n) as real
  {
    DivideBack(a, k);
    var q := a / k as real;
    assert (k * n) as real == k as real * n as real;
    assert b == (k * n) as real * q;
  }

  /** Batches of one size: the mean of means is the true mean of the samples. */
  lemma EvenMeanOfMeans(bs: seq<Batch>, n: nat, c: nat)
    requires c < CHANNELS && bs != [] && n > 0 && EvenBatches(bs, n)
    ensures NonEmpty(bs) && Flatten(bs) != []
    ensures MeanOfMeans(bs, c) == Mean(Flatten(bs), c)
  {
    hide Sum, SumOfMeans, Flatten, EvenBatches;
    EvenSums(bs, n, c);
    EvenLength(bs, n);
    SameFraction(SumOfMeans(bs, c), Sum(Flatten(bs), c), n, |bs|);
  }

  // ---------------------------------------------------------------- exactly when the mean is true

  function Sizes(bs: seq<Batch>): (ns: seq<nat>)
    ensures |ns| == |bs| && forall i :: 0 <= i < |bs| ==> ns[i] == |bs[i]|
  {
    seq(|bs|, i requires 0 <= i < |bs| => |bs[i]|)
  }

  function Total(ns: seq<nat>): nat {
    if ns == [] then 0 else Total(ns[..|ns| - 1]) + ns[|ns| - 1]
  }

  predicate AllEqual(ns: seq<nat>) {
    forall i, j :: 0 <= i < |ns| && 0 <= j < |ns| ==> ns[i] == ns[j]
  }

  /** The delivered value is the mean of all the samples behind it. */
  predicate TrueMean(bs: seq<Batch>, c: nat)
    requires c < CHANNELS
  {
    bs != [] && NonEmpty(bs) && Flatten(bs) != [] && MeanOfMeans(bs, c) == Mean(Flatten(bs), c)
  }

  const ONES: Sample := [1.0, 1.0, 1.0, 1.0, 1.0, 1.0, 1.0, 1.0, 1.0, 1.0]

  function Repeat(n: nat, x: Sample): (b: Batch)
    ensures |b| == n && forall i :: 0 <= i < n ==> b[i] == x
  {
    seq(n, _ => x)
  }

  /** Batches of the given sizes: batch k all ones, the others all zeros. */
  function Spike(ns: seq<nat>, k: nat): (bs: seq<Batch>)
    ensures Sizes(bs) == ns
  {
    seq(|ns|, i requires 0 <= i < |ns| => Repeat(ns[i], if i == k then ONES else ZERO))
  }

  lemma {:induction false} SumOfRepeat(n: nat, x: Sample, c: nat)
    requires c < CHANNELS
    ensures Sum(Repeat(n, x), c) == n as real * x[c]
  {
    if n > 0 {
      SumOfRepeat(n - 1, x, c);
      assert Repeat(n, x)[..n - 1] == Repeat(n - 1, x);
    }
  }

  lemma MeanOfRepeat(n: nat, x: Sample, c: nat)
    requires c < CHANNELS && n > 0
    ensures Repeat(n, x) != [] && Mean(Repeat(n, x), c) == x[c]
  {
    SumOfRepeat(n, x, c);
    var r := n as real;
    assert r * x[c] / r == x[c];
  }

  lemma {:induction false} FlattenLength(bs: seq<Batch>)
    ensures |Flatten(bs)| == Total(Sizes(bs))
  {
    if bs != [] {
      FlattenLength(bs[..|bs| - 1]);
      assert Sizes(bs)[..|bs| - 1] == Sizes(bs[..|bs| - 1]);
    }
  }

  lemma SpikeLast(ns: seq<nat>, k: nat)
    requires ns != []
    ensures var n := |ns| - 1;
            Spike(ns, k) == Spike(ns[..n], k) + [Repeat(ns[n], if n == k then ONES else ZERO)]
  {
  }

  lemma NoSums(c: nat)
    requires c < CHANNELS
    ensures NonEmpty([]) && SumOfMeans([], c) == 0.0 && Sum(Flatten([]), c) == 0.0
  {
  }

  /** The spike counts once among the means, and with its size among the samples. */
  lemma {:induction false} SpikeSums(ns: seq<nat>, k: nat, c: nat)
    requires c < CHANNELS && forall i :: 0 <= i < |ns| ==> ns[i] > 0
    ensures NonEmpty(Spike(ns, k))
    ensures SumOfMeans(Spike(ns, k), c) == if k < |ns| then 1.0 else 0.0
    ensures Sum(Flatten(Spike(ns, k)), c) == if k < |ns| then ns[k] as real else 0.0
  {
    hide Sum, SumOfMeans, Flatten, Mean, Spike, Repeat;
    if ns == [] {
      NoSums(c);
      assert Spike(ns, k) == [];
    } else {
      var n := |ns| - 1;
      var x := if n == k then ONES else ZERO;
      var front, last := Spike(ns[..n], k), Repeat(ns[n], x);
      SpikeSums(ns[..n], k, c);
      SpikeLast(ns, k);
      MeanOfRepeat(ns[n], x, c);
      SumOfRepeat(ns[n], x, c);
      SumOfMeansAppend(front, last, c);
      FlattenAppend(front, last);
      SumConcat(Flatten(front), last, c);
    }
  }

  lemma CrossMultiply(k: nat, m: nat, total: nat)
    requires k > 0 && total > 0 && 1.0 / k as real == m as real / total as real
    ensures total == k * m
  {
    var a, b, t := k as real, m as real, total as real;
    assert t == a * b by {
      assert 1.0 / a * a * t == b / t * a * t;
      assert 1.0 / a * a == 1.0 && b / t * t == b;
    }
    assert (k * m) as real == a * b;
  }

  lemma {:induction false} TotalAtLeast(ns: seq<nat>, i: nat)
    requires i < |ns|
    ensures Total(ns) >= ns[i]
  {
    if i < |ns| - 1 {
      TotalAtLeast(ns[..|ns| - 1], i);
    }
  }

  lemma SpikeMeans(ns: seq<nat>, k: nat, c: nat)
    requires c < CHANNELS && k < |ns| && (forall i :: 0 <= i < |ns| ==> ns[i] > 0)
    ensures TrueMean(Spike(ns, k), c) <==> Total(ns) == |ns| * ns[k]
  {
    var bs := Spike(ns, k);
    SpikeSums(ns, k, c);
    FlattenLength(bs);
    TotalAtLeast(ns, k);
    var total := Total(ns);
    assert MeanOfMeans(bs, c) == 1.0 / |ns| as real && Mean(Flatten(bs), c) == ns[k] as real / total as real;
    if total == |ns| * ns[k] {
      SameFraction(1.0 / 1.0, ns[k] as real, ns[k], |ns|);
    } else if TrueMean(bs, c) {
      CrossMultiply(|ns|, ns[k], total);
    }
  }

  lemma SameFactor(k: nat, a: nat, b: nat)
    requires k > 0 && k * a == k * b
    ensures a == b
  {
  }

  /** Batches of sizes not all equal whose delivered value is not the true mean. */
  lemma UnevenSpike(ns: seq<nat>, c: nat) returns (bs: seq<Batch>)
    requires c < CHANNELS && ns != [] && (forall i :: 0 <= i < |ns| ==> ns[i] > 0) && !AllEqual(ns)
    ensures Sizes(bs) == ns && NonEmpty(bs) && !TrueMean(bs, c)
  {
    var i, j :| 0 <= i < |ns| && 0 <= j < |ns| && ns[i] != ns[j];
    SpikeMeans(ns, i, c);
    SpikeMeans(ns, j, c);
    SpikeSums(ns, i, c);
    SpikeSums(ns, j, c);
    if Total(ns) == |ns| * ns[i] && Total(ns) == |ns| * ns[j] {
      SameFactor(|ns|, ns[i], ns[j]);
    }
    bs := if Total(ns) == |ns| * ns[i] then Spike(ns, j) else Spike(ns, i);
  }

  /** The smallest case: one sample, then two. */
  lemma UnevenMeanOfMeans() returns (bs: seq<Batch>)
    ensures bs != [] && NonEmpty(bs) && Flatten(bs) != []
    ensures MeanOfMeans(bs, 0) != Mean(Flatten(bs), 0)
  {
    assert [1, 2][0] != [1, 2][1];
    bs := UnevenSpike([1, 2], 0);
    FlattenLength(bs);
    TotalAtLeast([1, 2], 0);
  }

  /** For given batch sizes the delivered value is the true mean of all samples if and only if the sizes are equal. */
  lemma TrueMeanIffEven(ns: seq<nat>, c: nat)
    requires c < CHANNELS && ns != [] && forall i :: 0 <= i < |ns| ==> ns[i] > 0
    ensures (forall bs :: Sizes(bs) == ns ==> TrueMean(bs, c)) <==> AllEqual(ns)
  {
    if AllEqual(ns) {
      forall bs | Sizes(bs) == ns
        ensures TrueMean(bs, c)
      {
        assert forall i :: 0 <= i < |bs| ==> |bs[i]| == Sizes(bs)[i] == ns[0];
        EvenMeanOfMeans(bs, ns[0], c);
      }
    } else {
      var bs := UnevenSpike(ns, c);
    }
  }
}
