/**
 * `pd.cut(values, bins, right=False)` followed by a zero-filled count per
 * label. The bins are given by their left edges; bin `i` is the half-open
 * interval from `edges[i]` up to (not including) `edges[i + 1]`, and the
 * last bin has no upper bound (its right edge is infinity in the `pd.cut` call).
 */
module Binning {
  import opened Wrappers

  /** Left edges strictly increasing. */
  predicate Increasing(edges: seq<int>) {
    forall i, j :: 0 <= i < j < |edges| ==> edges[i] < edges[j]
  }

  /** `x` lies in the right-open bin `i`. */
  predicate InBin(edges: seq<int>, i: nat, x: real)
    requires i < |edges|
  {
    edges[i] as real <= x && (i + 1 == |edges| || x < edges[i + 1] as real)
  }

  /** Scans from bin `i` for the bin holding `x`. */
  function Locate(edges: seq<int>, x: real, i: nat): (b: nat)
    requires i < |edges| && edges[i] as real <= x
    ensures i <= b < |edges| && InBin(edges, b, x)
    decreases |edges| - i
  {
    if i + 1 == |edges| || x < edges[i + 1] as real then i else Locate(edges, x, i + 1)
  }

  /** The bin of `x`, or `None` (NaN in pandas) below the first edge. */
  function BinIndex(edges: seq<int>, x: real): (b: Option<nat>)
    ensures b.Some? ==> b.value < |edges| && InBin(edges, b.value, x)
    ensures b.None? <==> |edges| == 0 || x < edges[0] as real
  {
    if |edges| == 0 || x < edges[0] as real then None else Some(Locate(edges, x, 0))
  }

  /** With increasing edges the bins do not overlap. */
  lemma InBinUnique(edges: seq<int>, i: nat, j: nat, x: real)
    requires Increasing(edges)
    requires i < |edges| && j < |edges|
    requires InBin(edges, i, x) && InBin(edges, j, x)
    ensures i == j
  {
  }

  /** With increasing edges, `x` is put in bin `i` exactly when it lies in it. */
  lemma BinIndexExact(edges: seq<int>, x: real, i: nat)
    requires Increasing(edges) && i < |edges|
    ensures BinIndex(edges, x) == Some(i) <==> InBin(edges, i, x)
  {
    if InBin(edges, i, x) {
      assert edges[0] <= edges[i];
      InBinUnique(edges, BinIndex(edges, x).value, i, x);
    }
  }

  /** How many of `xs` fall in bin `i`. */
  function CountInBin(edges: seq<int>, xs: seq<real>, i: nat): nat {
    if |xs| == 0 then 0
    else (if BinIndex(edges, xs[0]) == Some(i) then 1 else 0) + CountInBin(edges, xs[1..], i)
  }

  /** How many of `xs` fall in some bin, that is, lie at or above the first edge. */
  function CountBinned(edges: seq<int>, xs: seq<real>): (n: nat)
    ensures n <= |xs|
  {
    if |xs| == 0 then 0
    else (if BinIndex(edges, xs[0]).Some? then 1 else 0) + CountBinned(edges, xs[1..])
  }

  /**
   * One (label, count) pair per bin, in bin order and zero-filled, as
   * `value_counts().reindex(labels).fillna(0)` gives.
   */
  function Histogram(edges: seq<int>, labels: seq<string>, xs: seq<real>): (h: seq<(string, nat)>)
    requires |labels| == |edges|
    ensures |h| == |edges|
    ensures forall i :: 0 <= i < |h| ==> h[i].0 == labels[i]
    ensures forall i :: 0 <= i < |h| ==> h[i].1 == CountInBin(edges, xs, i)
  {
    seq(|edges|, i requires 0 <= i < |edges| => (labels[i], CountInBin(edges, xs, i)))
  }

  /** The sum of the counts from bin `lo` onwards. */
  function CountsFrom(h: seq<(string, nat)>, lo: nat): nat
    decreases |h| - lo
  {
    if lo >= |h| then 0 else h[lo].1 + CountsFrom(h, lo + 1)
  }

  /** Sum over bins `lo..` of the bin counts of `xs`. */
  function BinnedFrom(edges: seq<int>, xs: seq<real>, lo: nat): nat
    decreases |edges| - lo
  {
    if lo >= |edges| then 0 else CountInBin(edges, xs, lo) + BinnedFrom(edges, xs, lo + 1)
  }

  lemma {:induction false} BinnedFromCons(edges: seq<int>, x: real, xs: seq<real>, lo: nat)
    ensures BinnedFrom(edges, [x] + xs, lo)
         == BinnedFrom(edges, xs, lo)
            + (if BinIndex(edges, x).Some? && BinIndex(edges, x).value >= lo then 1 else 0)
    decreases |edges| - lo
  {
    if lo < |edges| {
      assert ([x] + xs)[1..] == xs;
      BinnedFromCons(edges, x, xs, lo + 1);
    }
  }

  lemma {:induction false} BinnedFromZero(edges: seq<int>, xs: seq<real>)
    ensures BinnedFrom(edges, xs, 0) == CountBinned(edges, xs)
  {
    if |xs| == 0 {
      BinnedFromNothing(edges, 0);
    } else {
      assert xs == [xs[0]] + xs[1..];
      BinnedFromCons(edges, xs[0], xs[1..], 0);
      BinnedFromZero(edges, xs[1..]);
    }
  }

  lemma {:induction false} BinnedFromNothing(edges: seq<int>, lo: nat)
    ensures BinnedFrom(edges, [], lo) == 0
    decreases |edges| - lo
  {
    if lo < |edges| {
      BinnedFromNothing(edges, lo + 1);
    }
  }

  lemma {:induction false} CountsFromHistogram(edges: seq<int>, labels: seq<string>, xs: seq<real>, lo: nat)
    requires |labels| == |edges|
    ensures CountsFrom(Histogram(edges, labels, xs), lo) == BinnedFrom(edges, xs, lo)
    decreases |edges| - lo
  {
    if lo < |edges| {
      CountsFromHistogram(edges, labels, xs, lo + 1);
    }
  }

  /**
   * Binning is total above the first edge: the histogram counts sum to the
   * number of values at or above the first edge.
   */
  lemma HistogramTotal(edges: seq<int>, labels: seq<string>, xs: seq<real>)
    requires |labels| == |edges|
    ensures CountsFrom(Histogram(edges, labels, xs), 0) == CountBinned(edges, xs)
  {
    CountsFromHistogram(edges, labels, xs, 0);
    BinnedFromZero(edges, xs);
  }

  /** Values at or above the first edge are exactly those that are binned. */
  lemma {:induction false} CountBinnedAbove(edges: seq<int>, xs: seq<real>)
    requires |edges| > 0
    requires forall i :: 0 <= i < |xs| ==> xs[i] >= edges[0] as real
    ensures CountBinned(edges, xs) == |xs|
  {
    if |xs| > 0 {
      CountBinnedAbove(edges, xs[1..]);
    }
  }
}
