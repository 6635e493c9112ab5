/**
 * The segment aligner: the segments of one day whose standard deviation is
 * below the earthquake threshold on both the source and the receiver side.
 * `np.where(std < 10)[0]` gives each side's quiet positions and
 * `np.intersect1d(..., return_indices=True)` pairs them up.
 */
module Alignment {

  /** The amplitude-anomaly cutoff on the per-segment standard deviation. */
  const Threshold: real := 10.0

  predicate Increasing(s: seq<nat>)
  {
    forall i, j :: 0 <= i < j < |s| ==> s[i] < s[j]
  }

  predicate Quiet(std: seq<real>, k: nat)
  {
    k < |std| && std[k] < Threshold
  }

  /** `np.where(std < Threshold)[0]` restricted to positions from `k` on. */
  function QuietFrom(std: seq<real>, k: nat): (r: seq<nat>)
    requires k <= |std|
    ensures Increasing(r)
    ensures forall x :: x in r <==> k <= x && Quiet(std, x)
    decreases |std| - k
  {
    if k == |std| then []
    else
      var rest := QuietFrom(std, k + 1);
      assert forall t :: 0 <= t < |rest| ==> rest[t] in rest;
      if std[k] < Threshold then [k] + rest else rest
  }

  /** `np.where(std < Threshold)[0]`: the quiet segment positions, ascending. */
  function QuietIndices(std: seq<real>): (r: seq<nat>)
    ensures Increasing(r)
    ensures forall x :: x in r <==> Quiet(std, x)
  {
    QuietFrom(std, 0)
  }

  /**
   * The index pairs `np.intersect1d(a, b, return_indices=True)` returns for
   * strictly increasing `a` and `b`, from positions `i` and `j` on: every
   * `(p, q)` with `a[p] == b[q]`, in ascending order.
   */
  function CommonPairs(a: seq<nat>, b: seq<nat>, i: nat, j: nat): (r: seq<(nat, nat)>)
    requires Increasing(a) && Increasing(b) && i <= |a| && j <= |b|
    ensures forall k :: 0 <= k < |r| ==> i <= r[k].0 < |a| && j <= r[k].1 < |b| && a[r[k].0] == b[r[k].1]
    ensures forall k, l :: 0 <= k < l < |r| ==> r[k].0 < r[l].0
    ensures forall p, q :: i <= p < |a| && j <= q < |b| && a[p] == b[q] ==> (p, q) in r
    decreases |a| - i + |b| - j
  {
    if i == |a| || j == |b| then []
    else if a[i] == b[j] then [(i, j)] + CommonPairs(a, b, i + 1, j + 1)
    else if a[i] < b[j] then CommonPairs(a, b, i + 1, j)
    else CommonPairs(a, b, i, j + 1)
  }

  /** The aligned index lists `indx1` (into the source) and `indx2` (into the receiver). */
  datatype Aligned = Aligned(indx1: seq<nat>, indx2: seq<nat>)

  /**
   * Lines 194-200 of the driver: the quiet positions of each side,
   * intersected, and mapped back through the returned indices. Both lists
   * are the same ascending list of exactly the jointly quiet positions; the
   * comparison with the threshold is strict.
   */
  function Align(sourceStd: seq<real>, receiverStd: seq<real>): (r: Aligned)
    ensures r.indx1 == r.indx2
    ensures Increasing(r.indx1)
    ensures forall k :: k in r.indx1 <==> Quiet(sourceStd, k) && Quiet(receiverStd, k)
  {
    var souInd := QuietIndices(sourceStd);
    var recInd := QuietIndices(receiverStd);
    var pairs := CommonPairs(souInd, recInd, 0, 0);
    var indx1 := Through(souInd, pairs, true);
    var indx2 := Through(recInd, pairs, false);
    ThroughIncreasing(souInd, recInd, pairs);
    ThroughCommon(sourceStd, receiverStd);
    Aligned(indx1, indx2)
  }

  /** `a` indexed by the first (`left`) or the second position of each pair. */
  function Through(a: seq<nat>, pairs: seq<(nat, nat)>, left: bool): (r: seq<nat>)
    requires forall k :: 0 <= k < |pairs| ==> (if left then pairs[k].0 else pairs[k].1) < |a|
    ensures |r| == |pairs|
    ensures forall k :: 0 <= k < |r| ==> r[k] == a[if left then pairs[k].0 else pairs[k].1]
  {
    seq(|pairs|, k requires 0 <= k < |pairs| => a[if left then pairs[k].0 else pairs[k].1])
  }

  /** The common values, read through either side's positions, are the same ascending list. */
  lemma ThroughIncreasing(a: seq<nat>, b: seq<nat>, pairs: seq<(nat, nat)>)
    requires Increasing(a) && Increasing(b) && pairs == CommonPairs(a, b, 0, 0)
    ensures Through(a, pairs, true) == Through(b, pairs, false)
    ensures Increasing(Through(a, pairs, true))
  {
    var xs := Through(a, pairs, true);
    forall k, l | 0 <= k < l < |pairs| ensures xs[k] < xs[l] {
      assert pairs[k].0 < pairs[l].0;
    }
  }

  /** Every jointly quiet position is among the common values. */
  lemma ThroughCommon(sourceStd: seq<real>, receiverStd: seq<real>)
    ensures var souInd := QuietIndices(sourceStd);
            var recInd := QuietIndices(receiverStd);
            forall x :: x in Through(souInd, CommonPairs(souInd, recInd, 0, 0), true) <==>
                        Quiet(sourceStd, x) && Quiet(receiverStd, x)
  {
    var souInd := QuietIndices(sourceStd);
    var recInd := QuietIndices(receiverStd);
    var pairs := CommonPairs(souInd, recInd, 0, 0);
    var xs := Through(souInd, pairs, true);
    forall x ensures x in xs <==> Quiet(sourceStd, x) && Quiet(receiverStd, x) {
      if x in xs {
        var k :| 0 <= k < |xs| && xs[k] == x;
        assert souInd[pairs[k].0] in souInd && recInd[pairs[k].1] in recInd;
      }
      if Quiet(sourceStd, x) && Quiet(receiverStd, x) {
        var p :| 0 <= p < |souInd| && souInd[p] == x;
        var q :| 0 <= q < |recInd| && recInd[q] == x;
        assert (p, q) in pairs;
        var k :| 0 <= k < |pairs| && pairs[k] == (p, q);
        assert xs[k] == x;
      }
    }
  }

  /** An empty alignment means no segment is quiet on both sides. */
  lemma EmptyAlignment(sourceStd: seq<real>, receiverStd: seq<real>)
    ensures |Align(sourceStd, receiverStd).indx1| == 0 <==>
            forall k :: !(Quiet(sourceStd, k) && Quiet(receiverStd, k))
  {
    var r := Align(sourceStd, receiverStd);
    if |r.indx1| > 0 {
      assert r.indx1[0] in r.indx1;
    }
  }

  /** A segment at the threshold itself is not quiet. */
  lemma ThresholdIsStrict()
    ensures Align([10.0], [1.0]).indx1 == []
  {
    EmptyAlignment([10.0], [1.0]);
  }

  /** Segment 1 is loud on the source, segment 2 loud on the receiver: only segment 0 is kept. */
  lemma AlignmentExample()
    ensures Align([1.0, 20.0, 2.0], [1.0, 2.0, 20.0]) == Aligned([0], [0])
  {
    var r := Align([1.0, 20.0, 2.0], [1.0, 2.0, 20.0]);
    assert 0 in r.indx1;
    assert forall t :: 0 <= t < |r.indx1| ==> r.indx1[t] in r.indx1;
  }
}
