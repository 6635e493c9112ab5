/**
 * Python's `range(start, stop, step)` for a positive step, and the rank
 * striding that every MPI loop in the scripts is built from: rank `r` of
 * `size` ranks takes `range(r, n, size)`.
 */
module Ranges {

  /** The values `range(start, stop, step)` yields, in order. */
  function Stride(start: nat, stop: nat, step: nat): (r: seq<nat>)
    requires step > 0
    ensures forall k :: 0 <= k < |r| ==> start <= r[k] < stop
    decreases if start < stop then stop - start else 0
  {
    if start >= stop then [] else [start] + Stride(start + step, stop, step)
  }

  predicate StrictlyIncreasing(s: seq<nat>)
  {
    forall i, j :: 0 <= i < j < |s| ==> s[i] < s[j]
  }

  /** The values of `range` come out strictly increasing. */
  lemma {:induction false} StrideIncreasing(start: nat, stop: nat, step: nat)
    requires step > 0
    ensures StrictlyIncreasing(Stride(start, stop, step))
    decreases if start < stop then stop - start else 0
  {
    if start < stop {
      StrideIncreasing(start + step, stop, step);
      var rest := Stride(start + step, stop, step);
      var r := Stride(start, stop, step);
      assert r == [start] + rest;
      forall i, j | 0 <= i < j < |r| ensures r[i] < r[j] {
        assert r[j] == rest[j - 1];
        if i > 0 {
          assert r[i] == rest[i - 1] && rest[i - 1] < rest[j - 1];
        } else {
          assert r[i] == start && start + step <= rest[j - 1];
        }
      }
    }
  }

  /** Euclidean remainder is unchanged by removing one multiple of the divisor. */
  lemma ModStep(a: int, b: int)
    requires b > 0 && a >= b
    ensures (a - b) % b == a % b
  {
    var q, m := a / b, a % b;
    assert a == q * b + m && 0 <= m < b;
    assert a - b == (q - 1) * b + m;
    DivModUnique(a - b, b, q - 1, m);
  }

  /** The quotient and remainder of Euclidean division are unique. */
  lemma DivModUnique(x: int, b: int, k: int, m: int)
    requires b > 0 && 0 <= m < b && x == k * b + m
    ensures x / b == k && x % b == m
  {
    var q, r := x / b, x % b;
    assert x == q * b + r && 0 <= r < b;
    Distribute(q, k, b);
    Distribute(k, q, b);
    if q > k {
      AtLeastOneMultiple(q - k, b);
    } else if q < k {
      AtLeastOneMultiple(k - q, b);
    }
  }

  lemma Distribute(q: int, k: int, b: int)
    ensures (q - k) * b == q * b - k * b
  {
  }

  /** A product of naturals is a natural. */
  lemma {:induction false} ProductNonNegative(a: nat, b: nat)
    ensures a * b >= 0
  {
    if a > 0 {
      ProductNonNegative(a - 1, b);
      Distribute(a, 1, b);
    }
  }

  /** A positive multiple of `b` is at least `b`. */
  lemma {:induction false} AtLeastOneMultiple(d: nat, b: int)
    requires b > 0 && d >= 1
    ensures d * b >= b
    decreases d
  {
    if d > 1 {
      AtLeastOneMultiple(d - 1, b);
      Distribute(d, 1, b);
    }
  }

  /** `x` is yielded by `range(start, stop, step)` exactly when it lies in
      `[start, stop)` and has the same remainder modulo `step` as `start`. */
  lemma {:induction false} StrideMember(start: nat, stop: nat, step: nat, x: nat)
    requires step > 0
    ensures x in Stride(start, stop, step) <==> start <= x < stop && x % step == start % step
    decreases if start < stop then stop - start else 0
  {
    if start < stop {
      StrideMember(start + step, stop, step, x);
      ModStep(start + step, step);
      if start < x < start + step {
        NotSameRemainder(start, x - start, step);
      }
    }
  }

  /** Adding less than one full step changes the remainder. */
  lemma NotSameRemainder(a: nat, d: nat, b: nat)
    requires 0 < d < b
    ensures (a + d) % b != a % b
  {
    var q, m := a / b, a % b;
    assert a == q * b + m && 0 <= m < b;
    if m + d < b {
      DivModUnique(a + d, b, q, m + d);
    } else {
      assert a + d == (q + 1) * b + (m + d - b) by { Distribute(q + 1, 1, b); }
      DivModUnique(a + d, b, q + 1, m + d - b);
    }
  }

  /**
   * Rank striding is a partition: for `0 <= r < size`, index `x < n` is taken
   * by rank `r` exactly when `x % size == r`, so every index below `n` is
   * taken by exactly one rank and no index at or above `n` by any rank.
   */
  lemma RankOwnsIndex(n: nat, size: nat, r: nat, x: nat)
    requires 0 <= r < size
    ensures x in Stride(r, n, size) <==> x < n && x % size == r
  {
    StrideMember(r, n, size, x);
    DivModUnique(r, size, 0, r);
  }

  /** No two distinct ranks share an index. */
  lemma RanksDisjoint(n: nat, size: nat, r1: nat, r2: nat, x: nat)
    requires 0 <= r1 < size && 0 <= r2 < size && r1 != r2
    ensures !(x in Stride(r1, n, size) && x in Stride(r2, n, size))
  {
    RankOwnsIndex(n, size, r1, x);
    RankOwnsIndex(n, size, r2, x);
  }

  /** Every index below `n` has an owning rank. */
  lemma EveryIndexOwned(n: nat, size: nat, x: nat)
    requires size > 0 && x < n
    ensures x in Stride(x % size, n, size)
  {
    RankOwnsIndex(n, size, x % size, x);
  }
}
