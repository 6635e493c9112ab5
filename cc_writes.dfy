/**
 * The writes one day's combinations yield, as a list, and what the
 * driver's loops at each level have written by the time they stop.
 */
module CcWrites {
  import opened Wrappers
  import opened CcTypes
  import opened CcSource
  import opened CcDriver
  import opened CcCombos

  /** The number of data types of each file, in listing order. */
  function Counts(run: Run): (r: seq<nat>)
    ensures |r| == |run.files| && forall k :: 0 <= k < |r| ==> r[k] == Comps(run, k)
  {
    seq(|run.files|, k requires 0 <= k < |run.files| => Comps(run, k))
  }

  /** Every combination of one day, in the order the loops reach it. */
  function DayCombos(run: Run): seq<Combo>
  {
    SourceCombos(Counts(run), 0)
  }

  /**
   * The write a combination yields: both data types store the day and the
   * alignment is not empty (nothing for a combination outside the run).
   */
  ghost function WriteOf(run: Run, o: Combo, iday: string): Option<Write>
  {
    if !(ValidRun(run) && o.i < |run.files| && o.c < Comps(run, o.i) && o.j < |run.files| && o.d < Comps(run, o.j)) then None
    else match Prep(run, o.i, o.c, iday)
      case None => None
      case Some(p) => UnitWrite(run, p, run.files[o.i], run.files[o.j], o.d, iday)
  }

  /** A combination yields `w` exactly when the driver's four loops, at that combination, store `w`. */
  lemma WriteOfProduces(run: Run, o: Combo, iday: string, w: Write)
    requires ValidRun(run)
    ensures WriteOf(run, o, iday) == Some(w) <==> Produces(run, o.i, o.c, o.j, o.d, iday, w)
  {
  }

  /** `f` applied to each element of a list. */
  function Map<A, B>(f: A -> B, xs: seq<A>): (r: seq<B>)
    ensures |r| == |xs| && forall k :: 0 <= k < |xs| ==> r[k] == f(xs[k])
  {
    seq(|xs|, k requires 0 <= k < |xs| => f(xs[k]))
  }

  lemma MapConcat<A, B>(f: A -> B, a: seq<A>, b: seq<A>)
    ensures Map(f, a + b) == Map(f, a) + Map(f, b)
  {
    assert forall k :: 0 <= k < |a + b| ==> Map(f, a + b)[k] == (Map(f, a) + Map(f, b))[k];
  }

  /** What a combination of the run yields, as a function of the combination. */
  ghost function Yield(run: Run, iday: string): Combo -> Option<Write>
  {
    o => WriteOf(run, o, iday)
  }

  /** The present values of a list of options, in order. */
  function Somes<T>(xs: seq<Option<T>>): (r: seq<T>)
    ensures |r| <= |xs|
  {
    if |xs| == 0 then []
    else if xs[0].Some? then [xs[0].value] + Somes(xs[1..])
    else Somes(xs[1..])
  }

  lemma {:induction false} SomesConcat<T>(a: seq<Option<T>>, b: seq<Option<T>>)
    ensures Somes(a + b) == Somes(a) + Somes(b)
  {
    if |a| > 0 {
      assert (a + b)[0] == a[0] && (a + b)[1..] == a[1..] + b;
      SomesConcat(a[1..], b);
    } else {
      assert a + b == b;
    }
  }

  lemma {:induction false} SomesNone<T>(xs: seq<Option<T>>)
    requires forall k :: 0 <= k < |xs| ==> xs[k].None?
    ensures Somes(xs) == []
  {
    if |xs| > 0 {
      SomesNone(xs[1..]);
    }
  }

  /** The writes of a list of combinations, one for each that yields one, in order. */
  ghost function WritesOf(run: Run, os: seq<Combo>, iday: string): seq<Write>
  {
    Somes(Map(Yield(run, iday), os))
  }

  lemma WritesOfConcat(run: Run, a: seq<Combo>, b: seq<Combo>, iday: string)
    ensures WritesOf(run, a + b, iday) == WritesOf(run, a, iday) + WritesOf(run, b, iday)
  {
    MapConcat(Yield(run, iday), a, b);
    SomesConcat(Map(Yield(run, iday), a), Map(Yield(run, iday), b));
  }

  /** The writes of `a` and of a prefix of `b` are those of a prefix of `a + b`. */
  lemma WritesOfPrefix(run: Run, a: seq<Combo>, b: seq<Combo>, k: nat, iday: string)
    requires k <= |b|
    ensures WritesOf(run, (a + b)[..|a| + k], iday) == WritesOf(run, a, iday) + WritesOf(run, b[..k], iday)
  {
    assert (a + b)[..|a| + k] == a + b[..k];
    WritesOfConcat(run, a, b[..k], iday);
  }

  /** A source data type that yields no prepared spectrum yields no write. */
  lemma WritesOfUnprepared(run: Run, i: nat, c: nat, os: seq<Combo>, iday: string)
    requires ValidRun(run) && i < |run.files| && c < Comps(run, i) && Prep(run, i, c, iday).None?
    requires forall o :: o in os ==> o.i == i && o.c == c
    ensures WritesOf(run, os, iday) == []
  {
    var xs := Map(Yield(run, iday), os);
    forall k | 0 <= k < |xs| ensures xs[k].None? {
      assert os[k] in os;
      assert xs[k] == WriteOf(run, os[k], iday);
    }
    SomesNone(xs);
  }

  /** Outcome `o` wrote those of the first `k` of `os`, in order, and all of them unless it failed. */
  ghost predicate PrefixOutcome(run: Run, iday: string, o: Outcome, os: seq<Combo>, k: nat)
  {
    match o
    case Outcome(writes, failure) =>
      k <= |os| && writes == WritesOf(run, os[..k], iday) && (failure.None? ==> k == |os|)
  }

  /** Loop II from `c` on writes those of the first `k` of its combinations; all of them unless it fails. */
  ghost predicate SourceComponentsPrefix(run: Run, i: nat, c: nat, iday: string, k: nat)
    requires ValidRun(run) && i < |run.files| && c <= Comps(run, i)
  {
    PrefixOutcome(run, iday, SourceComponents(run, i, c, iday), SourceComponentCombos(Counts(run), i, c), k)
  }

  /** Loop I from source file `i` writes those of the first `k` of its combinations; all of them unless it fails. */
  ghost predicate SourcesPrefix(run: Run, i: nat, iday: string, k: nat)
    requires ValidRun(run) && i <= |run.files|
  {
    PrefixOutcome(run, iday, Sources(run, i, iday), SourceCombos(Counts(run), i), k)
  }
}
