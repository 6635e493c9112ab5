/**
 * The loops of the cross-correlation driver (lines 76-228): each MPI rank
 * strides over the days; for a day, every station file but the last is a
 * source, every file from the source on is a receiver, and every source
 * component is combined with every receiver component. Each correlation is
 * added to the day's archive.
 *
 * The specification is one function per loop level, each the result of
 * running that loop from a given index to its end. An exception ends the
 * rank: the writes made before it stay in the archives, and it is
 * reported as the outcome's failure.
 */
module CcDriver {
  import opened Wrappers
  import opened CcTypes
  import opened Whitening
  import opened Alignment
  import opened CcNaming
  import opened CcSource
  import Ranges

  /** The writes a loop performs, in order, and the exception that ended it, if any. */
  datatype Outcome = Outcome(writes: seq<Write>, failure: Option<CcError>)

  /** Writes made before a piece of work, followed by what the work does. */
  function Prepend(ws: seq<Write>, o: Outcome): (r: Outcome)
    ensures |r.writes| == |ws| + |o.writes| && r.writes[..|ws|] == ws && r.failure == o.failure
  {
    Outcome(ws + o.writes, o.failure)
  }

  /** The number of data types of file `j`. */
  function Comps(run: Run, j: nat): nat
    requires j < |run.files|
  {
    |run.files[j].components|
  }

  /** Loop IV (lines 180-224): receiver file `j`'s components from `d` on, for source file `i`. */
  function ReceiverComponents(run: Run, p: Prepared, i: nat, j: nat, d: nat, iday: string): (r: seq<Write>)
    requires ValidRun(run) && ValidPrep(p) && i < |run.files| && j < |run.files| && d <= Comps(run, j)
    ensures forall w :: w in r ==> w.file == DayFileName(iday) && w.dataType == p.key
    decreases Comps(run, j) - d
  {
    if d == Comps(run, j) then []
    else
      var rest := ReceiverComponents(run, p, i, j, d + 1, iday);
      match UnitWrite(run, p, run.files[i], run.files[j], d, iday)
      case None => rest
      case Some(w) => [w] + rest
  }

  /** Loop III (lines 160-224): receiver files from `j` on, for source file `i`. */
  function Receivers(run: Run, p: Prepared, i: nat, j: nat, iday: string): (r: seq<Write>)
    requires ValidRun(run) && ValidPrep(p) && i < |run.files| && j <= |run.files|
    ensures forall w :: w in r ==> w.file == DayFileName(iday) && w.dataType == p.key
    decreases |run.files| - j
  {
    if j == |run.files| then []
    else ReceiverComponents(run, p, i, j, 0, iday) + Receivers(run, p, i, j + 1, iday)
  }

  /** Loop II (lines 109-224): source file `i`'s components from `c` on; receivers start at `i`. */
  function SourceComponents(run: Run, i: nat, c: nat, iday: string): (r: Outcome)
    requires ValidRun(run) && i < |run.files| && c <= Comps(run, i)
    ensures forall w :: w in r.writes ==> w.file == DayFileName(iday)
    decreases Comps(run, i) - c
  {
    if c == Comps(run, i) then Outcome([], None)
    else
      match SourceSpectrum(run, run.files[i], c, iday)
      case Err(e) => Outcome([], Some(e))
      case Ok(None) => SourceComponents(run, i, c + 1, iday)
      case Ok(Some(p)) => Prepend(Receivers(run, p, i, i, iday), SourceComponents(run, i, c + 1, iday))
  }

  /**
   * Lines 92-224 for source file `i`: under `auto_corr` a file without
   * data types fails on `data_types_s[-1]` (line 107).
   */
  function SourceFile(run: Run, i: nat, iday: string): (r: Outcome)
    requires ValidRun(run) && i < |run.files|
    ensures forall w :: w in r.writes ==> w.file == DayFileName(iday)
  {
    if run.cfg.autoCorr && Comps(run, i) == 0 then Outcome([], Some(NoDataTypes(run.files[i].path)))
    else SourceComponents(run, i, 0, iday)
  }

  /** Loop I (line 85): source files from `i` on; the last file is never a source. */
  function Sources(run: Run, i: nat, iday: string): (r: Outcome)
    requires ValidRun(run) && i <= |run.files|
    ensures forall w :: w in r.writes ==> w.file == DayFileName(iday)
    decreases |run.files| - i
  {
    if i + 1 >= |run.files| then Outcome([], None)
    else
      var o := SourceFile(run, i, iday);
      if o.failure.Some? then o else Prepend(o.writes, Sources(run, i + 1, iday))
  }

  /** Everything the driver does for one day. */
  function DayOutcome(run: Run, iday: string): (r: Outcome)
    requires ValidRun(run)
    ensures forall w :: w in r.writes ==> w.file == DayFileName(iday)
  {
    Sources(run, 0, iday)
  }

  /** The days at positions `idxs`, in order, until one fails. */
  function Days(run: Run, days: seq<string>, idxs: seq<nat>): Outcome
    requires ValidRun(run) && forall k :: 0 <= k < |idxs| ==> idxs[k] < |days|
  {
    if |idxs| == 0 then Outcome([], None)
    else
      var o := DayOutcome(run, days[idxs[0]]);
      if o.failure.Some? then o else Prepend(o.writes, Days(run, days, idxs[1..]))
  }

  /** The days of `Days` run without failure iff every one of them does. */
  lemma {:induction false} DaysFailure(run: Run, days: seq<string>, idxs: seq<nat>)
    requires ValidRun(run) && forall k :: 0 <= k < |idxs| ==> idxs[k] < |days|
    ensures Days(run, days, idxs).failure.None?
        <==> forall k :: 0 <= k < |idxs| ==> DayOutcome(run, days[idxs[k]]).failure.None?
  {
    if |idxs| > 0 {
      DaysFailure(run, days, idxs[1..]);
      assert forall k :: 1 <= k < |idxs| ==> idxs[k] == idxs[1..][k - 1];
    }
  }

  /** Every write of `Days` goes to the file of one of its days. */
  lemma {:induction false} DaysWriteTheirFiles(run: Run, days: seq<string>, idxs: seq<nat>, w: Write)
    requires ValidRun(run) && forall k :: 0 <= k < |idxs| ==> idxs[k] < |days|
    requires w in Days(run, days, idxs).writes
    ensures exists k :: k in idxs && w.file == DayFileName(days[k])
  {
    var o := DayOutcome(run, days[idxs[0]]);
    if w !in o.writes {
      DaysWriteTheirFiles(run, days, idxs[1..], w);
      var k :| k in idxs[1..] && w.file == DayFileName(days[k]);
      assert k in idxs;
    }
  }

  /**
   * What rank `rank` of `size` does: the configuration guard, then the days
   * at positions `rank, rank + size, ...`.
   */
  function RankOutcome(run: Run, days: seq<string>, rank: nat, size: nat): (r: Outcome)
    requires ValidRun(run) && rank < size
    ensures ConfigError(run.cfg).Some? ==> r.writes == [] && r.failure == ConfigError(run.cfg)
  {
    if ConfigError(run.cfg).Some? then Outcome([], ConfigError(run.cfg))
    else Days(run, days, Ranges.Stride(rank, |days|, size))
  }

  /** Rank `rank` writes only to the files of the days `k` with `k % size == rank`. */
  lemma RankWritesOwnDays(run: Run, days: seq<string>, rank: nat, size: nat, w: Write)
    requires ValidRun(run) && rank < size
    requires w in RankOutcome(run, days, rank, size).writes
    ensures exists k :: 0 <= k < |days| && k % size == rank && w.file == DayFileName(days[k])
  {
    var idxs := Ranges.Stride(rank, |days|, size);
    DaysWriteTheirFiles(run, days, idxs, w);
    var k :| k in idxs && w.file == DayFileName(days[k]);
    Ranges.RankOwnsIndex(|days|, size, rank, k);
  }

  /** The prepared spectrum of source component `c`, when it is stored for the day and whitening succeeds. */
  function Prep(run: Run, i: nat, c: nat, iday: string): (r: Option<Prepared>)
    requires ValidRun(run) && i < |run.files| && c < Comps(run, i)
    ensures r.Some? ==> ValidPrep(r.value)
  {
    match SourceSpectrum(run, run.files[i], c, iday)
    case Ok(p) => p
    case Err(_) => None
  }

  /**
   * Source file `i`, its component `c`, receiver file `j` and its component
   * `d` give the write `w` for the day.
   */
  ghost predicate Produces(run: Run, i: nat, c: nat, j: nat, d: nat, iday: string, w: Write)
    requires ValidRun(run)
  {
    && i < |run.files| && c < Comps(run, i) && j < |run.files| && d < Comps(run, j)
    && Prep(run, i, c, iday).Some?
    && UnitWrite(run, Prep(run, i, c, iday).value, run.files[i], run.files[j], d, iday) == Some(w)
  }

  /** The write a receiver component yields, if any, as a list. */
  function Yielded(u: Option<Write>): seq<Write>
  {
    if u.Some? then [u.value] else []
  }

  /** One step of loop IV: the component's write, if any, then the rest. */
  lemma ReceiverComponentsUnfold(run: Run, p: Prepared, i: nat, j: nat, d: nat, iday: string)
    requires ValidRun(run) && ValidPrep(p) && i < |run.files| && j < |run.files| && d < Comps(run, j)
    ensures ReceiverComponents(run, p, i, j, d, iday)
            == Yielded(UnitWrite(run, p, run.files[i], run.files[j], d, iday)) + ReceiverComponents(run, p, i, j, d + 1, iday)
  {
  }

  /** One step of loop III: receiver file `j`'s writes, then the later files'. */
  lemma ReceiversUnfold(run: Run, p: Prepared, i: nat, j: nat, iday: string)
    requires ValidRun(run) && ValidPrep(p) && i < |run.files| && j < |run.files|
    ensures Receivers(run, p, i, j, iday) == ReceiverComponents(run, p, i, j, 0, iday) + Receivers(run, p, i, j + 1, iday)
  {
  }

  /** Loop IV writes exactly the components that yield a write, from `d0` on. */
  lemma {:induction false} ReceiverComponentsExact(run: Run, p: Prepared, i: nat, j: nat, d0: nat, iday: string, w: Write)
    requires ValidRun(run) && ValidPrep(p) && i < |run.files| && j < |run.files| && d0 <= Comps(run, j)
    ensures w in ReceiverComponents(run, p, i, j, d0, iday) <==>
      exists d: nat :: d0 <= d < Comps(run, j) && UnitWrite(run, p, run.files[i], run.files[j], d, iday) == Some(w)
    decreases Comps(run, j) - d0
  {
    if d0 < Comps(run, j) {
      ReceiverComponentsExact(run, p, i, j, d0 + 1, iday, w);
      var u := UnitWrite(run, p, run.files[i], run.files[j], d0, iday);
      var rest := ReceiverComponents(run, p, i, j, d0 + 1, iday);
      ReceiverComponentsUnfold(run, p, i, j, d0, iday);
      if u == Some(w) {
        assert w in ReceiverComponents(run, p, i, j, d0, iday);
      } else {
        assert w in ReceiverComponents(run, p, i, j, d0, iday) <==> w in rest;
        forall d: nat | d0 <= d < Comps(run, j) && UnitWrite(run, p, run.files[i], run.files[j], d, iday) == Some(w)
          ensures d0 < d
        {
        }
      }
    }
  }

  /** Every write of loop III comes from a receiver file at or after `j0` and one of its components. */
  lemma {:induction false} ReceiversSound(run: Run, p: Prepared, i: nat, j0: nat, iday: string, w: Write)
    requires ValidRun(run) && ValidPrep(p) && i < |run.files| && j0 <= |run.files|
    requires w in Receivers(run, p, i, j0, iday)
    ensures exists j: nat, d: nat ::
      j0 <= j < |run.files| && d < Comps(run, j) && UnitWrite(run, p, run.files[i], run.files[j], d, iday) == Some(w)
    decreases |run.files| - j0
  {
    ReceiverComponentsExact(run, p, i, j0, 0, iday, w);
    ReceiversUnfold(run, p, i, j0, iday);
    if w !in ReceiverComponents(run, p, i, j0, 0, iday) {
      ReceiversSound(run, p, i, j0 + 1, iday, w);
    }
  }

  /** Every write a receiver component at or after `j0` yields is made by loop III. */
  lemma {:induction false} ReceiversComplete(run: Run, p: Prepared, i: nat, j0: nat, j: nat, d: nat, iday: string, w: Write)
    requires ValidRun(run) && ValidPrep(p) && i < |run.files| && j0 <= j < |run.files| && d < Comps(run, j)
    requires UnitWrite(run, p, run.files[i], run.files[j], d, iday) == Some(w)
    ensures w in Receivers(run, p, i, j0, iday)
    decreases j - j0
  {
    ReceiversUnfold(run, p, i, j0, iday);
    if j == j0 {
      ReceiverComponentsExact(run, p, i, j0, 0, iday, w);
    } else {
      ReceiversComplete(run, p, i, j0 + 1, j, d, iday, w);
    }
  }

  /** Source file `i` raises nothing: data types exist when `auto_corr` needs one, and every component whitens. */
  ghost predicate SourceOk(run: Run, i: nat, iday: string)
    requires ValidRun(run) && i < |run.files|
  {
    && !(run.cfg.autoCorr && Comps(run, i) == 0)
    && forall c :: 0 <= c < Comps(run, i) ==> SourceSpectrum(run, run.files[i], c, iday).Ok?
  }

  /** Loop II fails exactly when a component from `c0` on fails to whiten. */
  lemma {:induction false} SourceComponentsFailure(run: Run, i: nat, c0: nat, iday: string)
    requires ValidRun(run) && i < |run.files| && c0 <= Comps(run, i)
    ensures SourceComponents(run, i, c0, iday).failure.None? <==>
      forall c :: c0 <= c < Comps(run, i) ==> SourceSpectrum(run, run.files[i], c, iday).Ok?
    decreases Comps(run, i) - c0
  {
    if c0 < Comps(run, i) {
      SourceComponentsFailure(run, i, c0 + 1, iday);
    }
  }

  /** One step of loop II: a data type that fails to whiten ends it, any other is followed by the next. */
  lemma SourceComponentsStep(run: Run, i: nat, c: nat, iday: string)
    requires ValidRun(run) && i < |run.files| && c < Comps(run, i)
    ensures SourceSpectrum(run, run.files[i], c, iday).Err? ==>
      SourceComponents(run, i, c, iday).writes == [] && SourceComponents(run, i, c, iday).failure.Some?
    ensures SourceSpectrum(run, run.files[i], c, iday).Ok? ==>
      SourceComponents(run, i, c, iday).failure == SourceComponents(run, i, c + 1, iday).failure
    ensures SourceSpectrum(run, run.files[i], c, iday).Ok? && Prep(run, i, c, iday).None? ==>
      SourceComponents(run, i, c, iday).writes == SourceComponents(run, i, c + 1, iday).writes
    ensures Prep(run, i, c, iday).Some? ==>
      && SourceComponents(run, i, c, iday).failure == SourceComponents(run, i, c + 1, iday).failure
      && SourceComponents(run, i, c, iday).writes
         == Receivers(run, Prep(run, i, c, iday).value, i, i, iday) + SourceComponents(run, i, c + 1, iday).writes
  {
  }

  /** Every write of loop II comes from a component from `c0` on and a receiver from file `i` on. */
  lemma {:induction false} SourceComponentsSound(run: Run, i: nat, c0: nat, iday: string, w: Write)
    requires ValidRun(run) && i < |run.files| && c0 <= Comps(run, i)
    requires w in SourceComponents(run, i, c0, iday).writes
    ensures exists c: nat, j: nat, d: nat :: c0 <= c && i <= j && Produces(run, i, c, j, d, iday, w)
    decreases Comps(run, i) - c0
  {
    SourceComponentsStep(run, i, c0, iday);
    var p := Prep(run, i, c0, iday);
    if p.Some? && w in Receivers(run, p.value, i, i, iday) {
      ReceiversSound(run, p.value, i, i, iday, w);
      var j: nat, d: nat :| i <= j < |run.files| && d < Comps(run, j) &&
        UnitWrite(run, p.value, run.files[i], run.files[j], d, iday) == Some(w);
      assert Produces(run, i, c0, j, d, iday, w);
    } else {
      SourceComponentsSound(run, i, c0 + 1, iday, w);
    }
  }

  /** Unless it fails, loop II makes every write a component from `c0` on and a receiver from file `i` on produce. */
  lemma {:induction false} SourceComponentsComplete(run: Run, i: nat, c0: nat, c: nat, j: nat, d: nat, iday: string, w: Write)
    requires ValidRun(run) && i < |run.files| && c0 <= c && i <= j
    requires Produces(run, i, c, j, d, iday, w)
    requires SourceComponents(run, i, c0, iday).failure.None?
    ensures w in SourceComponents(run, i, c0, iday).writes
    decreases c - c0
  {
    SourceComponentsStep(run, i, c0, iday);
    if c == c0 {
      ReceiversComplete(run, Prep(run, i, c0, iday).value, i, i, j, d, iday, w);
    } else {
      SourceComponentsComplete(run, i, c0 + 1, c, j, d, iday, w);
    }
  }

  /** Source file `i` fails exactly when it is not `SourceOk`. */
  lemma SourceFileFailure(run: Run, i: nat, iday: string)
    requires ValidRun(run) && i < |run.files|
    ensures SourceFile(run, i, iday).failure.None? <==> SourceOk(run, i, iday)
  {
    SourceComponentsFailure(run, i, 0, iday);
  }

  /** Loop I from `i0` on fails exactly when one of its source files fails. */
  lemma {:induction false} SourcesFileFailure(run: Run, i0: nat, iday: string)
    requires ValidRun(run) && i0 <= |run.files|
    ensures Sources(run, i0, iday).failure.None? <==>
      forall i :: i0 <= i && i + 1 < |run.files| ==> SourceFile(run, i, iday).failure.None?
    decreases |run.files| - i0
  {
    if i0 + 1 < |run.files| {
      SourcesFileFailure(run, i0 + 1, iday);
      var o := SourceFile(run, i0, iday);
      if o.failure.None? {
        assert Sources(run, i0, iday).failure == Sources(run, i0 + 1, iday).failure;
      } else {
        assert Sources(run, i0, iday) == o;
      }
    }
  }

  /** Loop I from `i0` on fails exactly when one of its sources is not `SourceOk`. */
  lemma SourcesFailure(run: Run, i0: nat, iday: string)
    requires ValidRun(run) && i0 <= |run.files|
    ensures Sources(run, i0, iday).failure.None? <==>
      forall i :: i0 <= i && i + 1 < |run.files| ==> SourceOk(run, i, iday)
  {
    SourcesFileFailure(run, i0, iday);
    forall i | i0 <= i && i + 1 < |run.files|
      ensures SourceFile(run, i, iday).failure.None? <==> SourceOk(run, i, iday)
    {
      SourceFileFailure(run, i, iday);
    }
  }

  /** Every write of loop I comes from a source before the last file and a receiver at or after it. */
  lemma {:induction false} SourcesSound(run: Run, i0: nat, iday: string, w: Write)
    requires ValidRun(run) && i0 <= |run.files|
    requires w in Sources(run, i0, iday).writes
    ensures exists i: nat, c: nat, j: nat, d: nat ::
      i0 <= i && i + 1 < |run.files| && i <= j && Produces(run, i, c, j, d, iday, w)
    decreases |run.files| - i0
  {
    var o := SourceFile(run, i0, iday);
    if w in o.writes {
      if !(run.cfg.autoCorr && Comps(run, i0) == 0) {
        SourceComponentsSound(run, i0, 0, iday, w);
      }
    } else {
      SourcesSound(run, i0 + 1, iday, w);
    }
  }

  /** Unless it fails, loop I makes every write a source before the last file and a receiver at or after it produce. */
  lemma {:induction false} SourcesComplete(run: Run, i0: nat, i: nat, c: nat, j: nat, d: nat, iday: string, w: Write)
    requires ValidRun(run) && i0 <= i && i + 1 < |run.files| && i <= j
    requires Produces(run, i, c, j, d, iday, w)
    requires Sources(run, i0, iday).failure.None?
    ensures w in Sources(run, i0, iday).writes
    decreases i - i0
  {
    var o := SourceFile(run, i0, iday);
    if i == i0 {
      SourceComponentsComplete(run, i0, 0, c, j, d, iday, w);
    } else {
      SourcesComplete(run, i0 + 1, i, c, j, d, iday, w);
    }
  }

  /**
   * One day (lines 85-224): the day fails exactly when some source file
   * before the last one raises; otherwise its writes are exactly those of
   * the source files `i < n - 1`, their components `c`, the receiver files
   * `i <= j < n` (the source itself included) and their components `d`,
   * for every combination where both components store the day and the
   * alignment is not empty.
   */
  lemma DayExact(run: Run, iday: string, w: Write)
    requires ValidRun(run)
    ensures DayOutcome(run, iday).failure.None? <==>
      forall i :: 0 <= i && i + 1 < |run.files| ==> SourceOk(run, i, iday)
    ensures DayOutcome(run, iday).failure.None? ==>
      (w in DayOutcome(run, iday).writes <==>
       exists i: nat, c: nat, j: nat, d: nat ::
         i + 1 < |run.files| && i <= j && Produces(run, i, c, j, d, iday, w))
  {
    SourcesFailure(run, 0, iday);
    if w in DayOutcome(run, iday).writes {
      SourcesSound(run, 0, iday, w);
    }
    if DayOutcome(run, iday).failure.None? {
      forall i: nat, c: nat, j: nat, d: nat | i + 1 < |run.files| && i <= j && Produces(run, i, c, j, d, iday, w)
        ensures w in DayOutcome(run, iday).writes
      {
        SourcesComplete(run, 0, i, c, j, d, iday, w);
      }
    }
  }

  /**
   * With distinct day keys, two ranks never write to the same file: each
   * day's correlations go to that day's file, and each day belongs to one rank.
   */
  lemma RanksWriteDisjointFiles(run: Run, days: seq<string>, size: nat, r1: nat, r2: nat, w1: Write, w2: Write)
    requires ValidRun(run) && r1 < size && r2 < size && r1 != r2
    requires forall a, b :: 0 <= a < b < |days| ==> days[a] != days[b]
    requires w1 in RankOutcome(run, days, r1, size).writes && w2 in RankOutcome(run, days, r2, size).writes
    ensures w1.file != w2.file
  {
    var k1 := OwningDay(run, days, r1, size, w1);
    var k2 := OwningDay(run, days, r2, size, w2);
    assert k1 != k2;
    DayFileNameInjective(days[k1], days[k2]);
  }

  /** The day a write of rank `rank` was made for. */
  lemma OwningDay(run: Run, days: seq<string>, rank: nat, size: nat, w: Write) returns (k: nat)
    requires ValidRun(run) && rank < size
    requires w in RankOutcome(run, days, rank, size).writes
    ensures k < |days| && k % size == rank && w.file == DayFileName(days[k])
  {
    RankWritesOwnDays(run, days, rank, size, w);
    k :| 0 <= k < |days| && k % size == rank && w.file == DayFileName(days[k]);
  }
}
