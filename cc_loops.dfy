/**
 * The driver's loops as it runs them (lines 76-228): a rank walks its
 * days, and for each day the four nested loops over source files, source
 * components, receiver files and receiver components add correlations to
 * the day archives. Each method is proved to do what the loop-level
 * function of `CcDriver` says.
 */
module CcLoops {
  import opened Wrappers
  import opened CcTypes
  import opened Whitening
  import opened Alignment
  import opened CcNaming
  import opened CcSource
  import opened CcDriver
  import Ranges
  import Seqs

  /**
   * The correlation archives under the output directory, seen as the
   * sequence of `add_auxiliary_data` calls made on them (lines 213-224).
   */
  class CcStore {
    var log: seq<Write>

    constructor()
      ensures log == []
    {
      log := [];
    }

    /** `ccf_ds.add_auxiliary_data(...)` on the day file named in `w`. */
    method Add(w: Write)
      modifies this
      ensures log == old(log) + [w]
    {
      log := log + [w];
    }
  }

  /** Loop IV (lines 167-224): the components of receiver file `j`. */
  method CorrelateReceiverFile(store: CcStore, run: Run, p: Prepared, i: nat, j: nat, iday: string)
    requires ValidRun(run) && ValidPrep(p) && i < |run.files| && j < |run.files|
    modifies store
    ensures store.log == old(store.log) + ReceiverComponents(run, p, i, j, 0, iday)
  {
    var src := run.files[i];
    var rcv := run.files[j];
    var names := Station(rcv);
    var d := 0;
    while d < |rcv.components|
      invariant d <= |rcv.components|
      invariant store.log + ReceiverComponents(run, p, i, j, d, iday) ==
                old(store.log) + ReceiverComponents(run, p, i, j, 0, iday)
    {
      ghost var before := store.log;
      ghost var u := UnitWrite(run, p, src, rcv, d, iday);
      ReceiverComponentsUnfold(run, p, i, j, d, iday);
      var comp := rcv.components[d];
      if iday in comp.days {
        var rec := comp.days[iday];
        var fft2 := TruncateRows(rec.data, p.nfft / 2);
        var al := Align(p.std, rec.std);
        if |al.indx1| > 0 && |al.indx2| > 0 {
          assert forall k :: 0 <= k < |al.indx1| ==> al.indx1[k] in al.indx1;
          var corr := run.kernel(Rows(p.sfft, al.indx1), Rows(fft2, al.indx2), p.nfft);
          var params := CcParams(run.cfg.dt, run.cfg.maxlag, run.cfg.whitening,
                                 src.lon, src.lat, rcv.lon, rcv.lat);
          store.Add(Write(DayFileName(iday), p.key, PairKey(names.0, names.1, comp.dataType),
                          Entry(corr, params)));
        }
      }
      assert store.log == before + Yielded(u);
      Seqs.ConcatAssoc(before, Yielded(u), ReceiverComponents(run, p, i, j, d + 1, iday));
      d := d + 1;
    }
  }

  /** Loop III (line 160): the receiver files from source file `i` on. */
  method CorrelateReceivers(store: CcStore, run: Run, p: Prepared, i: nat, iday: string)
    requires ValidRun(run) && ValidPrep(p) && i < |run.files|
    modifies store
    ensures store.log == old(store.log) + Receivers(run, p, i, i, iday)
  {
    var j := i;
    while j < |run.files|
      invariant i <= j <= |run.files|
      invariant store.log + Receivers(run, p, i, j, iday) == old(store.log) + Receivers(run, p, i, i, iday)
    {
      ghost var before := store.log;
      ReceiversUnfold(run, p, i, j, iday);
      CorrelateReceiverFile(store, run, p, i, j, iday);
      Seqs.ConcatAssoc(before, ReceiverComponents(run, p, i, j, 0, iday), Receivers(run, p, i, j + 1, iday));
      j := j + 1;
    }
  }

  /**
   * Lines 92-224 for source file `i`: the `auto_corr` reference lookup, then
   * loop II over its components. An exception is returned as `failure`.
   */
  method CorrelateSource(store: CcStore, run: Run, i: nat, iday: string) returns (failure: Option<CcError>)
    requires ValidRun(run) && i < |run.files|
    modifies store
    ensures failure == SourceFile(run, i, iday).failure
    ensures store.log == old(store.log) + SourceFile(run, i, iday).writes
  {
    var src := run.files[i];
    if run.cfg.autoCorr && |src.components| == 0 {
      return Some(NoDataTypes(src.path));
    }
    var c := 0;
    while c < |src.components|
      invariant c <= |src.components|
      invariant Prepend(store.log, SourceComponents(run, i, c, iday)) ==
                Prepend(old(store.log), SourceComponents(run, i, 0, iday))
    {
      var prepared := SourceSpectrum(run, src, c, iday);
      ghost var later := SourceComponents(run, i, c + 1, iday);
      match prepared {
        case Err(e) =>
          assert SourceComponents(run, i, c, iday) == Outcome([], Some(e));
          return Some(e);
        case Ok(None) =>
          assert SourceComponents(run, i, c, iday) == later;
        case Ok(Some(p)) =>
          assert SourceComponents(run, i, c, iday) == Prepend(Receivers(run, p, i, i, iday), later);
          ghost var before := store.log;
          CorrelateReceivers(store, run, p, i, iday);
          PrependTwice(before, Receivers(run, p, i, i, iday), later);
      }
      c := c + 1;
    }
    assert SourceComponents(run, i, c, iday) == Outcome([], None);
    return None;
  }

  /** Loop I (line 85): every file but the last as a source, for one day. */
  method CorrelateDay(store: CcStore, run: Run, iday: string) returns (failure: Option<CcError>)
    requires ValidRun(run)
    modifies store
    ensures failure == DayOutcome(run, iday).failure
    ensures store.log == old(store.log) + DayOutcome(run, iday).writes
  {
    var i := 0;
    while i + 1 < |run.files|
      invariant i <= |run.files|
      invariant Prepend(store.log, Sources(run, i, iday)) == Prepend(old(store.log), Sources(run, 0, iday))
    {
      ghost var before := store.log;
      ghost var here := SourceFile(run, i, iday);
      ghost var later := Sources(run, i + 1, iday);
      failure := CorrelateSource(store, run, i, iday);
      if failure.Some? {
        assert Sources(run, i, iday) == here;
        return;
      }
      assert Sources(run, i, iday) == Prepend(here.writes, later);
      PrependTwice(before, here.writes, later);
      i := i + 1;
    }
    assert Sources(run, i, iday) == Outcome([], None);
    return None;
  }

  /**
   * Lines 76-81: `for ii in range(rank, splits+size-extra, size)`, with
   * work only for `ii < splits`: the rank correlates exactly the days at
   * `range(rank, splits, size)`, that is the indices `ii < splits` with
   * `ii % size == rank` (see `Ranges.RankOwnsIndex`), in order, and stops
   * at the first day that raises.
   */
  method RunDays(store: CcStore, run: Run, days: seq<string>, rank: nat, size: nat)
    returns (failure: Option<CcError>)
    requires ValidRun(run) && rank < size
    modifies store
    ensures failure == Days(run, days, Ranges.Stride(rank, |days|, size)).failure
    ensures store.log == old(store.log) + Days(run, days, Ranges.Stride(rank, |days|, size)).writes
  {
    failure := None;
    var splits := |days|;
    var extra := splits % size;
    assert 0 <= extra < size;
    ghost var whole := Days(run, days, Ranges.Stride(rank, |days|, size));
    var ii: nat := rank;
    while ii < splits + size - extra
      invariant Prepend(store.log, Days(run, days, Ranges.Stride(ii, |days|, size))) == Prepend(old(store.log), whole)
      invariant failure.None?
      decreases splits + size - extra - ii
    {
      var next := ii + size;
      if ii < splits {
        failure := RankDay(store, run, days, ii, size, whole, old(store.log));
        if failure.Some? {
          return;
        }
      } else {
        StrideEmpty(ii, splits, size);
      }
      ii := next;
    }
    StrideEmpty(ii, splits, size);
  }

  /**
   * One iteration of the rank loop that correlates day `ii` (line 85): on
   * success the loop invariant of `RunDays` holds for the next index, on
   * failure the rank's outcome is complete.
   */
  method RankDay(store: CcStore, run: Run, days: seq<string>, ii: nat, size: nat,
                 ghost whole: Outcome, ghost start: seq<Write>)
    returns (failure: Option<CcError>)
    requires ValidRun(run) && ii < |days| && size > 0
    requires Prepend(store.log, Days(run, days, Ranges.Stride(ii, |days|, size))) == Prepend(start, whole)
    modifies store
    ensures failure.None? ==>
      Prepend(store.log, Days(run, days, Ranges.Stride(ii + size, |days|, size))) == Prepend(start, whole)
    ensures failure.Some? ==> failure == whole.failure && store.log == start + whole.writes
  {
    ghost var before := store.log;
    DaysStep(run, days, ii, size);
    ghost var today := DayOutcome(run, days[ii]);
    ghost var rest := Days(run, days, Ranges.Stride(ii + size, |days|, size));
    failure := CorrelateDay(store, run, days[ii]);
    if failure.Some? {
      assert Days(run, days, Ranges.Stride(ii, |days|, size)) == today;
    } else {
      assert Days(run, days, Ranges.Stride(ii, |days|, size)) == Prepend(today.writes, rest);
      PrependTwice(before, today.writes, rest);
    }
  }

  /** Writes made in two steps before some work are the writes of both steps together. */
  lemma PrependTwice(a: seq<Write>, b: seq<Write>, o: Outcome)
    ensures Prepend(a + b, o) == Prepend(a, Prepend(b, o))
  {
    assert (a + b) + o.writes == a + (b + o.writes);
  }

  lemma StrideEmpty(ii: nat, splits: nat, size: nat)
    requires size > 0 && ii >= splits
    ensures Ranges.Stride(ii, splits, size) == [] && Ranges.Stride(ii + size, splits, size) == []
  {
  }

  /** One step of the rank loop: the first index of the stride, then the rest. */
  lemma DaysStep(run: Run, days: seq<string>, ii: nat, size: nat)
    requires ValidRun(run) && ii < |days| && size > 0
    ensures var todo := Ranges.Stride(ii, |days|, size);
      && |todo| > 0 && todo[0] == ii
      && todo[1..] == Ranges.Stride(ii + size, |days|, size)
      && var today := DayOutcome(run, days[ii]);
         Days(run, days, todo) ==
           if today.failure.Some? then today else Prepend(today.writes, Days(run, days, todo[1..]))
  {
    var rest := Ranges.Stride(ii + size, |days|, size);
    assert ([ii] + rest)[1..] == rest;
  }

  /** One MPI rank (lines 55-56 and 76-81): the configuration guard, then its days. */
  method RunRank(store: CcStore, run: Run, days: seq<string>, rank: nat, size: nat)
    returns (failure: Option<CcError>)
    requires ValidRun(run) && rank < size
    modifies store
    ensures failure == RankOutcome(run, days, rank, size).failure
    ensures store.log == old(store.log) + RankOutcome(run, days, rank, size).writes
  {
    failure := ConfigError(run.cfg);
    if failure.Some? {
      return;
    }
    failure := RunDays(store, run, days, rank, size);
  }
}
