/**
 * The order in which the driver's four nested loops (lines 85-224) visit
 * the combinations of a source file `i`, its data type `c`, a receiver
 * file `j` and its data type `d`, and the writes of one day as one write
 * per producing combination, in that order.
 *
 * The loops depend on the files only through how many data types each
 * has, so the combinations are enumerated over those counts.
 */
module CcOrder {
  import opened Wrappers
  import opened CcTypes
  import opened CcSource
  import opened CcDriver
  import opened CcCombos
  import opened CcWrites

  /**
   * The loops of one day visit each combination with a source before the
   * last file and a receiver from the source on exactly once, in
   * lexicographic order of `(i, c, j, d)`, and nothing else.
   */
  lemma DayCombosExact(run: Run, o: Combo)
    ensures InLoopOrder(DayCombos(run))
    ensures o in DayCombos(run) <==>
      o.i + 1 < |run.files| && o.c < Comps(run, o.i) && o.i <= o.j < |run.files| && o.d < Comps(run, o.j)
  {
    SourceCombosOrdered(Counts(run), 0);
    SourceCombosMember(Counts(run), 0, o);
  }

  /** One step of loop IV: receiver data type `d` adds what its combination yields before the rest. */
  lemma ReceiverComponentStep(run: Run, p: Prepared, i: nat, c: nat, j: nat, d: nat, iday: string)
    requires ValidRun(run) && i < |run.files| && c < Comps(run, i) && j < |run.files| && d < Comps(run, j)
    requires Prep(run, i, c, iday) == Some(p)
    requires ReceiverComponents(run, p, i, j, d + 1, iday)
             == WritesOf(run, ReceiverComponentCombos(Counts(run), i, c, j, d + 1), iday)
    ensures ReceiverComponents(run, p, i, j, d, iday)
            == WritesOf(run, ReceiverComponentCombos(Counts(run), i, c, j, d), iday)
  {
    var n := Counts(run);
    var later := ReceiverComponentCombos(n, i, c, j, d + 1);
    var u := UnitWrite(run, p, run.files[i], run.files[j], d, iday);
    assert WriteOf(run, Combo(i, c, j, d), iday) == u;
    assert Map(Yield(run, iday), [Combo(i, c, j, d)]) == [u];
    assert Somes([u]) == if u.Some? then [u.value] else [];
    assert ReceiverComponents(run, p, i, j, d, iday)
           == WritesOf(run, [Combo(i, c, j, d)], iday) + ReceiverComponents(run, p, i, j, d + 1, iday);
    assert ReceiverComponentCombos(n, i, c, j, d) == [Combo(i, c, j, d)] + later;
    WritesOfConcat(run, [Combo(i, c, j, d)], later, iday);
  }

  /** Loop IV writes one write per producing receiver data type, in order. */
  lemma {:induction false} ReceiverComponentsInOrder(run: Run, p: Prepared, i: nat, c: nat, j: nat, d: nat, iday: string)
    requires ValidRun(run) && i < |run.files| && c < Comps(run, i) && j < |run.files| && d <= Comps(run, j)
    requires Prep(run, i, c, iday) == Some(p)
    ensures ReceiverComponents(run, p, i, j, d, iday) == WritesOf(run, ReceiverComponentCombos(Counts(run), i, c, j, d), iday)
    decreases Comps(run, j) - d
  {
    if d < Comps(run, j) {
      ReceiverComponentsInOrder(run, p, i, c, j, d + 1, iday);
      ReceiverComponentStep(run, p, i, c, j, d, iday);
    } else {
      assert ReceiverComponentCombos(Counts(run), i, c, j, d) == [];
    }
  }

  /** Loop III writes one write per producing receiver file and data type, in order. */
  lemma {:induction false} ReceiversInOrder(run: Run, p: Prepared, i: nat, c: nat, j: nat, iday: string)
    requires ValidRun(run) && i < |run.files| && c < Comps(run, i) && j <= |run.files|
    requires Prep(run, i, c, iday) == Some(p)
    ensures Receivers(run, p, i, j, iday) == WritesOf(run, ReceiverCombos(Counts(run), i, c, j), iday)
    decreases |run.files| - j
  {
    var n := Counts(run);
    if j < |run.files| {
      var here := ReceiverComponentCombos(n, i, c, j, 0);
      var later := ReceiverCombos(n, i, c, j + 1);
      assert ReceiverCombos(n, i, c, j) == here + later;
      assert Receivers(run, p, i, j, iday) ==
        ReceiverComponents(run, p, i, j, 0, iday) + Receivers(run, p, i, j + 1, iday);
      ReceiverComponentsInOrder(run, p, i, c, j, 0, iday);
      ReceiversInOrder(run, p, i, c, j + 1, iday);
      WritesOfConcat(run, here, later, iday);
    } else {
      assert ReceiverCombos(n, i, c, j) == [];
    }
  }

  lemma SourceComponentCombosStep(n: seq<nat>, i: nat, c: nat)
    requires i < |n| && c < n[i]
    ensures SourceComponentCombos(n, i, c) == ReceiverCombos(n, i, c, i) + SourceComponentCombos(n, i, c + 1)
  {
  }

  /** A data type that whitens to a spectrum adds its receivers' writes before the rest of loop II. */
  lemma SourceComponentPrepared(run: Run, i: nat, c: nat, k': nat, iday: string) returns (k: nat)
    requires ValidRun(run) && i < |run.files| && c < Comps(run, i) && Prep(run, i, c, iday).Some?
    requires SourceComponentsPrefix(run, i, c + 1, iday, k')
    ensures SourceComponentsPrefix(run, i, c, iday, k)
  {
    var n := Counts(run);
    var here := ReceiverCombos(n, i, c, i);
    var later := SourceComponentCombos(n, i, c + 1);
    SourceComponentsStep(run, i, c, iday);
    SourceComponentCombosStep(n, i, c);
    k := |here| + k';
    WritesOfPrefix(run, here, later, k', iday);
    var p := Prep(run, i, c, iday).value;
    ReceiversInOrder(run, p, i, c, i, iday);
    var mine := Receivers(run, p, i, i, iday);
    var rest := SourceComponents(run, i, c + 1, iday);
    assert SourceComponents(run, i, c, iday).writes == mine + rest.writes;
    assert rest.writes == WritesOf(run, later[..k'], iday);
    assert mine == WritesOf(run, here, iday);
    assert SourceComponentCombos(n, i, c)[..k] == (here + later)[..|here| + k'];
    assert SourceComponents(run, i, c, iday).writes == WritesOf(run, SourceComponentCombos(n, i, c)[..k], iday);
  }

  /** A data type that does not store the day adds nothing to loop II. */
  lemma SourceComponentAbsent(run: Run, i: nat, c: nat, k': nat, iday: string) returns (k: nat)
    requires ValidRun(run) && i < |run.files| && c < Comps(run, i)
    requires SourceSpectrum(run, run.files[i], c, iday).Ok? && Prep(run, i, c, iday).None?
    requires SourceComponentsPrefix(run, i, c + 1, iday, k')
    ensures SourceComponentsPrefix(run, i, c, iday, k)
  {
    var n := Counts(run);
    var here := ReceiverCombos(n, i, c, i);
    var later := SourceComponentCombos(n, i, c + 1);
    SourceComponentsStep(run, i, c, iday);
    SourceComponentCombosStep(n, i, c);
    k := |here| + k';
    WritesOfPrefix(run, here, later, k', iday);
    forall o | o in here ensures o.i == i && o.c == c {
      ReceiverCombosMember(n, i, c, i, o);
    }
    WritesOfUnprepared(run, i, c, here, iday);
    assert SourceComponentCombos(n, i, c)[..k] == (here + later)[..|here| + k'];
    assert SourceComponents(run, i, c, iday).writes == WritesOf(run, SourceComponentCombos(n, i, c)[..k], iday);
  }

  /** A data type that fails to whiten ends loop II without a write of its own. */
  lemma SourceComponentFails(run: Run, i: nat, c: nat, iday: string)
    requires ValidRun(run) && i < |run.files| && c < Comps(run, i)
    requires SourceSpectrum(run, run.files[i], c, iday).Err?
    ensures SourceComponentsPrefix(run, i, c, iday, 0)
  {
    SourceComponentsStep(run, i, c, iday);
    assert SourceComponentCombos(Counts(run), i, c)[..0] == [];
  }

  /** Loop II past the last data type writes nothing. */
  lemma SourceComponentsEnd(run: Run, i: nat, iday: string)
    requires ValidRun(run) && i < |run.files|
    ensures SourceComponentsPrefix(run, i, Comps(run, i), iday, 0)
  {
    assert SourceComponentCombos(Counts(run), i, Comps(run, i)) == [];
  }

  /** One step of loop II keeps its writes those of a prefix of its combinations. */
  lemma SourceComponentExtends(run: Run, i: nat, c: nat, k': nat, iday: string) returns (k: nat)
    requires ValidRun(run) && i < |run.files| && c < Comps(run, i)
    requires SourceComponentsPrefix(run, i, c + 1, iday, k')
    ensures SourceComponentsPrefix(run, i, c, iday, k)
  {
    if SourceSpectrum(run, run.files[i], c, iday).Err? {
      k := 0;
      SourceComponentFails(run, i, c, iday);
    } else if Prep(run, i, c, iday).None? {
      k := SourceComponentAbsent(run, i, c, k', iday);
    } else {
      k := SourceComponentPrepared(run, i, c, k', iday);
    }
  }

  /** Loop II from data type `c` on writes those of some prefix of its combinations. */
  ghost predicate SourceComponentsReach(run: Run, i: nat, iday: string, c: nat)
  {
    ValidRun(run) && i < |run.files| && c <= Comps(run, i) && exists k :: SourceComponentsPrefix(run, i, c, iday, k)
  }

  /** Each step of loop II keeps `SourceComponentsReach`. */
  lemma SourceComponentsSteps(run: Run, i: nat, iday: string)
    requires ValidRun(run) && i < |run.files|
    ensures forall c :: 0 <= c < Comps(run, i) && SourceComponentsReach(run, i, iday, c + 1) ==>
      SourceComponentsReach(run, i, iday, c)
  {
    forall c | 0 <= c < Comps(run, i) && SourceComponentsReach(run, i, iday, c + 1)
      ensures SourceComponentsReach(run, i, iday, c)
    {
      var k' :| SourceComponentsPrefix(run, i, c + 1, iday, k');
      var k := SourceComponentExtends(run, i, c, k', iday);
    }
  }

  /**
   * Loop II writes those of a prefix of its combinations, in order; the
   * prefix is all of them unless a data type fails to whiten.
   */
  lemma SourceComponentsInOrder(run: Run, i: nat, iday: string) returns (k: nat)
    requires ValidRun(run) && i < |run.files|
    ensures SourceComponentsPrefix(run, i, 0, iday, k)
  {
    SourceComponentsEnd(run, i, iday);
    SourceComponentsSteps(run, i, iday);
    BackFrom((c: nat) => SourceComponentsReach(run, i, iday, c), 0, Comps(run, i));
    k :| SourceComponentsPrefix(run, i, 0, iday, k);
  }

  /** Source file `i` writes those of a prefix of its combinations; all of them unless it fails. */
  lemma SourceFileInOrder(run: Run, i: nat, iday: string) returns (k: nat)
    requires ValidRun(run) && i < |run.files|
    ensures k <= |SourceComponentCombos(Counts(run), i, 0)|
    ensures SourceFile(run, i, iday).writes == WritesOf(run, SourceComponentCombos(Counts(run), i, 0)[..k], iday)
    ensures SourceFile(run, i, iday).failure.None? ==> k == |SourceComponentCombos(Counts(run), i, 0)|
  {
    if run.cfg.autoCorr && Comps(run, i) == 0 {
      k := 0;
      assert SourceFile(run, i, iday).writes == [];
      assert SourceComponentCombos(Counts(run), i, 0)[..k] == [];
    } else {
      k := SourceComponentsInOrder(run, i, iday);
    }
  }

  /** One step of loop I: a failing source file ends it, any other is followed by the next. */
  lemma SourcesStep(run: Run, i: nat, iday: string)
    requires ValidRun(run) && i + 1 < |run.files|
    ensures SourceFile(run, i, iday).failure.Some? ==> Sources(run, i, iday) == SourceFile(run, i, iday)
    ensures SourceFile(run, i, iday).failure.None? ==>
      Sources(run, i, iday) == Prepend(SourceFile(run, i, iday).writes, Sources(run, i + 1, iday))
  {
  }

  lemma SourceCombosStep(n: seq<nat>, i: nat)
    requires i + 1 < |n|
    ensures SourceCombos(n, i) == SourceComponentCombos(n, i, 0) + SourceCombos(n, i + 1)
  {
  }

  /** Loop I from the last file on writes nothing. */
  lemma SourcesEnd(run: Run, i: nat, iday: string)
    requires ValidRun(run) && i <= |run.files| && i + 1 >= |run.files|
    ensures SourcesPrefix(run, i, iday, 0)
  {
    assert SourceCombos(Counts(run), i) == [];
  }

  /** A source file that fails ends loop I after its own writes. */
  lemma SourceFileStops(run: Run, i: nat, kh: nat, iday: string)
    requires ValidRun(run) && i + 1 < |run.files| && SourceFile(run, i, iday).failure.Some?
    requires kh <= |SourceComponentCombos(Counts(run), i, 0)|
    requires SourceFile(run, i, iday).writes == WritesOf(run, SourceComponentCombos(Counts(run), i, 0)[..kh], iday)
    ensures SourcesPrefix(run, i, iday, kh)
  {
    var n := Counts(run);
    SourcesStep(run, i, iday);
    SourceCombosStep(n, i);
    assert SourceCombos(n, i)[..kh] == SourceComponentCombos(n, i, 0)[..kh];
  }

  /** A source file that does not fail adds all its writes before the rest of loop I. */
  lemma SourceFileContinues(run: Run, i: nat, k': nat, iday: string) returns (k: nat)
    requires ValidRun(run) && i + 1 < |run.files| && SourceFile(run, i, iday).failure.None?
    requires SourceFile(run, i, iday).writes == WritesOf(run, SourceComponentCombos(Counts(run), i, 0), iday)
    requires SourcesPrefix(run, i + 1, iday, k')
    ensures SourcesPrefix(run, i, iday, k)
  {
    var n := Counts(run);
    var here := SourceComponentCombos(n, i, 0);
    var later := SourceCombos(n, i + 1);
    SourcesStep(run, i, iday);
    SourceCombosStep(n, i);
    k := |here| + k';
    WritesOfPrefix(run, here, later, k', iday);
    assert SourceCombos(n, i)[..k] == (here + later)[..|here| + k'];
    assert Sources(run, i, iday).writes == SourceFile(run, i, iday).writes + Sources(run, i + 1, iday).writes;
    assert Sources(run, i, iday).writes == WritesOf(run, SourceCombos(n, i)[..k], iday);
  }

  /** One step of loop I keeps its writes those of a prefix of its combinations. */
  lemma SourcesExtends(run: Run, i: nat, k': nat, iday: string) returns (k: nat)
    requires ValidRun(run) && i + 1 < |run.files|
    requires SourcesPrefix(run, i + 1, iday, k')
    ensures SourcesPrefix(run, i, iday, k)
  {
    var kh := SourceFileInOrder(run, i, iday);
    if SourceFile(run, i, iday).failure.Some? {
      SourceFileStops(run, i, kh, iday);
      k := kh;
    } else {
      assert SourceComponentCombos(Counts(run), i, 0)[..kh] == SourceComponentCombos(Counts(run), i, 0);
      k := SourceFileContinues(run, i, k', iday);
    }
  }

  /** Loop I from source file `i` on writes those of some prefix of its combinations. */
  ghost predicate SourcesReach(run: Run, iday: string, i: nat)
  {
    ValidRun(run) && i <= |run.files| && exists k :: SourcesPrefix(run, i, iday, k)
  }

  /** Each step of loop I keeps `SourcesReach`. */
  lemma SourcesSteps(run: Run, iday: string)
    requires ValidRun(run)
    ensures forall i :: 0 <= i && i + 1 < |run.files| && SourcesReach(run, iday, i + 1) ==> SourcesReach(run, iday, i)
  {
    forall i | 0 <= i && i + 1 < |run.files| && SourcesReach(run, iday, i + 1)
      ensures SourcesReach(run, iday, i)
    {
      var k' :| SourcesPrefix(run, i + 1, iday, k');
      var k := SourcesExtends(run, i, k', iday);
    }
  }

  /** Loop I writes those of a prefix of its combinations, in order; all of them unless a source fails. */
  lemma SourcesInOrder(run: Run, iday: string) returns (k: nat)
    requires ValidRun(run)
    ensures SourcesPrefix(run, 0, iday, k)
  {
    var hi := if |run.files| == 0 then 0 else |run.files| - 1;
    SourcesEnd(run, hi, iday);
    SourcesSteps(run, iday);
    BackFrom((i: nat) => SourcesReach(run, iday, i), 0, hi);
    k :| SourcesPrefix(run, 0, iday, k);
  }

  /**
   * One day's writes are those of a prefix of `DayCombos`, one write per
   * combination that yields one, in the loops' order; when the day raises
   * nothing, the prefix is every combination.
   */
  lemma DayInLoopOrder(run: Run, iday: string) returns (k: nat)
    requires ValidRun(run)
    ensures k <= |DayCombos(run)|
    ensures DayOutcome(run, iday).writes == WritesOf(run, DayCombos(run)[..k], iday)
    ensures DayOutcome(run, iday).failure.None? ==> DayOutcome(run, iday).writes == WritesOf(run, DayCombos(run), iday)
  {
    k := SourcesInOrder(run, iday);
    assert DayCombos(run)[..|DayCombos(run)|] == DayCombos(run);
  }
}
