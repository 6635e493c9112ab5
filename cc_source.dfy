/**
 * One source component and one receiver component of the cross-correlation
 * driver, for one day: the configuration guard (lines 55-56), the prepared
 * source spectrum with its whitening dispatch (lines 105-153), and the
 * correlation written for one receiver component (lines 178-224).
 *
 * `moving_ave(np.abs(.), smooth_N)` and `optimized_correlate1` are library
 * routines whose code is not part of this model; they are the parameters
 * `smoothAbs` and `kernel` of a run.
 */
module CcSource {
  import opened Wrappers
  import opened CcTypes
  import opened Whitening
  import opened Alignment
  import opened CcNaming

  /**
   * A run of the driver: its configuration, the archives listed by
   * `sorted(glob('*.h5'))` in the FFT directory with their contents, the amplitude smoother
   * and the correlation kernel (with the run's `maxlag`, `dt` and method).
   */
  datatype Run = Run(cfg: Config, files: seq<StationFile>,
                     smoothAbs: seq<Complex> -> seq<real>,
                     kernel: (seq<Row>, seq<Row>, nat) -> seq<real>)

  /**
   * The smoothed amplitude has one value per bin and none of them is zero
   * (numpy would otherwise divide by zero without raising).
   */
  ghost predicate SmoothingOk(smoothAbs: seq<Complex> -> seq<real>)
  {
    forall v :: |smoothAbs(v)| == |v| && NonZero(smoothAbs(v))
  }

  /** The file name yields a network and a station (always so for `*.h5` names). */
  predicate Named(f: StationFile)
  {
    ParseStation(f.path).Some?
  }

  function Station(f: StationFile): (string, string)
    requires Named(f)
  {
    ParseStation(f.path).value
  }

  ghost predicate ValidRun(run: Run)
  {
    && SmoothingOk(run.smoothAbs)
    && forall k :: 0 <= k < |run.files| ==> WellFormedFile(run.files[k]) && Named(run.files[k])
  }

  /** Lines 55-56: auto-correlation cannot be normalised by coherence. */
  function ConfigError(cfg: Config): (r: Option<CcError>)
    ensures r.Some? <==> cfg.autoCorr && cfg.whitening == Coherence
    ensures r.Some? ==> r.value == CoherenceWithAutoCorr
  {
    if cfg.autoCorr && cfg.whitening == Coherence then Some(CoherenceWithAutoCorr) else None
  }

  /** The whitened source spectrum of one component and day, with what the receiver loop needs. */
  datatype Prepared = Prepared(sfft: seq<Row>, std: seq<real>, nfft: nat, key: string)

  predicate ValidPrep(p: Prepared)
  {
    |p.sfft| == |p.std| && Rectangular(p.sfft, p.nfft / 2)
  }

  /** `data[:, :nfft//2]` of a record: every row cut to `half` bins. */
  lemma TruncatedShape(rec: DayRecord, half: nat)
    requires WellFormedRecord(rec) && half <= rec.nfft / 2
    ensures |TruncateRows(rec.data, half)| == rec.nseg
    ensures Rectangular(TruncateRows(rec.data, half), half)
    ensures |Flatten(TruncateRows(rec.data, half))| == rec.nseg * half
  {
    FlattenLength(TruncateRows(rec.data, half), half);
  }

  /**
   * `deconv` under `auto_corr` cannot normalise component `c`: the last
   * listed data type does not store the day (the KeyError of line 133), or
   * its spectrum cut to this record's `nfft//2` bins has another size than
   * this record's, so that the division of line 140 raises.
   */
  ghost predicate ReferenceFails(run: Run, s: StationFile, c: nat, iday: string)
    requires c < |s.components| && iday in s.components[c].days
  {
    var rec := s.components[c].days[iday];
    var reference := s.components[|s.components| - 1];
    && run.cfg.whitening == Deconv && run.cfg.autoCorr
    && (iday !in reference.days ||
        |Flatten(TruncateRows(reference.days[iday].data, rec.nfft / 2))| != rec.nseg * (rec.nfft / 2))
  }

  /** The exception `ReferenceFails` raises. */
  function ReferenceError(s: StationFile, iday: string): CcError
    requires |s.components| > 0
  {
    if iday !in s.components[|s.components| - 1].days then MissingReferenceDay(s.path, iday)
    else ReferenceShapeMismatch(s.path, iday)
  }

  /**
   * The smoothed amplitude `temp` the source spectrum is divided by (unused
   * by `raw`). `deconv` under `auto_corr` takes it from the last listed data
   * type (line 107) at the same day, cut to this record's `nfft//2` bins;
   * a missing day there is a KeyError, and a length different from this
   * spectrum's fails the division (lines 133-142). Otherwise it is the
   * smoothed amplitude of the spectrum itself.
   */
  function Amplitude(run: Run, s: StationFile, c: nat, iday: string): (r: Result<seq<real>, CcError>)
    requires SmoothingOk(run.smoothAbs) && WellFormedFile(s)
    requires c < |s.components| && iday in s.components[c].days
    ensures r.Ok? && run.cfg.whitening != Raw ==>
      var rec := s.components[c].days[iday];
      |r.value| == rec.nseg * (rec.nfft / 2) && NonZero(r.value)
    ensures r.Err? <==> ReferenceFails(run, s, c, iday)
    ensures r.Err? ==> r.error == ReferenceError(s, iday)
  {
    var rec := s.components[c].days[iday];
    var half := rec.nfft / 2;
    if run.cfg.whitening == Raw then Ok([])
    else if run.cfg.whitening == Deconv && run.cfg.autoCorr then
      var reference := s.components[|s.components| - 1];
      if iday !in reference.days then Err(MissingReferenceDay(s.path, iday))
      else
        var temp := run.smoothAbs(Flatten(TruncateRows(reference.days[iday].data, half)));
        if |temp| != rec.nseg * half then Err(ReferenceShapeMismatch(s.path, iday))
        else Ok(temp)
    else
      TruncatedShape(rec, half);
      Ok(run.smoothAbs(Flatten(TruncateRows(rec.data, half))))
  }

  /**
   * Lines 112-153 for source component `c`: nothing when the day is not
   * stored under it; otherwise the record's spectrum cut to `nfft//2` bins
   * and whitened, its std, its `nfft` and the key `netS s staS s comp`.
   */
  function SourceSpectrum(run: Run, s: StationFile, c: nat, iday: string): (r: Result<Option<Prepared>, CcError>)
    requires SmoothingOk(run.smoothAbs) && WellFormedFile(s) && Named(s)
    requires c < |s.components|
    ensures r.Ok? && r.value.None? <==> iday !in s.components[c].days
    ensures r.Err? <==> iday in s.components[c].days && ReferenceFails(run, s, c, iday)
    ensures r.Err? ==> run.cfg.whitening == Deconv && run.cfg.autoCorr && r.error == ReferenceError(s, iday)
    ensures r.Ok? && r.value.Some? ==>
      var rec := s.components[c].days[iday];
      var p := r.value.value;
      && ValidPrep(p) && p.std == rec.std && p.nfft == rec.nfft && |p.sfft| == rec.nseg
      && p.key == PairKey(Station(s).0, Station(s).1, s.components[c].dataType)
    ensures r.Ok? && r.value.Some? && run.cfg.whitening == Raw ==>
      var rec := s.components[c].days[iday];
      r.value.value.sfft == TruncateRows(rec.data, rec.nfft / 2)
  {
    var comp := s.components[c];
    if iday !in comp.days then Ok(None)
    else
      var rec := comp.days[iday];
      var half := rec.nfft / 2;
      var fft1 := TruncateRows(rec.data, half);
      TruncatedShape(rec, half);
      var key := PairKey(Station(s).0, Station(s).1, comp.dataType);
      match Amplitude(run, s, c, iday)
      case Err(e) => Err(e)
      case Ok(temp) => Ok(Some(Prepared(Whiten(run.cfg.whitening, fft1, rec.nseg, half, temp), rec.std, rec.nfft, key)))
  }

  /**
   * The whitening dispatch of lines 129-153, bin by bin: `deconv` divides
   * the conjugate of the component's own spectrum by the square of the
   * smoothed amplitude of its own spectrum, or, under `auto_corr`, of the
   * last listed component's spectrum; `coherence` divides by the smoothed
   * amplitude of its own spectrum, unsquared.
   */
  lemma WhiteningDispatch(run: Run, s: StationFile, c: nat, iday: string, i: nat, j: nat)
    requires SmoothingOk(run.smoothAbs) && WellFormedFile(s) && Named(s) && c < |s.components|
    requires SourceSpectrum(run, s, c, iday).Ok? && SourceSpectrum(run, s, c, iday).value.Some?
    requires run.cfg.whitening != Raw
    requires i < |SourceSpectrum(run, s, c, iday).value.value.sfft|
    requires j < SourceSpectrum(run, s, c, iday).value.value.nfft / 2
    ensures var rec := s.components[c].days[iday];
      var half := rec.nfft / 2;
      var amplitudeOf := if run.cfg.whitening == Deconv && run.cfg.autoCorr
                         then s.components[|s.components| - 1] else s.components[c];
      && iday in amplitudeOf.days
      && var temp := run.smoothAbs(Flatten(TruncateRows(amplitudeOf.days[iday].data, half)));
         && |temp| == rec.nseg * half && NonZero(temp)
         && SourceSpectrum(run, s, c, iday).value.value.sfft[i][j] ==
            (if run.cfg.whitening == Deconv
             then DeconvBin(TruncateRows(rec.data, half)[i][j], Reshape(temp, rec.nseg, half)[i][j])
             else CoherenceBin(TruncateRows(rec.data, half)[i][j], Reshape(temp, rec.nseg, half)[i][j]))
  {
    var comp := s.components[c];
    var rec := comp.days[iday];
    var half := rec.nfft / 2;
    TruncatedShape(rec, half);
    var fft1 := TruncateRows(rec.data, half);
    var key := PairKey(Station(s).0, Station(s).1, comp.dataType);
    var temp := AmplitudeOf(run, s, c, iday);
    var sfft := Whiten(run.cfg.whitening, fft1, rec.nseg, half, temp);
    assert SourceSpectrum(run, s, c, iday) == Ok(Some(Prepared(sfft, rec.std, rec.nfft, key)));
    assert sfft[i][j] == WhitenBin(run.cfg.whitening, fft1[i][j], Reshape(temp, rec.nseg, half)[i][j]);
  }

  /** The amplitude a whitened component is divided by, and where it comes from. */
  lemma AmplitudeOf(run: Run, s: StationFile, c: nat, iday: string) returns (temp: seq<real>)
    requires SmoothingOk(run.smoothAbs) && WellFormedFile(s) && c < |s.components|
    requires iday in s.components[c].days && run.cfg.whitening != Raw
    requires Amplitude(run, s, c, iday).Ok?
    ensures temp == Amplitude(run, s, c, iday).value
    ensures var rec := s.components[c].days[iday];
      var amplitudeOf := if run.cfg.whitening == Deconv && run.cfg.autoCorr
                         then s.components[|s.components| - 1] else s.components[c];
      && iday in amplitudeOf.days
      && temp == run.smoothAbs(Flatten(TruncateRows(amplitudeOf.days[iday].data, rec.nfft / 2)))
      && |temp| == rec.nseg * (rec.nfft / 2) && NonZero(temp)
  {
    temp := Amplitude(run, s, c, iday).value;
  }

  /**
   * Under `auto_corr` the last listed component (the vertical one) is
   * normalised exactly as without it: it is its own reference.
   */
  lemma ReferenceComponentUnaffected(run: Run, s: StationFile, iday: string)
    requires SmoothingOk(run.smoothAbs) && WellFormedFile(s) && Named(s) && |s.components| > 0
    requires run.cfg.whitening == Deconv
    ensures var last := |s.components| - 1;
      SourceSpectrum(run.(cfg := run.cfg.(autoCorr := true)), s, last, iday) ==
      SourceSpectrum(run.(cfg := run.cfg.(autoCorr := false)), s, last, iday)
  {
    var last := |s.components| - 1;
    if iday in s.components[last].days {
      var rec := s.components[last].days[iday];
      TruncatedShape(rec, rec.nfft / 2);
    }
  }

  /** `m[idx, :]`: the rows at the given positions, in order. */
  function Rows(m: seq<Row>, idx: seq<nat>): (r: seq<Row>)
    requires forall k :: 0 <= k < |idx| ==> idx[k] < |m|
    ensures |r| == |idx| && forall k :: 0 <= k < |idx| ==> r[k] == m[idx[k]]
  {
    seq(|idx|, k requires 0 <= k < |idx| => m[idx[k]])
  }

  /**
   * Lines 181-224 for receiver component `d` of file `rcv`: no write when
   * the day is not stored under it or no segment is quiet on both sides;
   * otherwise the kernel applied to the aligned rows of the whitened source
   * and of the receiver spectrum cut to the source's `nfft//2`, stored in
   * the day's file under the source key and `netR s staR s comp`.
   */
  function UnitWrite(run: Run, p: Prepared, src: StationFile, rcv: StationFile, d: nat, iday: string): (r: Option<Write>)
    requires ValidPrep(p) && WellFormedFile(rcv) && Named(rcv) && d < |rcv.components|
    ensures r.Some? ==> r.value.file == DayFileName(iday) && r.value.dataType == p.key
  {
    var comp := rcv.components[d];
    if iday !in comp.days then None
    else
      var rec := comp.days[iday];
      var fft2 := TruncateRows(rec.data, p.nfft / 2);
      var al := Align(p.std, rec.std);
      if |al.indx1| == 0 || |al.indx2| == 0 then None
      else
        assert forall k :: 0 <= k < |al.indx1| ==> al.indx1[k] in al.indx1;
        var corr := run.kernel(Rows(p.sfft, al.indx1), Rows(fft2, al.indx2), p.nfft);
        Some(Write(DayFileName(iday), p.key,
                   PairKey(Station(rcv).0, Station(rcv).1, comp.dataType),
                   Entry(corr, CcParams(run.cfg.dt, run.cfg.maxlag, run.cfg.whitening,
                                        src.lon, src.lat, rcv.lon, rcv.lat))))
  }

  /**
   * A receiver component yields a write exactly when it stores the day and
   * some segment is quiet on both sides (lines 185 and 201-202); the write
   * goes to the day's file under the source key and the receiver key, with
   * the run's parameters and both stations' coordinates.
   */
  lemma UnitWriteExact(run: Run, p: Prepared, src: StationFile, rcv: StationFile, d: nat, iday: string)
    requires ValidPrep(p) && WellFormedFile(rcv) && Named(rcv) && d < |rcv.components|
    ensures var r := UnitWrite(run, p, src, rcv, d, iday);
      && (r.Some? <==>
          && iday in rcv.components[d].days
          && exists k :: Quiet(p.std, k) && Quiet(rcv.components[d].days[iday].std, k))
      && (r.Some? ==>
          && r.value.path == PairKey(Station(rcv).0, Station(rcv).1, rcv.components[d].dataType)
          && r.value.entry.params == CcParams(run.cfg.dt, run.cfg.maxlag, run.cfg.whitening,
                                             src.lon, src.lat, rcv.lon, rcv.lat)
          && var rec := rcv.components[d].days[iday];
             var al := Align(p.std, rec.std);
             && (forall k :: 0 <= k < |al.indx1| ==> al.indx1[k] < |p.sfft| && al.indx2[k] < |rec.data|)
             && r.value.entry.corr == run.kernel(Rows(p.sfft, al.indx1),
                                                 Rows(TruncateRows(rec.data, p.nfft / 2), al.indx2), p.nfft))
  {
    var comp := rcv.components[d];
    if iday in comp.days {
      var al := Align(p.std, comp.days[iday].std);
      EmptyAlignment(p.std, comp.days[iday].std);
      assert forall k :: 0 <= k < |al.indx1| ==> al.indx1[k] in al.indx1;
    }
  }
}
