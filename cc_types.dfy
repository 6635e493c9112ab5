/**
 * The values the cross-correlation driver works on: an FFT archive per
 * station (one `StationFile`), whose auxiliary data holds one `Component`
 * per channel data type, each keyed by day; and the entries it writes into
 * the per-day correlation archive.
 */
module CcTypes {

  /** A complex spectrum sample; numpy's complex floats are modelled over `real`. */
  datatype Complex = Complex(re: real, im: real)

  function Conj(z: Complex): Complex
  {
    Complex(z.re, -z.im)
  }

  /** Division of a complex sample by a non-zero real. */
  function DivReal(z: Complex, d: real): Complex
    requires d != 0.0
  {
    Complex(z.re / d, z.im / d)
  }

  /** One row of a spectrum matrix: one time segment's frequency bins. */
  type Row = seq<Complex>

  /** The closed set of whitening methods the driver dispatches on. */
  datatype Method = Deconv | Coherence | Raw

  /**
   * `auxiliary_data[data_type][day]` of an FFT archive: the parameters
   * `nfft`, `nseg` and `std` and the stored segment-by-bin matrix.
   */
  datatype DayRecord = DayRecord(nfft: nat, nseg: nat, std: seq<real>, data: seq<Row>)

  /** One auxiliary data type (a channel) and the day paths stored under it. */
  datatype Component = Component(dataType: string, days: map<string, DayRecord>)

  /** One FFT archive file: its path, the station coordinates from its
      StationXML, and its data types in listing order. */
  datatype StationFile = StationFile(path: string, lon: real, lat: real, components: seq<Component>)

  /**
   * A stored record is consistent: one row and one std value per segment,
   * and every row holds at least `nfft/2` bins. The driver's reshape and
   * row indexing raise on any other record.
   */
  predicate WellFormedRecord(r: DayRecord)
  {
    && |r.data| == r.nseg
    && |r.std| == r.nseg
    && forall i :: 0 <= i < |r.data| ==> |r.data[i]| >= r.nfft / 2
  }

  predicate WellFormedFile(f: StationFile)
  {
    forall c, d :: 0 <= c < |f.components| && d in f.components[c].days ==>
      WellFormedRecord(f.components[c].days[d])
  }

  /** The run parameters the driver reads (`auto_corr`, `method`, `dt`, `maxlag`). */
  datatype Config = Config(autoCorr: bool, whitening: Method, dt: real, maxlag: real)

  /** What `optimized_cc_parameters` is given and stores beside each correlation. */
  datatype CcParams = CcParams(dt: real, maxlag: real, whitening: Method,
                               lonS: real, latS: real, lonR: real, latR: real)

  /** One correlation function and its parameters. */
  datatype Entry = Entry(corr: seq<real>, params: CcParams)

  /** `add_auxiliary_data` into the day archive `file`, under `dataType` and `path`. */
  datatype Write = Write(file: string, dataType: string, path: string, entry: Entry)

  /** The exceptions that stop the driver. */
  datatype CcError =
    | CoherenceWithAutoCorr
    | NoDataTypes(file: string)
    | MissingReferenceDay(file: string, day: string)
    | ReferenceShapeMismatch(file: string, day: string)
}
