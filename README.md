# NoisePy download and cross-correlation core in Dafny

This project models the index, partitioning and naming logic of three
NoisePy scripts and proves properties about it.

- **The cross-correlation driver** (`S2_cc_saveday_MPI_v2.2.py`) works like this:
  - Each MPI rank strides over the day keys.
  - For one day, every station FFT archive but the last is a source, and every archive from the source on is a receiver.
  - Every source component is paired with every receiver component. Only segments whose std is below 10 on both sides are kept.
  - The source spectrum is whitened by `deconv`, `coherence` or `raw`. Under `auto_corr`, `deconv` uses the last-listed component as its reference.
  - Each correlation is written to the day's archive `iday.h5`. The data type is `netS s staS s compS` and the path is `netR s staR s compR`.
  - `auto_corr` together with `coherence` is refused before any work starts.
- **The MPI downloader** (`S0_dowload_ASDF_MPI.py`) works like this:
  - The station list comes from a CSV table (a missing `location` column means `*`) or from an inventory.
  - A memory estimate over the chunk's windows is checked against `MAX_MEM`.
  - An empty chunk list aborts.
  - Each rank strides over its chunks. For every station it adds metadata, and it adds waveforms under `chan_location` tags to `start T end .h5`, or writes SAC files.
- **The station-by-station downloader** (`S0_dowload_year_ASDF.py`) works like this:
  - It picks a provenance tag.
  - It creates one archive `direc/net.sta.h5` per station and refuses one that already exists.
  - It reads `YYYY_MM_DD` day keys by slicing.
  - It requests the `n-1` windows between consecutive keys. A failed request skips only its own window.
  - It stores each trace under `tags_YYYY_MM_DD_chan`, built from that trace's own start date.

## Layout

| File | Module | Contents |
|---|---|---|
| `wrappers.dfy` | `Wrappers` | `Option`, `Result` |
| `seqs.dfy` | `Seqs` | associativity of concatenation, shared by the loop proofs |
| `ranges.dfy` | `Ranges` | Python's `range` with a step; which rank owns an index |
| `text.dfy` | `Text` | `str.split`, ASCII `lower`, `endswith`, zero-padded formatting, `int()` on digits |
| `cc_types.dfy` | `CcTypes` | FFT archives, configuration, correlation writes, errors |
| `alignment.dfy` | `Alignment` | the std < 10 segment aligner |
| `whitening.dfy` | `Whitening` | flatten/reshape, the whitening operators |
| `cc_naming.dfy` | `CcNaming` | station names from file names, pair keys, day file names |
| `cc_source.dfy` | `CcSource` | the configuration guard, the prepared source spectrum, one receiver component's write |
| `cc_driver.dfy` | `CcDriver` | one specification function per loop level, and what they write |
| `cc_combos.dfy` | `CcCombos` | the combinations of source, data type, receiver and data type the four loops visit, and their order |
| `cc_writes.dfy` | `CcWrites` | the write each combination yields, and what a loop has written when it stops |
| `cc_order.dfy` | `CcOrder` | one day's writes, one per producing combination, in the loops' order |
| `cc_loops.dfy` | `CcLoops` | the loops as methods over a `CcStore` of writes |
| `download_mpi.dfy` | `DownloadMpi` | the MPI downloader |
| `download_year.dfy` | `DownloadYear` | the station-by-station downloader |

**How the loops are modelled.** Each imperative loop is a method whose
`ensures` ties the new state (the log of archive operations) and any
exception to a specification function. Each such function describes the
loop run from some index to its end. The lemmas beside each function state
what the loop writes, and when it fails.

**Unmodelled calls become parameters.** Calls whose code is not part of
this model become function parameters:
- `moving_ave(np.abs(.))` becomes `smoothAbs`. The model assumes that it keeps the length and never returns zero.
- `optimized_correlate1` becomes `kernel`.
- The network requests and pre-processing become `fetch`.

## Model

| member | source | states |
|---|---|---|
| Ranges.Stride | v2.0_4Xperformace/S2_cc_saveday_MPI_v2.2.py:78 | `range(start, stop, step)` yields values in `[start, stop)`, strictly increasing |
| Ranges.StrideMember | v2.0_4Xperformace/S2_cc_saveday_MPI_v2.2.py:78 | `x` is yielded iff `start <= x < stop` and `x % step == start % step` |
| Ranges.RankOwnsIndex | v2.0_4Xperformace/S2_cc_saveday_MPI_v2.2.py:78-81 | rank `r` processes exactly the day indices `x < splits` with `x % size == r` |
| Ranges.RanksDisjoint | v2.0_4Xperformace/S2_cc_saveday_MPI_v2.2.py:78-81 | no day index is processed by two ranks |
| Ranges.EveryIndexOwned | v2.0_4Xperformace/S2_cc_saveday_MPI_v2.2.py:78-81 | every day index below `splits` is processed by rank `x % size` |
| Text.Split | v2.0_4Xperformace/S2_cc_saveday_MPI_v2.2.py:87-88 | `str.split(sep)` gives at least one field; no field holds `sep`; there is a single field iff `sep` is absent |
| Text.SplitNoSeparator | v2.0_4Xperformace/S2_cc_saveday_MPI_v2.2.py:87-88 | a string without the separator splits into itself |
| Text.SplitAround | v2.0_4Xperformace/S2_cc_saveday_MPI_v2.2.py:87-88 | splitting `a + sep + b` gives the fields of `a` followed by those of `b` |
| Text.SplitAppend | v2.0_4Xperformace/S2_cc_saveday_MPI_v2.2.py:87 | appending text without the separator extends the last field and adds no field |
| Text.SeparatedPrefix | v2.0_4Xperformace/S2_cc_saveday_MPI_v2.2.py:221-222 | two strings `a+c+x` and `b+c+y` that are equal, with `c` in neither `a` nor `b`, have `a == b` and `x == y` |
| Text.Lower | src/S0_dowload_ASDF_MPI.py:225 | `str.lower` keeps the length; each ASCII capital becomes the letter 32 code points above it, and every other character is kept |
| Text.ParseDecimal | src/version_optimize_IO/S0_dowload_year_ASDF.py:114-119 | `int(s)` succeeds iff `s` is a non-empty string of digits |
| Text.ZeroPad | src/version_optimize_IO/S0_dowload_year_ASDF.py:148-149 | `'{0:0Wd}'` yields only digits, at least `W` of them |
| Text.ZeroPadParses | src/version_optimize_IO/S0_dowload_year_ASDF.py:148-149 | `int('{0:0Wd}'.format(n)) == n` |
| Text.ZeroPadWidth | src/version_optimize_IO/S0_dowload_year_ASDF.py:148-149 | a number below `10^W` is formatted with exactly `W` characters |
| Alignment.QuietIndices | v2.0_4Xperformace/S2_cc_saveday_MPI_v2.2.py:194-195 | `np.where(std < 10)[0]` is ascending and holds exactly the positions with std strictly below 10 |
| Alignment.CommonPairs | v2.0_4Xperformace/S2_cc_saveday_MPI_v2.2.py:198 | `intersect1d` with indices returns every index pair of equal values, ordered by the first index |
| Alignment.Align | v2.0_4Xperformace/S2_cc_saveday_MPI_v2.2.py:194-200 | `indx1 == indx2`; both are strictly increasing; `k` is in them iff both stds at `k` are below 10 |
| Alignment.EmptyAlignment | v2.0_4Xperformace/S2_cc_saveday_MPI_v2.2.py:201-202 | the alignment is empty iff no segment is quiet on both sides |
| Alignment.ThresholdIsStrict | v2.0_4Xperformace/S2_cc_saveday_MPI_v2.2.py:194-195 | a std of exactly 10 is not quiet |
| Alignment.AlignmentExample | v2.0_4Xperformace/S2_cc_saveday_MPI_v2.2.py:194-200 | stds `[1,20,2]` and `[1,2,20]` align on segment 0 alone |
| Whitening.FlattenLength | v2.0_4Xperformace/S2_cc_saveday_MPI_v2.2.py:140 | `x.reshape(x.size,)` of an `n x w` matrix has `n*w` entries |
| Whitening.Reshape | v2.0_4Xperformace/S2_cc_saveday_MPI_v2.2.py:153 | `reshape(n, w)` gives `n` rows of `w` entries drawn from the vector |
| Whitening.ReshapeFlatten | v2.0_4Xperformace/S2_cc_saveday_MPI_v2.2.py:140-153 | reshaping a flattened matrix to its own width gives it back |
| Whitening.FlattenReshape | v2.0_4Xperformace/S2_cc_saveday_MPI_v2.2.py:140-153 | flattening a reshaped vector gives it back |
| Whitening.TruncateRows | v2.0_4Xperformace/S2_cc_saveday_MPI_v2.2.py:124 | `data[:, :Nfft//2]` keeps the rows; a row of at least `Nfft//2` bins is cut to its first `Nfft//2`, and a shorter row is kept whole |
| Whitening.WhitenFlat | v2.0_4Xperformace/S2_cc_saveday_MPI_v2.2.py:140-147 | the position-by-position operator keeps the length of the spectrum |
| Whitening.ReshapeWhitenFlat | v2.0_4Xperformace/S2_cc_saveday_MPI_v2.2.py:140-153 | reshaping after the operator equals applying it to the reshaped spectrum and amplitude, bin by bin |
| Whitening.Whiten | v2.0_4Xperformace/S2_cc_saveday_MPI_v2.2.py:129-153 | the result has `Nseg x Nfft//2` shape; `raw` is the identity; otherwise every bin is the method's operator on the same bin and the same bin of the smoothed amplitude |
| Whitening.DeconvBin | v2.0_4Xperformace/S2_cc_saveday_MPI_v2.2.py:140 | `conj(z)/t**2`: the result times `t**2` gives back the real part of `z` and minus its imaginary part |
| Whitening.CoherenceBin | v2.0_4Xperformace/S2_cc_saveday_MPI_v2.2.py:147 | `conj(z)/t`: the result times `t` gives back the conjugate of `z`, and its squared modulus times `t**2` is that of `z` |
| Whitening.DeconvNorm | v2.0_4Xperformace/S2_cc_saveday_MPI_v2.2.py:140 | the squared modulus of `conj(z)/t**2`, times `t**4`, is that of `z` |
| Whitening.WhitenBin | v2.0_4Xperformace/S2_cc_saveday_MPI_v2.2.py:129-152 | `raw` keeps the bin; `coherence` scales its squared modulus by `1/t**2` and `deconv` by `1/t**4` |
| CcNaming.BaseName | v2.0_4Xperformace/S2_cc_saveday_MPI_v2.2.py:87 | `split('/')[-1]` holds no `/` |
| CcNaming.ParseStation | v2.0_4Xperformace/S2_cc_saveday_MPI_v2.2.py:87-88 | network and station are fields 0 and 1 of the base name; they exist iff the base name has a `.`; neither holds a `.` |
| CcNaming.GlobbedNameParses | v2.0_4Xperformace/S2_cc_saveday_MPI_v2.2.py:66-88 | a file matched by `*.h5` always yields network and station |
| CcNaming.StationNameRoundTrip | v2.0_4Xperformace/S2_cc_saveday_MPI_v2.2.py:162-163 | `dir/net.sta.h5` reads back as `(net, sta)` |
| CcNaming.PairKey | v2.0_4Xperformace/S2_cc_saveday_MPI_v2.2.py:221-222 | `net+'s'+sta+'s'+comp` has length of the parts plus two |
| CcNaming.PairKeyInjective | v2.0_4Xperformace/S2_cc_saveday_MPI_v2.2.py:221-222 | when the codes hold no lower-case `s`, equal keys come from equal network, station and component |
| CcNaming.PairKeyAmbiguous | v2.0_4Xperformace/S2_cc_saveday_MPI_v2.2.py:221-222 | without that condition, `AB`/`sC` and `ABs`/`C` share a key |
| CcNaming.DayFileName | v2.0_4Xperformace/S2_cc_saveday_MPI_v2.2.py:210 | `iday+'.h5'` ends with `.h5` and starts with `iday` |
| CcNaming.DayFileNameInjective | v2.0_4Xperformace/S2_cc_saveday_MPI_v2.2.py:210 | two days share a file iff they are the same day |
| CcSource.ConfigError | v2.0_4Xperformace/S2_cc_saveday_MPI_v2.2.py:55-56 | the run is refused iff `auto_corr` and `coherence` are both set |
| CcSource.TruncatedShape | v2.0_4Xperformace/S2_cc_saveday_MPI_v2.2.py:121-124 | a stored record cut to `Nfft//2` bins is an `Nseg x Nfft//2` matrix |
| CcSource.Amplitude | v2.0_4Xperformace/S2_cc_saveday_MPI_v2.2.py:129-145 | the smoothed amplitude has one non-zero value per bin of the spectrum; it fails iff `deconv` with `auto_corr` finds the day missing under the last component (KeyError, line 133) or that component's spectrum of another size (line 140), and the error says which |
| CcSource.SourceSpectrum | v2.0_4Xperformace/S2_cc_saveday_MPI_v2.2.py:112-153 | nothing iff the day is not stored under the component; failure iff the day is stored and the reference amplitude fails, which happens only for `deconv` with `auto_corr`, with that error; the prepared spectrum has `Nseg` rows, the record's std and `nfft`, and the source key; `raw` keeps the cut spectrum |
| CcSource.WhiteningDispatch | v2.0_4Xperformace/S2_cc_saveday_MPI_v2.2.py:107-153 | `deconv` divides the conjugate bin by the squared amplitude (of the last component under `auto_corr`); `coherence` divides it by the amplitude of its own spectrum |
| CcSource.ReferenceComponentUnaffected | v2.0_4Xperformace/S2_cc_saveday_MPI_v2.2.py:132-136 | the last-listed component is whitened the same with or without `auto_corr` |
| CcSource.Rows | v2.0_4Xperformace/S2_cc_saveday_MPI_v2.2.py:205 | `m[idx, :]` holds the rows at `idx`, in order |
| CcSource.UnitWrite | v2.0_4Xperformace/S2_cc_saveday_MPI_v2.2.py:180-224 | a write goes to the day's file under the source key |
| CcSource.UnitWriteExact | v2.0_4Xperformace/S2_cc_saveday_MPI_v2.2.py:185-224 | a receiver component writes iff it stores the day and some segment is jointly quiet; the path is `netR s staR s compR`; the parameters are the run's and both stations' coordinates; the correlation is the kernel applied to the source rows and the cut receiver rows at the aligned indices, which are in range |
| CcDriver.ReceiverComponents | v2.0_4Xperformace/S2_cc_saveday_MPI_v2.2.py:180-224 | loop IV writes only to the day's file, under the source key |
| CcDriver.Receivers | v2.0_4Xperformace/S2_cc_saveday_MPI_v2.2.py:160-224 | loop III writes only to the day's file, under the source key |
| CcDriver.SourceComponents | v2.0_4Xperformace/S2_cc_saveday_MPI_v2.2.py:109-224 | loop II writes only to the day's file |
| CcDriver.SourceFile | v2.0_4Xperformace/S2_cc_saveday_MPI_v2.2.py:92-224 | one source file writes only to the day's file |
| CcDriver.Sources | v2.0_4Xperformace/S2_cc_saveday_MPI_v2.2.py:85-224 | loop I writes only to the day's file |
| CcDriver.DayOutcome | v2.0_4Xperformace/S2_cc_saveday_MPI_v2.2.py:85-224 | a day writes only to its own file |
| CcDriver.DaysWriteTheirFiles | v2.0_4Xperformace/S2_cc_saveday_MPI_v2.2.py:78-81 | every write of a sequence of days goes to the file of one of them |
| CcDriver.DaysFailure | v2.0_4Xperformace/S2_cc_saveday_MPI_v2.2.py:78-81 | a sequence of days fails iff one of its days fails |
| CcDriver.RankOutcome | v2.0_4Xperformace/S2_cc_saveday_MPI_v2.2.py:55-81 | with the refused configuration, a rank writes nothing and fails with that error |
| CcDriver.RankWritesOwnDays | v2.0_4Xperformace/S2_cc_saveday_MPI_v2.2.py:78-81 | rank `r` writes only to files of days `k` with `k % size == r` |
| CcDriver.Prep | v2.0_4Xperformace/S2_cc_saveday_MPI_v2.2.py:112-153 | a prepared spectrum has consistent shape |
| CcDriver.ReceiverComponentsExact | v2.0_4Xperformace/S2_cc_saveday_MPI_v2.2.py:180-202 | a write is in loop IV's output iff some receiver component from `d0` on produces it |
| CcDriver.ReceiversSound | v2.0_4Xperformace/S2_cc_saveday_MPI_v2.2.py:160-224 | every write of loop III comes from some receiver `j >= j0` and component |
| CcDriver.ReceiversComplete | v2.0_4Xperformace/S2_cc_saveday_MPI_v2.2.py:160-224 | every receiver `j >= j0` and component that produces a write has it in loop III's output |
| CcDriver.SourceComponentsFailure | v2.0_4Xperformace/S2_cc_saveday_MPI_v2.2.py:109-153 | loop II fails iff some component from `c0` on fails to prepare |
| CcDriver.SourceComponentsSound | v2.0_4Xperformace/S2_cc_saveday_MPI_v2.2.py:109-224 | every write of loop II comes from a component `c >= c0` and a receiver `j >= i` |
| CcDriver.SourceComponentsComplete | v2.0_4Xperformace/S2_cc_saveday_MPI_v2.2.py:109-224 | without failure, loop II writes every such combination |
| CcDriver.SourceFileFailure | v2.0_4Xperformace/S2_cc_saveday_MPI_v2.2.py:103-107 | a source file fails iff it is empty under `auto_corr` or one of its components fails |
| CcDriver.SourcesFailure | v2.0_4Xperformace/S2_cc_saveday_MPI_v2.2.py:85 | loop I fails iff some source file before the last fails |
| CcDriver.SourcesSound | v2.0_4Xperformace/S2_cc_saveday_MPI_v2.2.py:85-224 | every write of loop I comes from `i < n-1`, `i <= j` and some pair of components |
| CcDriver.SourcesComplete | v2.0_4Xperformace/S2_cc_saveday_MPI_v2.2.py:85-224 | without failure, loop I writes every such combination |
| CcDriver.DayExact | v2.0_4Xperformace/S2_cc_saveday_MPI_v2.2.py:85-224 | a day fails iff a source before the last fails; otherwise its writes are exactly those of pairs `i < n-1`, `i <= j < n` and every component pair that stores the day and aligns |
| CcCombos.ReceiverComponentCombosMember | v2.0_4Xperformace/S2_cc_saveday_MPI_v2.2.py:180 | loop IV from `d0` visits exactly the receiver data types `d0 <= d < n[j]` |
| CcCombos.ReceiverCombosMember | v2.0_4Xperformace/S2_cc_saveday_MPI_v2.2.py:160-180 | loop III from `j0` visits exactly every data type of every receiver file `j0 <= j < n` |
| CcCombos.SourceComponentCombosMember | v2.0_4Xperformace/S2_cc_saveday_MPI_v2.2.py:109-180 | loop II from `c0` visits exactly the source data types from `c0` on, each with every receiver from the source on |
| CcCombos.SourceCombosMember | v2.0_4Xperformace/S2_cc_saveday_MPI_v2.2.py:85-180 | loop I from `i0` visits exactly the combinations whose source is from `i0` on and before the last file |
| CcCombos.ReceiverComponentCombosOrdered | v2.0_4Xperformace/S2_cc_saveday_MPI_v2.2.py:180 | loop IV visits its combinations in strictly increasing order, so none twice |
| CcCombos.ReceiverCombosOrdered | v2.0_4Xperformace/S2_cc_saveday_MPI_v2.2.py:160-180 | loop III visits its combinations in strictly increasing order |
| CcCombos.SourceComponentCombosOrdered | v2.0_4Xperformace/S2_cc_saveday_MPI_v2.2.py:109-180 | loop II visits its combinations in strictly increasing order |
| CcCombos.SourceCombosOrdered | v2.0_4Xperformace/S2_cc_saveday_MPI_v2.2.py:85-180 | loop I visits its combinations in strictly increasing lexicographic order of `(i, c, j, d)` |
| CcCombos.ConcatInLoopOrder | v2.0_4Xperformace/S2_cc_saveday_MPI_v2.2.py:85-180 | two ordered visit lists, the first entirely before the second, concatenate to an ordered list |
| CcWrites.WriteOfProduces | v2.0_4Xperformace/S2_cc_saveday_MPI_v2.2.py:180-224 | a combination yields `w` iff the four loops, at that combination, store `w` |
| CcWrites.WritesOfConcat | v2.0_4Xperformace/S2_cc_saveday_MPI_v2.2.py:85-224 | the writes of two visit lists one after the other are the writes of the first, then of the second |
| CcWrites.WritesOfPrefix | v2.0_4Xperformace/S2_cc_saveday_MPI_v2.2.py:85-224 | the writes of a list and a prefix of the next are those of the matching prefix of their concatenation |
| CcWrites.WritesOfUnprepared | v2.0_4Xperformace/S2_cc_saveday_MPI_v2.2.py:115-153 | a source data type without a prepared spectrum yields no write for any receiver |
| CcOrder.DayCombosExact | v2.0_4Xperformace/S2_cc_saveday_MPI_v2.2.py:85-180 | one day visits each combination with `i < n-1`, `c < n[i]`, `i <= j < n`, `d < n[j]` exactly once, in lexicographic order, and nothing else |
| CcOrder.ReceiverComponentsInOrder | v2.0_4Xperformace/S2_cc_saveday_MPI_v2.2.py:180-224 | loop IV's writes are one per producing receiver data type, in the order visited |
| CcOrder.ReceiversInOrder | v2.0_4Xperformace/S2_cc_saveday_MPI_v2.2.py:160-224 | loop III's writes are one per producing receiver combination, in the order visited |
| CcOrder.SourceComponentsInOrder | v2.0_4Xperformace/S2_cc_saveday_MPI_v2.2.py:109-224 | loop II's writes are those of a prefix of its visit list, in order, and of all of it unless it fails |
| CcOrder.SourceFileInOrder | v2.0_4Xperformace/S2_cc_saveday_MPI_v2.2.py:92-224 | one source file's writes are those of a prefix of its visit list, and of all of it unless it fails |
| CcOrder.SourcesInOrder | v2.0_4Xperformace/S2_cc_saveday_MPI_v2.2.py:85-224 | loop I's writes are those of a prefix of its visit list, and of all of it unless a source fails |
| CcOrder.DayInLoopOrder | v2.0_4Xperformace/S2_cc_saveday_MPI_v2.2.py:85-224 | a day's writes are one per producing combination, in the loops' order, up to the failing source; all of them when the day does not fail |
| CcDriver.RanksWriteDisjointFiles | v2.0_4Xperformace/S2_cc_saveday_MPI_v2.2.py:78-81 | with distinct day keys, two ranks never write to the same file |
| CcLoops.CcStore.Add | v2.0_4Xperformace/S2_cc_saveday_MPI_v2.2.py:224 | `add_auxiliary_data` appends one write |
| CcLoops.CorrelateReceiverFile | v2.0_4Xperformace/S2_cc_saveday_MPI_v2.2.py:177-224 | loop IV appends exactly `ReceiverComponents` |
| CcLoops.CorrelateReceivers | v2.0_4Xperformace/S2_cc_saveday_MPI_v2.2.py:160-224 | loop III appends exactly `Receivers` |
| CcLoops.CorrelateSource | v2.0_4Xperformace/S2_cc_saveday_MPI_v2.2.py:92-224 | one source file appends `SourceFile`'s writes and reports its failure |
| CcLoops.CorrelateDay | v2.0_4Xperformace/S2_cc_saveday_MPI_v2.2.py:85-224 | one day appends `DayOutcome`'s writes and reports its failure |
| CcLoops.RunDays | v2.0_4Xperformace/S2_cc_saveday_MPI_v2.2.py:76-81 | the rank loop does the days at `range(rank, splits, size)`; iterations past `splits` do nothing; without failure the handled indices are exactly that range |
| CcLoops.RunRank | v2.0_4Xperformace/S2_cc_saveday_MPI_v2.2.py:55-81 | the guard, then the rank loop: writes and failure are `RankOutcome`'s |
| DownloadMpi.LocationColumn | src/S0_dowload_ASDF_MPI.py:103-106 | the `location` column when present, else `'*'` for every station |
| DownloadMpi.FromTable | src/S0_dowload_ASDF_MPI.py:94-106 | fails iff a required column is missing, naming it; otherwise the four lists are the columns, each with one entry per row |
| DownloadMpi.AssembleStations | src/S0_dowload_ASDF_MPI.py:126-135 | the nested loops build four lists of length `nsta`, one entry per inventory channel in order |
| DownloadMpi.ChannelEntries | src/S0_dowload_ASDF_MPI.py:130-135 | one entry per channel of the station, in order, with the network and station codes and the channel's own code and location |
| DownloadMpi.StationEntries | src/S0_dowload_ASDF_MPI.py:129-135 | as many entries as the network's stations hold channels, all with the network's code |
| DownloadMpi.InventoryEntries | src/S0_dowload_ASDF_MPI.py:128-135 | as many entries as the inventory holds channels |
| DownloadMpi.InventoryEntriesSound | src/S0_dowload_ASDF_MPI.py:128-135 | every entry is some channel of some station of some network |
| DownloadMpi.InventoryEntriesComplete | src/S0_dowload_ASDF_MPI.py:128-135 | every channel of the inventory has its entry |
| DownloadMpi.SegmentsPerChunk | src/S0_dowload_ASDF_MPI.py:139-140 | `nseg - 1` is the floor of `(inc_hours*3600 - cc_len)/step` |
| DownloadMpi.SegmentsFit | src/S0_dowload_ASDF_MPI.py:139-140 | the last of the `nseg` windows fits in the chunk and one more would not |
| DownloadMpi.SegmentsExample | src/S0_dowload_ASDF_MPI.py:139-140 | 48 h, 3600 s, 1800 s give 95 windows |
| DownloadMpi.PointsAtLeastOneWindow | src/S0_dowload_ASDF_MPI.py:141 | a chunk holding a window holds at least `cc_len*NewFreq` points |
| DownloadMpi.PointsPerChunk | src/S0_dowload_ASDF_MPI.py:141 | with non-empty windows, a chunk holds samples iff one window fits in it |
| DownloadMpi.MemoryGB | src/S0_dowload_ASDF_MPI.py:142 | the estimate in GB is within a limit iff `nsta*npts*4` bytes are within the limit's bytes |
| DownloadMpi.CheckMemory | src/S0_dowload_ASDF_MPI.py:142-145 | fails iff `nsta*npts*4` bytes strictly exceed `MAX_MEM` GB, reporting the estimate |
| DownloadMpi.MemoryMonotoneInStations | src/S0_dowload_ASDF_MPI.py:142-143 | more stations never need less memory |
| DownloadMpi.MemoryMonotoneInHours | src/S0_dowload_ASDF_MPI.py:139-145 | shorter chunks never need more memory, so reducing `inc_hours` never turns a pass into a failure |
| DownloadMpi.PointsMonotoneInHours | src/S0_dowload_ASDF_MPI.py:139-141 | shorter chunks never hold more samples |
| DownloadMpi.ChunkCount | src/S0_dowload_ASDF_MPI.py:167-170 | an empty chunk list aborts; otherwise `splits` is one less than the number of boundaries |
| DownloadMpi.SingleBoundaryNoWork | src/S0_dowload_ASDF_MPI.py:168-179 | a single boundary passes the abort guard and gives no chunk to any rank |
| DownloadMpi.AsdfFileName | src/S0_dowload_ASDF_MPI.py:202 | `start+'T'+end+'.h5'` ends with `.h5` |
| DownloadMpi.SacFileName | src/S0_dowload_ASDF_MPI.py:229 | `net+sta+'.'+start+'T'+end+'.SAC'` as written ends with `.SAC` |
| DownloadMpi.SacFileNameReadBack | src/S0_dowload_ASDF_MPI.py:229 | with no `.` in `net+sta` and no `T` in the start, the name gives back `net+sta`, the start and the end, and nothing else |
| DownloadMpi.SacChannelsCollide | src/S0_dowload_ASDF_MPI.py:229-232 | as written, the station loop gives channels `BHE` and `BHN` of `CI.BLC` in one chunk the same SAC file, while their corrected names differ |
| DownloadMpi.StationPutsSacCollide | src/S0_dowload_ASDF_MPI.py:229-232 | as written, any two entries of one station with data in one chunk put to the same SAC file |
| DownloadMpi.SacChannelFileName | src/S0_dowload_ASDF_MPI.py:229 | the corrected name, with the entry's channel and location, ends with `.SAC` |
| DownloadMpi.SacChannelFileNameInjective | src/S0_dowload_ASDF_MPI.py:229 | with no `.` in the codes and no `T` in the start, the corrected name gives back station, channel, location, start and end |
| DownloadMpi.SacFilesDistinct | src/S0_dowload_ASDF_MPI.py:186-232 | the corrected SAC names of two entries or chunks that differ in station, channel, location or start never coincide |
| DownloadMpi.AsdfFileNameInjective | src/S0_dowload_ASDF_MPI.py:202 | when start boundaries have no `T`, the name determines start and end |
| DownloadMpi.ChunkFilesDistinct | src/S0_dowload_ASDF_MPI.py:181-202 | distinct boundaries without `T` give different chunks different archives |
| DownloadMpi.TagLocation | src/S0_dowload_ASDF_MPI.py:223-224 | `'*'` becomes `'00'`; any other location is kept |
| DownloadMpi.WaveformTag | src/S0_dowload_ASDF_MPI.py:225 | the tag is the channel, `_` and the location, in length |
| DownloadMpi.WaveformTagFields | src/S0_dowload_ASDF_MPI.py:223-225 | with codes free of `_`, the tag splits into lower-cased channel and location |
| DownloadMpi.WildcardIsZeroZero | src/S0_dowload_ASDF_MPI.py:223-225 | location `*` and `00` give the same tag |
| DownloadMpi.StationWaveformsWritten | src/S0_dowload_ASDF_MPI.py:186-226 | in ASDF form, a station's waveforms are stored under its tag iff the request succeeded and data remained; its metadata is stored iff the station lookup succeeded |
| DownloadMpi.StationPuts | src/S0_dowload_ASDF_MPI.py:189-232 | at most two operations, all of the station; none when the station lookup fails; in SAC form, one iff the request returned data |
| DownloadMpi.StationPutsFile | src/S0_dowload_ASDF_MPI.py:201-229 | in ASDF form every operation goes to the chunk's archive; in SAC form it is the one trace written to line 229's name |
| DownloadMpi.ChunkPuts | src/S0_dowload_ASDF_MPI.py:186 | at most two operations per station from `ista` on, each of one of those stations |
| DownloadMpi.ChunksPuts | src/S0_dowload_ASDF_MPI.py:179 | every operation is of some station of the list |
| DownloadMpi.ChunkPutsSacFile | src/S0_dowload_ASDF_MPI.py:186-232 | in SAC form every operation of a chunk is a trace written to line 229's name for its station and the chunk |
| DownloadMpi.ChunksPutsSacFiles | src/S0_dowload_ASDF_MPI.py:179-232 | in SAC form every operation of a rank is a trace written to line 229's name for its station and one of its chunks |
| DownloadMpi.ChunksPutsFiles | src/S0_dowload_ASDF_MPI.py:179-226 | in ASDF form, every operation of a rank goes to the archive of one of its chunks |
| DownloadMpi.ChunkPutsFile | src/S0_dowload_ASDF_MPI.py:186-226 | in ASDF form, every operation of a chunk goes to that chunk's archive |
| DownloadMpi.Archive.Add | src/S0_dowload_ASDF_MPI.py:226 | one archive operation is appended |
| DownloadMpi.DownloadChunk | src/S0_dowload_ASDF_MPI.py:186-232 | the station loop appends exactly `ChunkPuts`, SAC traces going to line 229's name as written |
| DownloadMpi.DownloadRank | src/S0_dowload_ASDF_MPI.py:143-182 | fails with nothing written iff memory is exceeded or there is no boundary; otherwise it appends the chunks of `range(rank, splits, size)` in order |
| DownloadMpi.DownloadChunks | src/S0_dowload_ASDF_MPI.py:179-182 | the chunk loop appends the operations of the chunks `range(rank, splits, size)`, in order |
| DownloadMpi.ChunkOwnedByOneRank | src/S0_dowload_ASDF_MPI.py:179 | chunk `ick` is downloaded by rank `ick % size` and by no other |
| DownloadYear.Provenance | src/version_optimize_IO/S0_dowload_year_ASDF.py:51-58 | each of the four tags is chosen iff its combination of `resp` and `checkt` holds |
| DownloadYear.ProvenanceInjective | src/version_optimize_IO/S0_dowload_year_ASDF.py:51-58 | different flag settings never share a tag |
| DownloadYear.DateKey | src/version_optimize_IO/S0_dowload_year_ASDF.py:114-119 | a key is read iff slices `[:4]`, `[5:7]` and `[8:]` are all digit strings |
| DownloadYear.Slice | src/version_optimize_IO/S0_dowload_year_ASDF.py:114-119 | Python's `s[i:j]`: indices past the end are clipped, and the entries are those of `s` from `i` |
| DownloadYear.SliceFrom | src/version_optimize_IO/S0_dowload_year_ASDF.py:118-119 | Python's `s[i:]`: empty past the end, otherwise the entries of `s` from `i` |
| DownloadYear.SliceThenRest | src/version_optimize_IO/S0_dowload_year_ASDF.py:114-119 | `s[:i] + s[i:]` is `s` |
| DownloadYear.DateKeyRoundTrip | src/version_optimize_IO/S0_dowload_year_ASDF.py:114-119 | a date written as `YYYY_MM_DD` reads back as itself |
| DownloadYear.DateStringInjective | src/version_optimize_IO/S0_dowload_year_ASDF.py:148-149 | different dates are written differently |
| DownloadYear.DateString | src/version_optimize_IO/S0_dowload_year_ASDF.py:148-149 | `{0:04d}_{1:02d}_{2:02d}` has at least ten characters, and exactly ten with `_` at 4 and 7 for a four-digit year |
| DownloadYear.TraceTag | src/version_optimize_IO/S0_dowload_year_ASDF.py:148-149 | the tag is the provenance, `_`, a date field, then `_` and the lower-cased channel |
| DownloadYear.TraceTagDate | src/version_optimize_IO/S0_dowload_year_ASDF.py:148-149 | the trace's start date reads back from the tag's date field |
| DownloadYear.TraceTagsDiffer | src/version_optimize_IO/S0_dowload_year_ASDF.py:152-155 | traces of one channel starting on different days get different tags |
| DownloadYear.Windows | src/version_optimize_IO/S0_dowload_year_ASDF.py:111-113 | `n` keys give `n-1` windows `(days[ii], days[ii+1])`, and none for no key |
| DownloadYear.WindowsChain | src/version_optimize_IO/S0_dowload_year_ASDF.py:111-113 | each window starts where the previous one ended |
| DownloadYear.StationFileName | src/version_optimize_IO/S0_dowload_year_ASDF.py:93 | `direc+'/'+net+'.'+sta+'.h5'` ends with `.h5` |
| DownloadYear.StationFileReadBack | src/version_optimize_IO/S0_dowload_year_ASDF.py:93 | the correlator's name parsing reads back `(net, sta)` |
| DownloadYear.TracePuts | src/version_optimize_IO/S0_dowload_year_ASDF.py:146-155 | trace `k` is stored under the tag of its own start date |
| DownloadYear.WindowOutcome | src/version_optimize_IO/S0_dowload_year_ASDF.py:112-155 | a window fails iff one of its keys is unreadable, naming the key read first, and stores nothing then; a failed request stores nothing; otherwise every trace is stored; every put goes to the station's archive |
| DownloadYear.FirstBadKey | src/version_optimize_IO/S0_dowload_year_ASDF.py:114-119 | nothing iff both keys read; otherwise one of the two keys, and one that does not read |
| DownloadYear.YearsReadFirst | src/version_optimize_IO/S0_dowload_year_ASDF.py:114-119 | with a bad month in the first key and a bad year in the second, the second key raises |
| DownloadYear.FailedRequestSkipsWindow | src/version_optimize_IO/S0_dowload_year_ASDF.py:128-137 | a failed request leaves the rest of the loop unchanged |
| DownloadYear.ChannelStoresEveryTrace | src/version_optimize_IO/S0_dowload_year_ASDF.py:111-155 | with readable keys, every trace of every window from `ii` on is stored under its own tag |
| DownloadYear.ChannelSucceeds | src/version_optimize_IO/S0_dowload_year_ASDF.py:111-119 | with readable keys, the window loop never raises |
| DownloadYear.StationOutcome | src/version_optimize_IO/S0_dowload_year_ASDF.py:98-163 | a station's operations begin with its metadata and all go to its archive `f1`; when it does not fail, they also end with its metadata |
| DownloadYear.ListStationOutcome | src/version_optimize_IO/S0_dowload_year_ASDF.py:216-281 | in the station-list branch a station's operations begin with its metadata, all go to `f1`, and the rest are waveforms only |
| DownloadYear.ListBranchStoresMetadataOnce | src/version_optimize_IO/S0_dowload_year_ASDF.py:163-224 | the two branches fail alike; without failure the manual branch's operations are the list branch's plus one closing metadata put |
| DownloadYear.ChannelsOnlyWaveforms | src/version_optimize_IO/S0_dowload_year_ASDF.py:105-155 | the channel loop stores waveforms only |
| DownloadYear.ChannelOnlyWaveforms | src/version_optimize_IO/S0_dowload_year_ASDF.py:111-155 | the window loop stores waveforms only |
| DownloadYear.ChannelFrom | src/version_optimize_IO/S0_dowload_year_ASDF.py:111-155 | every operation of the window loop goes to the station's archive |
| DownloadYear.ChannelsFrom | src/version_optimize_IO/S0_dowload_year_ASDF.py:105-155 | every operation of the channel loop goes to the station's archive |
| DownloadYear.InventoryFrom | src/version_optimize_IO/S0_dowload_year_ASDF.py:87-163 | archives are only ever added, and every operation goes to an archive that exists afterwards |
| DownloadYear.SuccessCreatesFreshFiles | src/version_optimize_IO/S0_dowload_year_ASDF.py:93-98 | a run that raises nothing found no station's archive already there, and created each one |
| DownloadYear.SuccessMeansDistinctFiles | src/version_optimize_IO/S0_dowload_year_ASDF.py:93-96 | a run that raises nothing gave no two stations the same archive |
| DownloadYear.SuccessStep | src/version_optimize_IO/S0_dowload_year_ASDF.py:93-98 | a station reached without failure finds its archive absent, and the rest of the run continues with it created |
| DownloadYear.NextNetwork | src/version_optimize_IO/S0_dowload_year_ASDF.py:87-89 | after a network's last station the run continues with the next network's first |
| DownloadYear.Disk.Create | src/version_optimize_IO/S0_dowload_year_ASDF.py:98 | opening an archive creates it |
| DownloadYear.Disk.Add | src/version_optimize_IO/S0_dowload_year_ASDF.py:150 | one archive operation is appended |
| DownloadYear.StoreTraces | src/version_optimize_IO/S0_dowload_year_ASDF.py:146-155 | both branches append exactly `TracePuts` |
| DownloadYear.DownloadChannel | src/version_optimize_IO/S0_dowload_year_ASDF.py:111-155 | the window loop appends `ChannelFrom`'s operations and reports its failure |
| DownloadYear.DownloadChannels | src/version_optimize_IO/S0_dowload_year_ASDF.py:105-155 | the channel loop appends `ChannelsFrom`'s operations and reports its failure, creating no archive |
| DownloadYear.DownloadStation | src/version_optimize_IO/S0_dowload_year_ASDF.py:98-163 | the channel loop between two metadata operations matches `StationOutcome` |
| DownloadYear.DownloadInventory | src/version_optimize_IO/S0_dowload_year_ASDF.py:87-163 | the network and station loops match `InventoryFrom`: operations, archives and failure |

## Left out

- **MPI, file and network calls are not modelled.** Broadcast, barrier, rank and size acquisition, HDF5/ASDF reading, `glob`, `os.path` checks, `pd.read_csv`, the SAC writer, the `download_info.txt` dump, and the FDSN client all fall under this. `rank` and `size` are parameters. Archives are modelled as logs of operations. What a request returns is the `fetch` parameter.
- **The `noise_module` routines are not modelled.** This covers `moving_ave`, `optimized_correlate1`, `preprocess_raw`, `get_event_list`, `optimized_cc_parameters` and `make_stationlist_CSV`. They are parameters, or their results are inputs (the day list, the chunk boundaries, the processed traces).
- **Floating point and complex numbers are modelled over `real`.** `conj(z)/temp**2` is written as two divisions by `temp`, which is equal over the reals.
- **The `try/except ValueError` around the whitening division (lines 139-149) is not a zero check.** numpy does not raise there. Instead, the smoothed amplitude is assumed non-zero and of the spectrum's length (`SmoothingOk`).
- **Numpy's broadcast of a length-1 amplitude is not modelled.** A reference amplitude of another length is the `ReferenceShapeMismatch` failure.
- **An unknown `method` string is not modelled.** The method is the closed type `Method`.
- **The segment-quality threshold is the constant 10 of line 194**, not a configurable parameter.
- **Timing, printing, warning suppression and `flag` output are not modelled.** This includes the possibly unbound `ds`/`new_tags` printed at line 235 of the MPI downloader.
- **`obspy.UTCDateTime` calendar validation is not modelled.** For example, month 13 is not checked. `DateKey` reads only the three digit fields.
- CcSource.UnitWrite: its own contract states only the file and data type. When it writes, the path, the parameters and the correlation are stated in `UnitWriteExact`.
- Text.ParseDecimal: accepts only ASCII digit strings. Python's `int()` also accepts signs, surrounding whitespace and underscores. Such keys count as unreadable here.
- Text.Lower: lower-cases ASCII letters only; other letters are kept as they are.
- DownloadMpi.SegmentsPerChunk: `inc_hours/24*86400` is taken as the exact integer `inc_hours*3600`. The float rounding of the division is not modelled.
- **Known defects of the yearly downloader are not modelled.**
  - The list branch reads `lamin`/`lamax`/`lomin`/`lomax`, which it never defines (lines 197-198), and `respdir` instead of `resp_dir` (line 264).
  - After a failed lookup it keeps using the previous row's `inv`.
  - The manual branch concatenates a string with `type(e)` (line 80).
  - `for chan in sta` rebinds `chan`, which is also used in the later station lookups.
  - `StationOutcome`, `DownloadStation` and `DownloadInventory` follow the manual branch (lines 87-163), which stores metadata before and after the channels. The station-list branch stores it once, at line 224, and nothing after the channel loop; its station is `ListStationOutcome`, related to the manual one by `ListBranchStoresMetadataOnce`. The list branch's per-row loop (lines 175-207), its per-row request and its own station loop are not separate methods.
- **The per-row start and end dates of the station list are not modelled.** They feed only `get_event_list`, so they are not modelled beyond the `days` parameter.
- CcSource.ValidRun and CcTypes.WellFormedRecord: records whose row count or std length differ from `Nseg`, or whose rows hold fewer than `Nfft//2` bins, are excluded. The driver raises on them (the reshape ValueError at line 153, or an IndexError at lines 205-206); the model has no error for them.
- **Under `auto_corr` an empty data-type list fails.** This is the IndexError of `data_types_s[-1]` (`NoDataTypes`). A missing reference day fails with `MissingReferenceDay`, the KeyError at line 133.

## Findings

| source | as written | input that shows it | evidently intended | confidence | as-written member | corrected member |
|---|---|---|---|---|---|---|
| src/S0_dowload_ASDF_MPI.py:229 | the SAC file name is `net+sta+'.'+start+'T'+end+'.SAC'`, with no channel or location, and line 231 writes only `tr[0]` | two list entries `CI.BLC.BHE` and `CI.BLC.BHN` in one chunk: both name the same file, so the second write replaces the first | one SAC file per channel and location | medium, not executed | DownloadMpi.SacChannelsCollide | DownloadMpi.SacChannelFileNameInjective |

The station loop of the model (`DownloadMpi.StationPuts`, `DownloadMpi.DownloadChunk`) writes SAC traces to line 229's name as written, so the collision is shown on the loop itself (`DownloadMpi.StationPutsSacCollide`, `DownloadMpi.SacChannelsCollide`). The corrected name is `DownloadMpi.SacFile`; `DownloadMpi.SacFilesDistinct` proves it separates every entry and chunk.
