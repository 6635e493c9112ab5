/**
 * The station-by-station downloader
 * `src/version_optimize_IO/S0_dowload_year_ASDF.py`: every station of an
 * inventory gets its own archive `direc/net.sta.h5`, refused when it
 * already exists; for each channel the consecutive day keys of
 * `get_event_list` give the request windows, and every trace that survives
 * pre-processing is stored under a tag made of the provenance, the trace's
 * start date and the channel.
 *
 * The network client and the pre-processing are not modelled: the traces a
 * window yields (`None` when the request raised) are the parameter
 * `fetch(net, sta, chan, ii)`, each trace given by its start date.
 */
module DownloadYear {
  import opened Wrappers
  import opened Text
  import CcNaming
  import DownloadMpi
  import Seqs

  // ---------------------------------------------------------------------
  // Provenance (lines 51-58)
  // ---------------------------------------------------------------------

  /** The tag naming what was done to the data: time checks, response removal, both or neither. */
  function Provenance(resp: bool, checkt: bool): (r: string)
    ensures r == "time_resp" <==> resp && checkt
    ensures r == "time_checked" <==> !resp && checkt
    ensures r == "resp_removed" <==> resp && !checkt
    ensures r == "raw-recordings" <==> !resp && !checkt
  {
    if resp && checkt then "time_resp"
    else if checkt then "time_checked"
    else if resp then "resp_removed"
    else "raw-recordings"
  }

  /** The tag tells the two flags apart: different settings never share a tag. */
  lemma ProvenanceInjective(resp1: bool, checkt1: bool, resp2: bool, checkt2: bool)
    requires Provenance(resp1, checkt1) == Provenance(resp2, checkt2)
    ensures resp1 == resp2 && checkt1 == checkt2
  {
  }

  // ---------------------------------------------------------------------
  // Date keys (lines 71-72, 114-119) and tags (lines 148-155)
  // ---------------------------------------------------------------------

  /** Python's `s[i:j]` for `0 <= i <= j`: indices past the end are clamped. */
  function Slice(s: string, i: nat, j: nat): (r: string)
    requires i <= j
    ensures |r| == (if j <= |s| then j else |s|) - (if i <= |s| then i else |s|)
    ensures forall k :: 0 <= k < |r| ==> r[k] == s[i + k]
  {
    var hi := if j <= |s| then j else |s|;
    var lo := if i <= hi then i else hi;
    s[lo..hi]
  }

  /** `s[i:]`. */
  function SliceFrom(s: string, i: nat): (r: string)
    ensures |r| == (if i <= |s| then |s| - i else 0)
    ensures forall k :: 0 <= k < |r| ==> r[k] == s[i + k]
  {
    if i <= |s| then s[i..] else ""
  }

  /** `s[:i] + s[i:] == s`, for every `i`, including past the end. */
  lemma SliceThenRest(s: string, i: nat)
    ensures Slice(s, 0, i) + SliceFrom(s, i) == s
  {
    if i <= |s| {
      assert Slice(s, 0, i) == s[..i];
      assert SliceFrom(s, i) == s[i..];
    } else {
      assert Slice(s, 0, i) == s;
    }
  }

  /** A calendar date as `UTCDateTime(year, month, day)` receives it. */
  datatype Date = Date(year: nat, month: nat, day: nat)

  /**
   * `int(key[:4])`, `int(key[5:7])`, `int(key[8:])`: the date a key
   * `YYYY_MM_DD` denotes. A field that is not a string of decimal digits
   * raises `ValueError`; that is `None`. The characters at positions 4 and
   * 7 are never looked at.
   */
  function DateKey(key: string): (r: Option<Date>)
    ensures r.Some? <==> ParseDecimal(Slice(key, 0, 4)).Some? && ParseDecimal(Slice(key, 5, 7)).Some?
                         && ParseDecimal(SliceFrom(key, 8)).Some?
    ensures r.Some? ==> |key| >= 9
  {
    match (ParseDecimal(Slice(key, 0, 4)), ParseDecimal(Slice(key, 5, 7)), ParseDecimal(SliceFrom(key, 8)))
    case (Some(y), Some(m), Some(d)) => Some(Date(y, m, d))
    case _ => None
  }

  /**
   * `'{0:04d}_{1:02d}_{2:02d}'`: a date written as a key. A representable
   * date takes ten characters, with its separators at 4 and 7 and digits
   * everywhere else.
   */
  function DateString(d: Date): (r: string)
    ensures |r| >= 10
    ensures Representable(d) ==> |r| == 10 && r[4] == '_' && r[7] == '_'
  {
    FieldWidths(d);
    ZeroPad(d.year, 4) + "_" + ZeroPad(d.month, 2) + "_" + ZeroPad(d.day, 2)
  }

  lemma FieldWidths(d: Date)
    ensures Representable(d) ==> |ZeroPad(d.year, 4)| == 4 && |ZeroPad(d.month, 2)| == 2 && |ZeroPad(d.day, 2)| == 2
  {
    if Representable(d) {
      assert Pow10(4) == 10000 && Pow10(2) == 100;
      ZeroPadWidth(d.year, 4);
      ZeroPadWidth(d.month, 2);
      ZeroPadWidth(d.day, 2);
    }
  }

  /** Dates whose fields fit their widths. */
  predicate Representable(d: Date)
  {
    d.year < 10000 && d.month < 100 && d.day < 100
  }

  /** Writing a date as a key and slicing it back gives the date. */
  lemma DateKeyRoundTrip(d: Date)
    requires Representable(d)
    ensures |DateString(d)| == 10 && DateKey(DateString(d)) == Some(d)
  {
    ZeroPadWidth(d.year, 4);
    ZeroPadWidth(d.month, 2);
    ZeroPadWidth(d.day, 2);
    var s := DateString(d);
    assert Slice(s, 0, 4) == ZeroPad(d.year, 4);
    assert Slice(s, 5, 7) == ZeroPad(d.month, 2);
    assert SliceFrom(s, 8) == ZeroPad(d.day, 2);
    ZeroPadParses(d.year, 4);
    ZeroPadParses(d.month, 2);
    ZeroPadParses(d.day, 2);
  }

  /** Representable dates are told apart by their keys. */
  lemma DateStringInjective(d1: Date, d2: Date)
    requires Representable(d1) && Representable(d2) && DateString(d1) == DateString(d2)
    ensures d1 == d2
  {
    DateKeyRoundTrip(d1);
    DateKeyRoundTrip(d2);
  }

  /** Lines 148-149 and 153-154: `tags+'_YYYY_MM_DD_'+chan.lower()`, for a trace starting on `d`. */
  function TraceTag(tags: string, d: Date, chan: string): (r: string)
    ensures |r| == |tags| + 1 + |DateString(d)| + 1 + |chan|
    ensures r[..|tags|] == tags && r[|tags|] == '_'
    ensures r[|tags| + 1 + |DateString(d)|..] == "_" + Lower(chan)
  {
    var head := tags + "_";
    var tail := "_" + Lower(chan);
    assert (head + DateString(d)) + tail == head + (DateString(d) + tail);
    head + (DateString(d) + tail)
  }

  /** The trace's start date can be read back from its tag. */
  lemma TraceTagDate(tags: string, d: Date, chan: string)
    requires Representable(d)
    ensures var t := TraceTag(tags, d, chan);
      |t| >= |tags| + 11 && DateKey(t[|tags| + 1..|tags| + 11]) == Some(d)
  {
    DateKeyRoundTrip(d);
    var t := TraceTag(tags, d, chan);
    assert t[|tags| + 1..|tags| + 11] == DateString(d);
  }

  /** Two traces of one channel that start on different days get different tags. */
  lemma TraceTagsDiffer(tags: string, d1: Date, d2: Date, chan: string)
    requires Representable(d1) && Representable(d2) && d1 != d2
    ensures TraceTag(tags, d1, chan) != TraceTag(tags, d2, chan)
  {
    TraceTagDate(tags, d1, chan);
    TraceTagDate(tags, d2, chan);
  }

  // ---------------------------------------------------------------------
  // Request windows (lines 111-113)
  // ---------------------------------------------------------------------

  /** `range(len(all_days)-1)`: the windows between consecutive day keys. */
  function Windows(days: seq<string>): (r: seq<(string, string)>)
    ensures |days| == 0 ==> |r| == 0
    ensures |days| > 0 ==> |r| == |days| - 1
    ensures forall i :: 0 <= i < |r| ==> r[i] == (days[i], days[i + 1])
  {
    if |days| == 0 then [] else seq(|days| - 1, i requires 0 <= i < |days| - 1 => (days[i], days[i + 1]))
  }

  /** The windows tile the period: each one starts where the previous one ended. */
  lemma WindowsChain(days: seq<string>, i: nat)
    requires i + 1 < |Windows(days)|
    ensures Windows(days)[i].1 == Windows(days)[i + 1].0
  {
  }

  // ---------------------------------------------------------------------
  // The archives (lines 87-163, and again 209-end for a station list)
  // ---------------------------------------------------------------------

  /** Line 93: `direc+'/'+net+'.'+sta+'.h5'`, the archive of one station. */
  function StationFileName(direc: string, net: string, sta: string): (r: string)
    ensures EndsWith(r, ".h5")
  {
    direc + "/" + net + "." + sta + ".h5"
  }

  /** The correlator reads network and station back from the archive's name. */
  lemma StationFileReadBack(direc: string, net: string, sta: string)
    requires '/' !in net && '/' !in sta && '.' !in net && '.' !in sta
    ensures CcNaming.ParseStation(StationFileName(direc, net, sta)) == Some((net, sta))
  {
    CcNaming.StationNameRoundTrip(direc, net, sta);
  }

  /** One archive operation: station metadata, or one trace under its tag. */
  datatype Put = StationXml(file: string) | Waveform(file: string, tag: string, start: Date)

  /** The exceptions that end the script. */
  datatype YearError = BadDateKey(key: string) | FileExists(path: string)

  /** The operations a loop performs, in order, and the exception that ended it, if any. */
  datatype Outcome = Outcome(puts: seq<Put>, failure: Option<YearError>)

  function Prepend(ps: seq<Put>, o: Outcome): (r: Outcome)
    ensures r.failure == o.failure && |r.puts| == |ps| + |o.puts|
  {
    Outcome(ps + o.puts, o.failure)
  }

  /** Lines 146-155: each trace under the tag of its own start date. */
  function TracePuts(f1: string, tags: string, chan: string, traces: seq<Date>): (r: seq<Put>)
    ensures |r| == |traces|
    ensures forall k :: 0 <= k < |traces| ==> r[k] == Waveform(f1, TraceTag(tags, traces[k], chan), traces[k])
  {
    seq(|traces|, k requires 0 <= k < |traces| => Waveform(f1, TraceTag(tags, traces[k], chan), traces[k]))
  }

  /**
   * Lines 112-155 for window `ii`: both keys are read (a bad one raises);
   * a request that raised (`None`) stores nothing; otherwise every trace
   * left by pre-processing is stored.
   */
  function WindowOutcome(f1: string, tags: string, chan: string, days: seq<string>, ii: nat,
                         traces: Option<seq<Date>>): (r: Outcome)
    requires ii + 1 < |days|
    ensures r.failure.Some? <==> DateKey(days[ii]).None? || DateKey(days[ii + 1]).None?
    ensures r.failure.Some? ==> r.failure.value == BadDateKey(FirstBadKey(days[ii], days[ii + 1]).value)
    ensures r.failure.Some? ==> r.puts == []
    ensures r.failure.None? && traces.None? ==> r.puts == []
    ensures r.failure.None? && traces.Some? ==> r.puts == TracePuts(f1, tags, chan, traces.value)
    ensures forall p :: p in r.puts ==> p.file == f1
  {
    var bad := FirstBadKey(days[ii], days[ii + 1]);
    if bad.Some? then Outcome([], Some(BadDateKey(bad.value)))
    else match traces
      case None => Outcome([], None)
      case Some(trs) => Outcome(TracePuts(f1, tags, chan, trs), None)
  }

  /**
   * Lines 114-119 read the fields of the two keys in the order year1,
   * year2, month1, month2, day1, day2; the key holding the first field that
   * is not a digit string raises.
   */
  function FirstBadKey(day1: string, day2: string): (r: Option<string>)
    ensures r.None? <==> DateKey(day1).Some? && DateKey(day2).Some?
    ensures r.Some? ==> (r.value == day1 || r.value == day2) && DateKey(r.value).None?
  {
    if ParseDecimal(Slice(day1, 0, 4)).None? then Some(day1)
    else if ParseDecimal(Slice(day2, 0, 4)).None? then Some(day2)
    else if ParseDecimal(Slice(day1, 5, 7)).None? then Some(day1)
    else if ParseDecimal(Slice(day2, 5, 7)).None? then Some(day2)
    else if ParseDecimal(SliceFrom(day1, 8)).None? then Some(day1)
    else if ParseDecimal(SliceFrom(day2, 8)).None? then Some(day2)
    else None
  }

  /** A bad year in the second key raises before a bad month in the first. */
  lemma YearsReadFirst()
    ensures FirstBadKey("2010_x1_01", "abcd_01_02") == Some("abcd_01_02")
  {
    assert Slice("2010_x1_01", 0, 4) == "2010";
    assert ParseDecimal("2010").Some? by { assert forall k :: 0 <= k < 4 ==> IsDigit("2010"[k]); }
    assert Slice("abcd_01_02", 0, 4) == "abcd";
    assert ParseDecimal("abcd").None? by { assert !IsDigit("abcd"[0]); }
  }

  /** What the requests return for network, station, channel and window index. */
  type Fetch = (string, string, string, nat) -> Option<seq<Date>>

  /** The window loop (line 111) of one channel, from window `ii` on. */
  function ChannelFrom(f1: string, tags: string, net: string, sta: string, chan: string,
                       days: seq<string>, fetch: Fetch, ii: nat): (r: Outcome)
    ensures forall p :: p in r.puts ==> p.file == f1
    decreases |days| - ii
  {
    if ii + 1 >= |days| then Outcome([], None)
    else
      var w := WindowOutcome(f1, tags, chan, days, ii, fetch(net, sta, chan, ii));
      if w.failure.Some? then w
      else Prepend(w.puts, ChannelFrom(f1, tags, net, sta, chan, days, fetch, ii + 1))
  }

  /** A request that raised skips its own window only: the loop goes on with the next one. */
  lemma FailedRequestSkipsWindow(f1: string, tags: string, net: string, sta: string, chan: string,
                                 days: seq<string>, fetch: Fetch, ii: nat)
    requires ii + 1 < |days| && DateKey(days[ii]).Some? && DateKey(days[ii + 1]).Some?
    requires fetch(net, sta, chan, ii).None?
    ensures ChannelFrom(f1, tags, net, sta, chan, days, fetch, ii)
         == ChannelFrom(f1, tags, net, sta, chan, days, fetch, ii + 1)
  {
    assert WindowOutcome(f1, tags, chan, days, ii, fetch(net, sta, chan, ii)) == Outcome([], None);
  }

  /** With well-formed keys, every trace of every window is stored under its own tag. */
  lemma {:induction false} ChannelStoresEveryTrace(f1: string, tags: string, net: string, sta: string,
                                                   chan: string, days: seq<string>, fetch: Fetch,
                                                   ii: nat, w: nat, k: nat)
    requires forall i :: 0 <= i < |days| ==> DateKey(days[i]).Some?
    requires ii <= w && w + 1 < |days|
    requires fetch(net, sta, chan, w).Some? && k < |fetch(net, sta, chan, w).value|
    ensures var d := fetch(net, sta, chan, w).value[k];
      ChannelFrom(f1, tags, net, sta, chan, days, fetch, ii).failure.None? &&
      Waveform(f1, TraceTag(tags, d, chan), d) in ChannelFrom(f1, tags, net, sta, chan, days, fetch, ii).puts
    decreases |days| - ii
  {
    var o := WindowOutcome(f1, tags, chan, days, ii, fetch(net, sta, chan, ii));
    ChannelSucceeds(f1, tags, net, sta, chan, days, fetch, ii + 1);
    if ii < w {
      ChannelStoresEveryTrace(f1, tags, net, sta, chan, days, fetch, ii + 1, w, k);
    } else {
      var d := fetch(net, sta, chan, w).value[k];
      assert o.puts[k] == Waveform(f1, TraceTag(tags, d, chan), d);
    }
  }

  /** With well-formed keys the window loop never raises. */
  lemma {:induction false} ChannelSucceeds(f1: string, tags: string, net: string, sta: string,
                                           chan: string, days: seq<string>, fetch: Fetch, ii: nat)
    requires forall i :: 0 <= i < |days| ==> DateKey(days[i]).Some?
    ensures ChannelFrom(f1, tags, net, sta, chan, days, fetch, ii).failure.None?
    decreases |days| - ii
  {
    if ii + 1 < |days| {
      ChannelSucceeds(f1, tags, net, sta, chan, days, fetch, ii + 1);
    }
  }

  /** The channel loop (line 105) of one station, from channel `c` on. */
  function ChannelsFrom(f1: string, tags: string, net: string, st: DownloadMpi.StationInv,
                        days: seq<string>, fetch: Fetch, c: nat): (r: Outcome)
    ensures forall p :: p in r.puts ==> p.file == f1
    decreases |st.channels| - c
  {
    if c >= |st.channels| then Outcome([], None)
    else
      var o := ChannelFrom(f1, tags, net, st.code, st.channels[c].code, days, fetch, 0);
      if o.failure.Some? then o
      else Prepend(o.puts, ChannelsFrom(f1, tags, net, st, days, fetch, c + 1))
  }

  /**
   * Lines 98-163 for one station: metadata, the channels, metadata again,
   * all into the station's one archive `f1`.
   */
  function StationOutcome(f1: string, tags: string, net: string, st: DownloadMpi.StationInv,
                          days: seq<string>, fetch: Fetch): (r: Outcome)
    ensures |r.puts| >= 1 && r.puts[0] == StationXml(f1)
    ensures forall p :: p in r.puts ==> p.file == f1
    ensures r.failure.None? ==> |r.puts| >= 2 && r.puts[|r.puts| - 1] == StationXml(f1)
  {
    var o := ChannelsFrom(f1, tags, net, st, days, fetch, 0);
    if o.failure.Some? then Prepend([StationXml(f1)], o)
    else Outcome([StationXml(f1)] + o.puts + [StationXml(f1)], None)
  }

  /** The operations of a loop and the archives that exist after it, and the exception that ended it. */
  datatype Progress = Progress(puts: seq<Put>, files: set<string>, failure: Option<YearError>)

  /** Station `s` of network `n` exists in the inventory. */
  predicate ValidPosition(inv: seq<DownloadMpi.NetworkInv>, n: nat, s: nat)
  {
    n < |inv| && s < |inv[n].stations|
  }

  /** Position `(n1, s1)` comes no later than `(n2, s2)` in the loops' order. */
  predicate NoLater(n1: nat, s1: nat, n2: nat, s2: nat)
  {
    n1 < n2 || (n1 == n2 && s1 <= s2)
  }

  /** The archive name of the station at a position. */
  function FileAt(direc: string, inv: seq<DownloadMpi.NetworkInv>, n: nat, s: nat): string
    requires ValidPosition(inv, n, s)
  {
    StationFileName(direc, inv[n].code, inv[n].stations[s].code)
  }

  /**
   * Lines 87-163: the network and station loops from station `s` of network
   * `n` on, with `files` the archives that exist when they start. An
   * existing archive raises `IOError` before anything is written to it.
   */
  function InventoryFrom(files: set<string>, direc: string, tags: string, inv: seq<DownloadMpi.NetworkInv>,
                         days: seq<string>, fetch: Fetch, n: nat, s: nat): (r: Progress)
    requires n < |inv| ==> s <= |inv[n].stations|
    ensures forall f :: f in files ==> f in r.files
    ensures forall p :: p in r.puts ==> p.file in r.files
    decreases |inv| - n, if n < |inv| then |inv[n].stations| - s else 0
  {
    if n >= |inv| then Progress([], files, None)
    else if s == |inv[n].stations| then InventoryFrom(files, direc, tags, inv, days, fetch, n + 1, 0)
    else
      var f1 := FileAt(direc, inv, n, s);
      if f1 in files then Progress([], files, Some(FileExists(f1)))
      else
        var o := StationOutcome(f1, tags, inv[n].code, inv[n].stations[s], days, fetch);
        if o.failure.Some? then Progress(o.puts, files + {f1}, o.failure)
        else
          var rest := InventoryFrom(files + {f1}, direc, tags, inv, days, fetch, n, s + 1);
          Progress(o.puts + rest.puts, rest.files, rest.failure)
  }

  /**
   * A run that raises nothing never met an existing archive: each station's
   * archive was absent when the run began, and it exists afterwards.
   */
  lemma {:induction false} SuccessCreatesFreshFiles(files: set<string>, direc: string, tags: string,
                                                    inv: seq<DownloadMpi.NetworkInv>, days: seq<string>,
                                                    fetch: Fetch, n: nat, s: nat, n2: nat, s2: nat)
    requires n < |inv| ==> s <= |inv[n].stations|
    requires InventoryFrom(files, direc, tags, inv, days, fetch, n, s).failure.None?
    requires ValidPosition(inv, n2, s2) && NoLater(n, s, n2, s2)
    ensures FileAt(direc, inv, n2, s2) !in files
    ensures FileAt(direc, inv, n2, s2) in InventoryFrom(files, direc, tags, inv, days, fetch, n, s).files
    decreases |inv| - n, if n < |inv| then |inv[n].stations| - s else 0
  {
    if s == |inv[n].stations| {
      NextNetwork(files, direc, tags, inv, days, fetch, n);
      SuccessCreatesFreshFiles(files, direc, tags, inv, days, fetch, n + 1, 0, n2, s2);
    } else {
      var f1 := FileAt(direc, inv, n, s);
      SuccessStep(files, direc, tags, inv, days, fetch, n, s);
      if n2 != n || s2 != s {
        SuccessCreatesFreshFiles(files + {f1}, direc, tags, inv, days, fetch, n, s + 1, n2, s2);
      }
    }
  }

  /** Past a network's last station the run goes on with the next network, unchanged. */
  lemma NextNetwork(files: set<string>, direc: string, tags: string, inv: seq<DownloadMpi.NetworkInv>,
                    days: seq<string>, fetch: Fetch, n: nat)
    requires n < |inv|
    ensures InventoryFrom(files, direc, tags, inv, days, fetch, n, |inv[n].stations|)
         == InventoryFrom(files, direc, tags, inv, days, fetch, n + 1, 0)
  {
  }

  /** A run that raises nothing at station `s` met no archive of its own and goes on at `s + 1`. */
  lemma SuccessStep(files: set<string>, direc: string, tags: string, inv: seq<DownloadMpi.NetworkInv>,
                    days: seq<string>, fetch: Fetch, n: nat, s: nat)
    requires n < |inv| && s < |inv[n].stations|
    requires InventoryFrom(files, direc, tags, inv, days, fetch, n, s).failure.None?
    ensures FileAt(direc, inv, n, s) !in files
    ensures InventoryFrom(files + {FileAt(direc, inv, n, s)}, direc, tags, inv, days, fetch, n, s + 1).failure.None?
    ensures InventoryFrom(files + {FileAt(direc, inv, n, s)}, direc, tags, inv, days, fetch, n, s + 1).files
         == InventoryFrom(files, direc, tags, inv, days, fetch, n, s).files
  {
  }

  /** A run that raises nothing gave every station its own archive: no two stations share one. */
  lemma {:induction false} SuccessMeansDistinctFiles(files: set<string>, direc: string, tags: string,
                                                     inv: seq<DownloadMpi.NetworkInv>, days: seq<string>,
                                                     fetch: Fetch, n: nat, s: nat,
                                                     n1: nat, s1: nat, n2: nat, s2: nat)
    requires n < |inv| ==> s <= |inv[n].stations|
    requires InventoryFrom(files, direc, tags, inv, days, fetch, n, s).failure.None?
    requires ValidPosition(inv, n1, s1) && ValidPosition(inv, n2, s2)
    requires NoLater(n, s, n1, s1) && NoLater(n1, s1, n2, s2) && (n1, s1) != (n2, s2)
    ensures FileAt(direc, inv, n1, s1) != FileAt(direc, inv, n2, s2)
    decreases |inv| - n, if n < |inv| then |inv[n].stations| - s else 0
  {
    if s == |inv[n].stations| {
      NextNetwork(files, direc, tags, inv, days, fetch, n);
      SuccessMeansDistinctFiles(files, direc, tags, inv, days, fetch, n + 1, 0, n1, s1, n2, s2);
    } else {
      var f1 := FileAt(direc, inv, n, s);
      SuccessStep(files, direc, tags, inv, days, fetch, n, s);
      if n1 == n && s1 == s {
        SuccessCreatesFreshFiles(files + {f1}, direc, tags, inv, days, fetch, n, s + 1, n2, s2);
      } else {
        SuccessMeansDistinctFiles(files + {f1}, direc, tags, inv, days, fetch, n, s + 1, n1, s1, n2, s2);
      }
    }
  }

  // ---------------------------------------------------------------------
  // The loops as the script runs them
  // ---------------------------------------------------------------------

  /** The download directory: the archives in it, and the operations performed on them in order. */
  class Disk {
    var files: set<string>
    var log: seq<Put>

    constructor(existing: set<string>)
      ensures files == existing && log == []
    {
      files := existing;
      log := [];
    }

    /** `pyasdf.ASDFDataSet(f1)`: opening an archive creates it. */
    method Create(f: string)
      modifies this
      ensures files == old(files) + {f} && log == old(log)
    {
      files := files + {f};
    }

    method Add(p: Put)
      modifies this
      ensures log == old(log) + [p] && files == old(files)
    {
      log := log + [p];
    }
  }

  /** Lines 146-155: one tag per trace (the single-trace branch is the same store). */
  method StoreTraces(disk: Disk, f1: string, tags: string, chan: string, traces: seq<Date>)
    modifies disk
    ensures disk.log == old(disk.log) + TracePuts(f1, tags, chan, traces)
    ensures disk.files == old(disk.files)
  {
    if |traces| == 1 {
      disk.Add(Waveform(f1, TraceTag(tags, traces[0], chan), traces[0]));
      assert TracePuts(f1, tags, chan, traces) == [Waveform(f1, TraceTag(tags, traces[0], chan), traces[0])];
    } else {
      var k := 0;
      while k < |traces|
        invariant k <= |traces|
        invariant disk.log == old(disk.log) + TracePuts(f1, tags, chan, traces[..k])
        invariant disk.files == old(disk.files)
      {
        disk.Add(Waveform(f1, TraceTag(tags, traces[k], chan), traces[k]));
        assert TracePuts(f1, tags, chan, traces[..k + 1])
            == TracePuts(f1, tags, chan, traces[..k]) + [Waveform(f1, TraceTag(tags, traces[k], chan), traces[k])];
        k := k + 1;
      }
      assert traces[..k] == traces;
    }
  }

  /** Lines 111-155: the window loop of one channel. */
  method DownloadChannel(disk: Disk, f1: string, tags: string, net: string, sta: string, chan: string,
                         days: seq<string>, fetch: Fetch) returns (failure: Option<YearError>)
    modifies disk
    ensures failure == ChannelFrom(f1, tags, net, sta, chan, days, fetch, 0).failure
    ensures disk.log == old(disk.log) + ChannelFrom(f1, tags, net, sta, chan, days, fetch, 0).puts
    ensures disk.files == old(disk.files)
  {
    var ii := 0;
    while ii + 1 < |days|
      invariant Prepend(disk.log, ChannelFrom(f1, tags, net, sta, chan, days, fetch, ii))
             == Prepend(old(disk.log), ChannelFrom(f1, tags, net, sta, chan, days, fetch, 0))
      invariant disk.files == old(disk.files)
      decreases |days| - ii
    {
      var day1 := days[ii];
      var day2 := days[ii + 1];
      var year1 := ParseDecimal(Slice(day1, 0, 4));
      if year1.None? { return Some(BadDateKey(day1)); }
      var year2 := ParseDecimal(Slice(day2, 0, 4));
      if year2.None? { return Some(BadDateKey(day2)); }
      var mon1 := ParseDecimal(Slice(day1, 5, 7));
      if mon1.None? { return Some(BadDateKey(day1)); }
      var mon2 := ParseDecimal(Slice(day2, 5, 7));
      if mon2.None? { return Some(BadDateKey(day2)); }
      var iday1 := ParseDecimal(SliceFrom(day1, 8));
      if iday1.None? { return Some(BadDateKey(day1)); }
      var iday2 := ParseDecimal(SliceFrom(day2, 8));
      if iday2.None? { return Some(BadDateKey(day2)); }
      var traces := fetch(net, sta, chan, ii);
      ghost var later := ChannelFrom(f1, tags, net, sta, chan, days, fetch, ii + 1);
      ghost var before := disk.log;
      if traces.Some? {
        StoreTraces(disk, f1, tags, chan, traces.value);
        assert ChannelFrom(f1, tags, net, sta, chan, days, fetch, ii)
            == Prepend(TracePuts(f1, tags, chan, traces.value), later);
        PrependTwice(before, TracePuts(f1, tags, chan, traces.value), later);
      } else {
        assert ChannelFrom(f1, tags, net, sta, chan, days, fetch, ii) == Prepend([], later);
        assert Prepend(before, Prepend([], later)) == Prepend(before, later) by {
          assert [] + later.puts == later.puts;
        }
      }
      ii := ii + 1;
    }
    return None;
  }

  /** Writes made in two steps before some work are the writes of both steps together. */
  lemma PrependTwice(a: seq<Put>, b: seq<Put>, o: Outcome)
    ensures Prepend(a + b, o) == Prepend(a, Prepend(b, o))
  {
    assert (a + b) + o.puts == a + (b + o.puts);
  }

  /** The channel loop of line 105: each channel's days in turn, into the archive `f1`. */
  method DownloadChannels(disk: Disk, f1: string, tags: string, net: string, st: DownloadMpi.StationInv,
                          days: seq<string>, fetch: Fetch) returns (failure: Option<YearError>)
    modifies disk
    ensures failure == ChannelsFrom(f1, tags, net, st, days, fetch, 0).failure
    ensures disk.log == old(disk.log) + ChannelsFrom(f1, tags, net, st, days, fetch, 0).puts
    ensures disk.files == old(disk.files)
  {
    var c := 0;
    while c < |st.channels|
      invariant c <= |st.channels|
      invariant Prepend(disk.log, ChannelsFrom(f1, tags, net, st, days, fetch, c))
             == Prepend(old(disk.log), ChannelsFrom(f1, tags, net, st, days, fetch, 0))
      invariant disk.files == old(disk.files)
    {
      ghost var before := disk.log;
      failure := DownloadChannel(disk, f1, tags, net, st.code, st.channels[c].code, days, fetch);
      if failure.Some? {
        return;
      }
      PrependTwice(before, ChannelFrom(f1, tags, net, st.code, st.channels[c].code, days, fetch, 0).puts,
                   ChannelsFrom(f1, tags, net, st, days, fetch, c + 1));
      c := c + 1;
    }
    assert ChannelsFrom(f1, tags, net, st, days, fetch, c) == Outcome([], None);
    return None;
  }

  /** Lines 98-163: one station's archive, its channels in order. */
  method DownloadStation(disk: Disk, f1: string, tags: string, net: string, st: DownloadMpi.StationInv,
                         days: seq<string>, fetch: Fetch) returns (failure: Option<YearError>)
    modifies disk
    ensures failure == StationOutcome(f1, tags, net, st, days, fetch).failure
    ensures disk.log == old(disk.log) + StationOutcome(f1, tags, net, st, days, fetch).puts
    ensures disk.files == old(disk.files)
  {
    ghost var channels := ChannelsFrom(f1, tags, net, st, days, fetch, 0);
    StationFromChannels(f1, tags, net, st, days, fetch);
    disk.Add(StationXml(f1));
    failure := DownloadChannels(disk, f1, tags, net, st, days, fetch);
    if failure.Some? {
      Seqs.ConcatAssoc(old(disk.log), [StationXml(f1)], channels.puts);
      return;
    }
    disk.Add(StationXml(f1));
    Seqs.ConcatAssoc(old(disk.log), [StationXml(f1)], channels.puts);
    Seqs.ConcatAssoc(old(disk.log), [StationXml(f1)] + channels.puts, [StationXml(f1)]);
    return None;
  }

  /** A station's operations are its metadata around its channels' operations. */
  lemma StationFromChannels(f1: string, tags: string, net: string, st: DownloadMpi.StationInv,
                            days: seq<string>, fetch: Fetch)
    ensures var o := ChannelsFrom(f1, tags, net, st, days, fetch, 0);
            StationOutcome(f1, tags, net, st, days, fetch)
            == if o.failure.Some? then Outcome([StationXml(f1)] + o.puts, o.failure)
               else Outcome([StationXml(f1)] + o.puts + [StationXml(f1)], None)
  {
  }

  /**
   * Lines 216-281, the station-list branch, for one station: metadata
   * once (line 224), then the channels, with no second metadata put.
   */
  function ListStationOutcome(f1: string, tags: string, net: string, st: DownloadMpi.StationInv,
                              days: seq<string>, fetch: Fetch): (r: Outcome)
    ensures |r.puts| >= 1 && r.puts[0] == StationXml(f1)
    ensures forall p :: p in r.puts ==> p.file == f1
    ensures forall k :: 1 <= k < |r.puts| ==> r.puts[k].Waveform?
  {
    var o := ChannelsFrom(f1, tags, net, st, days, fetch, 0);
    ChannelsOnlyWaveforms(f1, tags, net, st, days, fetch, 0);
    assert forall k :: 1 <= k < 1 + |o.puts| ==> ([StationXml(f1)] + o.puts)[k] in o.puts;
    Prepend([StationXml(f1)], o)
  }

  /** The channel loop stores waveforms only. */
  lemma {:induction false} ChannelsOnlyWaveforms(f1: string, tags: string, net: string, st: DownloadMpi.StationInv,
                                                 days: seq<string>, fetch: Fetch, c: nat)
    ensures forall p :: p in ChannelsFrom(f1, tags, net, st, days, fetch, c).puts ==> p.Waveform?
    decreases |st.channels| - c
  {
    if c < |st.channels| {
      ChannelOnlyWaveforms(f1, tags, net, st.code, st.channels[c].code, days, fetch, 0);
      ChannelsOnlyWaveforms(f1, tags, net, st, days, fetch, c + 1);
    }
  }

  /** The window loop stores waveforms only. */
  lemma {:induction false} ChannelOnlyWaveforms(f1: string, tags: string, net: string, sta: string, chan: string,
                                                days: seq<string>, fetch: Fetch, ii: nat)
    ensures forall p :: p in ChannelFrom(f1, tags, net, sta, chan, days, fetch, ii).puts ==> p.Waveform?
    decreases |days| - ii
  {
    if ii + 1 < |days| {
      ChannelOnlyWaveforms(f1, tags, net, sta, chan, days, fetch, ii + 1);
    }
  }

  /**
   * The two branches differ in one operation only: the station-list branch
   * fails exactly when the manual one does, and when neither fails it
   * lacks the manual branch's closing metadata put (line 163).
   */
  lemma ListBranchStoresMetadataOnce(f1: string, tags: string, net: string, st: DownloadMpi.StationInv,
                                     days: seq<string>, fetch: Fetch)
    ensures ListStationOutcome(f1, tags, net, st, days, fetch).failure
            == StationOutcome(f1, tags, net, st, days, fetch).failure
    ensures StationOutcome(f1, tags, net, st, days, fetch).failure.None? ==>
            StationOutcome(f1, tags, net, st, days, fetch).puts
            == ListStationOutcome(f1, tags, net, st, days, fetch).puts + [StationXml(f1)]
    ensures StationOutcome(f1, tags, net, st, days, fetch).failure.Some? ==>
            StationOutcome(f1, tags, net, st, days, fetch) == ListStationOutcome(f1, tags, net, st, days, fetch)
  {
  }

  /** Lines 87-163: every station of the inventory, network after network. */
  method DownloadInventory(disk: Disk, direc: string, tags: string, inv: seq<DownloadMpi.NetworkInv>,
                           days: seq<string>, fetch: Fetch) returns (failure: Option<YearError>)
    modifies disk
    ensures failure == InventoryFrom(old(disk.files), direc, tags, inv, days, fetch, 0, 0).failure
    ensures disk.log == old(disk.log) + InventoryFrom(old(disk.files), direc, tags, inv, days, fetch, 0, 0).puts
    ensures disk.files == InventoryFrom(old(disk.files), direc, tags, inv, days, fetch, 0, 0).files
  {
    ghost var whole := InventoryFrom(disk.files, direc, tags, inv, days, fetch, 0, 0);
    var n := 0;
    while n < |inv|
      invariant n <= |inv|
      invariant Continues(disk.log, disk.files, old(disk.log), whole, direc, tags, inv, days, fetch, n, 0)
    {
      var network := inv[n];
      var s := 0;
      while s < |network.stations|
        invariant s <= |network.stations|
        invariant Continues(disk.log, disk.files, old(disk.log), whole, direc, tags, inv, days, fetch, n, s)
      {
        var f1 := StationFileName(direc, network.code, network.stations[s].code);
        if f1 in disk.files {
          return Some(FileExists(f1));
        }
        ghost var before := disk.log;
        disk.Create(f1);
        failure := DownloadStation(disk, f1, tags, network.code, network.stations[s], days, fetch);
        if failure.Some? {
          return;
        }
        Seqs.ConcatAssoc(before, StationOutcome(f1, tags, network.code, network.stations[s], days, fetch).puts,
                    InventoryFrom(disk.files, direc, tags, inv, days, fetch, n, s + 1).puts);
        s := s + 1;
      }
      n := n + 1;
    }
    assert InventoryFrom(disk.files, direc, tags, inv, days, fetch, n, 0) == Progress([], disk.files, None);
    assert disk.log + [] == disk.log;
    return None;
  }

  /** The loops, stopped at station `s` of network `n`, have done the first part of `whole`, and the rest does the remainder. */
  ghost predicate Continues(log: seq<Put>, files: set<string>, log0: seq<Put>, whole: Progress, direc: string,
                            tags: string, inv: seq<DownloadMpi.NetworkInv>, days: seq<string>, fetch: Fetch,
                            n: nat, s: nat)
  {
    && (n < |inv| ==> s <= |inv[n].stations|)
    && var rest := InventoryFrom(files, direc, tags, inv, days, fetch, n, s);
       log + rest.puts == log0 + whole.puts && rest.files == whole.files && rest.failure == whole.failure
  }
}
