/**
 * The MPI downloader `src/S0_dowload_ASDF_MPI.py`: the station list (read
 * from a CSV table or assembled from an inventory), the memory estimate
 * that refuses too long a request, the chunk list and its abort, and each
 * rank's walk over its chunks, adding station metadata and waveforms under
 * formatted tags to one archive per chunk.
 *
 * The network client and the pre-processing are not modelled: what a
 * request returns for chunk `ick` and station `ista` is the parameter
 * `fetch(ick, ista)`.
 */
module DownloadMpi {
  import opened Wrappers
  import opened Text
  import Ranges
  import Seqs

  // ---------------------------------------------------------------------
  // Station list (lines 89-136)
  // ---------------------------------------------------------------------

  /** The four parallel lists the script indexes by `ista`. */
  datatype Stations = Stations(net: seq<string>, sta: seq<string>, chan: seq<string>, location: seq<string>)

  /** All four lists have one entry per channel to download. */
  predicate WellFormedStations(s: Stations)
  {
    |s.sta| == |s.net| && |s.chan| == |s.net| && |s.location| == |s.net|
  }

  /** `nsta`. */
  function Count(s: Stations): nat
  {
    |s.net|
  }

  /** A CSV table read with `pd.read_csv`: its columns by header, each with one cell per row. */
  datatype Table = Table(columns: map<string, seq<string>>, rows: nat)

  predicate WellFormedTable(t: Table)
  {
    forall name :: name in t.columns ==> |t.columns[name]| == t.rows
  }

  /** The columns whose absence raises `KeyError` (lines 96-100). */
  const RequiredColumns: seq<string> := ["channel", "network", "station", "latitude", "longitude"]

  /** Lines 103-106: the `location` column, or `'*'` for every station when it is missing. */
  function LocationColumn(t: Table): (r: seq<string>)
    requires WellFormedTable(t)
    ensures |r| == t.rows
    ensures "location" in t.columns ==> r == t.columns["location"]
    ensures "location" !in t.columns ==> forall k :: 0 <= k < |r| ==> r[k] == "*"
  {
    if "location" in t.columns then t.columns["location"] else seq(t.rows, _ => "*")
  }

  /**
   * Lines 94-106: the station list read from the table. A missing required
   * column is an error naming it; `location` alone is optional.
   */
  function FromTable(t: Table): (r: Result<Stations, string>)
    requires WellFormedTable(t)
    ensures r.Err? <==> exists name :: name in RequiredColumns && name !in t.columns
    ensures r.Err? ==> r.error in RequiredColumns && r.error !in t.columns
    ensures r.Ok? ==> WellFormedStations(r.value) && Count(r.value) == t.rows
    ensures r.Ok? ==> (
      && "channel" in t.columns && "network" in t.columns && "station" in t.columns
      && r.value.chan == t.columns["channel"] && r.value.net == t.columns["network"]
      && r.value.sta == t.columns["station"] && r.value.location == LocationColumn(t))
  {
    if "channel" !in t.columns then Err("channel")
    else if "network" !in t.columns then Err("network")
    else if "station" !in t.columns then Err("station")
    else if "latitude" !in t.columns then Err("latitude")
    else if "longitude" !in t.columns then Err("longitude")
    else Ok(Stations(t.columns["network"], t.columns["station"], t.columns["channel"], LocationColumn(t)))
  }

  /** An inventory as returned by `get_stations`: networks of stations of channels. */
  datatype ChannelInv = ChannelInv(code: string, locationCode: string)
  datatype StationInv = StationInv(code: string, channels: seq<ChannelInv>)
  datatype NetworkInv = NetworkInv(code: string, stations: seq<StationInv>)

  /** One entry of the station list: one channel of one station of one network. */
  datatype Channel = Channel(net: string, sta: string, chan: string, location: string)

  /** The entries of the channels `chans` of station `sta` of network `net`, in order. */
  function ChannelEntries(net: string, sta: string, chans: seq<ChannelInv>): (r: seq<Channel>)
    ensures |r| == |chans|
    ensures forall k :: 0 <= k < |r| ==> r[k].net == net && r[k].sta == sta
    ensures forall k :: 0 <= k < |r| ==> r[k].chan == chans[k].code && r[k].location == chans[k].locationCode
  {
    seq(|chans|, k requires 0 <= k < |chans| => Channel(net, sta, chans[k].code, chans[k].locationCode))
  }

  /** How many channels the stations `stas` hold together. */
  function StationsChannelCount(stas: seq<StationInv>): nat
  {
    if |stas| == 0 then 0
    else StationsChannelCount(stas[..|stas| - 1]) + |stas[|stas| - 1].channels|
  }

  /** How many channels the networks `inv` hold together. */
  function InventoryChannelCount(inv: seq<NetworkInv>): nat
  {
    if |inv| == 0 then 0
    else InventoryChannelCount(inv[..|inv| - 1]) + StationsChannelCount(inv[|inv| - 1].stations)
  }

  /** The entries of stations `stas` of network `net`, station after station. */
  function StationEntries(net: string, stas: seq<StationInv>): (r: seq<Channel>)
    ensures |r| == StationsChannelCount(stas)
    ensures forall k :: 0 <= k < |r| ==> r[k].net == net
  {
    if |stas| == 0 then []
    else
      var last := stas[|stas| - 1];
      StationEntries(net, stas[..|stas| - 1]) + ChannelEntries(net, last.code, last.channels)
  }

  /** The entries of an inventory, network after network: one per channel. */
  function InventoryEntries(inv: seq<NetworkInv>): (r: seq<Channel>)
    ensures |r| == InventoryChannelCount(inv)
  {
    if |inv| == 0 then []
    else
      var last := inv[|inv| - 1];
      InventoryEntries(inv[..|inv| - 1]) + StationEntries(last.code, last.stations)
  }

  /** The entries of some station list, seen one field at a time. */
  function Nets(cs: seq<Channel>): (r: seq<string>)
    ensures |r| == |cs| && forall k :: 0 <= k < |cs| ==> r[k] == cs[k].net
  {
    seq(|cs|, k requires 0 <= k < |cs| => cs[k].net)
  }

  function Stas(cs: seq<Channel>): (r: seq<string>)
    ensures |r| == |cs| && forall k :: 0 <= k < |cs| ==> r[k] == cs[k].sta
  {
    seq(|cs|, k requires 0 <= k < |cs| => cs[k].sta)
  }

  function Chans(cs: seq<Channel>): (r: seq<string>)
    ensures |r| == |cs| && forall k :: 0 <= k < |cs| ==> r[k] == cs[k].chan
  {
    seq(|cs|, k requires 0 <= k < |cs| => cs[k].chan)
  }

  function Locations(cs: seq<Channel>): (r: seq<string>)
    ensures |r| == |cs| && forall k :: 0 <= k < |cs| ==> r[k] == cs[k].location
  {
    seq(|cs|, k requires 0 <= k < |cs| => cs[k].location)
  }

  /** The station list holding exactly the entries `cs`. */
  function ListOf(cs: seq<Channel>): (r: Stations)
    ensures WellFormedStations(r) && Count(r) == |cs|
  {
    Stations(Nets(cs), Stas(cs), Chans(cs), Locations(cs))
  }

  /** Appending one entry appends its fields to the four lists. */
  lemma ListOfAppend(cs: seq<Channel>, c: Channel)
    ensures ListOf(cs + [c]) == Stations(Nets(cs) + [c.net], Stas(cs) + [c.sta],
                                         Chans(cs) + [c.chan], Locations(cs) + [c.location])
  {
    assert Nets(cs + [c]) == Nets(cs) + [c.net];
    assert Stas(cs + [c]) == Stas(cs) + [c.sta];
    assert Chans(cs + [c]) == Chans(cs) + [c.chan];
    assert Locations(cs + [c]) == Locations(cs) + [c.location];
  }

  /**
   * Lines 126-135: one entry per channel, appended to the four lists by
   * three nested loops, with `nsta` counting them.
   */
  method AssembleStations(inv: seq<NetworkInv>) returns (stations: Stations, nsta: nat)
    ensures stations == ListOf(InventoryEntries(inv))
    ensures nsta == Count(stations) && WellFormedStations(stations)
  {
    var sta: seq<string> := [];
    var net: seq<string> := [];
    var chan: seq<string> := [];
    var location: seq<string> := [];
    nsta := 0;
    ghost var acc: seq<Channel> := [];
    var n := 0;
    while n < |inv|
      invariant n <= |inv|
      invariant acc == InventoryEntries(inv[..n])
      invariant Stations(net, sta, chan, location) == ListOf(acc) && nsta == |acc|
    {
      var network := inv[n];
      var s := 0;
      while s < |network.stations|
        invariant s <= |network.stations|
        invariant acc == InventoryEntries(inv[..n]) + StationEntries(network.code, network.stations[..s])
        invariant Stations(net, sta, chan, location) == ListOf(acc) && nsta == |acc|
      {
        var station := network.stations[s];
        var c := 0;
        while c < |station.channels|
          invariant c <= |station.channels|
          invariant acc == InventoryEntries(inv[..n]) + StationEntries(network.code, network.stations[..s])
                           + ChannelEntries(network.code, station.code, station.channels[..c])
          invariant Stations(net, sta, chan, location) == ListOf(acc) && nsta == |acc|
        {
          var channel := station.channels[c];
          ListOfAppend(acc, Channel(network.code, station.code, channel.code, channel.locationCode));
          sta := sta + [station.code];
          net := net + [network.code];
          chan := chan + [channel.code];
          location := location + [channel.locationCode];
          nsta := nsta + 1;
          acc := acc + [Channel(network.code, station.code, channel.code, channel.locationCode)];
          assert ChannelEntries(network.code, station.code, station.channels[..c + 1])
              == ChannelEntries(network.code, station.code, station.channels[..c])
                 + [Channel(network.code, station.code, channel.code, channel.locationCode)];
          c := c + 1;
        }
        assert station.channels[..c] == station.channels;
        assert network.stations[..s + 1][..s] == network.stations[..s];
        s := s + 1;
      }
      assert network.stations[..s] == network.stations;
      assert inv[..n + 1][..n] == inv[..n];
      n := n + 1;
    }
    assert inv[..n] == inv;
    stations := Stations(net, sta, chan, location);
  }

  /** Every entry of the list comes from a channel of the inventory. */
  lemma {:induction false} InventoryEntriesSound(inv: seq<NetworkInv>, e: Channel)
    requires e in InventoryEntries(inv)
    ensures exists n: nat, s: nat, c: nat :: (
      && n < |inv| && s < |inv[n].stations| && c < |inv[n].stations[s].channels|
      && e == Channel(inv[n].code, inv[n].stations[s].code,
                      inv[n].stations[s].channels[c].code, inv[n].stations[s].channels[c].locationCode))
  {
    var last := inv[|inv| - 1];
    if e in InventoryEntries(inv[..|inv| - 1]) {
      InventoryEntriesSound(inv[..|inv| - 1], e);
      var n: nat, s: nat, c: nat :| n < |inv| - 1 && s < |inv[..|inv| - 1][n].stations|
        && c < |inv[..|inv| - 1][n].stations[s].channels|
        && e == Channel(inv[..|inv| - 1][n].code, inv[..|inv| - 1][n].stations[s].code,
                        inv[..|inv| - 1][n].stations[s].channels[c].code,
                        inv[..|inv| - 1][n].stations[s].channels[c].locationCode);
      assert inv[..|inv| - 1][n] == inv[n];
    } else {
      StationEntriesSound(last.code, last.stations, e);
    }
  }

  lemma {:induction false} StationEntriesSound(net: string, stas: seq<StationInv>, e: Channel)
    requires e in StationEntries(net, stas)
    ensures exists s: nat, c: nat :: (
      && s < |stas| && c < |stas[s].channels|
      && e == Channel(net, stas[s].code, stas[s].channels[c].code, stas[s].channels[c].locationCode))
  {
    var last := stas[|stas| - 1];
    var init := stas[..|stas| - 1];
    if e in StationEntries(net, init) {
      StationEntriesSound(net, init, e);
      var s: nat, c: nat :| s < |init| && c < |init[s].channels|
        && e == Channel(net, init[s].code, init[s].channels[c].code, init[s].channels[c].locationCode);
      assert init[s] == stas[s];
    } else {
      var es := ChannelEntries(net, last.code, last.channels);
      var c :| 0 <= c < |es| && es[c] == e;
      assert e == Channel(net, stas[|stas| - 1].code, stas[|stas| - 1].channels[c].code,
                          stas[|stas| - 1].channels[c].locationCode);
    }
  }

  /** Every channel of the inventory has its entry in the list. */
  lemma {:induction false} InventoryEntriesComplete(inv: seq<NetworkInv>, n: nat, s: nat, c: nat)
    requires n < |inv| && s < |inv[n].stations| && c < |inv[n].stations[s].channels|
    ensures Channel(inv[n].code, inv[n].stations[s].code, inv[n].stations[s].channels[c].code,
                    inv[n].stations[s].channels[c].locationCode) in InventoryEntries(inv)
  {
    var e := Channel(inv[n].code, inv[n].stations[s].code, inv[n].stations[s].channels[c].code,
                     inv[n].stations[s].channels[c].locationCode);
    var init := inv[..|inv| - 1];
    if n < |inv| - 1 {
      assert init[n] == inv[n];
      InventoryEntriesComplete(init, n, s, c);
    } else {
      StationEntriesComplete(inv[n].code, inv[n].stations, s, c);
    }
  }

  lemma {:induction false} StationEntriesComplete(net: string, stas: seq<StationInv>, s: nat, c: nat)
    requires s < |stas| && c < |stas[s].channels|
    ensures Channel(net, stas[s].code, stas[s].channels[c].code, stas[s].channels[c].locationCode)
            in StationEntries(net, stas)
  {
    var init := stas[..|stas| - 1];
    if s < |stas| - 1 {
      assert init[s] == stas[s];
      StationEntriesComplete(net, init, s, c);
    } else {
      var es := ChannelEntries(net, stas[s].code, stas[s].channels);
      assert es[c] in es;
    }
  }

  // ---------------------------------------------------------------------
  // Memory estimate (lines 139-145)
  // ---------------------------------------------------------------------

  /** The pre-processing parameters the estimate uses. */
  datatype Budget = Budget(incHours: nat, ccLen: nat, step: nat, newFreq: nat, maxMem: real)

  /**
   * Line 140: `floor((inc_hours*3600 - cc_len)/step) + 1`, the number of
   * `cc_len`-second windows, starting every `step` seconds, that fit in a
   * chunk. The division is Dafny's, which is the floor for a positive
   * divisor; `inc_hours/24*86400` is `inc_hours*3600` over the reals.
   */
  function SegmentsPerChunk(incHours: nat, ccLen: nat, step: nat): (r: int)
    requires step > 0
    ensures (r - 1) * step <= incHours * 3600 - ccLen < r * step
  {
    (incHours * 3600 - ccLen) / step + 1
  }

  /** When a chunk holds at least one window, the last window fits and the next one does not. */
  lemma SegmentsFit(incHours: nat, ccLen: nat, step: nat)
    requires step > 0 && incHours * 3600 >= ccLen
    ensures var n := SegmentsPerChunk(incHours, ccLen, step);
      n >= 1 && (n - 1) * step + ccLen <= incHours * 3600 < n * step + ccLen
  {
  }

  /** 48-hour chunks of one-hour windows every half hour hold 95 windows. */
  lemma SegmentsExample()
    ensures SegmentsPerChunk(48, 3600, 1800) == 95
  {
  }

  /**
   * Line 141: samples per chunk at `NewFreq` samples per second. With
   * non-empty windows there are samples exactly when a window fits.
   */
  function PointsPerChunk(b: Budget): (r: int)
    requires b.step > 0
    ensures b.ccLen * b.newFreq > 0 ==> (r > 0 <==> b.incHours * 3600 >= b.ccLen)
  {
    var n := SegmentsPerChunk(b.incHours, b.ccLen, b.step);
    assert n > 0 <==> b.incHours * 3600 >= b.ccLen by {
      if b.incHours * 3600 >= b.ccLen {
        assert n * b.step > 0;
      } else {
        assert (n - 1) * b.step < 0;
      }
    }
    assert n * b.ccLen * b.newFreq == n * (b.ccLen * b.newFreq);
    n * b.ccLen * b.newFreq
  }

  /** A chunk that holds a window holds at least one window's samples. */
  lemma PointsAtLeastOneWindow(b: Budget)
    requires b.step > 0 && b.incHours * 3600 >= b.ccLen
    ensures PointsPerChunk(b) >= b.ccLen * b.newFreq
  {
    var n := SegmentsPerChunk(b.incHours, b.ccLen, b.step);
    SegmentsFit(b.incHours, b.ccLen, b.step);
    MultiplyMonotoneInt(1, n, b.ccLen * b.newFreq);
    assert n * b.ccLen * b.newFreq == n * (b.ccLen * b.newFreq);
  }

  /** 1024**3: bytes per gigabyte. */
  const GigaByte: nat := 1024 * 1024 * 1024

  /**
   * Line 142: gigabytes for `nsta` chunks of four-byte samples. Comparing
   * it with a limit in gigabytes is comparing the bytes with the limit's
   * bytes.
   */
  function MemoryGB(nsta: nat, b: Budget): (r: real)
    requires b.step > 0
    ensures r <= b.maxMem <==> (nsta * PointsPerChunk(b) * 4) as real <= b.maxMem * GigaByte as real
  {
    ScaleByGigaByte((nsta * PointsPerChunk(b) * 4) as real, b.maxMem);
    (nsta * PointsPerChunk(b) * 4) as real / GigaByte as real
  }

  /** The error raised at line 144, with the estimate it reports. */
  datatype MemoryError = TooMuchMemory(required: real, provided: real)

  /** Lines 143-145: the estimate must not exceed `MAX_MEM`; equal is accepted. */
  function CheckMemory(nsta: nat, b: Budget): (r: Result<real, MemoryError>)
    requires b.step > 0
    ensures r.Err? <==> (nsta * PointsPerChunk(b) * 4) as real > b.maxMem * GigaByte as real
    ensures r.Ok? ==> r.value == MemoryGB(nsta, b) && r.value <= b.maxMem
    ensures r.Err? ==> r.error == TooMuchMemory(MemoryGB(nsta, b), b.maxMem)
  {
    var gb := MemoryGB(nsta, b);
    ScaleByGigaByte((nsta * PointsPerChunk(b) * 4) as real, b.maxMem);
    if gb > b.maxMem then Err(TooMuchMemory(gb, b.maxMem)) else Ok(gb)
  }

  lemma ScaleByGigaByte(bytes: real, limit: real)
    ensures bytes / GigaByte as real > limit <==> bytes > limit * GigaByte as real
  {
    var g := GigaByte as real;
    assert bytes == (bytes / g) * g;
  }

  /** More stations never need less memory. */
  lemma {:induction false} MemoryMonotoneInStations(n1: nat, n2: nat, b: Budget)
    requires b.step > 0 && n1 <= n2 && b.incHours * 3600 >= b.ccLen
    ensures MemoryGB(n1, b) <= MemoryGB(n2, b)
    ensures CheckMemory(n1, b).Err? ==> CheckMemory(n2, b).Err?
  {
    var p := PointsPerChunk(b);
    PointsAtLeastOneWindow(b);
    assert p >= 0;
    MultiplyMonotone(n1, n2, p * 4);
    assert n1 * p * 4 == n1 * (p * 4) && n2 * p * 4 == n2 * (p * 4);
    DivideMonotone((n1 * p * 4) as real, (n2 * p * 4) as real, GigaByte as real);
  }

  /** Shorter chunks never need more memory: the remedy the error message suggests. */
  lemma MemoryMonotoneInHours(nsta: nat, b1: Budget, h: nat)
    requires b1.step > 0 && h <= b1.incHours
    ensures MemoryGB(nsta, b1.(incHours := h)) <= MemoryGB(nsta, b1)
    ensures CheckMemory(nsta, b1).Ok? ==> CheckMemory(nsta, b1.(incHours := h)).Ok?
  {
    var p0 := PointsPerChunk(b1.(incHours := h));
    var p1 := PointsPerChunk(b1);
    PointsMonotoneInHours(b1, h);
    MultiplyMonotoneInt(p0, p1, nsta * 4);
    assert nsta * p0 * 4 == p0 * (nsta * 4) && nsta * p1 * 4 == p1 * (nsta * 4);
    DivideMonotone((nsta * p0 * 4) as real, (nsta * p1 * 4) as real, GigaByte as real);
  }

  /** Shorter chunks never hold more samples. */
  lemma PointsMonotoneInHours(b1: Budget, h: nat)
    requires b1.step > 0 && h <= b1.incHours
    ensures PointsPerChunk(b1.(incHours := h)) <= PointsPerChunk(b1)
  {
    var x0 := h * 3600 - b1.ccLen;
    var x1 := b1.incHours * 3600 - b1.ccLen;
    Ranges.Distribute(b1.incHours, b1.incHours - h, 3600);
    DivisionMonotone(x0, x1, b1.step);
    var n0 := SegmentsPerChunk(h, b1.ccLen, b1.step);
    var n1 := SegmentsPerChunk(b1.incHours, b1.ccLen, b1.step);
    MultiplyMonotoneInt(n0, n1, b1.ccLen * b1.newFreq);
  }

  lemma MultiplyMonotone(a: nat, b: nat, c: int)
    requires a <= b && c >= 0
    ensures a * c <= b * c
  {
    assert b * c - a * c == (b - a) * c;
  }

  lemma MultiplyMonotoneInt(a: int, b: int, c: nat)
    requires a <= b
    ensures a * c <= b * c
  {
    assert b * c - a * c == (b - a) * c;
    Ranges.ProductNonNegative(b - a, c);
  }

  lemma DivisionMonotone(x: int, y: int, d: nat)
    requires x <= y && d > 0
    ensures x / d <= y / d
  {
    var qx, qy := x / d, y / d;
    assert x == d * qx + x % d && y == d * qy + y % d;
    if qx > qy {
      MultiplyMonotoneInt(qy + 1, qx, d);
      Ranges.Distribute(qy + 1, 1, d);
      assert false;
    }
  }

  lemma DivideMonotone(x: real, y: real, d: real)
    requires x <= y && d > 0.0
    ensures x / d <= y / d
  {
  }

  // ---------------------------------------------------------------------
  // Chunks (lines 167-182)
  // ---------------------------------------------------------------------

  /** The error raised at line 169. */
  datatype DownloadError = Memory(e: MemoryError) | NoChunks

  /**
   * Lines 168-170: `splits`, the number of chunks between consecutive
   * boundaries of `all_chunck`; an empty boundary list aborts.
   */
  function ChunkCount(boundaries: seq<string>): (r: Result<nat, DownloadError>)
    ensures r.Err? <==> |boundaries| == 0
    ensures r.Err? ==> r.error == NoChunks
    ensures r.Ok? ==> r.value + 1 == |boundaries|
  {
    if |boundaries| < 1 then Err(NoChunks) else Ok(|boundaries| - 1)
  }

  /** A single boundary is accepted but yields no chunk, so no rank downloads anything. */
  lemma SingleBoundaryNoWork(b: string, rank: nat, size: nat)
    requires rank < size
    ensures ChunkCount([b]) == Ok(0) && Ranges.Stride(rank, 0, size) == []
  {
  }

  /** Line 202: `start+'T'+end+'.h5'`, the archive of one chunk. */
  function AsdfFileName(start: string, end: string): (r: string)
    ensures EndsWith(r, ".h5") && |r| == |start| + |end| + 4
  {
    start + "T" + end + ".h5"
  }

  /**
   * Line 229 as written: `net+sta+'.'+start+'T'+end+'.SAC'`. The name
   * carries neither the channel nor the location of the entry.
   */
  function SacFileName(net: string, sta: string, start: string, end: string): (r: string)
    ensures EndsWith(r, ".SAC")
  {
    net + sta + "." + start + "T" + end + ".SAC"
  }

  /** The written name gives back `net+sta`, the start and the end when `net+sta` has no `.` and the start no `T`. */
  lemma SacFileNameReadBack(n1: string, s1: string, a1: string, e1: string,
                            n2: string, s2: string, a2: string, e2: string)
    requires '.' !in n1 + s1 && '.' !in n2 + s2 && 'T' !in a1 && 'T' !in a2
    requires SacFileName(n1, s1, a1, e1) == SacFileName(n2, s2, a2, e2)
    ensures n1 + s1 == n2 + s2 && a1 == a2 && e1 == e2
  {
    assert SacFileName(n1, s1, a1, e1) == (n1 + s1) + ['.'] + (a1 + "T" + e1 + ".SAC");
    assert SacFileName(n2, s2, a2, e2) == (n2 + s2) + ['.'] + (a2 + "T" + e2 + ".SAC");
    SeparatedPrefix(n1 + s1, a1 + "T" + e1 + ".SAC", n2 + s2, a2 + "T" + e2 + ".SAC", '.');
    SacSpanReadBack(a1, e1, a2, e2);
  }

  /** The tail `start+'T'+end+'.SAC'` gives back the start and the end when the start has no `T`. */
  lemma SacSpanReadBack(a1: string, e1: string, a2: string, e2: string)
    requires 'T' !in a1 && 'T' !in a2
    requires a1 + "T" + e1 + ".SAC" == a2 + "T" + e2 + ".SAC"
    ensures a1 == a2 && e1 == e2
  {
    assert a1 + "T" + e1 + ".SAC" == a1 + ['T'] + (e1 + ".SAC");
    assert a2 + "T" + e2 + ".SAC" == a2 + ['T'] + (e2 + ".SAC");
    SeparatedPrefix(a1, e1 + ".SAC", a2, e2 + ".SAC", 'T');
    assert e1 == (e1 + ".SAC")[..|e1|];
  }

  /**
   * Two entries of one station that differ only in channel (as `BHE` and
   * `BHN` of `CI.BLC`) get the same SAC file in a chunk as written, so
   * the second `sac.write` replaces the first; the corrected name
   * `SacFile` keeps them apart.
   */
  lemma SacChannelsCollide()
    ensures var st := Stations(["CI", "CI"], ["BLC", "BLC"], ["BHE", "BHN"], ["*", "*"]);
            var b := ["2010_01_01_0_0_0", "2010_01_02_0_0_0"];
            && st.chan[0] != st.chan[1]
            && |StationPuts(Sac, st, b, 0, 0, Fetched(true))| == 1
            && |StationPuts(Sac, st, b, 0, 1, Fetched(true))| == 1
            && StationPuts(Sac, st, b, 0, 0, Fetched(true))[0].file == StationPuts(Sac, st, b, 0, 1, Fetched(true))[0].file
            && SacFile(st, b, 0, 0) != SacFile(st, b, 0, 1)
  {
    var st := Stations(["CI", "CI"], ["BLC", "BLC"], ["BHE", "BHN"], ["*", "*"]);
    var b := ["2010_01_01_0_0_0", "2010_01_02_0_0_0"];
    StationPutsSacCollide(st, b, 0, 0, 1);
    assert SacFile(st, b, 0, 0)[8] != SacFile(st, b, 0, 1)[8];
  }

  /**
   * The SAC file of one entry of the station list and one chunk, with the
   * entry's channel and location in the name:
   * `net+sta+'.'+chan+'.'+location+'.'+start+'T'+end+'.SAC'`.
   */
  function SacChannelFileName(net: string, sta: string, chan: string, location: string,
                              start: string, end: string): (r: string)
    ensures EndsWith(r, ".SAC")
  {
    net + sta + "." + chan + "." + location + "." + start + "T" + end + ".SAC"
  }

  /** Without `.` in the station, channel and location, nor `T` in the start, the name gives every part back. */
  lemma SacChannelFileNameInjective(n1: string, s1: string, c1: string, l1: string, a1: string, e1: string,
                                    n2: string, s2: string, c2: string, l2: string, a2: string, e2: string)
    requires '.' !in n1 + s1 && '.' !in c1 && '.' !in l1 && 'T' !in a1
    requires '.' !in n2 + s2 && '.' !in c2 && '.' !in l2 && 'T' !in a2
    requires SacChannelFileName(n1, s1, c1, l1, a1, e1) == SacChannelFileName(n2, s2, c2, l2, a2, e2)
    ensures n1 + s1 == n2 + s2 && c1 == c2 && l1 == l2 && a1 == a2 && e1 == e2
  {
    var t1 := a1 + "T" + e1 + ".SAC";
    var t2 := a2 + "T" + e2 + ".SAC";
    assert SacChannelFileName(n1, s1, c1, l1, a1, e1) == (n1 + s1) + ['.'] + (c1 + ['.'] + (l1 + ['.'] + t1));
    assert SacChannelFileName(n2, s2, c2, l2, a2, e2) == (n2 + s2) + ['.'] + (c2 + ['.'] + (l2 + ['.'] + t2));
    SeparatedPrefix(n1 + s1, c1 + ['.'] + (l1 + ['.'] + t1), n2 + s2, c2 + ['.'] + (l2 + ['.'] + t2), '.');
    SeparatedPrefix(c1, l1 + ['.'] + t1, c2, l2 + ['.'] + t2, '.');
    SeparatedPrefix(l1, t1, l2, t2, '.');
    SacSpanReadBack(a1, e1, a2, e2);
  }

  /** The corrected SAC file of entry `ista` of chunk `ick`, with its channel and location. */
  function SacFile(st: Stations, boundaries: seq<string>, ick: nat, ista: nat): string
    requires WellFormedStations(st) && ista < Count(st) && ick + 1 < |boundaries|
  {
    SacChannelFileName(st.net[ista], st.sta[ista], st.chan[ista], st.location[ista],
                       boundaries[ick], boundaries[ick + 1])
  }

  /**
   * With the channel and location in the name, two entries of the list
   * that differ in station, channel or location, or two different chunks,
   * never share a SAC file.
   */
  lemma SacFilesDistinct(st: Stations, boundaries: seq<string>, ick1: nat, i1: nat, ick2: nat, i2: nat)
    requires WellFormedStations(st) && i1 < Count(st) && i2 < Count(st)
    requires ick1 + 1 < |boundaries| && ick2 + 1 < |boundaries|
    requires forall k :: 0 <= k < Count(st) ==>
               '.' !in st.net[k] + st.sta[k] && '.' !in st.chan[k] && '.' !in st.location[k]
    requires forall k :: 0 <= k < |boundaries| ==> 'T' !in boundaries[k]
    requires st.net[i1] + st.sta[i1] != st.net[i2] + st.sta[i2] || st.chan[i1] != st.chan[i2]
             || st.location[i1] != st.location[i2] || boundaries[ick1] != boundaries[ick2]
    ensures SacFile(st, boundaries, ick1, i1) != SacFile(st, boundaries, ick2, i2)
  {
    if SacFile(st, boundaries, ick1, i1) == SacFile(st, boundaries, ick2, i2) {
      SacChannelFileNameInjective(st.net[i1], st.sta[i1], st.chan[i1], st.location[i1],
                                  boundaries[ick1], boundaries[ick1 + 1],
                                  st.net[i2], st.sta[i2], st.chan[i2], st.location[i2],
                                  boundaries[ick2], boundaries[ick2 + 1]);
    }
  }

  /** Boundaries written without a `T` (as `2008_01_01_0_0_0`) name distinct chunks by distinct files. */
  lemma AsdfFileNameInjective(s1: string, e1: string, s2: string, e2: string)
    requires 'T' !in s1 && 'T' !in s2
    requires AsdfFileName(s1, e1) == AsdfFileName(s2, e2)
    ensures s1 == s2 && e1 == e2
  {
    assert AsdfFileName(s1, e1) == s1 + ['T'] + (e1 + ".h5");
    assert AsdfFileName(s2, e2) == s2 + ['T'] + (e2 + ".h5");
    SeparatedPrefix(s1, e1 + ".h5", s2, e2 + ".h5", 'T');
    assert e1 == (e1 + ".h5")[..|e1|];
  }

  /** Chunk `ick` spans boundaries `ick` and `ick+1` (lines 181-182). */
  function ChunkFile(boundaries: seq<string>, ick: nat): string
    requires ick + 1 < |boundaries|
  {
    AsdfFileName(boundaries[ick], boundaries[ick + 1])
  }

  /** Distinct boundaries without `T`: different chunks are written to different archives. */
  lemma ChunkFilesDistinct(boundaries: seq<string>, i1: nat, i2: nat)
    requires i1 + 1 < |boundaries| && i2 + 1 < |boundaries| && i1 != i2
    requires forall k :: 0 <= k < |boundaries| ==> 'T' !in boundaries[k]
    requires forall k, l :: 0 <= k < l < |boundaries| ==> boundaries[k] != boundaries[l]
    ensures ChunkFile(boundaries, i1) != ChunkFile(boundaries, i2)
  {
    assert boundaries[i1] != boundaries[i2] by {
      if i1 < i2 {
        assert boundaries[i1] != boundaries[i2];
      } else {
        assert boundaries[i2] != boundaries[i1];
      }
    }
    if ChunkFile(boundaries, i1) == ChunkFile(boundaries, i2) {
      AsdfFileNameInjective(boundaries[i1], boundaries[i1 + 1], boundaries[i2], boundaries[i2 + 1]);
    }
  }

  // ---------------------------------------------------------------------
  // Waveform tags (lines 223-225)
  // ---------------------------------------------------------------------

  /** Line 223-224: the wildcard location `'*'` is stored as `'00'`. */
  function TagLocation(location: string): (r: string)
    ensures location == "*" ==> r == "00"
    ensures location != "*" ==> r == location
  {
    if location == "*" then "00" else location
  }

  /** Line 225: `chan.lower()+'_'+location.lower()`. */
  function WaveformTag(chan: string, location: string): (r: string)
    ensures |r| == |chan| + 1 + |TagLocation(location)|
  {
    Lower(chan) + "_" + Lower(TagLocation(location))
  }

  /** Lower-casing neither adds nor removes underscores. */
  lemma LowerKeepsUnderscore(s: string)
    ensures '_' in Lower(s) <==> '_' in s
  {
    if '_' in s {
      var k :| 0 <= k < |s| && s[k] == '_';
      assert Lower(s)[k] == '_';
    }
    if '_' in Lower(s) {
      var k :| 0 <= k < |s| && Lower(s)[k] == '_';
      assert s[k] == '_';
    }
  }

  /** With codes free of `_`, the tag splits back into the lower-cased channel and location. */
  lemma WaveformTagFields(chan: string, location: string)
    requires '_' !in chan && '_' !in location
    ensures Split(WaveformTag(chan, location), '_') == [Lower(chan), Lower(TagLocation(location))]
  {
    LowerKeepsUnderscore(chan);
    LowerKeepsUnderscore(TagLocation(location));
    SplitAround(Lower(chan), Lower(TagLocation(location)), '_');
    SplitNoSeparator(Lower(chan), '_');
    SplitNoSeparator(Lower(TagLocation(location)), '_');
  }

  /** The wildcard and an explicit `00` location give the same tag. */
  lemma WildcardIsZeroZero(chan: string)
    ensures WaveformTag(chan, "*") == WaveformTag(chan, "00")
  {
  }

  // ---------------------------------------------------------------------
  // Each rank's chunks (lines 179-235)
  // ---------------------------------------------------------------------

  /** `out_form`. */
  datatype OutForm = Asdf | Sac

  /**
   * What the requests for one station and chunk return: no station
   * metadata (`get_stations` raised, or `inv1.select` was empty), no
   * waveforms (`get_waveforms` raised), or waveforms, which `preprocess_raw`
   * may leave empty.
   */
  datatype Fetch = NoStation | NoWaveform | Fetched(nonEmpty: bool)

  /** One archive operation: the station metadata, or the waveforms under a tag, of station `ista`. */
  datatype Put =
    | StationXml(file: string, ista: nat)
    | Waveforms(file: string, tag: string, ista: nat)
    | SacTrace(file: string, ista: nat)

  /**
   * The operations for station `ista` of chunk `ick` (lines 189-232). In
   * SAC form the file is line 229's name as written, which leaves out the
   * channel and the location.
   */
  function StationPuts(form: OutForm, st: Stations, boundaries: seq<string>, ick: nat, ista: nat, f: Fetch): (r: seq<Put>)
    requires WellFormedStations(st) && ista < Count(st) && ick + 1 < |boundaries|
    ensures |r| <= 2 && forall k :: 0 <= k < |r| ==> r[k].ista == ista
    ensures f == NoStation ==> r == []
    ensures form == Sac ==> (r != [] <==> f == Fetched(true))
  {
    var start := boundaries[ick];
    var end := boundaries[ick + 1];
    var meta := if form == Asdf then [StationXml(ChunkFile(boundaries, ick), ista)] else [];
    match f
    case NoStation => []
    case NoWaveform => meta
    case Fetched(nonEmpty) =>
      if !nonEmpty then meta
      else if form == Asdf then
        meta + [Waveforms(ChunkFile(boundaries, ick), WaveformTag(st.chan[ista], st.location[ista]), ista)]
      else [SacTrace(SacFileName(st.net[ista], st.sta[ista], start, end), ista)]
  }

  /**
   * In ASDF form every put of a station goes to the chunk's archive; in SAC
   * form to line 229's name, which carries only `net+sta` and the chunk.
   */
  lemma StationPutsFile(form: OutForm, st: Stations, boundaries: seq<string>, ick: nat, ista: nat, f: Fetch, p: Put)
    requires WellFormedStations(st) && ista < Count(st) && ick + 1 < |boundaries|
    requires p in StationPuts(form, st, boundaries, ick, ista, f)
    ensures form == Asdf ==> !p.SacTrace? && p.file == ChunkFile(boundaries, ick)
    ensures form == Sac ==> p == SacTrace(SacFileName(st.net[ista], st.sta[ista], boundaries[ick], boundaries[ick + 1]), ista)
  {
  }

  /**
   * As written, two entries of one station with data in one chunk put to
   * one SAC file, whatever their channels and locations.
   */
  lemma StationPutsSacCollide(st: Stations, boundaries: seq<string>, ick: nat, i1: nat, i2: nat)
    requires WellFormedStations(st) && i1 < Count(st) && i2 < Count(st) && ick + 1 < |boundaries|
    requires st.net[i1] == st.net[i2] && st.sta[i1] == st.sta[i2]
    ensures |StationPuts(Sac, st, boundaries, ick, i1, Fetched(true))| == 1
    ensures |StationPuts(Sac, st, boundaries, ick, i2, Fetched(true))| == 1
    ensures StationPuts(Sac, st, boundaries, ick, i1, Fetched(true))[0].file
         == StationPuts(Sac, st, boundaries, ick, i2, Fetched(true))[0].file
  {
  }

  /** The station loop of chunk `ick` (line 186) from station `ista` on, station after station. */
  function ChunkPuts(form: OutForm, st: Stations, boundaries: seq<string>, fetch: (nat, nat) -> Fetch,
                     ick: nat, ista: nat): (r: seq<Put>)
    requires WellFormedStations(st) && ista <= Count(st) && ick + 1 < |boundaries|
    ensures |r| <= 2 * (Count(st) - ista)
    ensures forall k :: 0 <= k < |r| ==> ista <= r[k].ista < Count(st)
    decreases Count(st) - ista
  {
    if ista == Count(st) then []
    else StationPuts(form, st, boundaries, ick, ista, fetch(ick, ista))
         + ChunkPuts(form, st, boundaries, fetch, ick, ista + 1)
  }

  /** The chunk loop (line 179) over the chunk indices `icks`. */
  function ChunksPuts(form: OutForm, st: Stations, boundaries: seq<string>, fetch: (nat, nat) -> Fetch,
                      icks: seq<nat>): (r: seq<Put>)
    requires WellFormedStations(st) && forall k :: 0 <= k < |icks| ==> icks[k] + 1 < |boundaries|
    ensures forall k :: 0 <= k < |r| ==> r[k].ista < Count(st)
  {
    if |icks| == 0 then []
    else ChunkPuts(form, st, boundaries, fetch, icks[0], 0) + ChunksPuts(form, st, boundaries, fetch, icks[1..])
  }

  /** In SAC form, every put of the chunk loop goes to the as-written file of its station and one of its chunks. */
  lemma {:induction false} ChunksPutsSacFiles(st: Stations, boundaries: seq<string>, fetch: (nat, nat) -> Fetch,
                                              icks: seq<nat>, p: Put)
    requires WellFormedStations(st) && forall k :: 0 <= k < |icks| ==> icks[k] + 1 < |boundaries|
    requires p in ChunksPuts(Sac, st, boundaries, fetch, icks)
    ensures p.SacTrace? && p.ista < Count(st)
    ensures exists k :: 0 <= k < |icks| && SacChunkFile(st, boundaries, icks[k], p)
  {
    var here := ChunkPuts(Sac, st, boundaries, fetch, icks[0], 0);
    assert ChunksPuts(Sac, st, boundaries, fetch, icks) == here + ChunksPuts(Sac, st, boundaries, fetch, icks[1..]);
    if p in here {
      ChunkPutsSacFile(st, boundaries, fetch, icks[0], 0, p);
      assert SacChunkFile(st, boundaries, icks[0], p);
    } else {
      ChunksPutsSacFiles(st, boundaries, fetch, icks[1..], p);
      var k :| 0 <= k < |icks[1..]| && SacChunkFile(st, boundaries, icks[1..][k], p);
      assert icks[1..][k] == icks[k + 1];
    }
  }

  /** `p` names the SAC file line 229 writes for its own station in chunk `ick`. */
  predicate SacChunkFile(st: Stations, boundaries: seq<string>, ick: nat, p: Put)
    requires WellFormedStations(st) && ick + 1 < |boundaries|
  {
    p.ista < Count(st) && p.file == SacFileName(st.net[p.ista], st.sta[p.ista], boundaries[ick], boundaries[ick + 1])
  }

  /** In SAC form, every put of chunk `ick` goes to the as-written file of its station and the chunk. */
  lemma {:induction false} ChunkPutsSacFile(st: Stations, boundaries: seq<string>, fetch: (nat, nat) -> Fetch,
                                            ick: nat, ista: nat, p: Put)
    requires WellFormedStations(st) && ista <= Count(st) && ick + 1 < |boundaries|
    requires p in ChunkPuts(Sac, st, boundaries, fetch, ick, ista)
    ensures p.SacTrace? && p.ista < Count(st)
    ensures p.file == SacFileName(st.net[p.ista], st.sta[p.ista], boundaries[ick], boundaries[ick + 1])
    decreases Count(st) - ista
  {
    var here := StationPuts(Sac, st, boundaries, ick, ista, fetch(ick, ista));
    assert ChunkPuts(Sac, st, boundaries, fetch, ick, ista) == here + ChunkPuts(Sac, st, boundaries, fetch, ick, ista + 1);
    if p in here {
      StationPutsFile(Sac, st, boundaries, ick, ista, fetch(ick, ista), p);
    } else {
      ChunkPutsSacFile(st, boundaries, fetch, ick, ista + 1, p);
    }
  }

  /** In ASDF form, the waveforms of a station go into a chunk's archive under the station's tag
      exactly when the request succeeded and pre-processing left data. */
  lemma StationWaveformsWritten(st: Stations, boundaries: seq<string>, ick: nat, ista: nat, f: Fetch)
    requires WellFormedStations(st) && ista < Count(st) && ick + 1 < |boundaries|
    ensures (exists p :: p in StationPuts(Asdf, st, boundaries, ick, ista, f) && p.Waveforms?)
            <==> f == Fetched(true)
    ensures f == Fetched(true) ==>
      Waveforms(ChunkFile(boundaries, ick), WaveformTag(st.chan[ista], st.location[ista]), ista)
        in StationPuts(Asdf, st, boundaries, ick, ista, f)
    ensures f != NoStation <==> StationXml(ChunkFile(boundaries, ick), ista) in StationPuts(Asdf, st, boundaries, ick, ista, f)
  {
    var meta := StationXml(ChunkFile(boundaries, ick), ista);
    var wave := Waveforms(ChunkFile(boundaries, ick), WaveformTag(st.chan[ista], st.location[ista]), ista);
    var puts := StationPuts(Asdf, st, boundaries, ick, ista, f);
    if f == Fetched(true) {
      assert puts == [meta, wave];
      assert wave in puts && wave.Waveforms?;
    } else if f == NoStation {
      assert puts == [];
    } else {
      assert puts == [meta];
    }
  }

  /** Every operation of the chunk loop names the archive of one of its chunks (ASDF form). */
  lemma {:induction false} ChunksPutsFiles(st: Stations, boundaries: seq<string>, fetch: (nat, nat) -> Fetch,
                                           icks: seq<nat>, p: Put)
    requires WellFormedStations(st) && forall k :: 0 <= k < |icks| ==> icks[k] + 1 < |boundaries|
    requires p in ChunksPuts(Asdf, st, boundaries, fetch, icks)
    ensures !p.SacTrace? && exists k :: 0 <= k < |icks| && p.file == ChunkFile(boundaries, icks[k])
  {
    var here := ChunkPuts(Asdf, st, boundaries, fetch, icks[0], 0);
    if p in here {
      ChunkPutsFile(st, boundaries, fetch, icks[0], 0, p);
    } else {
      ChunksPutsFiles(st, boundaries, fetch, icks[1..], p);
      var k :| 0 <= k < |icks[1..]| && p.file == ChunkFile(boundaries, icks[1..][k]);
      assert icks[1..][k] == icks[k + 1];
    }
  }

  lemma {:induction false} ChunkPutsFile(st: Stations, boundaries: seq<string>, fetch: (nat, nat) -> Fetch,
                                         ick: nat, ista: nat, p: Put)
    requires WellFormedStations(st) && ista <= Count(st) && ick + 1 < |boundaries|
    requires p in ChunkPuts(Asdf, st, boundaries, fetch, ick, ista)
    ensures !p.SacTrace? && p.file == ChunkFile(boundaries, ick)
    decreases Count(st) - ista
  {
    var here := StationPuts(Asdf, st, boundaries, ick, ista, fetch(ick, ista));
    assert ChunkPuts(Asdf, st, boundaries, fetch, ick, ista) == here + ChunkPuts(Asdf, st, boundaries, fetch, ick, ista + 1);
    if p in here {
      StationPutsFile(Asdf, st, boundaries, ick, ista, fetch(ick, ista), p);
    } else {
      ChunkPutsFile(st, boundaries, fetch, ick, ista + 1, p);
    }
  }

  /** The chunk archives, seen as the operations performed on them in order. */
  class Archive {
    var log: seq<Put>

    constructor()
      ensures log == []
    {
      log := [];
    }

    method Add(p: Put)
      modifies this
      ensures log == old(log) + [p]
    {
      log := log + [p];
    }
  }

  /** The station loop of chunk `ick` (lines 186-235). */
  method DownloadChunk(archive: Archive, form: OutForm, st: Stations, boundaries: seq<string>,
                       fetch: (nat, nat) -> Fetch, ick: nat)
    requires WellFormedStations(st) && ick + 1 < |boundaries|
    modifies archive
    ensures archive.log == old(archive.log) + ChunkPuts(form, st, boundaries, fetch, ick, 0)
  {
    var s1 := boundaries[ick];
    var s2 := boundaries[ick + 1];
    var ista := 0;
    while ista < Count(st)
      invariant ista <= Count(st)
      invariant archive.log + ChunkPuts(form, st, boundaries, fetch, ick, ista)
                == old(archive.log) + ChunkPuts(form, st, boundaries, fetch, ick, 0)
    {
      var f := fetch(ick, ista);
      ghost var before := archive.log;
      if f != NoStation {
        if form == Asdf {
          archive.Add(StationXml(AsdfFileName(s1, s2), ista));
        }
        if f.Fetched? && f.nonEmpty {
          if form == Asdf {
            archive.Add(Waveforms(AsdfFileName(s1, s2), WaveformTag(st.chan[ista], st.location[ista]), ista));
          } else {
            archive.Add(SacTrace(SacFileName(st.net[ista], st.sta[ista], s1, s2), ista));
          }
        }
      }
      assert archive.log == before + StationPuts(form, st, boundaries, ick, ista, f);
      Seqs.ConcatAssoc(before, StationPuts(form, st, boundaries, ick, ista, f),
                  ChunkPuts(form, st, boundaries, fetch, ick, ista + 1));
      ista := ista + 1;
    }
  }

  /**
   * Lines 139-235 for one rank: the memory check, the chunk-list abort,
   * then the chunks `range(rank, splits, size)`.
   */
  method DownloadRank(archive: Archive, form: OutForm, st: Stations, b: Budget, boundaries: seq<string>,
                      fetch: (nat, nat) -> Fetch, rank: nat, size: nat)
    returns (failure: Option<DownloadError>)
    requires WellFormedStations(st) && b.step > 0 && rank < size
    modifies archive
    ensures failure.Some? <==> CheckMemory(Count(st), b).Err? || |boundaries| == 0
    ensures CheckMemory(Count(st), b).Err? ==> failure == Some(Memory(CheckMemory(Count(st), b).error))
    ensures failure.Some? ==> archive.log == old(archive.log)
    ensures failure.None? ==> (archive.log == old(archive.log) +
      ChunksPuts(form, st, boundaries, fetch, Ranges.Stride(rank, |boundaries| - 1, size)))
  {
    var mem := CheckMemory(Count(st), b);
    if mem.Err? {
      return Some(Memory(mem.error));
    }
    var count := ChunkCount(boundaries);
    if count.Err? {
      return Some(count.error);
    }
    DownloadChunks(archive, form, st, boundaries, fetch, rank, count.value, size);
    return None;
  }

  /** The chunk loop of line 179: the chunks `range(rank, splits, size)`, in order. */
  method DownloadChunks(archive: Archive, form: OutForm, st: Stations, boundaries: seq<string>,
                        fetch: (nat, nat) -> Fetch, rank: nat, splits: nat, size: nat)
    requires WellFormedStations(st) && size > 0 && splits < |boundaries|
    modifies archive
    ensures archive.log == old(archive.log) + ChunksPuts(form, st, boundaries, fetch, Ranges.Stride(rank, splits, size))
  {
    ghost var whole := old(archive.log) + ChunksPuts(form, st, boundaries, fetch, Ranges.Stride(rank, splits, size));
    var ick := rank;
    while ick < splits
      invariant ChunksComplete(form, st, boundaries, fetch, archive.log, ick, splits, size, whole)
      decreases splits - ick
    {
      ghost var before := archive.log;
      DownloadChunk(archive, form, st, boundaries, fetch, ick);
      ChunksAdvance(form, st, boundaries, fetch, ick, splits, size, before, archive.log, whole);
      ick := ick + size;
    }
    assert Ranges.Stride(ick, splits, size) == [];
  }

  /** The log `log`, followed by the chunks of the stride from `ick` on, is `whole`. */
  ghost predicate ChunksComplete(form: OutForm, st: Stations, boundaries: seq<string>, fetch: (nat, nat) -> Fetch,
                                 log: seq<Put>, ick: nat, splits: nat, size: nat, whole: seq<Put>)
  {
    WellFormedStations(st) && size > 0 && splits < |boundaries|
    && log + ChunksPuts(form, st, boundaries, fetch, Ranges.Stride(ick, splits, size)) == whole
  }

  /** After chunk `ick` is done, the chunks from `ick + size` on complete the same log. */
  lemma ChunksAdvance(form: OutForm, st: Stations, boundaries: seq<string>, fetch: (nat, nat) -> Fetch,
                      ick: nat, splits: nat, size: nat, before: seq<Put>, log: seq<Put>, whole: seq<Put>)
    requires WellFormedStations(st) && size > 0 && ick < splits < |boundaries|
    requires ChunksComplete(form, st, boundaries, fetch, before, ick, splits, size, whole)
    requires log == before + ChunkPuts(form, st, boundaries, fetch, ick, 0)
    ensures ChunksComplete(form, st, boundaries, fetch, log, ick + size, splits, size, whole)
  {
    ChunkStep(ick, splits, size);
    var todo := Ranges.Stride(ick, splits, size);
    Seqs.ConcatAssoc(before, ChunkPuts(form, st, boundaries, fetch, todo[0], 0),
                     ChunksPuts(form, st, boundaries, fetch, todo[1..]));
  }

  /** One step of the chunk loop: the first index of the stride, then the rest. */
  lemma ChunkStep(ick: nat, splits: nat, size: nat)
    requires ick < splits && size > 0
    ensures var todo := Ranges.Stride(ick, splits, size);
      |todo| > 0 && todo[0] == ick && todo[1..] == Ranges.Stride(ick + size, splits, size)
  {
    assert ([ick] + Ranges.Stride(ick + size, splits, size))[1..] == Ranges.Stride(ick + size, splits, size);
  }

  /** Every chunk is downloaded by exactly one rank. */
  lemma ChunkOwnedByOneRank(splits: nat, size: nat, ick: nat, r: nat)
    requires size > 0 && ick < splits && r < size
    ensures ick in Ranges.Stride(r, splits, size) <==> r == ick % size
  {
    Ranges.RankOwnsIndex(splits, size, r, ick);
  }
}
