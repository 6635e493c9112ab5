/**
 * The names the cross-correlation driver derives (lines 87-88, 162-163,
 * 210, 221-222 of the driver): network and station read back from an FFT
 * archive's file name, the `net s sta s component` keys under which a
 * correlation is stored, and the per-day output file name.
 */
module CcNaming {
  import opened Wrappers
  import opened Text

  /** `path.split('/')[-1]`. */
  function BaseName(path: string): (r: string)
    ensures '/' !in r
  {
    LastField(path, '/')
  }

  /**
   * Fields 0 and 1 of the `'.'`-split base name: `(network, station)`.
   * With fewer than two fields Python raises IndexError; that is `None`.
   */
  function ParseStation(path: string): (r: Option<(string, string)>)
    ensures r.Some? <==> '.' in BaseName(path)
    ensures r.Some? ==> '.' !in r.value.0 && '.' !in r.value.1
  {
    var base := BaseName(path);
    var fields := Split(base, '.');
    if |fields| >= 2 then
      Some((fields[0], fields[1]))
    else None
  }

  /** A file listed by `glob('*.h5')` always names a station. */
  lemma GlobbedNameParses(path: string)
    requires EndsWith(path, ".h5")
    ensures ParseStation(path).Some?
  {
    var p := path[..|path| - 3];
    assert path == p + ".h5";
    SplitAppend(p, ".h5", '/');
    assert BaseName(path) == BaseName(p) + ".h5";
    assert BaseName(path)[|BaseName(path)| - 3] == '.';
  }

  /**
   * Reading back a name of the form `dir/net.sta.h5` (the form the
   * downloader writes) gives the network and station it was built from.
   */
  lemma {:induction false} StationNameRoundTrip(dir: string, net: string, sta: string)
    requires '/' !in net && '/' !in sta && '.' !in net && '.' !in sta
    ensures ParseStation(dir + "/" + net + "." + sta + ".h5") == Some((net, sta))
  {
    var base := net + "." + sta + ".h5";
    assert '/' !in base by {
      assert forall k :: 0 <= k < |base| ==> base[k] in net || base[k] in sta || base[k] in ".h5";
    }
    assert dir + "/" + net + "." + sta + ".h5" == dir + ['/'] + base;
    SplitAround(dir, base, '/');
    SplitNoSeparator(base, '/');
    assert BaseName(dir + ['/'] + base) == base;
    assert base == net + ['.'] + (sta + ['.'] + "h5");
    SplitAround(net, sta + ['.'] + "h5", '.');
    SplitAround(sta, "h5", '.');
    SplitNoSeparator(net, '.');
    SplitNoSeparator(sta, '.');
    SplitNoSeparator("h5", '.');
    assert Split(base, '.') == [net, sta, "h5"];
  }

  /**
   * `net+'s'+sta+'s'+comp`: the data type (source side) and the path
   * (receiver side) of a stored correlation.
   */
  function PairKey(net: string, sta: string, comp: string): (r: string)
    ensures |r| == |net| + |sta| + |comp| + 2
  {
    net + "s" + sta + "s" + comp
  }

  /**
   * Keys are unambiguous when network and station codes hold no lower-case
   * `s` (as for upper-case station codes): equal keys come from equal names.
   */
  lemma PairKeyInjective(net1: string, sta1: string, comp1: string,
                         net2: string, sta2: string, comp2: string)
    requires 's' !in net1 && 's' !in sta1 && 's' !in net2 && 's' !in sta2
    requires PairKey(net1, sta1, comp1) == PairKey(net2, sta2, comp2)
    ensures net1 == net2 && sta1 == sta2 && comp1 == comp2
  {
    assert PairKey(net1, sta1, comp1) == net1 + ['s'] + (sta1 + ['s'] + comp1);
    assert PairKey(net2, sta2, comp2) == net2 + ['s'] + (sta2 + ['s'] + comp2);
    SeparatedPrefix(net1, sta1 + ['s'] + comp1, net2, sta2 + ['s'] + comp2, 's');
    SeparatedPrefix(sta1, comp1, sta2, comp2, 's');
  }

  /** Without that condition two different stations can share a key. */
  lemma PairKeyAmbiguous()
    ensures PairKey("AB", "sC", "Z") == PairKey("ABs", "C", "Z")
  {
  }

  /** `iday+'.h5'`: the correlation archive of one day (inside the output directory). */
  function DayFileName(iday: string): (r: string)
    ensures |r| == |iday| + 3 && EndsWith(r, ".h5") && r[..|iday|] == iday
  {
    iday + ".h5"
  }

  /** Different days are written to different files. */
  lemma DayFileNameInjective(d1: string, d2: string)
    ensures DayFileName(d1) == DayFileName(d2) <==> d1 == d2
  {
    if DayFileName(d1) == DayFileName(d2) {
      assert |d1| == |d2|;
      assert d1 == DayFileName(d1)[..|d1|];
    }
  }
}
