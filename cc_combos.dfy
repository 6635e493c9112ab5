/**
 * The combinations of a source file `i`, its data type `c`, a receiver
 * file `j` and its data type `d` that the cross-correlation driver's four
 * nested loops (lines 85-224) visit, for files with `n[k]` data types
 * each, and the order in which they visit them.
 */
module CcCombos {
  /** Source file, source data type, receiver file, receiver data type. */
  datatype Combo = Combo(i: nat, c: nat, j: nat, d: nat)

  /** The loops' order: lexicographic on `(i, c, j, d)`. */
  predicate Before(x: Combo, y: Combo)
  {
    || x.i < y.i
    || (x.i == y.i && x.c < y.c)
    || (x.i == y.i && x.c == y.c && x.j < y.j)
    || (x.i == y.i && x.c == y.c && x.j == y.j && x.d < y.d)
  }

  /** Every combination comes strictly before all those after it, so none occurs twice. */
  predicate InLoopOrder(os: seq<Combo>)
  {
    forall k, l {:trigger Before(os[k], os[l])} :: 0 <= k < l < |os| ==> Before(os[k], os[l])
  }

  /**
   * The combinations the loops range over, for files with `n[k]` data
   * types: a source before the last file and a receiver from the source on.
   */
  predicate Visited(n: seq<nat>, o: Combo)
  {
    o.i + 1 < |n| && o.c < n[o.i] && o.i <= o.j < |n| && o.d < n[o.j]
  }

  /** Loop IV from `d` on. */
  function ReceiverComponentCombos(n: seq<nat>, i: nat, c: nat, j: nat, d: nat): seq<Combo>
    requires j < |n| && d <= n[j]
    decreases n[j] - d
  {
    if d == n[j] then [] else [Combo(i, c, j, d)] + ReceiverComponentCombos(n, i, c, j, d + 1)
  }

  /** Loop III from receiver file `j` on. */
  function ReceiverCombos(n: seq<nat>, i: nat, c: nat, j: nat): seq<Combo>
    requires j <= |n|
    decreases |n| - j
  {
    if j == |n| then [] else ReceiverComponentCombos(n, i, c, j, 0) + ReceiverCombos(n, i, c, j + 1)
  }

  /** Loop II from source data type `c` on; the receivers start at the source. */
  function SourceComponentCombos(n: seq<nat>, i: nat, c: nat): seq<Combo>
    requires i < |n| && c <= n[i]
    decreases n[i] - c
  {
    if c == n[i] then [] else ReceiverCombos(n, i, c, i) + SourceComponentCombos(n, i, c + 1)
  }

  /** Loop I from source file `i` on. */
  function SourceCombos(n: seq<nat>, i: nat): seq<Combo>
    requires i <= |n|
    decreases |n| - i
  {
    if i + 1 >= |n| then [] else SourceComponentCombos(n, i, 0) + SourceCombos(n, i + 1)
  }

  /** Every combination of `a` comes before every combination of `b`. */
  predicate Separated(a: seq<Combo>, b: seq<Combo>)
  {
    forall x, y :: x in a && y in b ==> Before(x, y)
  }

  lemma {:induction false} ConcatInLoopOrder(a: seq<Combo>, b: seq<Combo>)
    requires InLoopOrder(a) && InLoopOrder(b) && Separated(a, b)
    ensures InLoopOrder(a + b)
  {
    forall k, l | 0 <= k < l < |a + b| ensures Before((a + b)[k], (a + b)[l]) {
      if l < |a| {
        assert (a + b)[k] == a[k] && (a + b)[l] == a[l];
      } else if k >= |a| {
        assert (a + b)[k] == b[k - |a|] && (a + b)[l] == b[l - |a|];
      } else {
        assert (a + b)[k] == a[k] && a[k] in a;
        assert (a + b)[l] == b[l - |a|] && b[l - |a|] in b;
      }
    }
  }

  /** Loop IV from `d0` on visits the receiver data types `d0 <= d < n[j]` of file `j`. */
  lemma {:induction false} ReceiverComponentCombosMember(n: seq<nat>, i: nat, c: nat, j: nat, d0: nat, o: Combo)
    requires j < |n| && d0 <= n[j]
    ensures o in ReceiverComponentCombos(n, i, c, j, d0) <==> o.i == i && o.c == c && o.j == j && d0 <= o.d < n[j]
    decreases n[j] - d0
  {
    if d0 < n[j] {
      ReceiverComponentCombosMember(n, i, c, j, d0 + 1, o);
    }
  }

  /** Loop III from `j0` on visits every data type of every receiver file from `j0` on. */
  lemma {:induction false} ReceiverCombosMember(n: seq<nat>, i: nat, c: nat, j0: nat, o: Combo)
    requires j0 <= |n|
    ensures o in ReceiverCombos(n, i, c, j0) <==> o.i == i && o.c == c && j0 <= o.j < |n| && o.d < n[o.j]
    decreases |n| - j0
  {
    if j0 < |n| {
      var here := ReceiverComponentCombos(n, i, c, j0, 0);
      var later := ReceiverCombos(n, i, c, j0 + 1);
      assert ReceiverCombos(n, i, c, j0) == here + later;
      ReceiverComponentCombosMember(n, i, c, j0, 0, o);
      ReceiverCombosMember(n, i, c, j0 + 1, o);
      if o.j == j0 {
        assert o !in later;
      } else {
        assert o !in here;
      }
    }
  }

  /** Loop II from `c0` on pairs each source data type from `c0` on with every receiver from the source on. */
  lemma {:induction false} SourceComponentCombosMember(n: seq<nat>, i: nat, c0: nat, o: Combo)
    requires i < |n| && c0 <= n[i]
    ensures o in SourceComponentCombos(n, i, c0) <==>
      o.i == i && c0 <= o.c < n[i] && i <= o.j < |n| && o.d < n[o.j]
    decreases n[i] - c0
  {
    if c0 < n[i] {
      var here := ReceiverCombos(n, i, c0, i);
      var later := SourceComponentCombos(n, i, c0 + 1);
      assert SourceComponentCombos(n, i, c0) == here + later;
      ReceiverCombosMember(n, i, c0, i, o);
      SourceComponentCombosMember(n, i, c0 + 1, o);
      if o.c == c0 {
        assert o !in later;
      } else {
        assert o !in here;
      }
    }
  }

  /** Loop I from `i0` on visits exactly the combinations with a source from `i0` on. */
  lemma {:induction false} SourceCombosMember(n: seq<nat>, i0: nat, o: Combo)
    requires i0 <= |n|
    ensures o in SourceCombos(n, i0) <==> i0 <= o.i && Visited(n, o)
    decreases |n| - i0
  {
    if i0 + 1 < |n| {
      SourceComponentCombosMember(n, i0, 0, o);
      SourceCombosMember(n, i0 + 1, o);
      SourceCombosMemberStep(n, i0, o);
    } else {
      assert SourceCombos(n, i0) == [];
    }
  }

  /** The step of `SourceCombosMember`: source file `i0`'s combinations, then the later files'. */
  lemma SourceCombosMemberStep(n: seq<nat>, i0: nat, o: Combo)
    requires i0 + 1 < |n|
    requires o in SourceComponentCombos(n, i0, 0) <==> o.i == i0 && o.c < n[i0] && i0 <= o.j < |n| && o.d < n[o.j]
    requires o in SourceCombos(n, i0 + 1) <==> i0 + 1 <= o.i && Visited(n, o)
    ensures o in SourceCombos(n, i0) <==> i0 <= o.i && Visited(n, o)
  {
    var here := SourceComponentCombos(n, i0, 0);
    var later := SourceCombos(n, i0 + 1);
    assert SourceCombos(n, i0) == here + later;
    if o.i == i0 {
      assert o !in later;
    } else {
      assert o !in here;
    }
  }

  /** Every combination of `here` comes before every combination of `later`. */
  lemma ReceiverComponentCombosSeparated(n: seq<nat>, i: nat, c: nat, j: nat, d: nat)
    requires j < |n| && d < n[j]
    ensures Separated([Combo(i, c, j, d)], ReceiverComponentCombos(n, i, c, j, d + 1))
  {
    forall x, y | x in [Combo(i, c, j, d)] && y in ReceiverComponentCombos(n, i, c, j, d + 1) ensures Before(x, y) {
      ReceiverComponentCombosMember(n, i, c, j, d + 1, y);
    }
  }

  lemma {:induction false} ReceiverComponentCombosOrdered(n: seq<nat>, i: nat, c: nat, j: nat, d: nat)
    requires j < |n| && d <= n[j]
    ensures InLoopOrder(ReceiverComponentCombos(n, i, c, j, d))
    decreases n[j] - d
  {
    if d < n[j] {
      ReceiverComponentCombosOrdered(n, i, c, j, d + 1);
      ReceiverComponentCombosSeparated(n, i, c, j, d);
      ConcatInLoopOrder([Combo(i, c, j, d)], ReceiverComponentCombos(n, i, c, j, d + 1));
    }
  }

  lemma ReceiverCombosSeparated(n: seq<nat>, i: nat, c: nat, j: nat)
    requires j < |n|
    ensures Separated(ReceiverComponentCombos(n, i, c, j, 0), ReceiverCombos(n, i, c, j + 1))
  {
    forall x, y | x in ReceiverComponentCombos(n, i, c, j, 0) && y in ReceiverCombos(n, i, c, j + 1) ensures Before(x, y) {
      ReceiverComponentCombosMember(n, i, c, j, 0, x);
      ReceiverCombosMember(n, i, c, j + 1, y);
    }
  }

  lemma {:induction false} ReceiverCombosOrdered(n: seq<nat>, i: nat, c: nat, j: nat)
    requires j <= |n|
    ensures InLoopOrder(ReceiverCombos(n, i, c, j))
    decreases |n| - j
  {
    if j < |n| {
      ReceiverComponentCombosOrdered(n, i, c, j, 0);
      ReceiverCombosOrdered(n, i, c, j + 1);
      ReceiverCombosSeparated(n, i, c, j);
      ConcatInLoopOrder(ReceiverComponentCombos(n, i, c, j, 0), ReceiverCombos(n, i, c, j + 1));
    }
  }

  lemma SourceComponentCombosSeparated(n: seq<nat>, i: nat, c: nat)
    requires i < |n| && c < n[i]
    ensures Separated(ReceiverCombos(n, i, c, i), SourceComponentCombos(n, i, c + 1))
  {
    forall x, y | x in ReceiverCombos(n, i, c, i) && y in SourceComponentCombos(n, i, c + 1) ensures Before(x, y) {
      ReceiverCombosMember(n, i, c, i, x);
      SourceComponentCombosMember(n, i, c + 1, y);
    }
  }

  lemma {:induction false} SourceComponentCombosOrdered(n: seq<nat>, i: nat, c: nat)
    requires i < |n| && c <= n[i]
    ensures InLoopOrder(SourceComponentCombos(n, i, c))
    decreases n[i] - c
  {
    if c < n[i] {
      ReceiverCombosOrdered(n, i, c, i);
      SourceComponentCombosOrdered(n, i, c + 1);
      SourceComponentCombosSeparated(n, i, c);
      ConcatInLoopOrder(ReceiverCombos(n, i, c, i), SourceComponentCombos(n, i, c + 1));
    }
  }

  lemma SourceCombosSeparated(n: seq<nat>, i: nat)
    requires i + 1 < |n|
    ensures Separated(SourceComponentCombos(n, i, 0), SourceCombos(n, i + 1))
  {
    forall x, y | x in SourceComponentCombos(n, i, 0) && y in SourceCombos(n, i + 1) ensures Before(x, y) {
      SourceComponentCombosMember(n, i, 0, x);
      SourceCombosMember(n, i + 1, y);
    }
  }

  lemma {:induction false} SourceCombosOrdered(n: seq<nat>, i: nat)
    requires i <= |n|
    ensures InLoopOrder(SourceCombos(n, i))
    decreases |n| - i
  {
    if i + 1 < |n| {
      SourceComponentCombosOrdered(n, i, 0);
      SourceCombosOrdered(n, i + 1);
      SourceCombosSeparated(n, i);
      ConcatInLoopOrder(SourceComponentCombos(n, i, 0), SourceCombos(n, i + 1));
    }
  }

  /**
   * Induction from the end of a loop towards its start: a property of index
   * `hi` that every step from `i + 1` back to `i` keeps holds at `lo`.
   */
  lemma {:induction false} BackFrom(P: nat -> bool, lo: nat, hi: nat)
    requires lo <= hi && P(hi)
    requires forall i :: lo <= i < hi && P(i + 1) ==> P(i)
    ensures P(lo)
    decreases hi - lo
  {
    if lo < hi {
      BackFrom(P, lo + 1, hi);
    }
  }
}
