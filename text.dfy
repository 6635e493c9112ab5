/**
 * The string operations the scripts use: Python's `str.split` on one
 * separator character, `str.lower` on ASCII letters, `str.endswith`, and
 * zero-padded decimal formatting (`'{0:04d}'`) together with `int()` on a
 * string of decimal digits.
 */
module Text {
  import opened Wrappers

  /** `s.split(sep)`: the fields between occurrences of `sep`, empty ones kept. */
  function Split(s: string, sep: char): (r: seq<string>)
    ensures |r| >= 1
    ensures forall k :: 0 <= k < |r| ==> sep !in r[k]
    ensures |r| == 1 <==> sep !in s
  {
    if |s| == 0 then [""]
    else
      var rest := Split(s[1..], sep);
      assert sep in s <==> s[0] == sep || sep in s[1..];
      if s[0] == sep then [""] + rest
      else [[s[0]] + rest[0]] + rest[1..]
  }

  /** A string without the separator is a single field. */
  lemma {:induction false} SplitNoSeparator(s: string, sep: char)
    requires sep !in s
    ensures Split(s, sep) == [s]
  {
    if |s| > 0 {
      SplitNoSeparator(s[1..], sep);
      assert [s[0]] + s[1..] == s;
    }
  }

  /** Splitting distributes over a separator placed between two strings. */
  lemma {:induction false} SplitAround(a: string, b: string, sep: char)
    ensures Split(a + [sep] + b, sep) == Split(a, sep) + Split(b, sep)
  {
    var t := a + [sep] + b;
    if |a| == 0 {
      assert t[1..] == b;
    } else {
      assert t[1..] == a[1..] + [sep] + b;
      SplitAround(a[1..], b, sep);
      SplitStep(a, t, Split(b, sep), sep);
    }
  }

  /** One unfolding of `Split` on two strings with the same first character
      whose remainders split into `Split(a[1..])` followed by `more`. */
  lemma SplitStep(a: string, t: string, more: seq<string>, sep: char)
    requires |a| > 0 && |t| > 0 && t[0] == a[0]
    requires Split(t[1..], sep) == Split(a[1..], sep) + more
    ensures Split(t, sep) == Split(a, sep) + more
  {
    var tail := Split(a[1..], sep);
    if a[0] == sep {
      ConsEmpty(tail, more);
    } else {
      ConsField([a[0]], tail, more);
    }
  }

  lemma ConsEmpty(tail: seq<string>, more: seq<string>)
    ensures [""] + (tail + more) == ([""] + tail) + more
  {
  }

  lemma ConsField(h: string, tail: seq<string>, more: seq<string>)
    requires |tail| > 0
    ensures (tail + more)[0] == tail[0]
    ensures [h + (tail + more)[0]] + (tail + more)[1..] == ([h + tail[0]] + tail[1..]) + more
  {
    assert (tail + more)[1..] == tail[1..] + more;
  }

  /** The first character of `a + [c] + x`: from `a` when there is one, else `c`. */
  lemma HeadOfSeparated(a: string, c: char, x: string)
    ensures |a| > 0 ==> (a + [c] + x)[0] == a[0] && a[0] in a
    ensures |a| == 0 ==> (a + [c] + x)[0] == c
  {
  }

  /** Two strings that each start with a separator-free head and then the separator agree on head and tail. */
  lemma {:induction false} SeparatedPrefix(a: string, x: string, b: string, y: string, c: char)
    requires c !in a && c !in b
    requires a + [c] + x == b + [c] + y
    ensures a == b && x == y
  {
    HeadOfSeparated(a, c, x);
    HeadOfSeparated(b, c, y);
    if |a| == 0 && |b| == 0 {
      assert x == (a + [c] + x)[1..];
    } else if |a| > 0 && |b| > 0 {
      assert (a + [c] + x)[1..] == a[1..] + [c] + x;
      assert (b + [c] + y)[1..] == b[1..] + [c] + y;
      assert forall z :: z in a[1..] ==> z in a;
      assert forall z :: z in b[1..] ==> z in b;
      SeparatedPrefix(a[1..], x, b[1..], y, c);
      assert a == [a[0]] + a[1..] && b == [b[0]] + b[1..];
    }
  }

  /** The last field of `s.split(sep)`. */
  function LastField(s: string, sep: char): string
  {
    var fields := Split(s, sep);
    fields[|fields| - 1]
  }

  /** Appending text without the separator extends the last field and adds no field. */
  lemma {:induction false} SplitAppend(p: string, t: string, sep: char)
    requires sep !in t
    ensures |Split(p + t, sep)| == |Split(p, sep)|
    ensures LastField(p + t, sep) == LastField(p, sep) + t
  {
    if |p| == 0 {
      assert p + t == t;
      SplitNoSeparator(t, sep);
    } else {
      assert (p + t)[1..] == p[1..] + t;
      SplitAppend(p[1..], t, sep);
      var r1 := Split(p[1..] + t, sep);
      var r0 := Split(p[1..], sep);
      if p[0] == sep {
        ExtendLastEmpty(r1, r0, t);
      } else {
        ExtendLast([p[0]], r1, r0, t);
      }
    }
  }

  lemma ExtendLastEmpty(r1: seq<string>, r0: seq<string>, t: string)
    requires |r1| == |r0| >= 1 && r1[|r1| - 1] == r0[|r0| - 1] + t
    ensures |[""] + r1| == |[""] + r0| && ([""] + r1)[|r1|] == ([""] + r0)[|r0|] + t
  {
  }

  lemma ExtendLast(h: string, r1: seq<string>, r0: seq<string>, t: string)
    requires |r1| == |r0| >= 1 && r1[|r1| - 1] == r0[|r0| - 1] + t
    ensures var a := [h + r1[0]] + r1[1..];
      var b := [h + r0[0]] + r0[1..];
      |a| == |b| && a[|a| - 1] == b[|b| - 1] + t
  {
    if |r0| == 1 {
      assert h + (r0[0] + t) == (h + r0[0]) + t;
    }
  }

  /** `c.lower()` for ASCII: upper-case letters map to lower case. */
  function LowerChar(c: char): char
  {
    if 'A' <= c <= 'Z' then (c as int + 32) as char else c
  }

  /** `s.lower()` restricted to ASCII letters; other characters are kept. */
  function Lower(s: string): (r: string)
    ensures |r| == |s|
    ensures forall k :: 0 <= k < |s| ==> !('A' <= r[k] <= 'Z')
    ensures forall k :: 0 <= k < |s| ==>
      if 'A' <= s[k] <= 'Z' then r[k] as int == s[k] as int + 32 else r[k] == s[k]
  {
    seq(|s|, k requires 0 <= k < |s| => LowerChar(s[k]))
  }

  predicate EndsWith(s: string, suffix: string)
  {
    |suffix| <= |s| && s[|s| - |suffix|..] == suffix
  }

  predicate IsDigit(c: char)
  {
    '0' <= c <= '9'
  }

  predicate AllDigits(s: string)
  {
    forall k :: 0 <= k < |s| ==> IsDigit(s[k])
  }

  function DigitChar(d: nat): (c: char)
    requires d < 10
    ensures IsDigit(c) && c as int - '0' as int == d
  {
    ('0' as int + d) as char
  }

  function Pow10(w: nat): (p: nat)
    ensures p >= 1
  {
    if w == 0 then 1 else 10 * Pow10(w - 1)
  }

  /** `str(n)` for a natural number: its decimal digits without leading zeros. */
  function Decimal(n: nat): (r: string)
    ensures |r| >= 1 && AllDigits(r)
    decreases n
  {
    if n < 10 then [DigitChar(n)] else Decimal(n / 10) + [DigitChar(n % 10)]
  }

  function Zeros(k: nat): (r: string)
    ensures |r| == k && forall i :: 0 <= i < k ==> r[i] == '0'
  {
    if k == 0 then "" else Zeros(k - 1) + "0"
  }

  /** `'{0:0Wd}'.format(n)`: the decimal digits of `n`, left-padded with
      zeros to at least `width` characters. */
  function ZeroPad(n: nat, width: nat): (r: string)
    ensures AllDigits(r) && |r| >= width && |r| >= 1
  {
    var d := Decimal(n);
    if |d| >= width then d else Zeros(width - |d|) + d
  }

  /** The number a string of decimal digits denotes. */
  function DigitsValue(s: string): nat
    requires AllDigits(s)
  {
    if |s| == 0 then 0
    else 10 * DigitsValue(s[..|s| - 1]) + (s[|s| - 1] as int - '0' as int)
  }

  /** `int(s)` for a non-empty string of ASCII decimal digits; any other
      string is refused (Python raises ValueError for most of them). */
  function ParseDecimal(s: string): (r: Option<nat>)
    ensures r.Some? <==> |s| > 0 && AllDigits(s)
  {
    if |s| > 0 && AllDigits(s) then Some(DigitsValue(s)) else None
  }

  /** Reading back the decimal digits of `n` gives `n`. */
  lemma {:induction false} DecimalValue(n: nat)
    ensures DigitsValue(Decimal(n)) == n
    decreases n
  {
    if n >= 10 {
      DecimalValue(n / 10);
      var d := Decimal(n);
      assert d[..|d| - 1] == Decimal(n / 10);
    }
  }

  /** Leading zeros do not change the value of a digit string. */
  lemma {:induction false} LeadingZerosValue(k: nat, s: string)
    requires AllDigits(s)
    ensures AllDigits(Zeros(k) + s) && DigitsValue(Zeros(k) + s) == DigitsValue(s)
    decreases |s|, k
  {
    var t := Zeros(k) + s;
    if |s| == 0 {
      assert t == Zeros(k);
      if k > 0 {
        LeadingZerosValue(k - 1, "");
        assert t[..|t| - 1] == Zeros(k - 1) + "";
      }
    } else {
      LeadingZerosValue(k, s[..|s| - 1]);
      assert t[..|t| - 1] == Zeros(k) + s[..|s| - 1];
      assert t[|t| - 1] == s[|s| - 1];
    }
  }

  /** `int('{0:0Wd}'.format(n)) == n`: zero-padded formatting round-trips. */
  lemma ZeroPadParses(n: nat, width: nat)
    ensures ParseDecimal(ZeroPad(n, width)) == Some(n)
  {
    var d := Decimal(n);
    DecimalValue(n);
    if |d| < width {
      LeadingZerosValue(width - |d|, d);
    }
  }

  /** A number below `10^w` has at most `w` digits. */
  lemma {:induction false} DecimalLength(n: nat, w: nat)
    requires w >= 1 && n < Pow10(w)
    ensures |Decimal(n)| <= w
    decreases n
  {
    if n >= 10 {
      assert w >= 2;
      DecimalLength(n / 10, w - 1);
    }
  }

  /** Zero-padding a number below `10^w` to width `w` gives exactly `w` characters. */
  lemma ZeroPadWidth(n: nat, w: nat)
    requires w >= 1 && n < Pow10(w)
    ensures |ZeroPad(n, w)| == w
  {
    DecimalLength(n, w);
  }
}
