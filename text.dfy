/**
 * String operations. The Python code calls `startswith`, `in`, `replace` and
 * `str(int)`. `Split`, `Join` and `DigitsValue` are never called there: they
 * are read-back definitions for `ScriptRoundTrip` and `IntAsWordRoundTrip`.
 */
module Text {

  predicate HasPrefix(s: string, p: string) {
    |p| <= |s| && s[..|p|] == p
  }

  /** `pat` occurs in `s` starting at index `i`. */
  predicate OccursAt(s: string, pat: string, i: int) {
    0 <= i && i + |pat| <= |s| && s[i..i + |pat|] == pat
  }

  /** Python's `pat in s` for strings. */
  predicate Contains(s: string, pat: string) {
    exists i :: 0 <= i <= |s| - |pat| && OccursAt(s, pat, i)
  }

  /** Python's `s.replace(pat, rep)` for a non-empty `pat`: occurrences are
      found left to right and do not overlap. */
  function ReplaceAll(s: string, pat: string, rep: string): string
    requires pat != []
    decreases |s|
  {
    if |s| < |pat| then s
    else if s[..|pat|] == pat then rep + ReplaceAll(s[|pat|..], pat, rep)
    else [s[0]] + ReplaceAll(s[1..], pat, rep)
  }

  lemma OccursInTail(s: string, pat: string, i: int)
    requires 1 <= |s| && OccursAt(s[1..], pat, i)
    ensures OccursAt(s, pat, i + 1)
  {
    assert s[1..][i..i + |pat|] == s[i + 1..i + 1 + |pat|];
  }

  /** A string without an occurrence of `pat` is left alone by `replace`. */
  lemma {:induction false} ReplaceAllAbsent(s: string, pat: string, rep: string)
    requires pat != [] && !Contains(s, pat)
    ensures ReplaceAll(s, pat, rep) == s
    decreases |s|
  {
    if |s| >= |pat| {
      assert !OccursAt(s, pat, 0);
      if Contains(s[1..], pat) {
        var i :| OccursAt(s[1..], pat, i);
        OccursInTail(s, pat, i);
      }
      ReplaceAllAbsent(s[1..], pat, rep);
    }
  }

  /** As long as the output of `replace` shows none of the replacement's
      characters, it is a copy of the input. */
  lemma {:induction false} ReplaceAllCopiesPrefix(s: string, pat: string, rep: string, k: nat)
    requires pat != [] && rep != []
    requires k <= |ReplaceAll(s, pat, rep)|
    requires forall j :: 0 <= j < k ==> ReplaceAll(s, pat, rep)[j] !in rep
    ensures k <= |s| && ReplaceAll(s, pat, rep)[..k] == s[..k]
    decreases |s|
  {
    var r := ReplaceAll(s, pat, rep);
    if |s| < |pat| {
    } else if s[..|pat|] == pat {
      if k > 0 {
        StartsWithReplacement(r, rep, ReplaceAll(s[|pat|..], pat, rep));
        assert false;
      }
    } else if k > 0 {
      var t := ReplaceAll(s[1..], pat, rep);
      assert r == [s[0]] + t;
      forall j | 0 <= j < k - 1 ensures t[j] !in rep {
        assert t[j] == r[j + 1];
      }
      ReplaceAllCopiesPrefix(s[1..], pat, rep, k - 1);
      assert r[..k] == [s[0]] + t[..k - 1];
    }
  }

  lemma StartsWithReplacement(r: string, rep: string, t: string)
    requires r == rep + t && rep != []
    ensures r[0] in rep
  {
    assert r[0] == rep[0];
  }

  /** An occurrence in `u + t` that starts past `u` is an occurrence in `t`. */
  lemma OccursPast(u: string, t: string, pat: string, i: int)
    requires OccursAt(u + t, pat, i) && i >= |u|
    ensures OccursAt(t, pat, i - |u|)
  {
    assert (u + t)[i..i + |pat|] == t[i - |u|..i - |u| + |pat|];
  }

  /** Prefixing a string free of `pat` with characters foreign to `pat`
      creates no occurrence. */
  lemma ForeignPrefix(rep: string, t: string, pat: string)
    requires pat != [] && !Contains(t, pat)
    requires forall c :: c in rep ==> c !in pat
    ensures !Contains(rep + t, pat)
  {
    forall i | 0 <= i <= |rep + t| - |pat| ensures !OccursAt(rep + t, pat, i) {
      if i < |rep| {
        assert (rep + t)[i] == rep[i] && rep[i] in rep;
        assert pat[0] in pat;
      } else if OccursAt(rep + t, pat, i) {
        OccursPast(rep, t, pat, i);
      }
    }
  }

  /** When the replacement shares no character with the pattern, `replace`
      leaves no occurrence of the pattern behind. */
  lemma {:induction false} ReplaceAllRemoves(s: string, pat: string, rep: string)
    requires pat != [] && rep != []
    requires forall c :: c in rep ==> c !in pat
    ensures !Contains(ReplaceAll(s, pat, rep), pat)
    decreases |s|
  {
    var n := |pat|;
    if |s| < n {
    } else if s[..n] == pat {
      ReplaceAllRemoves(s[n..], pat, rep);
      ForeignPrefix(rep, ReplaceAll(s[n..], pat, rep), pat);
    } else {
      var t := ReplaceAll(s[1..], pat, rep);
      var r := [s[0]] + t;
      assert ReplaceAll(s, pat, rep) == r;
      ReplaceAllRemoves(s[1..], pat, rep);
      if Contains(r, pat) {
        var i :| 0 <= i <= |r| - n && OccursAt(r, pat, i);
        if i == 0 {
          HeadOccurrence(s, pat, rep);
        } else {
          OccursPast([s[0]], t, pat, i);
        }
      }
    }
  }

  /** `replace` did not match at the head of `s`, so it cannot show `pat` there. */
  lemma HeadOccurrence(s: string, pat: string, rep: string)
    requires pat != [] && rep != [] && |s| >= |pat| && s[..|pat|] != pat
    requires forall c :: c in rep ==> c !in pat
    ensures !OccursAt([s[0]] + ReplaceAll(s[1..], pat, rep), pat, 0)
  {
    var n := |pat|;
    var t := ReplaceAll(s[1..], pat, rep);
    var r := [s[0]] + t;
    if OccursAt(r, pat, 0) {
      assert r[..n] == pat;
      forall j | 0 <= j < n - 1 ensures t[j] !in rep {
        assert t[j] == r[j + 1] == pat[j + 1];
      }
      ReplaceAllCopiesPrefix(s[1..], pat, rep, n - 1);
    }
  }

  /** A character of `b` is a character of `a + b`. */
  lemma InSuffix(a: string, b: string, c: char)
    requires c in b
    ensures c in a + b
  {
    var i :| 0 <= i < |b| && b[i] == c;
    assert (a + b)[|a| + i] == c;
  }

  /** A character of a slice is a character of the whole. */
  lemma InSlice(s: string, lo: int, hi: int, c: char)
    requires 0 <= lo <= hi <= |s| && c in s[lo..hi]
    ensures c in s
  {
    var i :| 0 <= i < hi - lo && s[lo..hi][i] == c;
    assert s[lo + i] == c;
  }

  /** Index of the first `c` in `s`. */
  function IndexOf(s: string, c: char): (i: nat)
    requires c in s
    ensures i < |s| && s[i] == c && c !in s[..i]
  {
    if s[0] == c then 0 else 1 + IndexOf(s[1..], c)
  }

  /** Python's `s.split(sep)` for a one-character separator. */
  function Split(s: string, sep: char): (parts: seq<string>)
    ensures |parts| == multiset(s)[sep] + 1
    ensures forall i :: 0 <= i < |parts| ==> sep !in parts[i]
    decreases |s|
  {
    if sep !in s then [s]
    else
      var i := IndexOf(s, sep);
      SeparatorCount(s, sep, i);
      [s[..i]] + Split(s[i + 1..], sep)
  }

  /** Cutting at the first separator leaves one separator fewer behind it. */
  lemma SeparatorCount(s: string, sep: char, i: nat)
    requires i < |s| && s[i] == sep && sep !in s[..i]
    ensures multiset(s)[sep] == multiset(s[i + 1..])[sep] + 1
  {
    assert s == s[..i] + [sep] + s[i + 1..];
    assert multiset(s) == multiset(s[..i]) + multiset{sep} + multiset(s[i + 1..]);
  }

  /** Python's `sep.join(parts)` for a one-character separator. */
  function Join(parts: seq<string>, sep: char): string
    decreases |parts|
  {
    if parts == [] then ""
    else if |parts| == 1 then parts[0]
    else parts[0] + [sep] + Join(parts[1..], sep)
  }

  /** Joining what `Split` cut gives the original string back. */
  lemma {:induction false} JoinSplit(s: string, sep: char)
    ensures Join(Split(s, sep), sep) == s
    decreases |s|
  {
    if sep in s {
      var i := IndexOf(s, sep);
      JoinSplit(s[i + 1..], sep);
      assert s == s[..i] + [sep] + s[i + 1..];
    }
  }

  /** The first separator of `s` is the one at `j` when none comes before it. */
  lemma {:induction false} FirstSeparator(s: string, sep: char, j: nat)
    requires j < |s| && s[j] == sep && sep !in s[..j]
    ensures IndexOf(s, sep) == j
    decreases j
  {
    if j > 0 {
      assert s[0] != sep by { assert s[..j][0] == s[0]; }
      assert s[1..][..j - 1] == s[1..j];
      assert forall c :: c in s[1..j] ==> c in s[..j];
      FirstSeparator(s[1..], sep, j - 1);
    }
  }

  /** Cutting at the first separator of `p + [sep] + rest` gives `p` first. */
  lemma SplitAtFirst(p: string, rest: string, sep: char)
    requires sep !in p
    ensures Split(p + [sep] + rest, sep) == [p] + Split(rest, sep)
  {
    var s := p + [sep] + rest;
    assert s[..|p|] == p;
    FirstSeparator(s, sep, |p|);
    assert s[|p| + 1..] == rest;
  }

  /** Splitting a join of separator-free parts gives the parts back. */
  lemma {:induction false} SplitJoin(parts: seq<string>, sep: char)
    requires |parts| > 0
    requires forall i :: 0 <= i < |parts| ==> sep !in parts[i]
    ensures Split(Join(parts, sep), sep) == parts
    decreases |parts|
  {
    if |parts| > 1 {
      SplitAtFirst(parts[0], Join(parts[1..], sep), sep);
      SplitJoin(parts[1..], sep);
    }
  }

  predicate IsDigit(c: char) {
    '0' <= c <= '9'
  }

  predicate AllDigits(s: string) {
    forall i :: 0 <= i < |s| ==> IsDigit(s[i])
  }

  function DigitChar(d: nat): (c: char)
    requires d < 10
    ensures IsDigit(c)
  {
    (d + '0' as int) as char
  }

  /** Python's `str(n)` for a non-negative integer. */
  function NatToString(n: nat): (r: string)
    ensures r != [] && AllDigits(r)
  {
    if n < 10 then [DigitChar(n)] else NatToString(n / 10) + [DigitChar(n % 10)]
  }

  /** Python's `str(v)` for any integer. */
  function IntToString(v: int): (r: string)
    ensures r != [] && (r[0] == '-' <==> v < 0)
  {
    if v < 0 then "-" + NatToString(-v) else NatToString(v)
  }

  /** `str(v)` of a negative integer is a minus sign and the digits of `-v`. */
  lemma NegativeNumeral(v: int)
    requires v < 0
    ensures IntToString(v) == "-" + NatToString(-v)
    ensures IntToString(v)[1..] == NatToString(-v)
  {
    var r := NatToString(-v);
    assert ("-" + r)[1..] == r;
  }

  /** Python's `int(s)` on a string of decimal digits. */
  function DigitsValue(s: string): nat
    requires AllDigits(s)
  {
    if s == [] then 0 else DigitsValue(s[..|s| - 1]) * 10 + (s[|s| - 1] as int - '0' as int)
  }

  /** Reading back the numeral written by `str(n)` gives `n`. */
  lemma {:induction false} NatToStringRoundTrip(n: nat)
    ensures DigitsValue(NatToString(n)) == n
  {
    if n >= 10 {
      var r := NatToString(n);
      NatToStringRoundTrip(n / 10);
      assert r[..|r| - 1] == NatToString(n / 10);
    }
  }
}
