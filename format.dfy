/**
 * The human-readable renderings of `call_alert/__main__.py`: counts as words,
 * the plural suffix, and durations (whole seconds) as text.
 */
module Format {
  import opened Results
  import opened Text

  const NumberWords: seq<string> :=
    ["zero", "one", "two", "three", "four", "five", "six", "seven", "eight", "nine"]

  const Minute := 60
  const Hour := 3600
  const Day := 86400

  /** Python's `int(a / b)` for a positive divisor: the quotient truncated
      toward zero (Dafny's `/` rounds toward negative infinity). */
  function TruncDiv(a: int, b: int): (q: int)
    requires b > 0
    ensures 0 <= a ==> 0 <= q && q * b <= a < q * b + b
    ensures a < 0 ==> q <= 0 && q * b - b < a <= q * b
  {
    if a >= 0 then a / b else -((-a) / b)
  }

  /** Whole minutes in a signed number of seconds, as `event_alert` counts them. */
  lemma WholeMinutes(seconds: int)
    ensures var m := TruncDiv(seconds, Minute);
      && (m == 0 <==> -Minute < seconds < Minute)
      && (seconds >= 0 ==> 0 <= m && m * Minute <= seconds < m * Minute + Minute)
      && (seconds < 0 ==> m <= 0 && m * Minute - Minute < seconds <= m * Minute)
  {
  }

  /** `int_as_word(v)`: the English word for 0..9, and Python's negative list
      indexing for -10..-1; any other value falls back to `str(v)`. */
  function IntAsWord(v: int): (r: string)
    ensures r != []
    ensures r in NumberWords <==> -10 <= v < 10
    ensures r !in NumberWords ==> r[0] == '-' || IsDigit(r[0])
  {
    if 0 <= v < 10 then NumberWords[v]
    else if -10 <= v < 0 then NumberWords[v + 10]
    else
      NumeralIsNotWord(IntToString(v));
      IntToString(v)
  }

  /** Reads back a count written by `IntAsWord`: a number word or a numeral. */
  function ParseCount(s: string): Option<nat> {
    if s in NumberWords then Some(WordIndex(s, 0))
    else if s != [] && AllDigits(s) then Some(DigitsValue(s))
    else None
  }

  function WordIndex(s: string, from: nat): (i: nat)
    requires from <= |NumberWords| && s in NumberWords[from..]
    ensures from <= i < |NumberWords| && NumberWords[i] == s
    decreases |NumberWords| - from
  {
    if NumberWords[from] == s then from else WordIndex(s, from + 1)
  }

  /** No two number words are alike, so a word determines its index. */
  lemma WordIndexOf(n: nat)
    requires n < 10
    ensures NumberWords[n] in NumberWords && WordIndex(NumberWords[n], 0) == n
  {
    var w := NumberWords[n];
    forall i | 0 <= i < 10 && i != n ensures NumberWords[i] != w {
      WordsDiffer(i, n);
    }
    WordIndexFirst(w, 0, n);
  }

  lemma {:induction false} WordIndexFirst(w: string, from: nat, n: nat)
    requires from <= n < 10 && NumberWords[n] == w
    requires forall i :: from <= i < 10 && i != n ==> NumberWords[i] != w
    ensures w in NumberWords[from..] && WordIndex(w, from) == n
    decreases n - from
  {
    assert NumberWords[from..][n - from] == w;
    if from < n {
      WordIndexFirst(w, from + 1, n);
    }
  }

  /** Any two number words differ in length or in one of their first two letters. */
  lemma WordsDiffer(i: nat, j: nat)
    requires i < 10 && j < 10 && i != j
    ensures NumberWords[i] != NumberWords[j]
  {
    var a, b := NumberWords[i], NumberWords[j];
    assert |a| != |b| || a[0] != b[0] || a[1] != b[1];
  }

  /** Every number word starts with a lower-case letter other than "l". */
  lemma WordInitials(w: string)
    requires w in NumberWords
    ensures w != [] && 'a' <= w[0] <= 'z' && w[0] != 'l'
  {
    var i :| 0 <= i < 10 && NumberWords[i] == w;
    assert NumberWords[i][0] in "zotfsen";
  }

  /** A numeral, signed or not, is never a number word. */
  lemma NumeralIsNotWord(s: string)
    requires s != [] && (s[0] == '-' || IsDigit(s[0]))
    ensures s !in NumberWords
  {
    if s in NumberWords {
      WordInitials(s);
    }
  }

  /** What `int_as_word` writes for a non-negative count reads back as that
      count, so different counts are never rendered alike. */
  lemma IntAsWordRoundTrip(n: nat)
    ensures ParseCount(IntAsWord(n)) == Some(n)
  {
    if n < 10 {
      WordIndexOf(n);
    } else {
      NatToStringRoundTrip(n);
      NumeralIsNotWord(NatToString(n));
    }
  }

  lemma IntAsWordInjective(a: nat, b: nat)
    requires IntAsWord(a) == IntAsWord(b)
    ensures a == b
  {
    IntAsWordRoundTrip(a);
    IntAsWordRoundTrip(b);
  }

  /** Python's negative indexing: -10..-1 are rendered as the word for v + 10. */
  lemma IntAsWordNegativeIndex(v: int)
    requires -10 <= v < 0
    ensures IntAsWord(v) == IntAsWord(v + 10) && IntAsWord(v) in NumberWords
  {
  }

  /** Below -10 the fallback numeral carries a minus sign. */
  lemma IntAsWordBelowWords(v: int)
    requires v < -10
    ensures IntAsWord(v) == "-" + NatToString(-v)
    ensures DigitsValue(IntAsWord(v)[1..]) == -v
  {
    assert IntAsWord(v) == IntToString(v);
    NegativeNumeral(v);
    NatToStringRoundTrip(-v);
  }

  /** `plural(n)`: the suffix "s" exactly when the count is not one. */
  function Plural(n: int): (r: string)
    ensures r == "s" <==> n != 1
    ensures r == "" <==> n == 1
  {
    if n != 1 then "s" else ""
  }

  /** `display_interval(delta)` for a duration in whole seconds: "less than
      a minute" exactly for durations under a minute, as every other band
      starts with a digit or a number word. */
  function DisplayInterval(d: int): (r: string)
    ensures r == "less than a minute" <==> d < Minute
  {
    if d < Minute then "less than a minute"
    else if d < Hour then
      var minutes := TruncDiv(d, Minute);
      var text := IntToString(minutes) + " minute" + Plural(minutes);
      assert text[0] == IntToString(minutes)[0] && IsDigit(text[0]);
      text
    else if d < Day then
      var hours := TruncDiv(d, Hour);
      var text := IntAsWord(hours) + " hour" + Plural(hours);
      IntAsWordLead(hours);
      assert text[0] == IntAsWord(hours)[0];
      text
    else if d < 2 * Day then
      var hours := TruncDiv(d - Day, Hour);
      var text := "1 day, " + IntAsWord(hours) + " hour" + Plural(hours);
      assert text[0] == '1';
      text
    else
      var days := TruncDiv(d, Day);
      var text := IntAsWord(days) + " day" + Plural(days);
      IntAsWordLead(days);
      assert text[0] == IntAsWord(days)[0];
      text
  }

  /** `int_as_word` never starts with the "l" of "less than a minute". */
  lemma IntAsWordLead(v: int)
    ensures IntAsWord(v)[0] != 'l'
  {
    if IntAsWord(v) in NumberWords {
      WordInitials(IntAsWord(v));
    }
  }

  /** The whole units in a non-negative duration that lies in the band of
      `n` units. */
  lemma WholeUnits(d: int, unit: int, n: int)
    requires 0 <= d && 0 < unit && n * unit <= d < n * unit + unit
    ensures TruncDiv(d, unit) == n
  {
    var q := d / unit;
    assert q * unit <= d < q * unit + unit;
    ProductOrder(q, n + 1, unit);
    ProductOrder(n, q + 1, unit);
  }

  /** A smaller multiple of a positive unit has a smaller factor. */
  lemma ProductOrder(a: int, b: int, unit: int)
    requires unit > 0 && a * unit < b * unit
    ensures a < b
  {
    assert (b - a) * unit == b * unit - a * unit;
  }

  /** Anything under a minute, negative durations included. */
  lemma DisplayUnderAMinute(d: int)
    requires d < Minute
    ensures DisplayInterval(d) == "less than a minute"
  {
  }

  /** Under an hour: the numeral of the whole minutes elapsed, 1 to 59. */
  lemma DisplayMinutes(d: int, n: int)
    requires Minute <= d < Hour
    requires n * Minute <= d < n * Minute + Minute
    ensures 1 <= n <= 59
    ensures DisplayInterval(d) == NatToString(n) + " minute" + Plural(n)
    ensures DigitsValue(NatToString(n)) == n
  {
    WholeUnits(d, Minute, n);
    NatToStringRoundTrip(n);
  }

  /** Under a day: the whole hours elapsed, 1 to 23, as a word or numeral. */
  lemma DisplayHours(d: int, n: int)
    requires Hour <= d < Day
    requires n * Hour <= d < n * Hour + Hour
    ensures 1 <= n <= 23
    ensures DisplayInterval(d) == IntAsWord(n) + " hour" + Plural(n)
  {
    WholeUnits(d, Hour, n);
  }

  /** Under two days: one day and the whole hours beyond it, 0 to 23. */
  lemma DisplayDayAndHours(d: int, n: int)
    requires Day <= d < 2 * Day
    requires Day + n * Hour <= d < Day + n * Hour + Hour
    ensures 0 <= n <= 23
    ensures DisplayInterval(d) == "1 day, " + IntAsWord(n) + " hour" + Plural(n)
  {
    assert !(d < Minute) && !(d < Hour) && !(d < Day) && d < 2 * Day;
    WholeUnits(d - Day, Hour, n);
  }

  /** Two days and more: the whole days elapsed, at least two. */
  lemma DisplayDays(d: int, n: int)
    requires 2 * Day <= d
    requires n * Day <= d < n * Day + Day
    ensures 2 <= n
    ensures DisplayInterval(d) == IntAsWord(n) + " day" + Plural(n)
  {
    WholeUnits(d, Day, n);
  }
}
