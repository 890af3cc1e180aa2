/** Dates written as `YYYY-MM-DD`, the form the database stores and `toISOString` starts with. */
module DateText {
  import opened Wrappers
  import opened Dates
  import opened Text

  /** Two-digit, zero-padded field (`padStart(2, "0")`). */
  function Pad2(n: nat): (s: string)
    requires n < 100
    ensures |s| == 2 && AllDigits(s) && DigitsValue(s) == n
  {
    ZeroFilled(n, 2);
    PadStart(Digits(n), 2, '0')
  }

  function Pad4(n: nat): (s: string)
    requires n < 10000
    ensures |s| == 4 && AllDigits(s) && DigitsValue(s) == n
  {
    ZeroFilled(n, 4);
    PadStart(Digits(n), 4, '0')
  }

  /** The years `toISOString` writes with four digits. */
  predicate FourDigitYear(d: Date) {
    0 <= d.month && d.Year() <= 9999
  }

  /** `toISOString().split("T")[0]`. */
  function IsoDate(d: Date): (s: string)
    requires Valid(d) && FourDigitYear(d)
    ensures |s| == 10 && s[4] == '-' && s[7] == '-'
  {
    var y, m, dd := Pad4(d.Year()), Pad2(d.MonthOfYear()), Pad2(d.day);
    DashedShape(y, m, dd);
    y + "-" + m + "-" + dd
  }

  lemma {:induction false} DashedShape(y: string, m: string, dd: string)
    requires |y| == 4 && |m| == 2 && |dd| == 2
    ensures var s := y + "-" + m + "-" + dd; |s| == 10 && s[4] == '-' && s[7] == '-'
  {
  }

  /** Reads `YYYY-MM-DD`; `None` for anything else or for a day the calendar lacks. */
  function ParseIso(s: string): (r: Option<Date>)
    ensures r.Some? ==> Valid(r.value) && FourDigitYear(r.value)
    ensures r.Some? ==> |s| == 10 && s[4] == '-' && s[7] == '-'
  {
    if |s| == 10 && s[4] == '-' && s[7] == '-' && DigitsIn(s, 0, 4) && DigitsIn(s, 5, 7) && DigitsIn(s, 8, 10)
    then
      var y := ValueAt(s, 0, 4);
      var m := ValueAt(s, 5, 7);
      var d := Date(12 * y + m - 1, ValueAt(s, 8, 10));
      if 1 <= m <= 12 && Valid(d) then
        assert d.Year() == y by {
          assert 12 * y <= d.month < 12 * y + 12;
        }
        ValueAtBound(s, 0, 4);
        assert Pow10(4) == 10000;
        Some(d)
      else None
    else None
  }

  /** Writing a date and reading it back gives the same date. */
  lemma {:induction false} IsoRoundTrip(d: Date)
    requires Valid(d) && FourDigitYear(d)
    ensures ParseIso(IsoDate(d)) == Some(d)
  {
    var y, m, dd := Pad4(d.Year()), Pad2(d.MonthOfYear()), Pad2(d.day);
    assert IsoDate(d) == y + "-" + m + "-" + dd;
    ParseIsoFields(IsoDate(d), y, m, dd);
    ParseIsoOf(IsoDate(d), d);
  }

  /** What `ParseIso` reads from a dashed string whose three fields hold a date's year, month and day. */
  lemma {:induction false} ParseIsoOf(s: string, d: Date)
    requires Valid(d) && |s| == 10 && s[4] == '-' && s[7] == '-'
    requires DigitsIn(s, 0, 4) && DigitsIn(s, 5, 7) && DigitsIn(s, 8, 10)
    requires ValueAt(s, 0, 4) == d.Year() && ValueAt(s, 5, 7) == d.MonthOfYear() && ValueAt(s, 8, 10) == d.day
    ensures ParseIso(s) == Some(d)
  {
    MonthSplit(d);
    var y, m := ValueAt(s, 0, 4), ValueAt(s, 5, 7);
    assert 1 <= m <= 12;
    assert Date(12 * y + m - 1, ValueAt(s, 8, 10)) == d;
  }

  lemma {:induction false} MonthSplit(d: Date)
    ensures d == Date(12 * d.Year() + d.MonthOfYear() - 1, d.day)
  {
  }

  /** The three fields of a dashed date read in place hold the values of its parts. */
  lemma {:induction false} ParseIsoFields(s: string, y: string, m: string, dd: string)
    requires |y| == 4 && |m| == 2 && |dd| == 2 && AllDigits(y) && AllDigits(m) && AllDigits(dd)
    requires s == y + "-" + m + "-" + dd
    ensures |s| == 10 && s[4] == '-' && s[7] == '-'
    ensures DigitsIn(s, 0, 4) && DigitsIn(s, 5, 7) && DigitsIn(s, 8, 10)
    ensures ValueAt(s, 0, 4) == DigitsValue(y) && ValueAt(s, 5, 7) == DigitsValue(m) && ValueAt(s, 8, 10) == DigitsValue(dd)
  {
    assert s[..4] == y && s[5..7] == m && s[8..] == dd;
    FieldAt(s, 0, 4, y);
    FieldAt(s, 5, 7, m);
    FieldAt(s, 8, 10, dd);
  }

  lemma {:induction false} FieldAt(s: string, i: nat, j: nat, f: string)
    requires i <= j <= |s| && s[i..j] == f && AllDigits(f)
    ensures DigitsIn(s, i, j) && ValueAt(s, i, j) == DigitsValue(f)
  {
    assert forall k :: i <= k < j ==> s[k] == f[k - i];
    ValueAtSlice(s, i, j);
  }
}
