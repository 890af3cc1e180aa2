/**
 * The two date converters of the bank feed: the bank API takes and returns
 * dates as `DDMMYYYY`, the database stores `YYYY-MM-DD`.
 */
module BankDates {
  import opened Dates
  import opened Text
  import opened DateText

  /** `convertToDDMMYYYY`: UTC day and month zero-padded to two digits, then the year as `String` writes it. */
  function ToDDMMYYYY(d: Date): (s: string)
    requires Valid(d) && 0 <= d.month
    ensures AllDigits(s) && |s| >= 5
  {
    Pad2(d.day) + Pad2(d.MonthOfYear()) + Digits(d.Year())
  }

  /** `String.prototype.substring(a, b)` with `a <= b`: both ends clamp to the string. */
  function Substring(s: string, a: nat, b: nat): (r: string)
    requires a <= b
    ensures |r| <= b - a
    ensures b <= |s| ==> r == s[a..b]
  {
    var lo := if a < |s| then a else |s|;
    var hi := if b < |s| then b else |s|;
    s[lo..hi]
  }

  /**
   * `convertFromDDMMYYYY`: a seven-character input gets a leading `0` (the
   * bank sends the date as a number, so a day below 10 loses its zero), then
   * the fields are swapped around dashes. Nothing is validated.
   */
  function FromDDMMYYYY(s: string): (r: string)
    ensures (|s| == 7 || |s| == 8) ==> |r| == 10 && r[4] == '-' && r[7] == '-'
  {
    var t := Widened(s);
    Substring(t, 4, 8) + "-" + Substring(t, 2, 4) + "-" + Substring(t, 0, 2)
  }

  /** The seven-character case gets its leading zero back. */
  function Widened(s: string): string {
    if |s| == 7 then "0" + s else s
  }

  /** A number of seven or eight digits is written, once widened, as eight digits of the same value. */
  lemma {:induction false} WidenedDigits(n: nat)
    requires 1000000 <= n < 100000000
    ensures var t := Widened(Digits(n));
      |t| == 8 && AllDigits(t) && DigitsValue(t) == n
  {
    Pow10Values();
    var s := Digits(n);
    DigitsRoundTrip(n);
    if n >= 10000000 {
      ExactWidth(n, 8);
    } else {
      ExactWidth(n, 7);
      ZeroPrefix(s);
      assert Widened(s) == ['0'] + s;
    }
  }

  /** A date whose year `String` writes with exactly four digits. */
  predicate FeedYear(d: Date) {
    Valid(d) && 1000 <= d.Year() <= 9999
  }

  /** The number the bank feed sends for a day: `dataLancamento`, day first, no leading zero. */
  function FeedNumber(d: Date): nat
    requires FeedYear(d)
  {
    d.day * 1000000 + d.MonthOfYear() * 10000 + d.Year()
  }

  /** Day, month and year side by side, as `convertToDDMMYYYY` lays them out. */
  function Layout(dd: nat, m: nat, y: nat): string
    requires dd < 100 && m < 100
  {
    Pad2(dd) + Pad2(m) + Digits(y)
  }

  /** The stored form of the same fields. */
  function IsoLayout(dd: nat, m: nat, y: nat): string
    requires dd < 100 && m < 100 && y < 10000
  {
    Pad4(y) + "-" + Pad2(m) + "-" + Pad2(dd)
  }

  lemma {:induction false} LayoutSwap(dd: nat, m: nat, y: nat)
    requires dd < 100 && m < 100 && 1000 <= y <= 9999
    ensures |Layout(dd, m, y)| == 8
    ensures FromDDMMYYYY(Layout(dd, m, y)) == IsoLayout(dd, m, y)
  {
    FourDigits(y);
    var u := Layout(dd, m, y);
    assert |u| == 8;
    assert FromDDMMYYYY(u) == u[4..8] + "-" + u[2..4] + "-" + u[0..2];
    assert u[4..8] == Pad4(y);
    assert u[2..4] == Pad2(m);
    assert u[0..2] == Pad2(dd);
  }

  /** The eight digits `DDMMYYYY` are worth the number the feed sends. */
  lemma {:induction false} LayoutValue(dd: nat, m: nat, y: nat)
    requires dd < 100 && m < 100 && 1000 <= y <= 9999
    ensures |Layout(dd, m, y)| == 8 && AllDigits(Layout(dd, m, y))
    ensures DigitsValue(Layout(dd, m, y)) == dd * 1000000 + m * 10000 + y
  {
    Pow10Values();
    FourDigits(y);
    var rest := Pad2(m) + Digits(y);
    DigitsConcatScaled(Pad2(m), Digits(y), 10000);
    DigitsConcatScaled(Pad2(dd), rest, 1000000);
    assert Layout(dd, m, y) == Pad2(dd) + rest;
    DigitsRoundTrip(y);
  }

  /** The feed's number, with seven digits or eight, is read back field by field. */
  lemma {:induction false} NumberRead(dd: nat, m: nat, y: nat)
    requires 1 <= dd < 100 && m < 100 && 1000 <= y <= 9999
    ensures FromDDMMYYYY(Digits(dd * 1000000 + m * 10000 + y)) == IsoLayout(dd, m, y)
  {
    var n := dd * 1000000 + m * 10000 + y;
    var t := Widened(Digits(n));
    WidenedDigits(n);
    LayoutValue(dd, m, y);
    FixedWidthInjective(t, Layout(dd, m, y));
    assert FromDDMMYYYY(Digits(n)) == FromDDMMYYYY(t);
    LayoutSwap(dd, m, y);
  }

  /** Writing a date for the bank and reading it back gives the stored form of the same day. */
  lemma {:induction false} DDMMYYYYRoundTrip(d: Date)
    requires FeedYear(d)
    ensures FromDDMMYYYY(ToDDMMYYYY(d)) == IsoDate(d)
  {
    LayoutSwap(d.day, d.MonthOfYear(), d.Year());
  }

  /**
   * The feed's numeric date, whether it has seven digits (day below 10) or
   * eight, is read back as the stored form of that day.
   */
  lemma {:induction false} FeedDateRead(d: Date)
    requires FeedYear(d)
    ensures FromDDMMYYYY(Digits(FeedNumber(d))) == IsoDate(d)
  {
    NumberRead(d.day, d.MonthOfYear(), d.Year());
  }

  /** A year from 1000 to 9999 is written with four digits, padded or not. */
  lemma {:induction false} FourDigits(y: nat)
    requires 1000 <= y <= 9999
    ensures |Digits(y)| == 4 && Digits(y) == Pad4(y)
  {
    assert Pow10(3) == 1000 && Pow10(4) == 10000 by { Pow10Values(); }
    ExactWidth(y, 4);
  }

  lemma {:induction false} Pow10Values()
    ensures Pow10(2) == 100 && Pow10(3) == 1000 && Pow10(4) == 10000
    ensures Pow10(6) == 1000000 && Pow10(7) == 10000000 && Pow10(8) == 100000000
  {
    assert Pow10(1) == 10;
    assert Pow10(2) == 100;
    assert Pow10(3) == 1000;
    assert Pow10(4) == 10000;
    assert Pow10(5) == 100000;
    assert Pow10(6) == 1000000;
    assert Pow10(7) == 10000000;
  }
}
