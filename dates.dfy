/**
 * A proleptic Gregorian calendar date, kept as a month index (12 * year +
 * month - 1) and a day of the month. Day and month arithmetic follow
 * JavaScript's `setDate`/`setMonth`: a day past the end of a month rolls into
 * the next one (31 January plus one month is 2 or 3 March).
 */
module Dates {

  predicate IsLeapYear(y: int) {
    y % 4 == 0 && (y % 100 != 0 || y % 400 == 0)
  }

  /** Number of days in the month with index `month`. */
  function MonthLength(month: int): (n: int)
    ensures 28 <= n <= 31
  {
    var m := month % 12;
    if m == 1 then (if IsLeapYear(month / 12) then 29 else 28)
    else if m == 3 || m == 5 || m == 8 || m == 10 then 30
    else 31
  }

  datatype Date = Date(month: int, day: int) {
    function Year(): int { month / 12 }
    /** Calendar month, 1 to 12. */
    function MonthOfYear(): int { month % 12 + 1 }
  }

  /** A date that names a real calendar day. */
  predicate Valid(d: Date) {
    1 <= d.day <= MonthLength(d.month)
  }

  /** Chronological order: `a` is strictly earlier than `b`. */
  predicate Before(a: Date, b: Date) {
    a.month < b.month || (a.month == b.month && a.day < b.day)
  }

  predicate NotAfter(a: Date, b: Date) {
    !Before(b, a)
  }

  /** A number that grows with the date on valid dates; a termination measure. */
  function Rank(d: Date): int {
    32 * d.month + d.day
  }

  function NextDay(d: Date): (r: Date)
    ensures Before(d, r)
    ensures Valid(d) ==> Valid(r)
  {
    if d.day < MonthLength(d.month) then Date(d.month, d.day + 1) else Date(d.month + 1, 1)
  }

  function PrevDay(d: Date): (r: Date)
    ensures Before(r, d)
    ensures Valid(d) ==> Valid(r)
  {
    if d.day > 1 then Date(d.month, d.day - 1) else Date(d.month - 1, MonthLength(d.month - 1))
  }

  /** `setDate(getDate() + k)`: `k` days later (earlier when `k` is negative). */
  function AddDays(d: Date, k: int): Date
    decreases if k < 0 then -k else k
  {
    if k == 0 then d
    else if k > 0 then AddDays(NextDay(d), k - 1)
    else AddDays(PrevDay(d), k + 1)
  }

  /** `setMonth(getMonth() + k)`: same day `k` months on, rolling over a short month. */
  function AddMonths(d: Date, k: int): Date {
    var m := d.month + k;
    var n := MonthLength(m);
    if d.day <= n then Date(m, d.day) else AddDays(Date(m, n), d.day - n)
  }

  lemma {:induction false} AddDaysForward(d: Date, k: int)
    requires k > 0
    ensures Before(d, AddDays(d, k))
    decreases k
    ensures AddDays(d, k).month >= d.month
    ensures Valid(d) ==> Valid(AddDays(d, k))
  {
    if k > 1 {
      AddDaysForward(NextDay(d), k - 1);
    }
  }

  lemma {:induction false} AddDaysBackward(d: Date, k: int)
    requires k < 0
    ensures Before(AddDays(d, k), d)
    decreases -k
    ensures Valid(d) ==> Valid(AddDays(d, k))
  {
    if k < -1 {
      AddDaysBackward(PrevDay(d), k + 1);
    }
  }

  lemma {:induction false} AddDaysValid(d: Date, k: int)
    requires Valid(d)
    ensures Valid(AddDays(d, k))
  {
    if k > 0 {
      AddDaysForward(d, k);
    } else if k < 0 {
      AddDaysBackward(d, k);
    }
  }

  /** Moving on by one month or more lands strictly later, at least `k` months on. */
  lemma {:induction false} AddMonthsForward(d: Date, k: int)
    requires Valid(d) && k >= 1
    ensures Valid(AddMonths(d, k))
    ensures Before(d, AddMonths(d, k))
    ensures AddMonths(d, k).month >= d.month + k
  {
    var m := d.month + k;
    var n := MonthLength(m);
    if d.day > n {
      AddDaysForward(Date(m, n), d.day - n);
    }
  }

  /** On valid dates the rank orders exactly as the calendar does. */
  lemma {:induction false} RankOrders(a: Date, b: Date)
    requires Valid(a) && Valid(b)
    ensures Before(a, b) <==> Rank(a) < Rank(b)
  {
  }

  /** No valid date lies strictly between a valid date and the next day. */
  lemma {:induction false} NextDayIsAdjacent(a: Date, b: Date)
    requires Valid(a) && Valid(b) && Before(a, b)
    ensures NotAfter(NextDay(a), b)
  {
  }

  lemma {:induction false} PrevNextInverse(d: Date)
    requires Valid(d)
    ensures NextDay(PrevDay(d)) == d
    ensures PrevDay(NextDay(d)) == d
  {
  }

  /**
   * The inclusive window from the day before to the day after holds exactly
   * three valid dates: the day before, the day itself and the day after.
   */
  lemma {:induction false} OneDayWindow(r: Date, b: Date)
    requires Valid(r) && Valid(b)
    ensures (NotAfter(AddDays(r, -1), b) && NotAfter(b, AddDays(r, 1)))
            <==> (b == PrevDay(r) || b == r || b == NextDay(r))
  {
    assert AddDays(r, -1) == PrevDay(r);
    assert AddDays(r, 1) == NextDay(r);
    PrevNextInverse(r);
    if NotAfter(PrevDay(r), b) && NotAfter(b, NextDay(r)) {
      if b != PrevDay(r) && b != r {
        NextDayIsAdjacent(PrevDay(r), b);
        NextDayIsAdjacent(r, b);
      }
    }
  }

  /** Adding days in two steps is adding them at once. */
  lemma {:induction false} AddDaysAdd(d: Date, a: nat, b: nat)
    ensures AddDays(AddDays(d, a), b) == AddDays(d, a + b)
    decreases a
  {
    if a > 0 {
      AddDaysAdd(NextDay(d), a - 1, b);
    }
  }
}
