/**
 * Expanding one payment into a dated series: `installments` rows one month
 * apart, or `recurring` rows from a first due date up to an end date at a
 * fixed frequency.
 */
module PaymentSeries {
  import opened Wrappers
  import opened Dates
  import opened Seqs
  import opened Payments

  /** The date after `n` successive `setMonth(getMonth() + 1)` calls. */
  function MonthsAfter(d: Date, n: nat): Date {
    if n == 0 then d else AddMonths(MonthsAfter(d, n - 1), 1)
  }

  lemma {:induction false} MonthsAfterValid(d: Date, n: nat)
    requires Valid(d)
    ensures Valid(MonthsAfter(d, n))
  {
    if n > 0 {
      MonthsAfterValid(d, n - 1);
      AddMonthsForward(MonthsAfter(d, n - 1), 1);
    }
  }

  /** Later calls land strictly later. */
  lemma {:induction false} MonthsAfterIncreasing(d: Date, i: nat, j: nat)
    requires Valid(d) && i < j
    ensures Before(MonthsAfter(d, i), MonthsAfter(d, j))
    decreases j
  {
    MonthsAfterValid(d, j - 1);
    AddMonthsForward(MonthsAfter(d, j - 1), 1);
    if i < j - 1 {
      MonthsAfterIncreasing(d, i, j - 1);
    }
  }

  /** Starting one month later is the same as taking one more step. */
  lemma {:induction false} MonthsAfterShift(d: Date, n: nat)
    ensures MonthsAfter(AddMonths(d, 1), n) == MonthsAfter(d, n + 1)
  {
    if n > 0 {
      MonthsAfterShift(d, n - 1);
    }
  }

  /** Up to the 28th the cumulative steps agree with adding `n` months at once. */
  lemma {:induction false} MonthsAfterNoDrift(d: Date, n: nat)
    requires 1 <= d.day <= 28
    ensures MonthsAfter(d, n) == AddMonths(d, n)
  {
    if n > 0 {
      MonthsAfterNoDrift(d, n - 1);
    }
  }

  /** From the 31st the steps drift: 31 January 2024, two steps on, is 2 April, not 31 March. */
  lemma {:induction false} MonthsAfterDrifts()
    ensures MonthsAfter(Date(12 * 2024, 31), 2) == Date(12 * 2024 + 3, 2)
    ensures AddMonths(Date(12 * 2024, 31), 2) == Date(12 * 2024 + 2, 31)
  {
    var jan31 := Date(12 * 2024, 31);
    assert MonthLength(12 * 2024 + 1) == 29;
    assert AddMonths(jan31, 1) == AddDays(Date(12 * 2024 + 1, 29), 2);
    assert AddDays(Date(12 * 2024 + 1, 29), 2) == Date(12 * 2024 + 2, 2);
  }

  /** The date step of one frequency; an unknown frequency does not move. */
  function Step(d: Date, f: Option<Frequency>): Date {
    match f
    case Some(Biweekly) => AddDays(d, 14)
    case Some(Monthly) => AddMonths(d, 1)
    case Some(Bimonthly) => AddMonths(d, 2)
    case Some(Quarterly) => AddMonths(d, 3)
    case Some(Yearly) => AddMonths(d, 12)
    case _ => d
  }

  predicate Advances(f: Option<Frequency>) {
    f.Some? && !f.value.OtherFrequency?
  }

  lemma {:induction false} StepForward(d: Date, f: Option<Frequency>)
    requires Valid(d) && Advances(f)
    ensures Valid(Step(d, f)) && Before(d, Step(d, f))
  {
    match f.value
    case Biweekly => AddDaysForward(d, 14);
    case Monthly => AddMonthsForward(d, 1);
    case Bimonthly => AddMonthsForward(d, 2);
    case Quarterly => AddMonthsForward(d, 3);
    case Yearly => AddMonthsForward(d, 12);
  }

  /**
   * The due dates of `while (current <= end)`: every date reached from
   * `first` by steps of `f` that is not after `end`. A series that would
   * start at or before `end` with an unknown frequency never ends, so it is
   * excluded.
   */
  function RecurringDates(first: Date, end: Date, f: Option<Frequency>): (r: seq<Date>)
    requires Valid(first) && Valid(end)
    requires Advances(f) || Before(end, first)
    ensures |r| == 0 <==> Before(end, first)
    ensures |r| > 0 ==> r[0] == first && Before(end, Step(r[|r| - 1], f))
    ensures forall i :: 0 <= i < |r| ==> Valid(r[i]) && NotAfter(r[i], end)
    decreases Rank(end) - Rank(first)
  {
    if Before(end, first) then []
    else
      StepForward(first, f);
      RankOrders(first, Step(first, f));
      [first] + RecurringDates(Step(first, f), end, f)
  }

  /** Each date of the series is one step of `f` after the one before. */
  lemma {:induction false} RecurringDatesStep(first: Date, end: Date, f: Option<Frequency>, i: nat)
    requires Valid(first) && Valid(end) && (Advances(f) || Before(end, first))
    requires i + 1 < |RecurringDates(first, end, f)|
    ensures RecurringDates(first, end, f)[i + 1] == Step(RecurringDates(first, end, f)[i], f)
    decreases i
  {
    StepForward(first, f);
    if i > 0 {
      RecurringDatesStep(Step(first, f), end, f, i - 1);
    }
  }

  /** The series is strictly increasing. */
  lemma {:induction false} RecurringDatesIncreasing(first: Date, end: Date, f: Option<Frequency>, i: int, j: int)
    requires Valid(first) && Valid(end) && (Advances(f) || Before(end, first))
    requires 0 <= i < j < |RecurringDates(first, end, f)|
    ensures Before(RecurringDates(first, end, f)[i], RecurringDates(first, end, f)[j])
    decreases j
  {
    var r := RecurringDates(first, end, f);
    RecurringDatesStep(first, end, f, j - 1);
    StepForward(r[j - 1], f);
    if i < j - 1 {
      RecurringDatesIncreasing(first, end, f, i, j - 1);
    }
  }

  /** The same template at each date of a series. */
  function AtDates(template: Payment, dates: seq<Date>): (r: seq<Payment>)
    ensures |r| == |dates|
    ensures forall i :: 0 <= i < |r| ==> r[i] == template.(dueDate := dates[i])
  {
    Map(dates, d => template.(dueDate := d))
  }

  /**
   * `generateRecurringPayments` and the recurring branches of the edit
   * helpers: a missing end date is JavaScript's invalid date, and no date
   * compares as before it.
   */
  function RecurringRows(template: Payment, first: Date, end: Option<Date>, f: Option<Frequency>): seq<Payment>
    requires SeriesEnds(first, end, f)
  {
    if end.None? then [] else AtDates(template, RecurringDates(first, end.value, f))
  }

  /** The recurring loop from `first` to `end` is over calendar days and terminates. */
  predicate SeriesEnds(first: Date, end: Option<Date>, f: Option<Frequency>) {
    Valid(first) && (end.Some? ==> Valid(end.value) && (Advances(f) || Before(end.value, first)))
  }

  /** `i < n` with a missing count never holds; a negative count gives no rows. */
  function Count(n: Option<int>): nat {
    if n.Some? && n.value > 0 then n.value else 0
  }

  /** `count` rows a month apart from `start`, numbered from `firstNumber`. */
  function InstallmentRows(template: Payment, start: Date, count: nat, firstNumber: int): (r: seq<Payment>)
    ensures |r| == count
    decreases count
  {
    if count == 0 then []
    else InstallmentRows(template, start, count - 1, firstNumber)
         + [template.(dueDate := MonthsAfter(start, count - 1), installmentNumber := Some(firstNumber + count - 1))]
  }

  /** Row `i` of a series is the template due `i` months after `start`, numbered `firstNumber + i`. */
  lemma {:induction false} InstallmentRowAt(template: Payment, start: Date, count: nat, firstNumber: int, i: nat)
    requires i < count
    ensures InstallmentRows(template, start, count, firstNumber)[i]
      == template.(dueDate := MonthsAfter(start, i), installmentNumber := Some(firstNumber + i))
    decreases count
  {
    if i < count - 1 {
      InstallmentRowAt(template, start, count - 1, firstNumber, i);
    }
  }

  /** An installment series is numbered consecutively and strictly increasing in due date. */
  lemma {:induction false} InstallmentRowsOrdered(template: Payment, start: Date, count: nat, firstNumber: int)
    requires Valid(start)
    ensures forall i :: 0 <= i < count ==>
      InstallmentRows(template, start, count, firstNumber)[i].installmentNumber == Some(firstNumber + i)
      && Valid(InstallmentRows(template, start, count, firstNumber)[i].dueDate)
    ensures forall i, j :: 0 <= i < j < count ==>
      Before(InstallmentRows(template, start, count, firstNumber)[i].dueDate,
             InstallmentRows(template, start, count, firstNumber)[j].dueDate)
  {
    var r := InstallmentRows(template, start, count, firstNumber);
    forall i | 0 <= i < count ensures r[i].installmentNumber == Some(firstNumber + i) && Valid(r[i].dueDate) {
      InstallmentRowAt(template, start, count, firstNumber, i);
      MonthsAfterValid(start, i);
    }
    forall i, j | 0 <= i < j < count ensures Before(r[i].dueDate, r[j].dueDate) {
      InstallmentRowAt(template, start, count, firstNumber, i);
      InstallmentRowAt(template, start, count, firstNumber, j);
      MonthsAfterIncreasing(start, i, j);
    }
  }

  /**
   * The installment loop: push a row, then move the date on one month.
   * Every row is a copy of `template` apart from its due date and number.
   */
  method BuildInstallments(template: Payment, start: Date, count: nat, firstNumber: int)
    returns (rows: seq<Payment>)
    ensures rows == InstallmentRows(template, start, count, firstNumber)
  {
    rows := [];
    var current := start;
    var i := 0;
    while i < count
      invariant 0 <= i <= count
      invariant current == MonthsAfter(start, i)
      invariant rows == InstallmentRows(template, start, i, firstNumber)
    {
      rows := rows + [template.(dueDate := current, installmentNumber := Some(firstNumber + i))];
      current := AddMonths(current, 1);
      i := i + 1;
    }
  }

  lemma {:induction false} RecurringUnfold(template: Payment, current: Date, last: Date, f: Option<Frequency>)
    requires Valid(current) && Valid(last) && Advances(f) && NotAfter(current, last)
    ensures Valid(Step(current, f))
    ensures AtDates(template, RecurringDates(current, last, f))
            == [template.(dueDate := current)] + AtDates(template, RecurringDates(Step(current, f), last, f))
  {
    StepForward(current, f);
    var tail := RecurringDates(Step(current, f), last, f);
    assert RecurringDates(current, last, f) == [current] + tail;
    var r := AtDates(template, [current] + tail);
    assert r == [template.(dueDate := current)] + AtDates(template, tail);
  }

  lemma {:induction false} RecurringLoopStep(template: Payment, first: Date, current: Date, last: Date,
                          f: Option<Frequency>, rows: seq<Payment>)
    requires Valid(first) && Valid(current) && Valid(last) && Advances(f) && NotAfter(current, last)
    requires rows + AtDates(template, RecurringDates(current, last, f))
             == AtDates(template, RecurringDates(first, last, f))
    ensures Valid(Step(current, f)) && Rank(current) < Rank(Step(current, f))
    ensures (rows + [template.(dueDate := current)]) + AtDates(template, RecurringDates(Step(current, f), last, f))
            == AtDates(template, RecurringDates(first, last, f))
  {
    RecurringUnfold(template, current, last, f);
    StepForward(current, f);
    RankOrders(current, Step(current, f));
    var rest := AtDates(template, RecurringDates(Step(current, f), last, f));
    var row := template.(dueDate := current);
    ConcatAssoc(rows, [row], rest);
  }

  lemma {:induction false} ConcatAssoc<T>(a: seq<T>, b: seq<T>, c: seq<T>)
    ensures a + (b + c) == (a + b) + c
  {
  }

  /** The recurring loop: push a row, then step the date, while it is not after the end. */
  method BuildRecurring(template: Payment, first: Date, end: Option<Date>, f: Option<Frequency>)
    returns (rows: seq<Payment>)
    requires SeriesEnds(first, end, f)
    ensures rows == RecurringRows(template, first, end, f)
  {
    if end.None? {
      rows := [];
    } else {
      rows := BuildRecurringUntil(template, first, end.value, f);
    }
  }

  method BuildRecurringUntil(template: Payment, first: Date, last: Date, f: Option<Frequency>)
    returns (rows: seq<Payment>)
    requires Valid(first) && Valid(last) && (Advances(f) || Before(last, first))
    ensures rows == AtDates(template, RecurringDates(first, last, f))
  {
    rows := [];
    var current := first;
    while NotAfter(current, last)
      invariant Valid(current)
      invariant Advances(f) || Before(last, current)
      invariant rows + AtDates(template, RecurringDates(current, last, f))
                == AtDates(template, RecurringDates(first, last, f))
      decreases Rank(last) - Rank(current)
    {
      RankOrders(current, last);
      RecurringLoopStep(template, first, current, last, f, rows);
      rows := rows + [template.(dueDate := current)];
      current := Step(current, f);
    }
  }
}
