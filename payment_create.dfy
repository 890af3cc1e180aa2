/** `createPayment`: validation, then one row, an installment series or a recurring series. */
module PaymentCreate {
  import opened Wrappers
  import opened Dates
  import opened Payments
  import opened PaymentSeries

  /** The body of a create request; an empty string or `None` is a missing field. */
  datatype PaymentInput = PaymentInput(
    supplierName: string,
    description: string,
    value: Option<real>,
    dueDate: Option<Date>,
    kind: Kind,
    userId: string,
    installments: Option<int>,
    frequency: Option<Frequency>,
    endDate: Option<Date>,
    routing: Routing,
    details: Details)

  /** `!supplier_name || !value || !due_date || !type || !userId`; a value of 0 is falsy. */
  predicate MissingField(input: PaymentInput) {
    || input.supplierName == ""
    || input.value.None? || input.value == Some(0.0)
    || input.dueDate.None?
    || input.kind == OtherKind("")
    || input.userId == ""
  }

  predicate KnownKind(k: Kind) {
    k == Single || k == Installments || k == Recurring
  }

  /** The dates are real calendar days, and a recurring series with an unknown frequency would never end. */
  predicate CanRun(input: PaymentInput) {
    && (input.dueDate.Some? ==> Valid(input.dueDate.value))
    && (input.endDate.Some? ==> Valid(input.endDate.value))
    && (input.kind == Recurring && input.dueDate.Some? ==>
          SeriesEnds(input.dueDate.value, input.endDate, input.frequency))
  }

  /** The row built from the body, before the series assigns dates, numbers and a group. */
  function Draft(input: PaymentInput, due: Date, group: Option<GroupId>): Payment {
    Payment(0, input.supplierName, input.description, input.value.GetOr(0.0), due, Scheduled,
            input.kind, group, input.installments, None, input.frequency, input.endDate,
            input.userId, Some(input.userId), None, input.routing, input.details, None)
  }

  /** What `createPayment` inserts for a valid body; `newGroup` is the series' new group id. */
  function CreatedRows(input: PaymentInput, newGroup: GroupId): seq<Payment>
    requires CanRun(input) && !MissingField(input) && KnownKind(input.kind)
  {
    var due := input.dueDate.value;
    match input.kind
    case Single => [Draft(input, due, None)]
    case Installments => InstallmentRows(Draft(input, due, Some(newGroup)), due, Count(input.installments), 1)
    case Recurring => RecurringRows(Draft(input, due, Some(newGroup)), due, input.endDate, input.frequency)
  }

  /** The new table and the HTTP status of one `createPayment` call. */
  function CreateEffect(t: Table, input: PaymentInput, newGroup: GroupId, insertFails: bool): (Table, int)
    requires CanRun(input)
  {
    if MissingField(input) || !KnownKind(input.kind) then (t, 400)
    else if insertFails then (t, 500)
    else (t.Insert(CreatedRows(input, newGroup)), 200)
  }

  method CreatePayment(store: PaymentStore, input: PaymentInput, newGroup: GroupId, insertFails: bool)
    returns (status: int)
    requires CanRun(input)
    modifies store
    ensures (store.State(), status) == CreateEffect(old(store.State()), input, newGroup, insertFails)
  {
    if MissingField(input) {
      return 400;
    }
    var due := input.dueDate.value;
    var rows: seq<Payment>;
    if input.kind == Single {
      rows := [Draft(input, due, None)];
    } else if input.kind == Installments {
      rows := BuildInstallments(Draft(input, due, Some(newGroup)), due, Count(input.installments), 1);
    } else if input.kind == Recurring {
      rows := BuildRecurring(Draft(input, due, Some(newGroup)), due, input.endDate, input.frequency);
    } else {
      return 400;
    }
    var ok := store.Insert(rows, insertFails);
    status := if ok then 200 else 500;
  }

  /** A request is refused with 400 exactly when a field is missing or the type is unknown, and then nothing is written. */
  lemma {:induction false} CreateRejects(t: Table, input: PaymentInput, newGroup: GroupId, insertFails: bool)
    requires CanRun(input)
    ensures CreateEffect(t, input, newGroup, insertFails).1 == 400
            <==> MissingField(input) || !KnownKind(input.kind)
    ensures CreateEffect(t, input, newGroup, insertFails).1 != 200 ==> CreateEffect(t, input, newGroup, insertFails).0 == t
  {
  }

  /** A single payment is one SCHEDULED row, outside any group, appended under the next id. */
  lemma {:induction false} CreateSingle(t: Table, input: PaymentInput, newGroup: GroupId)
    requires CanRun(input) && !MissingField(input) && input.kind == Single
    ensures CreateEffect(t, input, newGroup, false).1 == 200
    ensures CreateEffect(t, input, newGroup, false).0.rows == t.rows + [Draft(input, input.dueDate.value, None).(id := t.nextId)]
    ensures Draft(input, input.dueDate.value, None).status == Scheduled
    ensures Draft(input, input.dueDate.value, None).createdByText == Some(input.userId)
  {
  }

  /**
   * An installment plan: `installments` rows under the new group, numbered
   * 1 to n, each carrying n, the value unchanged and status SCHEDULED, due
   * on successive months from the due date, with ids handed out in order.
   */
  predicate IsInstallmentPlan(added: seq<Payment>, firstId: nat, input: PaymentInput, newGroup: GroupId)
    requires input.dueDate.Some? && input.value.Some?
  {
    && |added| == Count(input.installments)
    && forall i :: 0 <= i < |added| ==>
         && added[i].id == firstId + i
         && added[i].installmentNumber == Some(i + 1)
         && added[i].installments == input.installments
         && added[i].group == Some(newGroup)
         && added[i].status == Scheduled
         && added[i].createdBy == input.userId
         && added[i].createdByText == Some(input.userId)
         && added[i].value == input.value.value
         && added[i].dueDate == MonthsAfter(input.dueDate.value, i)
  }

  /** An installments request appends exactly its plan. */
  lemma {:induction false} CreateInstallments(t: Table, input: PaymentInput, newGroup: GroupId)
    requires CanRun(input) && !MissingField(input) && input.kind == Installments
    ensures var r := CreateEffect(t, input, newGroup, false);
      && r.1 == 200
      && |r.0.rows| >= |t.rows|
      && r.0.rows[..|t.rows|] == t.rows
      && IsInstallmentPlan(r.0.rows[|t.rows|..], t.nextId, input, newGroup)
  {
    var due := input.dueDate.value;
    var drafts := InstallmentRows(Draft(input, due, Some(newGroup)), due, Count(input.installments), 1);
    assert CreatedRows(input, newGroup) == drafts;
    InsertAppends(t, drafts);
    PlanNumbered(input, newGroup, t.nextId);
  }

  lemma {:induction false} PlanNumbered(input: PaymentInput, newGroup: GroupId, firstId: nat)
    requires input.dueDate.Some? && input.value.Some? && input.kind == Installments
    ensures var due := input.dueDate.value;
      IsInstallmentPlan(Numbered(InstallmentRows(Draft(input, due, Some(newGroup)), due, Count(input.installments), 1), firstId),
                        firstId, input, newGroup)
  {
    var due := input.dueDate.value;
    var n := Count(input.installments);
    var rows := InstallmentRows(Draft(input, due, Some(newGroup)), due, n, 1);
    forall i | 0 <= i < n
      ensures rows[i] == Draft(input, due, Some(newGroup)).(dueDate := MonthsAfter(due, i), installmentNumber := Some(1 + i))
    {
      InstallmentRowAt(Draft(input, due, Some(newGroup)), due, n, 1, i);
    }
  }

  /**
   * A recurring plan starts on the due date, steps by the frequency, never
   * passes the end date and is empty when the due date is after it.
   */
  lemma {:induction false} CreateRecurring(t: Table, input: PaymentInput, newGroup: GroupId)
    requires CanRun(input) && !MissingField(input) && input.kind == Recurring && input.endDate.Some?
    ensures var r := CreateEffect(t, input, newGroup, false);
      var dates := RecurringDates(input.dueDate.value, input.endDate.value, input.frequency);
      && r.1 == 200
      && |r.0.rows| == |t.rows| + |dates|
      && r.0.rows[..|t.rows|] == t.rows
      && (|dates| == 0 <==> Before(input.endDate.value, input.dueDate.value))
      && (|dates| > 0 ==> dates[0] == input.dueDate.value)
      && forall j :: |t.rows| <= j < |r.0.rows| ==>
           var p := r.0.rows[j];
           && p.id == t.nextId + (j - |t.rows|)
           && p.dueDate == dates[j - |t.rows|]
           && NotAfter(p.dueDate, input.endDate.value)
           && p.group == Some(newGroup)
           && p.status == Scheduled
  {
    var due := input.dueDate.value;
    var rows := RecurringRows(Draft(input, due, Some(newGroup)), due, input.endDate, input.frequency);
    assert CreatedRows(input, newGroup) == rows;
  }

  /** Without an end date a recurring request inserts nothing. */
  lemma {:induction false} CreateRecurringWithoutEnd(t: Table, input: PaymentInput, newGroup: GroupId)
    requires CanRun(input) && !MissingField(input) && input.kind == Recurring && input.endDate.None?
    ensures CreateEffect(t, input, newGroup, false) == (t.Insert([]), 200)
  {
  }
}
