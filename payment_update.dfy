/**
 * `updatePayment`: fetch the edited row, pick a transition from its old
 * type and the requested type, and run that transition's fixed sequence of
 * delete, insert and recount calls, with no transaction around them.
 */
module PaymentUpdate {
  import opened Wrappers
  import opened Dates
  import opened Payments
  import opened PaymentSeries

  /** The store calls of one edit, each of which may fail. */
  datatype Call = FetchCall | DeleteCall | InsertCall | GroupCall | RecountCall | EditCall

  /**
   * How a transition helper ends: the status object it returns, `undefined`,
   * or an exception (a `null` result read as an array, or the `res` object the
   * helpers do not have).
   */
  datatype Outcome = Returned(status: int) | Undefined | Threw

  datatype Route =
    | InPlace
    | ToSingle
    | InstallmentsEdit
    | InstallmentsToRecurring
    | RecurringEdit
    | RecurringToInstallments
    | SingleToInstallments
    | SingleToRecurring
    | NoRoute

  /** The dispatch on the stored type and the requested type. */
  function RouteFor(oldKind: Kind, newKind: Option<Kind>, singleUpdate: bool): Route {
    if (oldKind == Single && newKind == Some(Single)) || (newKind != Some(Single) && singleUpdate) then InPlace
    else if (oldKind == Installments || oldKind == Recurring) && newKind == Some(Single) then ToSingle
    else if oldKind == Installments && newKind == Some(Installments) then InstallmentsEdit
    else if oldKind == Installments && newKind == Some(Recurring) then InstallmentsToRecurring
    else if oldKind == Recurring && newKind == Some(Recurring) then RecurringEdit
    else if oldKind == Recurring && newKind == Some(Installments) then RecurringToInstallments
    else if oldKind == Single && newKind == Some(Installments) then SingleToInstallments
    else if oldKind == Single && newKind == Some(Recurring) then SingleToRecurring
    else NoRoute
  }

  /**
   * A regenerated row: edit fields, the creator id and request of the stored
   * row, status SCHEDULED. The helpers copy only `created_by_id`, so
   * `created_by` is left NULL.
   */
  function SeriesRow(e: Edit, cur: Payment, kind: Kind, description: string, routing: Routing,
                     group: Option<GroupId>, installments: Option<int>,
                     frequency: Option<Frequency>, endDate: Option<Date>): Payment
  {
    Payment(0, e.supplierName, description, e.value, e.dueDate, Scheduled, kind, group,
            installments, None, frequency, endDate, cur.createdBy, None, cur.requestId,
            routing, e.details, None)
  }

  /** `installment_number` with `null` read as 0, as JavaScript arithmetic does. */
  function NumberOf(p: Payment): int {
    p.installmentNumber.GetOr(0)
  }

  /** `updateInstallments` refuses to end the plan before the edited installment. */
  predicate ShrinksBelowEdited(e: Edit, cur: Payment) {
    e.installments.Some? && e.installments.value < NumberOf(cur)
  }

  /** The rows `updateInstallments` inserts: from the edited number to the new count, a month on each time. */
  function InstallmentsTail(e: Edit, cur: Payment): seq<Payment> {
    var template := SeriesRow(e, cur, e.kind.GetOr(OtherKind("")), e.description, InsertedRouting(e),
                              cur.group, e.installments, None, None);
    InstallmentRows(template, AddMonths(cur.dueDate, 1), TailCount(e, cur), NumberOf(cur))
  }

  /** `for (i = 0; i <= new - number; i++)`: none when the count is missing. */
  function TailCount(e: Edit, cur: Payment): nat {
    if e.installments.Some? && e.installments.value >= NumberOf(cur) then e.installments.value - NumberOf(cur) + 1 else 0
  }

  /** `eq("payment_group", g)` together with the row's other filters. */
  function InGroup(cur: Payment): Cond {
    GroupIs(cur.group)
  }

  // ---------------------------------------------------------------- in place

  function InPlaceEffect(t: Table, e: Edit, faults: set<Call>): (Table, bool) {
    if EditCall in faults then (t, false) else (t.Update([IdIs(e.id)], EditInPlace(e)), true)
  }

  // ------------------------------------------------------ updateToSinglePayment

  function ToSingleEdit(t: Table, e: Edit, faults: set<Call>): (Table, Outcome) {
    if EditCall in faults then (t, Threw) else (t.Update([IdIs(e.id)], EditToSingle(e)), Undefined)
  }

  function ToSingleEffect(t: Table, e: Edit, cur: Payment, faults: set<Call>): (Table, Outcome) {
    if cur.group.Some? && DeleteCall in faults then (t, Threw)
    else
      var t1 := if cur.group.Some? then t.Delete([InGroup(cur), DueAfter(cur.dueDate)]) else t;
      if cur.kind != Installments then ToSingleEdit(t1, e, faults)
      else if GroupCall in faults then (t1, Threw)
      else
        var size := |t1.Select([InGroup(cur)])|;
        if RecountCall in faults then (t1, Threw)
        else ToSingleEdit(t1.Update([InGroup(cur)], SetInstallments(size - 1)), e, faults)
  }

  // ------------------------------------------------------- updateInstallments

  function InstallmentsEffect(t: Table, e: Edit, cur: Payment, faults: set<Call>): (Table, Outcome) {
    if ShrinksBelowEdited(e, cur) then (t, Returned(400))
    else if DeleteCall in faults then (t, Returned(500))
    else
      var t1 := t.Delete([InGroup(cur), KindIs(Installments), DueFrom(cur.dueDate)]);
      if InsertCall in faults then (t1, Returned(500))
      else
        var t2 := t1.Insert(InstallmentsTail(e, cur));
        if GroupCall in faults then (t2, Threw)
        else
          var size := |t2.Select([InGroup(cur)])|;
          if RecountCall in faults then (t2, Threw)
          else (t2.Update([InGroup(cur)], SetInstallments(size)), Returned(200))
  }

  // ---------------------------------------------------- recurring regeneration

  /** The last day the series that starts today can reach. */
  function LastDay(e: Edit): Option<Date> {
    if e.endDate.Some? then Some(PrevDay(e.endDate.value)) else None
  }

  /**
   * The dates the chosen transition steps through are calendar days and its
   * loop ends (an unknown frequency never moves the date on).
   */
  predicate CanRun(e: Edit, oldKind: Kind, today: Date) {
    match RouteFor(oldKind, e.kind, e.singleUpdate)
    case InstallmentsToRecurring => SeriesEnds(today, LastDay(e), e.frequency)
    case RecurringEdit => SeriesEnds(e.dueDate, e.endDate, e.frequency)
    case SingleToRecurring => SeriesEnds(e.dueDate, e.endDate, e.frequency)
    case _ => true
  }

  /**
   * `new Date()` carries the time of day, the end date is midnight, so the
   * series that starts today keeps only the days strictly before the end.
   */
  function FromToday(e: Edit, cur: Payment, today: Date, newGroup: GroupId): seq<Payment>
    requires SeriesEnds(today, LastDay(e), e.frequency)
  {
    var template := SeriesRow(e, cur, Recurring, e.description, cur.routing,
                              Some(newGroup), None, e.frequency, e.endDate);
    RecurringRows(template, today, LastDay(e), e.frequency)
  }

  function InstallmentsToRecurringEffect(t: Table, e: Edit, cur: Payment, today: Date,
                                         newGroup: GroupId, faults: set<Call>): (Table, Outcome)
    requires SeriesEnds(today, LastDay(e), e.frequency)
  {
    if DeleteCall in faults then (t, Returned(500))
    else
      var t1 := t.Delete([InGroup(cur), KindIs(Installments), DueFrom(cur.dueDate)]);
      if InsertCall in faults then (t1, Returned(500))
      else
        var t2 := t1.Insert(FromToday(e, cur, today, newGroup));
        if GroupCall in faults then (t2, Returned(500))
        else
          var size := |t2.Select([InGroup(cur)])|;
          if RecountCall in faults then (t2, Returned(500))
          else (t2.Update([InGroup(cur), KindIs(Installments)], SetInstallments(size)), Returned(200))
  }

  /** The rows `updateRecurrency` regenerates: the same group, from the new due date. */
  function SameGroupRecurring(e: Edit, cur: Payment): seq<Payment>
    requires SeriesEnds(e.dueDate, e.endDate, e.frequency)
  {
    var template := SeriesRow(e, cur, Recurring, e.description, cur.routing,
                              cur.group, None, e.frequency, e.endDate);
    RecurringRows(template, e.dueDate, e.endDate, e.frequency)
  }

  /** Delete, then insert; the shape of every transition that only regenerates. */
  function DeleteThenInsert(t: Table, conds: seq<Cond>, rows: seq<Payment>, faults: set<Call>): (Table, Outcome) {
    if DeleteCall in faults then (t, Returned(500))
    else
      var t1 := t.Delete(conds);
      if InsertCall in faults then (t1, Returned(500)) else (t1.Insert(rows), Returned(200))
  }

  function RecurringEffect(t: Table, e: Edit, cur: Payment, faults: set<Call>): (Table, Outcome)
    requires SeriesEnds(e.dueDate, e.endDate, e.frequency)
  {
    DeleteThenInsert(t, [InGroup(cur), DueFrom(cur.dueDate)], SameGroupRecurring(e, cur), faults)
  }

  /** A new installment plan from the edit's due date, numbered from 1. */
  function NewPlan(e: Edit, cur: Payment, description: string, newGroup: GroupId): seq<Payment> {
    var template := SeriesRow(e, cur, Installments, description, InsertedRouting(e),
                              Some(newGroup), e.installments, None, None);
    InstallmentRows(template, e.dueDate, Count(e.installments), 1)
  }

  /** A new recurring series from the edit's due date under a new group. */
  function NewSeries(e: Edit, cur: Payment, newGroup: GroupId): seq<Payment>
    requires SeriesEnds(e.dueDate, e.endDate, e.frequency)
  {
    var template := SeriesRow(e, cur, Recurring, e.description, InsertedRouting(e),
                              Some(newGroup), None, e.frequency, e.endDate);
    RecurringRows(template, e.dueDate, e.endDate, e.frequency)
  }

  /**
   * One `updatePayment` call on the row `cur` just fetched: the new table
   * and whether the caller is told of a failure (status 500).
   */
  function TransitionEffect(t: Table, e: Edit, cur: Payment, today: Date, newGroup: GroupId,
                            faults: set<Call>): (Table, int)
    requires CanRun(e, cur.kind, today)
  {
    match RouteFor(cur.kind, e.kind, e.singleUpdate)
    case InPlace =>
      var r := InPlaceEffect(t, e, faults);
      (r.0, if r.1 then 200 else 500)
    case ToSingle => Reply(ToSingleEffect(t, e, cur, faults))
    case InstallmentsEdit => Reply(InstallmentsEffect(t, e, cur, faults))
    case InstallmentsToRecurring => Reply(InstallmentsToRecurringEffect(t, e, cur, today, newGroup, faults))
    case RecurringEdit => Reply(RecurringEffect(t, e, cur, faults))
    case RecurringToInstallments =>
      Reply(DeleteThenInsert(t, [InGroup(cur), DueFrom(cur.dueDate)], NewPlan(e, cur, cur.description, newGroup), faults))
    case SingleToInstallments =>
      Reply(DeleteThenInsert(t, [IdIs(cur.id)], NewPlan(e, cur, e.description, newGroup), faults))
    case SingleToRecurring =>
      Reply(DeleteThenInsert(t, [IdIs(cur.id)], NewSeries(e, cur, newGroup), faults))
    case NoRoute => (t, 200)
  }

  /** The reply ignores whatever status object a helper returned; only an exception turns into 500. */
  function Reply(r: (Table, Outcome)): (Table, int) {
    (r.0, if r.1 == Threw then 500 else 200)
  }

  /** `.single()` on `eq("id", id)`: the row, or nothing when the call fails or no single row matches. */
  function Fetched(t: Table, id: nat, faults: set<Call>): (r: Option<Payment>)
    ensures r.Some? ==> r.value in t.rows && r.value.id == id
  {
    var found := t.Select([IdIs(id)]);
    if FetchCall in faults || |found| != 1 then None
    else
      assert Holds([IdIs(id)][0], found[0]);
      Some(found[0])
  }

  /** One whole `updatePayment` call: 404 when the row is not found. */
  function UpdateEffect(t: Table, e: Edit, today: Date, newGroup: GroupId, faults: set<Call>): (Table, int)
    requires forall p :: p in t.rows && p.id == e.id ==> CanRun(e, p.kind, today)
  {
    match Fetched(t, e.id, faults)
    case None => (t, 404)
    case Some(cur) => TransitionEffect(t, e, cur, today, newGroup, faults)
  }

  // ------------------------------------------------------------------ methods

  method UpdateToSinglePayment(store: PaymentStore, e: Edit, cur: Payment, faults: set<Call>)
    returns (out: Outcome)
    modifies store
    ensures (store.State(), out) == ToSingleEffect(old(store.State()), e, cur, faults)
  {
    if cur.group.Some? {
      var deleted := store.Delete([InGroup(cur), DueAfter(cur.dueDate)], DeleteCall in faults);
      if !deleted {
        return Threw;
      }
    }
    if cur.kind == Installments {
      var inGroup := store.Select([InGroup(cur)], GroupCall in faults);
      if inGroup.None? {
        return Threw;
      }
      var recounted := store.Update([InGroup(cur)], SetInstallments(|inGroup.value| - 1), RecountCall in faults);
      if !recounted {
        return Threw;
      }
    }
    var edited := store.Update([IdIs(e.id)], EditToSingle(e), EditCall in faults);
    out := if edited then Undefined else Threw;
  }

  method UpdateInstallments(store: PaymentStore, e: Edit, cur: Payment, faults: set<Call>)
    returns (out: Outcome)
    modifies store
    ensures (store.State(), out) == InstallmentsEffect(old(store.State()), e, cur, faults)
  {
    var num := NumberOf(cur);
    if e.installments.Some? && e.installments.value < num {
      return Returned(400);
    }
    var deleted := store.Delete([InGroup(cur), KindIs(Installments), DueFrom(cur.dueDate)], DeleteCall in faults);
    if !deleted {
      return Returned(500);
    }
    var count := if e.installments.Some? then e.installments.value - num + 1 else 0;
    var template := SeriesRow(e, cur, e.kind.GetOr(OtherKind("")), e.description, InsertedRouting(e),
                              cur.group, e.installments, None, None);
    var rows := BuildInstallments(template, AddMonths(cur.dueDate, 1), count, num);
    assert rows == InstallmentsTail(e, cur);
    var inserted := store.Insert(rows, InsertCall in faults);
    if !inserted {
      return Returned(500);
    }
    var inGroup := store.Select([InGroup(cur)], GroupCall in faults);
    if inGroup.None? {
      return Threw;
    }
    var recounted := store.Update([InGroup(cur)], SetInstallments(|inGroup.value|), RecountCall in faults);
    out := if recounted then Returned(200) else Threw;
  }

  method UpdateInstallmentsToRecurrency(store: PaymentStore, e: Edit, cur: Payment, today: Date,
                                        newGroup: GroupId, faults: set<Call>)
    returns (out: Outcome)
    requires SeriesEnds(today, LastDay(e), e.frequency)
    modifies store
    ensures (store.State(), out) == InstallmentsToRecurringEffect(old(store.State()), e, cur, today, newGroup, faults)
  {
    var deleted := store.Delete([InGroup(cur), KindIs(Installments), DueFrom(cur.dueDate)], DeleteCall in faults);
    if !deleted {
      return Returned(500);
    }
    var template := SeriesRow(e, cur, Recurring, e.description, cur.routing,
                              Some(newGroup), None, e.frequency, e.endDate);
    var rows := BuildRecurring(template, today, LastDay(e), e.frequency);
    var inserted := store.Insert(rows, InsertCall in faults);
    if !inserted {
      return Returned(500);
    }
    var inGroup := store.Select([InGroup(cur)], GroupCall in faults);
    if inGroup.None? {
      return Returned(500);
    }
    var recounted := store.Update([InGroup(cur), KindIs(Installments)], SetInstallments(|inGroup.value|),
                                  RecountCall in faults);
    out := if recounted then Returned(200) else Returned(500);
  }

  /** The delete-then-insert tail shared by the remaining four transitions. */
  method ReplaceRows(store: PaymentStore, conds: seq<Cond>, rows: seq<Payment>, faults: set<Call>)
    returns (out: Outcome)
    modifies store
    ensures (store.State(), out) == DeleteThenInsert(old(store.State()), conds, rows, faults)
  {
    var deleted := store.Delete(conds, DeleteCall in faults);
    if !deleted {
      return Returned(500);
    }
    var inserted := store.Insert(rows, InsertCall in faults);
    out := if inserted then Returned(200) else Returned(500);
  }

  method UpdateRecurrency(store: PaymentStore, e: Edit, cur: Payment, faults: set<Call>)
    returns (out: Outcome)
    requires SeriesEnds(e.dueDate, e.endDate, e.frequency)
    modifies store
    ensures (store.State(), out) == RecurringEffect(old(store.State()), e, cur, faults)
  {
    var template := SeriesRow(e, cur, Recurring, e.description, cur.routing,
                              cur.group, None, e.frequency, e.endDate);
    var rows := BuildRecurring(template, e.dueDate, e.endDate, e.frequency);
    out := ReplaceRows(store, [InGroup(cur), DueFrom(cur.dueDate)], rows, faults);
  }

  method UpdateRecurringToInstallment(store: PaymentStore, e: Edit, cur: Payment, newGroup: GroupId,
                                      faults: set<Call>)
    returns (out: Outcome)
    modifies store
    ensures (store.State(), out)
            == DeleteThenInsert(old(store.State()), [InGroup(cur), DueFrom(cur.dueDate)],
                                NewPlan(e, cur, cur.description, newGroup), faults)
  {
    var template := SeriesRow(e, cur, Installments, cur.description, InsertedRouting(e),
                              Some(newGroup), e.installments, None, None);
    var rows := BuildInstallments(template, e.dueDate, Count(e.installments), 1);
    out := ReplaceRows(store, [InGroup(cur), DueFrom(cur.dueDate)], rows, faults);
  }

  method UpdateSingleToInstallments(store: PaymentStore, e: Edit, cur: Payment, newGroup: GroupId,
                                    faults: set<Call>)
    returns (out: Outcome)
    modifies store
    ensures (store.State(), out)
            == DeleteThenInsert(old(store.State()), [IdIs(cur.id)], NewPlan(e, cur, e.description, newGroup), faults)
  {
    var template := SeriesRow(e, cur, Installments, e.description, InsertedRouting(e),
                              Some(newGroup), e.installments, None, None);
    var rows := BuildInstallments(template, e.dueDate, Count(e.installments), 1);
    out := ReplaceRows(store, [IdIs(cur.id)], rows, faults);
  }

  method UpdateSingleToRecurring(store: PaymentStore, e: Edit, cur: Payment, newGroup: GroupId,
                                 faults: set<Call>)
    returns (out: Outcome)
    requires SeriesEnds(e.dueDate, e.endDate, e.frequency)
    modifies store
    ensures (store.State(), out)
            == DeleteThenInsert(old(store.State()), [IdIs(cur.id)], NewSeries(e, cur, newGroup), faults)
  {
    var template := SeriesRow(e, cur, Recurring, e.description, InsertedRouting(e),
                              Some(newGroup), None, e.frequency, e.endDate);
    var rows := BuildRecurring(template, e.dueDate, e.endDate, e.frequency);
    out := ReplaceRows(store, [IdIs(cur.id)], rows, faults);
  }

  /** The request handler; `today` is the server's date and `newGroup` the one uuid it would draw. */
  method UpdatePayment(store: PaymentStore, e: Edit, today: Date, newGroup: GroupId, faults: set<Call>)
    returns (status: int)
    requires forall p :: p in store.rows && p.id == e.id ==> CanRun(e, p.kind, today)
    modifies store
    ensures (store.State(), status) == UpdateEffect(old(store.State()), e, today, newGroup, faults)
  {
    var found := store.Select([IdIs(e.id)], FetchCall in faults);
    if found.None? || |found.value| != 1 {
      return 404;
    }
    var cur := found.value[0];
    assert Fetched(store.State(), e.id, faults) == Some(cur);
    var out: Outcome;
    match RouteFor(cur.kind, e.kind, e.singleUpdate) {
      case InPlace =>
        var ok := store.Update([IdIs(e.id)], EditInPlace(e), EditCall in faults);
        return if ok then 200 else 500;
      case ToSingle =>
        out := UpdateToSinglePayment(store, e, cur, faults);
      case InstallmentsEdit =>
        out := UpdateInstallments(store, e, cur, faults);
      case InstallmentsToRecurring =>
        out := UpdateInstallmentsToRecurrency(store, e, cur, today, newGroup, faults);
      case RecurringEdit =>
        out := UpdateRecurrency(store, e, cur, faults);
      case RecurringToInstallments =>
        out := UpdateRecurringToInstallment(store, e, cur, newGroup, faults);
      case SingleToInstallments =>
        out := UpdateSingleToInstallments(store, e, cur, newGroup, faults);
      case SingleToRecurring =>
        out := UpdateSingleToRecurring(store, e, cur, newGroup, faults);
      case NoRoute =>
        out := Undefined;
    }
    status := if out == Threw then 500 else 200;
  }
}
