/** What each `updatePayment` transition does to the `payments` table, and what it fails to protect. */
module PaymentUpdateProperties {
  import opened Wrappers
  import opened Dates
  import opened Seqs
  import opened Payments
  import opened PaymentSeries
  import opened PaymentUpdate

  /** The answer is 404 exactly when the edited row cannot be fetched, and then nothing is written. */
  lemma {:induction false} NotFound(t: Table, e: Edit, today: Date, newGroup: GroupId, faults: set<Call>)
    requires forall p :: p in t.rows && p.id == e.id ==> CanRun(e, p.kind, today)
    ensures UpdateEffect(t, e, today, newGroup, faults).1 == 404 <==> Fetched(t, e.id, faults).None?
    ensures Fetched(t, e.id, faults).None? ==> UpdateEffect(t, e, today, newGroup, faults).0 == t
  {
  }

  /** Every pair of the three known types is handled, and `singleUpdate` wins unless the new type is single. */
  lemma {:induction false} RoutesCoverKnownTypes(oldKind: Kind, newKind: Kind, singleUpdate: bool)
    requires oldKind in {Single, Installments, Recurring} && newKind in {Single, Installments, Recurring}
    ensures RouteFor(oldKind, Some(newKind), singleUpdate) != NoRoute
    ensures singleUpdate && newKind != Single ==> RouteFor(oldKind, Some(newKind), singleUpdate) == InPlace
    ensures oldKind != Single && newKind == Single ==> RouteFor(oldKind, Some(newKind), singleUpdate) == ToSingle
  {
  }

  /**
   * The in-place edit rewrites the row with the given id only: it takes the
   * edited fields, goes back to SCHEDULED and keeps its type, group and
   * installment numbering.
   */
  lemma {:induction false} InPlaceEdit(t: Table, e: Edit, today: Date, newGroup: GroupId, faults: set<Call>, cur: Payment)
    requires forall p :: p in t.rows && p.id == e.id ==> CanRun(e, p.kind, today)
    requires Fetched(t, e.id, faults) == Some(cur)
    requires RouteFor(cur.kind, e.kind, e.singleUpdate) == InPlace
    ensures var r := UpdateEffect(t, e, today, newGroup, faults);
      && r.1 == (if EditCall in faults then 500 else 200)
      && r.0.nextId == t.nextId && |r.0.rows| == |t.rows|
      && forall i :: 0 <= i < |t.rows| ==>
           if t.rows[i].id != e.id || EditCall in faults then r.0.rows[i] == t.rows[i]
           else
             && r.0.rows[i].id == e.id
             && r.0.rows[i].status == Scheduled
             && r.0.rows[i].dueDate == e.dueDate
             && r.0.rows[i].value == e.value
             && r.0.rows[i].kind == t.rows[i].kind
             && r.0.rows[i].group == t.rows[i].group
             && r.0.rows[i].installments == t.rows[i].installments
             && r.0.rows[i].installmentNumber == t.rows[i].installmentNumber
             && r.0.rows[i].routing.pixKey
                == (if e.routing.pixKey.Some? then e.routing.pixKey else t.rows[i].routing.pixKey)
  {
    if EditCall !in faults {
      var u := t.Update([IdIs(e.id)], EditInPlace(e));
      forall i | 0 <= i < |t.rows| ensures Matches(t.rows[i], [IdIs(e.id)]) <==> t.rows[i].id == e.id {
        MatchesOne(t.rows[i], IdIs(e.id));
      }
    }
  }

  /** `updateInstallments` answers 400 and writes nothing exactly when the plan would end before the edited installment. */
  lemma {:induction false} InstallmentsGuard(t: Table, e: Edit, cur: Payment, faults: set<Call>)
    ensures InstallmentsEffect(t, e, cur, faults).1 == Returned(400) <==> ShrinksBelowEdited(e, cur)
    ensures ShrinksBelowEdited(e, cur) ==> InstallmentsEffect(t, e, cur, faults).0 == t
  {
  }

  /**
   * With no transaction, a failed insert leaves the old installments deleted
   * and none in their place, and the caller is still told the edit succeeded.
   */
  lemma {:induction false} InstallmentsInsertFailure(t: Table, e: Edit, cur: Payment, today: Date, newGroup: GroupId)
    requires RouteFor(cur.kind, e.kind, e.singleUpdate) == InstallmentsEdit
    requires !ShrinksBelowEdited(e, cur)
    ensures TransitionEffect(t, e, cur, today, newGroup, {InsertCall})
            == (t.Delete([InGroup(cur), KindIs(Installments), DueFrom(cur.dueDate)]), 200)
  {
  }

  /**
   * A failure of either call after the insert throws: a failed group select
   * leaves `paymentsInGroup` null, whose `length` throws, and a failed
   * recount throws a reference error. Either way the caller sees 500 with
   * the delete and the insert already applied.
   */
  lemma {:induction false} InstallmentsRecountFailure(t: Table, e: Edit, cur: Payment, today: Date, newGroup: GroupId, fault: Call)
    requires RouteFor(cur.kind, e.kind, e.singleUpdate) == InstallmentsEdit
    requires !ShrinksBelowEdited(e, cur)
    requires fault == GroupCall || fault == RecountCall
    ensures TransitionEffect(t, e, cur, today, newGroup, {fault}).1 == 500
    ensures TransitionEffect(t, e, cur, today, newGroup, {fault}).0
            == t.Delete([InGroup(cur), KindIs(Installments), DueFrom(cur.dueDate)]).Insert(InstallmentsTail(e, cur))
  {
  }

  /**
   * A new plan (from a recurring series or a single payment) is `installments`
   * rows under the new group, numbered 1 to n, a month apart from the edit's
   * due date, with the given description.
   */
  lemma {:induction false} NewPlanShape(e: Edit, cur: Payment, description: string, newGroup: GroupId)
    requires Valid(e.dueDate)
    ensures var plan := NewPlan(e, cur, description, newGroup);
      && |plan| == Count(e.installments)
      && forall i :: 0 <= i < |plan| ==>
           && plan[i].installmentNumber == Some(i + 1)
           && plan[i].installments == e.installments
           && plan[i].group == Some(newGroup)
           && plan[i].kind == Installments
           && plan[i].status == Scheduled
           && plan[i].description == description
           && plan[i].dueDate == MonthsAfter(e.dueDate, i)
           && plan[i].routing.pixKey == e.snakePixKey
           && plan[i].createdBy == cur.createdBy
           && plan[i].createdByText.None?
           && Valid(plan[i].dueDate)
  {
    var plan := NewPlan(e, cur, description, newGroup);
    var template := SeriesRow(e, cur, Installments, description, InsertedRouting(e),
                              Some(newGroup), e.installments, None, None);
    forall i | 0 <= i < |plan|
      ensures plan[i] == template.(dueDate := MonthsAfter(e.dueDate, i), installmentNumber := Some(1 + i))
        && Valid(plan[i].dueDate)
    {
      InstallmentRowAt(template, e.dueDate, |plan|, 1, i);
      MonthsAfterValid(e.dueDate, i);
    }
  }

  /** Turning a single payment into a series deletes exactly that row first. */
  lemma {:induction false} SingleDeletesOnlyItself(t: Table, cur: Payment)
    ensures t.Delete([IdIs(cur.id)]).rows == Filter(t.rows, (p: Payment) => p.id != cur.id)
  {
    var q := (p: Payment) => p.id != cur.id;
    forall x ensures Surviving([IdIs(cur.id)])(x) == q(x) {
      MatchesOne(x, IdIs(cur.id));
    }
    KeptIsFilter(t.rows, [IdIs(cur.id)], false);
    FilterCongruent(t.rows, Surviving([IdIs(cur.id)]), q);
  }

  // ------------------------------------------------- updateInstallments success

  function OutsideGroup(g: GroupId): Payment -> bool {
    (p: Payment) => p.group != Some(g)
  }

  function InstallmentsDeleted(cur: Payment): seq<Cond> {
    [InGroup(cur), KindIs(Installments), DueFrom(cur.dueDate)]
  }

  /** A row outside the group matches no filter that starts with the group. */
  lemma {:induction false} OutsideMissesGroup(g: GroupId, conds: seq<Cond>)
    requires |conds| > 0 && conds[0] == GroupIs(Some(g))
    ensures forall x :: OutsideGroup(g)(x) ==> !Matches(x, conds)
  {
    forall x | Matches(x, conds) ensures !OutsideGroup(g)(x) {
      assert Holds(conds[0], x);
    }
  }

  /** A recount of a group leaves the rows outside it alone. */
  lemma {:induction false} RecountKeepsOutside(t: Table, g: GroupId, conds: seq<Cond>, n: int)
    requires |conds| > 0 && conds[0] == GroupIs(Some(g))
    ensures Filter(t.Update(conds, SetInstallments(n)).rows, OutsideGroup(g)) == Filter(t.rows, OutsideGroup(g))
  {
    OutsideMissesGroup(g, conds);
    UpdateFrame(t, conds, SetInstallments(n), OutsideGroup(g));
  }

  /** The delete and the insert of `updateInstallments` leave the rows outside the group alone. */
  lemma {:induction false} TailKeepsOutside(t: Table, e: Edit, cur: Payment, g: GroupId)
    requires cur.group == Some(g)
    ensures Filter(t.Delete(InstallmentsDeleted(cur)).Insert(InstallmentsTail(e, cur)).rows, OutsideGroup(g))
      == Filter(t.rows, OutsideGroup(g))
  {
    var q := OutsideGroup(g);
    var t1 := t.Delete(InstallmentsDeleted(cur));
    OutsideMissesGroup(g, InstallmentsDeleted(cur));
    DeleteFrame(t, InstallmentsDeleted(cur), q);
    var tail := InstallmentsTail(e, cur);
    forall k | 0 <= k < |tail| ensures !q(tail[k].(id := t1.nextId + k)) {
      TailRow(e, cur, k);
    }
    InsertFrame(t1, tail, q);
  }

  /** Rows of other groups come through `updateInstallments` untouched and in order. */
  lemma {:induction false} InstallmentsKeepOtherGroups(t: Table, e: Edit, cur: Payment, g: GroupId)
    requires cur.group == Some(g) && !ShrinksBelowEdited(e, cur)
    ensures Filter(InstallmentsEffect(t, e, cur, {}).0.rows, OutsideGroup(g)) == Filter(t.rows, OutsideGroup(g))
  {
    var t2 := t.Delete(InstallmentsDeleted(cur)).Insert(InstallmentsTail(e, cur));
    var n := |t2.Select([InGroup(cur)])|;
    assert InstallmentsEffect(t, e, cur, {}).0 == t2.Update([InGroup(cur)], SetInstallments(n));
    TailKeepsOutside(t, e, cur, g);
    RecountKeepsOutside(t2, g, [InGroup(cur)], n);
  }

  /** After `updateInstallments` every row of the group records how many rows the group has. */
  lemma {:induction false} InstallmentsRecounted(t: Table, e: Edit, cur: Payment, g: GroupId)
    requires cur.group == Some(g) && !ShrinksBelowEdited(e, cur)
    ensures var u := InstallmentsEffect(t, e, cur, {}).0;
      forall i :: 0 <= i < |u.rows| && u.rows[i].group == Some(g) ==>
        u.rows[i].installments == Some(|Filter(u.rows, InGroupOf(g))|)
  {
    RecountedRows(t.Delete(InstallmentsDeleted(cur)).Insert(InstallmentsTail(e, cur)), cur, g);
  }

  /** A recount by the group's size leaves every row of the group recording that size. */
  lemma {:induction false} RecountedRows(t2: Table, cur: Payment, g: GroupId)
    requires cur.group == Some(g)
    ensures var u := t2.Update([InGroup(cur)], SetInstallments(|t2.Select([InGroup(cur)])|));
      forall i :: 0 <= i < |u.rows| && u.rows[i].group == Some(g) ==>
        u.rows[i].installments == Some(|Filter(u.rows, InGroupOf(g))|)
  {
    var n := |t2.Select([InGroup(cur)])|;
    var u := t2.Update([InGroup(cur)], SetInstallments(n));
    SelectGroup(t2, g);
    UpdateCount(t2, [InGroup(cur)], SetInstallments(n), InGroupOf(g));
    forall i | 0 <= i < |u.rows| && u.rows[i].group == Some(g) ensures u.rows[i].installments == Some(n) {
      MatchesOne(t2.rows[i], InGroup(cur));
    }
  }

  /**
   * The old installments from the edited one on are gone, whatever their
   * status: a PAID installment is deleted like any other.
   */
  lemma {:induction false} InstallmentsDropFromEdited(t: Table, e: Edit, cur: Payment, g: GroupId)
    requires t.Valid() && cur.group == Some(g) && !ShrinksBelowEdited(e, cur)
    ensures var u := InstallmentsEffect(t, e, cur, {}).0;
      forall i :: 0 <= i < |t.rows|
        && t.rows[i].group == Some(g) && t.rows[i].kind == Installments && NotAfter(cur.dueDate, t.rows[i].dueDate)
        ==> IdAbsent(u, t.rows[i].id)
  {
    var t2 := t.Delete(InstallmentsDeleted(cur)).Insert(InstallmentsTail(e, cur));
    var u := t2.Update([InGroup(cur)], SetInstallments(|t2.Select([InGroup(cur)])|));
    assert InstallmentsEffect(t, e, cur, {}).0 == u;
    forall i | 0 <= i < |t.rows|
        && t.rows[i].group == Some(g) && t.rows[i].kind == Installments && NotAfter(cur.dueDate, t.rows[i].dueDate)
      ensures IdAbsent(u, t.rows[i].id)
    {
      InstallmentsDropsRow(t, e, cur, i);
    }
  }

  /** One old installment from the edited one on: deleted, and neither the insert nor the recount brings its id back. */
  lemma {:induction false} InstallmentsDropsRow(t: Table, e: Edit, cur: Payment, i: nat)
    requires t.Valid() && cur.group.Some? && i < |t.rows|
    requires t.rows[i].group == cur.group && t.rows[i].kind == Installments && NotAfter(cur.dueDate, t.rows[i].dueDate)
    ensures var t2 := t.Delete(InstallmentsDeleted(cur)).Insert(InstallmentsTail(e, cur));
      IdAbsent(t2.Update([InGroup(cur)], SetInstallments(|t2.Select([InGroup(cur)])|)), t.rows[i].id)
  {
    var conds := InstallmentsDeleted(cur);
    var t1 := t.Delete(conds);
    var t2 := t1.Insert(InstallmentsTail(e, cur));
    var n := |t2.Select([InGroup(cur)])|;
    assert Matches(t.rows[i], conds) by {
      forall k | 0 <= k < |conds| ensures Holds(conds[k], t.rows[i]) {
      }
    }
    DeleteRemovesId(t, conds, i);
    InsertKeepsAbsent(t1, InstallmentsTail(e, cur), t.rows[i].id);
    UpdateKeepsAbsent(t2, [InGroup(cur)], SetInstallments(n), t.rows[i].id);
  }

  lemma {:induction false} TailRow(e: Edit, cur: Payment, k: nat)
    requires k < TailCount(e, cur)
    ensures var p := InstallmentsTail(e, cur)[k];
      && p.installmentNumber == Some(NumberOf(cur) + k)
      && p.dueDate == MonthsAfter(cur.dueDate, k + 1)
      && p.group == cur.group
      && p.status == Scheduled
      && p.routing.pixKey == e.snakePixKey
      && p.createdBy == cur.createdBy
      && p.createdByText.None?
  {
    var template := SeriesRow(e, cur, e.kind.GetOr(OtherKind("")), e.description, InsertedRouting(e),
                              cur.group, e.installments, None, None);
    InstallmentRowAt(template, AddMonths(cur.dueDate, 1), TailCount(e, cur), NumberOf(cur), k);
    MonthsAfterShift(cur.dueDate, k);
  }

  /**
   * The regenerated installments follow the surviving rows: numbered from the
   * edited installment's number to the new count, due one, two, ... months
   * after the edited due date, SCHEDULED, in the same group.
   */
  lemma {:induction false} InstallmentsRegenerated(t: Table, e: Edit, cur: Payment, g: GroupId)
    requires cur.group == Some(g) && !ShrinksBelowEdited(e, cur)
    ensures RegeneratedTail(InstallmentsEffect(t, e, cur, {}).0, t.nextId, e, cur, g)
  {
    var t1 := t.Delete(InstallmentsDeleted(cur));
    var n := |t1.Insert(InstallmentsTail(e, cur)).Select([InGroup(cur)])|;
    TailRecounted(InstallmentsEffect(t, e, cur, {}).0, t.nextId, t1, e, cur, g, n);
  }

  /**
   * The table ends with `TailCount(e, cur)` rows with ids from `first` on,
   * numbered from the edited installment's number, due one, two, ... months
   * after its due date, SCHEDULED, in group `g`.
   */
  ghost predicate RegeneratedTail(u: Table, first: nat, e: Edit, cur: Payment, g: GroupId) {
    var base := |u.rows| - TailCount(e, cur);
    && base >= 0
    && forall j :: base <= j < |u.rows| ==>
         var p := u.rows[j];
         && p.id == first + (j - base)
         && p.installmentNumber == Some(NumberOf(cur) + (j - base))
         && p.dueDate == MonthsAfter(cur.dueDate, j - base + 1)
         && p.group == Some(g)
         && p.status == Scheduled
  }

  /** The tail inserted after the delete and recounted: the rows `TailRow` describes, numbered from the counter. */
  lemma {:induction false} TailRecounted(u: Table, first: nat, t1: Table, e: Edit, cur: Payment, g: GroupId, n: int)
    requires cur.group == Some(g) && first == t1.nextId
    requires u == t1.Insert(InstallmentsTail(e, cur)).Update([InGroup(cur)], SetInstallments(n))
    ensures RegeneratedTail(u, first, e, cur, g)
  {
    var tail := InstallmentsTail(e, cur);
    forall k | 0 <= k < |tail| ensures tail[k].group == Some(g) {
      TailRow(e, cur, k);
    }
    GroupRecounted(u, t1, tail, cur, g, n);
    TailDescribed(u, |t1.rows|, first, e, cur, g, n);
  }

  /** The table ends with `tail`, numbered from `first` on and carrying the count `n`. */
  ghost predicate EndsWithCounted(u: Table, base: nat, first: nat, tail: seq<Payment>, n: int) {
    && |u.rows| == base + |tail|
    && forall j :: base <= j < |u.rows| ==>
         u.rows[j] == tail[j - base].(id := first + j - base, installments := Some(n))
  }

  /** Rows inserted into the group and then recounted keep their order and take the new count. */
  lemma {:induction false} GroupRecounted(u: Table, t1: Table, tail: seq<Payment>, cur: Payment, g: GroupId, n: int)
    requires cur.group == Some(g)
    requires forall k :: 0 <= k < |tail| ==> tail[k].group == Some(g)
    requires u == t1.Insert(tail).Update([InGroup(cur)], SetInstallments(n))
    ensures EndsWithCounted(u, |t1.rows|, t1.nextId, tail, n)
  {
    forall k | 0 <= k < |tail| ensures Matches(tail[k].(id := t1.nextId + k), [InGroup(cur)]) {
      MatchesOne(tail[k].(id := t1.nextId + k), InGroup(cur));
    }
    InsertThenPatch(t1, tail, [InGroup(cur)], SetInstallments(n));
  }

  /** A counted copy of the installments tail is the tail `RegeneratedTail` describes. */
  lemma {:induction false} TailDescribed(u: Table, base: nat, first: nat, e: Edit, cur: Payment, g: GroupId, n: int)
    requires cur.group == Some(g)
    requires EndsWithCounted(u, base, first, InstallmentsTail(e, cur), n)
    ensures RegeneratedTail(u, first, e, cur, g)
  {
    forall j | base <= j < |u.rows|
      ensures var p := u.rows[j];
        && p.id == first + (j - base)
        && p.installmentNumber == Some(NumberOf(cur) + (j - base))
        && p.dueDate == MonthsAfter(cur.dueDate, j - base + 1)
        && p.group == Some(g)
        && p.status == Scheduled
    {
      TailRow(e, cur, j - base);
    }
  }

  // ---------------------------------------------- updateToSinglePayment success

  function ToSingleDeleted(cur: Payment): seq<Cond> {
    [InGroup(cur), DueAfter(cur.dueDate)]
  }

  /** Rows outside the edited row's group, other than the edited row, are untouched. */
  function Bystander(g: GroupId, id: nat): Payment -> bool {
    (p: Payment) => p.group != Some(g) && p.id != id
  }

  /** The table after the delete of the later rows and the recount, before the edit. */
  function ToSingleRecount(t: Table, cur: Payment): Table
    requires cur.group.Some?
  {
    var t1 := t.Delete(ToSingleDeleted(cur));
    t1.Update([InGroup(cur)], SetInstallments(|t1.Select([InGroup(cur)])| - 1))
  }

  lemma {:induction false} ToSingleUnfold(t: Table, e: Edit, cur: Payment)
    requires cur.group.Some? && cur.kind == Installments
    ensures ToSingleEffect(t, e, cur, {}) == (ToSingleRecount(t, cur).Update([IdIs(e.id)], EditToSingle(e)), Undefined)
  {
  }

  /** The edit turns the edited row into a standalone payment and nothing else. */
  lemma {:induction false} LeavesGroup(x: Payment, e: Edit)
    requires Matches(x, [IdIs(e.id)])
    ensures var y := Apply(x, EditToSingle(e));
      && y.id == e.id && y.group.None? && y.installments.None? && y.installmentNumber.None?
      && y.frequency.None? && y.endDate.None? && y.kind == e.kind.GetOr(OtherKind("")) && y.dueDate == e.dueDate
      && y.routing.pixKey == (if e.routing.pixKey.Some? then e.routing.pixKey else x.routing.pixKey)
  {
    MatchesOne(x, IdIs(e.id));
  }

  /** The delete and the recount only touch the edited row's group. */
  lemma {:induction false} ToSingleRecountFrame(t: Table, cur: Payment, g: GroupId, q: Payment -> bool)
    requires cur.group == Some(g)
    requires forall x :: q(x) ==> x.group != Some(g)
    ensures Filter(ToSingleRecount(t, cur).rows, q) == Filter(t.rows, q)
  {
    var t1 := t.Delete(ToSingleDeleted(cur));
    var n := |t1.Select([InGroup(cur)])|;
    forall x | q(x) ensures !Matches(x, ToSingleDeleted(cur)) {
      assert !Holds(ToSingleDeleted(cur)[0], x);
    }
    DeleteFrame(t, ToSingleDeleted(cur), q);
    forall x | q(x) ensures !Matches(x, [InGroup(cur)]) {
      MatchesOne(x, InGroup(cur));
    }
    UpdateFrame(t1, [InGroup(cur)], SetInstallments(n - 1), q);
  }

  /** The edit only touches the edited row. */
  lemma {:induction false} ToSingleEditFrame(t: Table, e: Edit, q: Payment -> bool)
    requires forall x :: q(x) ==> x.id != e.id
    requires forall x: Payment :: x.id == e.id && x.group.None? ==> !q(x)
    ensures Filter(t.Update([IdIs(e.id)], EditToSingle(e)).rows, q) == Filter(t.rows, q)
  {
    forall x | q(x) ensures !Matches(x, [IdIs(e.id)]) {
      MatchesOne(x, IdIs(e.id));
    }
    forall x | Matches(x, [IdIs(e.id)]) ensures q(Apply(x, EditToSingle(e))) == q(x) {
      LeavesGroup(x, e);
      MatchesOne(x, IdIs(e.id));
    }
    UpdateFrame(t, [IdIs(e.id)], EditToSingle(e), q);
  }

  /** Leaving a series never touches rows of other groups. */
  lemma {:induction false} ToSingleKeepsBystanders(t: Table, e: Edit, cur: Payment, g: GroupId)
    requires cur.group == Some(g) && cur.kind == Installments
    ensures Filter(ToSingleEffect(t, e, cur, {}).0.rows, Bystander(g, e.id)) == Filter(t.rows, Bystander(g, e.id))
  {
    ToSingleUnfold(t, e, cur);
    ToSingleRecountFrame(t, cur, g, Bystander(g, e.id));
    ToSingleEditFrame(ToSingleRecount(t, cur), e, Bystander(g, e.id));
  }

  /** One later row of the series: the delete removes it and the updates cannot bring it back. */
  lemma {:induction false} ToSingleDropsRow(t: Table, e: Edit, cur: Payment, i: nat)
    requires t.Valid() && cur.group.Some? && i < |t.rows|
    requires t.rows[i].group == cur.group && Before(cur.dueDate, t.rows[i].dueDate)
    ensures IdAbsent(ToSingleRecount(t, cur).Update([IdIs(e.id)], EditToSingle(e)), t.rows[i].id)
  {
    var conds := ToSingleDeleted(cur);
    var t1 := t.Delete(conds);
    var n := |t1.Select([InGroup(cur)])|;
    assert Holds(conds[0], t.rows[i]) && Holds(conds[1], t.rows[i]);
    DeleteRemovesId(t, conds, i);
    UpdateKeepsAbsent(t1, [InGroup(cur)], SetInstallments(n - 1), t.rows[i].id);
    UpdateKeepsAbsent(ToSingleRecount(t, cur), [IdIs(e.id)], EditToSingle(e), t.rows[i].id);
  }

  /** The later rows of the series are gone, whatever their status. */
  lemma {:induction false} ToSingleDropsLater(t: Table, e: Edit, cur: Payment, g: GroupId)
    requires t.Valid() && cur.group == Some(g) && cur.kind == Installments
    ensures var u := ToSingleEffect(t, e, cur, {}).0;
      forall i :: 0 <= i < |t.rows| && t.rows[i].group == Some(g) && Before(cur.dueDate, t.rows[i].dueDate)
        ==> IdAbsent(u, t.rows[i].id)
  {
    ToSingleUnfold(t, e, cur);
    forall i | 0 <= i < |t.rows| && t.rows[i].group == Some(g) && Before(cur.dueDate, t.rows[i].dueDate)
      ensures IdAbsent(ToSingleRecount(t, cur).Update([IdIs(e.id)], EditToSingle(e)), t.rows[i].id)
    {
      ToSingleDropsRow(t, e, cur, i);
    }
  }

  /** The edited row survives the delete and the recount, still in its group. */
  lemma {:induction false} ToSingleEditedStays(t: Table, cur: Payment, g: GroupId) returns (k: nat)
    requires cur in t.rows && cur.group == Some(g)
    ensures var t2 := ToSingleRecount(t, cur);
      k < |t2.rows| && t2.rows[k].id == cur.id && t2.rows[k].group == Some(g)
  {
    var t1 := t.Delete(ToSingleDeleted(cur));
    var n := |t1.Select([InGroup(cur)])|;
    assert !Matches(cur, ToSingleDeleted(cur)) by {
      assert !Holds(ToSingleDeleted(cur)[1], cur);
    }
    assert cur in t1.rows;
    k :| 0 <= k < |t1.rows| && t1.rows[k] == cur;
    var row := t1.rows[k];
    assert ToSingleRecount(t, cur).rows[k] == if Matches(row, [InGroup(cur)]) then Apply(row, SetInstallments(n - 1)) else row;
  }

  /** The edit rewrites exactly the rows carrying the edited id. */
  lemma {:induction false} EditToSingleRows(t: Table, e: Edit)
    ensures var u := t.Update([IdIs(e.id)], EditToSingle(e));
      && |u.rows| == |t.rows|
      && (forall i :: 0 <= i < |u.rows| ==> u.rows[i].id == t.rows[i].id)
      && (forall i :: 0 <= i < |u.rows| && t.rows[i].id != e.id ==> u.rows[i] == t.rows[i])
      && (forall i :: 0 <= i < |u.rows| && t.rows[i].id == e.id ==> u.rows[i] == Apply(t.rows[i], EditToSingle(e)))
  {
    forall x: Payment ensures Matches(x, [IdIs(e.id)]) <==> x.id == e.id {
      MatchesOne(x, IdIs(e.id));
    }
  }

  /**
   * The edited row keeps its id and leaves the series: no group, no count,
   * no number, no frequency, no end date, and the requested type and date.
   */
  lemma {:induction false} ToSingleEditedRow(t: Table, e: Edit, cur: Payment, g: GroupId)
    requires cur in t.rows && cur.id == e.id && cur.group == Some(g) && cur.kind == Installments
    ensures var u := ToSingleEffect(t, e, cur, {}).0;
      && (exists i :: 0 <= i < |u.rows| && u.rows[i].id == e.id)
      && forall i :: 0 <= i < |u.rows| && u.rows[i].id == e.id ==>
           && u.rows[i].group.None?
           && u.rows[i].installments.None?
           && u.rows[i].installmentNumber.None?
           && u.rows[i].frequency.None?
           && u.rows[i].endDate.None?
           && u.rows[i].kind == e.kind.GetOr(OtherKind(""))
           && u.rows[i].dueDate == e.dueDate
  {
    var t2 := ToSingleRecount(t, cur);
    ToSingleUnfold(t, e, cur);
    var k := ToSingleEditedStays(t, cur, g);
    var u := t2.Update([IdIs(e.id)], EditToSingle(e));
    EditToSingleRows(t2, e);
    assert u.rows[k].id == e.id;
    forall i | 0 <= i < |u.rows| && u.rows[i].id == e.id
      ensures u.rows[i].group.None? && u.rows[i].installments.None? && u.rows[i].installmentNumber.None?
      ensures u.rows[i].frequency.None? && u.rows[i].endDate.None?
      ensures u.rows[i].kind == e.kind.GetOr(OtherKind("")) && u.rows[i].dueDate == e.dueDate
    {
      MatchesOne(t2.rows[i], IdIs(e.id));
      LeavesGroup(t2.rows[i], e);
    }
  }

  /** The size of the group `updateToSinglePayment` reads back after its delete. */
  function ToSingleSize(t: Table, cur: Payment): int
    requires cur.group.Some?
  {
    |t.Delete(ToSingleDeleted(cur)).Select([InGroup(cur)])|
  }

  /** The delete and the recount keep ids distinct and below the counter. */
  lemma {:induction false} ToSingleRecountValid(t: Table, cur: Payment)
    requires t.Valid() && cur.group.Some?
    ensures ToSingleRecount(t, cur).Valid()
  {
    var t1 := t.Delete(ToSingleDeleted(cur));
    DeleteValid(t, ToSingleDeleted(cur));
    UpdateValid(t1, [InGroup(cur)], SetInstallments(ToSingleSize(t, cur) - 1));
  }

  /** The recount writes the size of the group after the delete, less one, into every row of the group. */
  lemma {:induction false} ToSingleRecountRows(t: Table, cur: Payment, g: GroupId)
    requires cur.group == Some(g)
    ensures var t2 := ToSingleRecount(t, cur);
      && |Filter(t2.rows, InGroupOf(g))| == ToSingleSize(t, cur)
      && forall i :: 0 <= i < |t2.rows| && t2.rows[i].group == Some(g) ==>
           t2.rows[i].installments == Some(ToSingleSize(t, cur) - 1)
  {
    var t1 := t.Delete(ToSingleDeleted(cur));
    var n := ToSingleSize(t, cur);
    var t2 := t1.Update([InGroup(cur)], SetInstallments(n - 1));
    assert t2 == ToSingleRecount(t, cur);
    SelectGroup(t1, g);
    UpdateCount(t1, [InGroup(cur)], SetInstallments(n - 1), InGroupOf(g));
    forall i | 0 <= i < |t2.rows| && t2.rows[i].group == Some(g) ensures t2.rows[i].installments == Some(n - 1) {
      MatchesOne(t1.rows[i], InGroup(cur));
    }
  }

  /** Taking one row of distinct ids out of a group shrinks the group by one. */
  lemma {:induction false} EditShrinksCount(t: Table, e: Edit, g: GroupId, k: nat)
    requires t.Valid() && k < |t.rows| && t.rows[k].id == e.id && t.rows[k].group == Some(g)
    ensures |Filter(t.Update([IdIs(e.id)], EditToSingle(e)).rows, InGroupOf(g))| == |Filter(t.rows, InGroupOf(g))| - 1
  {
    var u := t.Update([IdIs(e.id)], EditToSingle(e));
    var leaving := (p: Payment) => p.id == e.id;
    var staying := (p: Payment) => p.group == Some(g) && p.id != e.id;
    forall i | 0 <= i < |t.rows| && i != k ensures !leaving(t.rows[i]) {
      assert t.rows[i].id != t.rows[k].id;
    }
    FilterDropsOne(t.rows, InGroupOf(g), staying, leaving, k);
    ToSingleEditFrame(t, e, staying);
    EditToSingleRows(t, e);
    forall i | 0 <= i < |u.rows| ensures InGroupOf(g)(u.rows[i]) == staying(u.rows[i]) {
      if t.rows[i].id == e.id {
        LeavesGroup(t.rows[i], e);
      }
    }
    FilterCongruent(u.rows, InGroupOf(g), staying);
  }

  /** The edit leaves every row still in the group as it was. */
  lemma {:induction false} EditKeepsGroupRows(t: Table, e: Edit, g: GroupId)
    ensures var u := t.Update([IdIs(e.id)], EditToSingle(e));
      forall i :: 0 <= i < |u.rows| && u.rows[i].group == Some(g) ==> u.rows[i] == t.rows[i]
  {
    var u := t.Update([IdIs(e.id)], EditToSingle(e));
    EditToSingleRows(t, e);
    forall i | 0 <= i < |u.rows| && u.rows[i].group == Some(g) ensures u.rows[i] == t.rows[i] {
      if t.rows[i].id == e.id {
        MatchesOne(t.rows[i], IdIs(e.id));
        LeavesGroup(t.rows[i], e);
      }
    }
  }

  /** Taking one row of distinct ids out of a group shrinks the group by one and leaves its other rows alone. */
  lemma {:induction false} EditShrinksGroup(t: Table, e: Edit, g: GroupId, k: nat)
    requires t.Valid() && k < |t.rows| && t.rows[k].id == e.id && t.rows[k].group == Some(g)
    ensures var u := t.Update([IdIs(e.id)], EditToSingle(e));
      && |Filter(u.rows, InGroupOf(g))| == |Filter(t.rows, InGroupOf(g))| - 1
      && forall i :: 0 <= i < |u.rows| && u.rows[i].group == Some(g) ==> u.rows[i] == t.rows[i]
  {
    EditShrinksCount(t, e, g, k);
    EditKeepsGroupRows(t, e, g);
  }

  /** Every row left in the group after the edit carries the group's size. */
  lemma {:induction false} ToSingleRecountedSteps(t: Table, e: Edit, cur: Payment, g: GroupId)
    requires t.Valid() && cur in t.rows && cur.id == e.id && cur.group == Some(g)
    ensures var u := ToSingleRecount(t, cur).Update([IdIs(e.id)], EditToSingle(e));
      forall i :: 0 <= i < |u.rows| && u.rows[i].group == Some(g) ==>
        u.rows[i].installments == Some(|Filter(u.rows, InGroupOf(g))|)
  {
    ToSingleRecountValid(t, cur);
    ToSingleRecountRows(t, cur, g);
    var t2 := ToSingleRecount(t, cur);
    var k := ToSingleEditedStays(t, cur, g);
    EditShrinksGroup(t2, e, g, k);
  }

  /**
   * After leaving an installment plan every row still in the group records
   * how many rows the group now has: the survivors minus the edited row.
   */
  lemma {:induction false} ToSingleRecounted(t: Table, e: Edit, cur: Payment, g: GroupId)
    requires t.Valid() && cur in t.rows && cur.id == e.id && cur.group == Some(g) && cur.kind == Installments
    ensures var u := ToSingleEffect(t, e, cur, {}).0;
      forall i :: 0 <= i < |u.rows| && u.rows[i].group == Some(g) ==>
        u.rows[i].installments == Some(|Filter(u.rows, InGroupOf(g))|)
  {
    ToSingleUnfold(t, e, cur);
    ToSingleRecountedSteps(t, e, cur, g);
  }

  // ------------------------------------------------------ updateRecurrency success

  function RecurringDeleted(cur: Payment): seq<Cond> {
    [InGroup(cur), DueFrom(cur.dueDate)]
  }

  /** A fault-free delete-then-insert leaves the rows neither step concerns where they were. */
  lemma {:induction false} DeleteThenInsertFrame(t: Table, conds: seq<Cond>, rows: seq<Payment>, q: Payment -> bool)
    requires forall x :: q(x) ==> !Matches(x, conds)
    requires forall i :: 0 <= i < |rows| ==> !q(rows[i].(id := t.nextId + i))
    ensures Filter(DeleteThenInsert(t, conds, rows, {}).0.rows, q) == Filter(t.rows, q)
  {
    DeleteFrame(t, conds, q);
    InsertAfterDeleteFrame(t, conds, rows, q);
  }

  /** The insert after the delete adds nothing `q` accepts. */
  lemma {:induction false} InsertAfterDeleteFrame(t: Table, conds: seq<Cond>, rows: seq<Payment>, q: Payment -> bool)
    requires forall i :: 0 <= i < |rows| ==> !q(rows[i].(id := t.nextId + i))
    ensures Filter(DeleteThenInsert(t, conds, rows, {}).0.rows, q) == Filter(t.Delete(conds).rows, q)
  {
    InsertFrame(t.Delete(conds), rows, q);
  }

  /** A fault-free delete-then-insert ends with the inserted rows, numbered from the counter. */
  lemma {:induction false} DeleteThenInsertAppends(t: Table, conds: seq<Cond>, rows: seq<Payment>)
    ensures EndsWithNumbered(DeleteThenInsert(t, conds, rows, {}).0, t.nextId, rows)
  {
    InsertEnds(t.Delete(conds), rows);
  }

  /** A fault-free delete-then-insert removes every row the delete matched. */
  lemma {:induction false} DeleteThenInsertDrops(t: Table, conds: seq<Cond>, rows: seq<Payment>, i: nat)
    requires t.Valid() && i < |t.rows| && Matches(t.rows[i], conds)
    ensures IdAbsent(DeleteThenInsert(t, conds, rows, {}).0, t.rows[i].id)
  {
    DeleteRemovesId(t, conds, i);
    InsertKeepsAbsent(t.Delete(conds), rows, t.rows[i].id);
  }

  /** Editing a recurring series never touches rows of other groups. */
  lemma {:induction false} RecurringKeepsOtherGroups(t: Table, e: Edit, cur: Payment, g: GroupId)
    requires cur.group == Some(g) && SeriesEnds(e.dueDate, e.endDate, e.frequency)
    ensures Filter(RecurringEffect(t, e, cur, {}).0.rows, OutsideGroup(g)) == Filter(t.rows, OutsideGroup(g))
  {
    var rows := SameGroupRecurring(e, cur);
    OutsideMissesGroup(g, RecurringDeleted(cur));
    DeleteThenInsertFrame(t, RecurringDeleted(cur), rows, OutsideGroup(g));
  }

  /** Every row of the series from the edited one on is gone, whatever its status. */
  lemma {:induction false} RecurringDropsFromEdited(t: Table, e: Edit, cur: Payment, g: GroupId)
    requires t.Valid() && cur.group == Some(g) && SeriesEnds(e.dueDate, e.endDate, e.frequency)
    ensures var u := RecurringEffect(t, e, cur, {}).0;
      forall i :: 0 <= i < |t.rows| && t.rows[i].group == Some(g) && NotAfter(cur.dueDate, t.rows[i].dueDate)
        ==> IdAbsent(u, t.rows[i].id)
  {
    var conds := RecurringDeleted(cur);
    forall i | 0 <= i < |t.rows| && t.rows[i].group == Some(g) && NotAfter(cur.dueDate, t.rows[i].dueDate)
      ensures IdAbsent(RecurringEffect(t, e, cur, {}).0, t.rows[i].id)
    {
      assert Holds(conds[0], t.rows[i]) && Holds(conds[1], t.rows[i]);
      DeleteThenInsertDrops(t, conds, SameGroupRecurring(e, cur), i);
    }
  }

  /**
   * The regenerated series follows the surviving rows: one SCHEDULED row of
   * the same group for each date of the series from the new due date to the
   * end date, and none at all without an end date.
   */
  lemma {:induction false} RecurringRegenerated(t: Table, e: Edit, cur: Payment, g: GroupId)
    requires cur.group == Some(g) && SeriesEnds(e.dueDate, e.endDate, e.frequency)
    ensures EndsWithEditedSeries(RecurringEffect(t, e, cur, {}).0, t.nextId, e, g)
  {
    DeleteThenInsertAppends(t, RecurringDeleted(cur), SameGroupRecurring(e, cur));
    EditedSeriesRows(RecurringEffect(t, e, cur, {}).0, t.nextId, e, cur, g);
  }

  /**
   * The table ends with one SCHEDULED recurring row of group `g` for each
   * date of the edited series, from the new due date to the end date, with
   * ids from `first` on; there are none without an end date.
   */
  ghost predicate EndsWithEditedSeries(u: Table, first: nat, e: Edit, g: GroupId)
    requires SeriesEnds(e.dueDate, e.endDate, e.frequency)
  {
    var dates := if e.endDate.Some? then RecurringDates(e.dueDate, e.endDate.value, e.frequency) else [];
    var base := |u.rows| - |dates|;
    && base >= 0
    && forall j :: base <= j < |u.rows| ==>
         var p := u.rows[j];
         && p.id == first + (j - base)
         && p.dueDate == dates[j - base]
         && p.group == Some(g)
         && p.kind == Recurring
         && p.status == Scheduled
         && p.frequency == e.frequency
  }

  /** A table ending with the edited series as inserted ends with the series `EndsWithEditedSeries` describes. */
  lemma {:induction false} EditedSeriesRows(u: Table, first: nat, e: Edit, cur: Payment, g: GroupId)
    requires cur.group == Some(g) && SeriesEnds(e.dueDate, e.endDate, e.frequency)
    requires EndsWithNumbered(u, first, SameGroupRecurring(e, cur))
    ensures EndsWithEditedSeries(u, first, e, g)
  {
    var rows := SameGroupRecurring(e, cur);
    var dates := if e.endDate.Some? then RecurringDates(e.dueDate, e.endDate.value, e.frequency) else [];
    assert |rows| == |dates|;
  }

  // -------------------------------------- updateInstallmentsToRecurrency success

  /** The tables of a fault-free `updateInstallmentsToRecurrency`, before the recount. */
  function ToRecurringInserted(t: Table, e: Edit, cur: Payment, today: Date, newGroup: GroupId): Table
    requires SeriesEnds(today, LastDay(e), e.frequency)
  {
    t.Delete(InstallmentsDeleted(cur)).Insert(FromToday(e, cur, today, newGroup))
  }

  function ToRecurringRecount(cur: Payment): seq<Cond> {
    [InGroup(cur), KindIs(Installments)]
  }

  lemma {:induction false} ToRecurringUnfold(t: Table, e: Edit, cur: Payment, today: Date, newGroup: GroupId)
    requires SeriesEnds(today, LastDay(e), e.frequency)
    ensures var t2 := ToRecurringInserted(t, e, cur, today, newGroup);
      InstallmentsToRecurringEffect(t, e, cur, today, newGroup, {})
        == (t2.Update(ToRecurringRecount(cur), SetInstallments(|t2.Select([InGroup(cur)])|)), Returned(200))
  {
  }

  /** Every row of the new series is in the new group, of the recurring type, with the old routing. */
  lemma {:induction false} FromTodayRows(e: Edit, cur: Payment, today: Date, newGroup: GroupId)
    requires SeriesEnds(today, LastDay(e), e.frequency)
    ensures forall k :: 0 <= k < |FromToday(e, cur, today, newGroup)| ==>
      var p := FromToday(e, cur, today, newGroup)[k];
      p.group == Some(newGroup) && p.kind == Recurring && p.routing == cur.routing
        && p.createdBy == cur.createdBy && p.createdByText.None?
  {
  }

  /** With an end date the new series is dated by the recurring dates up to the day before the end. */
  lemma {:induction false} FromTodayDates(e: Edit, cur: Payment, today: Date, newGroup: GroupId)
    requires SeriesEnds(today, LastDay(e), e.frequency) && e.endDate.Some?
    ensures var dates := RecurringDates(today, PrevDay(e.endDate.value), e.frequency);
      && |FromToday(e, cur, today, newGroup)| == |dates|
      && forall k :: 0 <= k < |dates| ==>
           FromToday(e, cur, today, newGroup)[k].dueDate == dates[k] && Before(dates[k], e.endDate.value)
  {
    assert Before(PrevDay(e.endDate.value), e.endDate.value);
  }

  /**
   * Leaving an installment plan for a recurring series keeps every row
   * outside the plan's group in order and appends the new series, provided
   * the new group differs from the old.
   */
  lemma {:induction false} ToRecurringKeepsOthers(t: Table, e: Edit, cur: Payment, today: Date, newGroup: GroupId, g: GroupId)
    requires cur.group == Some(g) && newGroup != g && SeriesEnds(today, LastDay(e), e.frequency)
    ensures Filter(InstallmentsToRecurringEffect(t, e, cur, today, newGroup, {}).0.rows, OutsideGroup(g))
      == Filter(t.rows, OutsideGroup(g)) + Numbered(FromToday(e, cur, today, newGroup), t.nextId)
  {
    var t2 := ToRecurringInserted(t, e, cur, today, newGroup);
    ToRecurringUnfold(t, e, cur, today, newGroup);
    ToRecurringInsertedOutside(t, e, cur, today, newGroup, g);
    RecountKeepsOutside(t2, g, ToRecurringRecount(cur), |t2.Select([InGroup(cur)])|);
  }

  /** The delete keeps the rows outside the old group and the insert appends the new series after them. */
  lemma {:induction false} ToRecurringInsertedOutside(t: Table, e: Edit, cur: Payment, today: Date, newGroup: GroupId, g: GroupId)
    requires cur.group == Some(g) && newGroup != g && SeriesEnds(today, LastDay(e), e.frequency)
    ensures Filter(ToRecurringInserted(t, e, cur, today, newGroup).rows, OutsideGroup(g))
      == Filter(t.rows, OutsideGroup(g)) + Numbered(FromToday(e, cur, today, newGroup), t.nextId)
  {
    var q := OutsideGroup(g);
    var t1 := t.Delete(InstallmentsDeleted(cur));
    var rows := FromToday(e, cur, today, newGroup);
    OutsideMissesGroup(g, InstallmentsDeleted(cur));
    DeleteFrame(t, InstallmentsDeleted(cur), q);
    FromTodayRows(e, cur, today, newGroup);
    forall i | 0 <= i < |rows| ensures q(rows[i].(id := t1.nextId + i)) {
      assert rows[i].group == Some(newGroup);
    }
    InsertKeepsAll(t1, rows, q);
  }

  /** The table a fault-free `updateInstallmentsToRecurrency` leaves. */
  function ToRecurringResult(t: Table, e: Edit, cur: Payment, today: Date, newGroup: GroupId): Table
    requires SeriesEnds(today, LastDay(e), e.frequency)
  {
    var t2 := ToRecurringInserted(t, e, cur, today, newGroup);
    t2.Update(ToRecurringRecount(cur), SetInstallments(|t2.Select([InGroup(cur)])|))
  }

  /** One installment of the plan from the edited one on: deleted, and nothing brings its id back. */
  lemma {:induction false} ToRecurringDropsRow(t: Table, e: Edit, cur: Payment, today: Date, newGroup: GroupId, i: nat)
    requires t.Valid() && cur.group.Some? && SeriesEnds(today, LastDay(e), e.frequency) && i < |t.rows|
    requires t.rows[i].group == cur.group && t.rows[i].kind == Installments && NotAfter(cur.dueDate, t.rows[i].dueDate)
    ensures IdAbsent(ToRecurringResult(t, e, cur, today, newGroup), t.rows[i].id)
  {
    var conds := InstallmentsDeleted(cur);
    var t1 := t.Delete(conds);
    var t2 := ToRecurringInserted(t, e, cur, today, newGroup);
    var n := |t2.Select([InGroup(cur)])|;
    assert Holds(conds[0], t.rows[i]) && Holds(conds[1], t.rows[i]) && Holds(conds[2], t.rows[i]);
    DeleteRemovesId(t, conds, i);
    InsertKeepsAbsent(t1, FromToday(e, cur, today, newGroup), t.rows[i].id);
    UpdateKeepsAbsent(t2, ToRecurringRecount(cur), SetInstallments(n), t.rows[i].id);
  }

  /** The plan's installments from the edited one on are gone, whatever their status. */
  lemma {:induction false} ToRecurringDropsFromEdited(t: Table, e: Edit, cur: Payment, today: Date, newGroup: GroupId, g: GroupId)
    requires t.Valid() && cur.group == Some(g) && SeriesEnds(today, LastDay(e), e.frequency)
    ensures var u := InstallmentsToRecurringEffect(t, e, cur, today, newGroup, {}).0;
      forall i :: 0 <= i < |t.rows|
        && t.rows[i].group == Some(g) && t.rows[i].kind == Installments && NotAfter(cur.dueDate, t.rows[i].dueDate)
        ==> IdAbsent(u, t.rows[i].id)
  {
    ToRecurringUnfold(t, e, cur, today, newGroup);
    forall i | 0 <= i < |t.rows|
        && t.rows[i].group == Some(g) && t.rows[i].kind == Installments && NotAfter(cur.dueDate, t.rows[i].dueDate)
      ensures IdAbsent(ToRecurringResult(t, e, cur, today, newGroup), t.rows[i].id)
    {
      ToRecurringDropsRow(t, e, cur, today, newGroup, i);
    }
  }

  /**
   * The installments left in the old group record the size of that group;
   * rows of other types left in it are not recounted.
   */
  lemma {:induction false} ToRecurringRecounted(t: Table, e: Edit, cur: Payment, today: Date, newGroup: GroupId, g: GroupId)
    requires cur.group == Some(g) && SeriesEnds(today, LastDay(e), e.frequency)
    ensures var u := InstallmentsToRecurringEffect(t, e, cur, today, newGroup, {}).0;
      forall i :: 0 <= i < |u.rows| && u.rows[i].group == Some(g) && u.rows[i].kind == Installments ==>
        u.rows[i].installments == Some(|Filter(u.rows, InGroupOf(g))|)
  {
    ToRecurringUnfold(t, e, cur, today, newGroup);
    RecountedInstallmentRows(ToRecurringInserted(t, e, cur, today, newGroup), cur, g);
  }

  /** A recount of the group's installments by the group's size leaves each of them recording that size. */
  lemma {:induction false} RecountedInstallmentRows(t2: Table, cur: Payment, g: GroupId)
    requires cur.group == Some(g)
    ensures var u := t2.Update(ToRecurringRecount(cur), SetInstallments(|t2.Select([InGroup(cur)])|));
      forall i :: 0 <= i < |u.rows| && u.rows[i].group == Some(g) && u.rows[i].kind == Installments ==>
        u.rows[i].installments == Some(|Filter(u.rows, InGroupOf(g))|)
  {
    var n := |t2.Select([InGroup(cur)])|;
    var u := t2.Update(ToRecurringRecount(cur), SetInstallments(n));
    SelectGroup(t2, g);
    UpdateCount(t2, ToRecurringRecount(cur), SetInstallments(n), InGroupOf(g));
    forall i | 0 <= i < |u.rows| && u.rows[i].group == Some(g) && u.rows[i].kind == Installments
      ensures u.rows[i].installments == Some(n)
    {
      var x := t2.rows[i];
      assert Holds(ToRecurringRecount(cur)[0], x) && Holds(ToRecurringRecount(cur)[1], x);
    }
  }

  /** An update that matches none of the rows just inserted leaves them at the end of the table. */
  lemma {:induction false} InsertUntouched(t: Table, rows: seq<Payment>, conds: seq<Cond>, patch: Patch)
    requires forall k :: 0 <= k < |rows| ==> !Matches(rows[k].(id := t.nextId + k), conds)
    ensures EndsWithNumbered(t.Insert(rows).Update(conds, patch), t.nextId, rows)
  {
    var ins := t.Insert(rows);
    var u := ins.Update(conds, patch);
    forall j | |t.rows| <= j < |u.rows| ensures u.rows[j] == rows[j - |t.rows|].(id := t.nextId + j - |t.rows|) {
      var k := j - |t.rows|;
      assert ins.rows[j] == rows[k].(id := t.nextId + k);
      assert !Matches(ins.rows[j], conds);
    }
  }

  /** A recount of the old group does not reach rows inserted under another group. */
  lemma {:induction false} RecountSkipsInserted(t1: Table, rows: seq<Payment>, cur: Payment, g: GroupId, n: int)
    requires cur.group == Some(g)
    requires forall k :: 0 <= k < |rows| ==> rows[k].group != Some(g)
    ensures EndsWithNumbered(t1.Insert(rows).Update(ToRecurringRecount(cur), SetInstallments(n)), t1.nextId, rows)
  {
    OutsideMissesGroup(g, ToRecurringRecount(cur));
    forall k | 0 <= k < |rows| ensures !Matches(rows[k].(id := t1.nextId + k), ToRecurringRecount(cur)) {
      assert OutsideGroup(g)(rows[k].(id := t1.nextId + k));
    }
    InsertUntouched(t1, rows, ToRecurringRecount(cur), SetInstallments(n));
  }

  /** The recount does not reach the new series: it ends the table as inserted. */
  lemma {:induction false} ToRecurringAppends(t: Table, e: Edit, cur: Payment, today: Date, newGroup: GroupId, g: GroupId)
    requires cur.group == Some(g) && newGroup != g && SeriesEnds(today, LastDay(e), e.frequency)
    ensures EndsWithNumbered(ToRecurringResult(t, e, cur, today, newGroup), t.nextId, FromToday(e, cur, today, newGroup))
  {
    var t1 := t.Delete(InstallmentsDeleted(cur));
    var rows := FromToday(e, cur, today, newGroup);
    var t2 := t1.Insert(rows);
    assert t2 == ToRecurringInserted(t, e, cur, today, newGroup);
    FromTodayRows(e, cur, today, newGroup);
    RecountSkipsInserted(t1, rows, cur, g, |t2.Select([InGroup(cur)])|);
  }

  /**
   * The new series starts today, in the new group, takes the old row's
   * routing, and stops strictly before the end date; none without an end date.
   */
  lemma {:induction false} ToRecurringNewSeries(t: Table, e: Edit, cur: Payment, today: Date, newGroup: GroupId, g: GroupId)
    requires cur.group == Some(g) && newGroup != g && SeriesEnds(today, LastDay(e), e.frequency)
    ensures EndsWithNewSeries(InstallmentsToRecurringEffect(t, e, cur, today, newGroup, {}).0, t.nextId, e, cur, today, newGroup)
  {
    ToRecurringUnfold(t, e, cur, today, newGroup);
    ToRecurringAppends(t, e, cur, today, newGroup, g);
    NewSeriesRows(ToRecurringResult(t, e, cur, today, newGroup), t.nextId, e, cur, today, newGroup);
  }

  /**
   * The table ends with one recurring row of the new group for each date of
   * the series from `today` to the day before the end date, each strictly
   * before the end date and with the old row's routing, ids from `first` on;
   * there are none without an end date.
   */
  ghost predicate EndsWithNewSeries(u: Table, first: nat, e: Edit, cur: Payment, today: Date, newGroup: GroupId)
    requires SeriesEnds(today, LastDay(e), e.frequency)
  {
    var dates := if e.endDate.Some? then RecurringDates(today, PrevDay(e.endDate.value), e.frequency) else [];
    var base := |u.rows| - |dates|;
    && base >= 0
    && forall j :: base <= j < |u.rows| ==>
         var p := u.rows[j];
         && p.id == first + (j - base)
         && p.dueDate == dates[j - base]
         && Before(p.dueDate, e.endDate.value)
         && p.group == Some(newGroup)
         && p.kind == Recurring
         && p.routing == cur.routing
  }

  /** A table ending with the series from today as inserted ends with the series `EndsWithNewSeries` describes. */
  lemma {:induction false} NewSeriesRows(u: Table, first: nat, e: Edit, cur: Payment, today: Date, newGroup: GroupId)
    requires SeriesEnds(today, LastDay(e), e.frequency)
    requires EndsWithNumbered(u, first, FromToday(e, cur, today, newGroup))
    ensures EndsWithNewSeries(u, first, e, cur, today, newGroup)
  {
    FromTodayRows(e, cur, today, newGroup);
    if e.endDate.Some? {
      FromTodayDates(e, cur, today, newGroup);
    }
  }
}
