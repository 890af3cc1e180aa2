/**
 * The payment status promoter: every scheduled payment that has fallen due
 * becomes pending. Its inverse, which sends pending payments not yet due
 * back to scheduled, is defined beside it but never scheduled.
 *
 * `due_date` is a date column (the controllers write and compare it as
 * `YYYY-MM-DD` only), so the timestamp `new Date().toISOString()` both
 * sweeps compare it with is read as today's date.
 */
module PaymentCron {
  import opened Wrappers
  import opened Seqs
  import opened Dates
  import opened Payments

  function IdOf(): Payment -> nat {
    (p: Payment) => p.id
  }

  /** `.eq("status", "SCHEDULED").lte("due_date", now)`: due today or earlier. */
  function DueScheduled(today: Date): seq<Cond> {
    [StatusIs(Scheduled), DueUpTo(today)]
  }

  /** `.eq("status", "PENDING").gte("due_date", now)`: due today or later. */
  function PendingFromToday(today: Date): seq<Cond> {
    [StatusIs(Pending), DueFrom(today)]
  }

  /** The inverse's evidently intended selection: pending and due strictly after today. */
  function PendingAhead(today: Date): seq<Cond> {
    [StatusIs(Pending), DueAfter(today)]
  }

  /**
   * Select, then `update({status}).in("id", ids)`: a failed select or
   * update, or an empty selection, writes nothing.
   */
  function RestatusEffect(t: Table, conds: seq<Cond>, target: Status, selectFails: bool, updateFails: bool): Table {
    if selectFails then t
    else
      var ids := Map(t.Select(conds), IdOf());
      if |ids| == 0 || updateFails then t else t.Update([IdIn(ids)], SetStatus(target))
  }

  /** `updatePendingPayments`. */
  function PromoteEffect(t: Table, today: Date, selectFails: bool, updateFails: bool): Table {
    RestatusEffect(t, DueScheduled(today), Pending, selectFails, updateFails)
  }

  /** `updateScheduledPayments`, as written. */
  function DemoteEffect(t: Table, today: Date, selectFails: bool, updateFails: bool): Table {
    RestatusEffect(t, PendingFromToday(today), Scheduled, selectFails, updateFails)
  }

  /** `updateScheduledPayments` with `gt` for `gte`. */
  function DemoteCorrectedEffect(t: Table, today: Date, selectFails: bool, updateFails: bool): Table {
    RestatusEffect(t, PendingAhead(today), Scheduled, selectFails, updateFails)
  }

  predicate IsDueScheduled(p: Payment, today: Date) {
    p.status == Scheduled && NotAfter(p.dueDate, today)
  }

  predicate IsPendingFromToday(p: Payment, today: Date) {
    p.status == Pending && NotAfter(today, p.dueDate)
  }

  predicate IsPendingAhead(p: Payment, today: Date) {
    p.status == Pending && Before(today, p.dueDate)
  }

  lemma {:induction false} MatchesTwo(p: Payment, a: Cond, b: Cond)
    ensures Matches(p, [a, b]) <==> Holds(a, p) && Holds(b, p)
  {
    if Holds(a, p) && Holds(b, p) {
      forall i | 0 <= i < 2 ensures Holds([a, b][i], p) {
      }
    }
    if Matches(p, [a, b]) {
      assert Holds([a, b][0], p) && Holds([a, b][1], p);
    }
  }

  /** With distinct ids, a row's id is among the selected ids exactly when the row itself is selected. */
  lemma {:induction false} SelectedIds(t: Table, conds: seq<Cond>, i: nat)
    requires t.Valid() && i < |t.rows|
    ensures t.rows[i].id in Map(t.Select(conds), IdOf()) <==> Matches(t.rows[i], conds)
  {
    var sel := t.Select(conds);
    var ids := Map(sel, IdOf());
    if Matches(t.rows[i], conds) {
      var k :| 0 <= k < |sel| && sel[k] == t.rows[i];
      assert ids[k] == t.rows[i].id;
    }
    if t.rows[i].id in ids {
      var k :| 0 <= k < |ids| && ids[k] == t.rows[i].id;
      var j :| 0 <= j < |t.rows| && t.rows[j] == sel[k];
      assert t.rows[j].id == t.rows[i].id;
    }
  }

  /** Without failure, a row takes the new status exactly when it is selected; nothing else about it changes. */
  lemma {:induction false} RestatusRow(t: Table, conds: seq<Cond>, target: Status, i: nat)
    requires t.Valid() && i < |t.rows|
    ensures var u := RestatusEffect(t, conds, target, false, false);
      && |u.rows| == |t.rows| && u.nextId == t.nextId
      && u.rows[i] == if Matches(t.rows[i], conds) then t.rows[i].(status := target) else t.rows[i]
  {
    var ids := Map(t.Select(conds), IdOf());
    SelectedIds(t, conds, i);
    if |ids| > 0 {
      RestatusSelected(t, ids, target, i, Matches(t.rows[i], conds));
    }
  }

  /** The update by a list of ids gives row `i` the new status exactly when its id is listed. */
  lemma {:induction false} RestatusSelected(t: Table, ids: seq<nat>, target: Status, i: nat, selected: bool)
    requires i < |t.rows| && (t.rows[i].id in ids <==> selected)
    ensures var u := t.Update([IdIn(ids)], SetStatus(target));
      u.rows[i] == if selected then t.rows[i].(status := target) else t.rows[i]
  {
    MatchesOne(t.rows[i], IdIn(ids));
  }

  /** A status sweep keeps the number of rows and the id counter. */
  lemma {:induction false} RestatusShape(t: Table, conds: seq<Cond>, target: Status, selectFails: bool, updateFails: bool)
    ensures |RestatusEffect(t, conds, target, selectFails, updateFails).rows| == |t.rows|
    ensures RestatusEffect(t, conds, target, selectFails, updateFails).nextId == t.nextId
  {
  }

  /**
   * A sweep selecting one status and one due-date filter gives exactly the
   * rows passing both the new status; every other row, and every other
   * column, stays as it was.
   */
  lemma {:induction false} SweepExact(t: Table, from: Status, due: Cond, target: Status)
    requires t.Valid()
    ensures var u := RestatusEffect(t, [StatusIs(from), due], target, false, false);
      && |u.rows| == |t.rows| && u.nextId == t.nextId
      && forall i :: 0 <= i < |t.rows| ==>
           u.rows[i] == if t.rows[i].status == from && Holds(due, t.rows[i]) then t.rows[i].(status := target) else t.rows[i]
  {
    var conds := [StatusIs(from), due];
    RestatusShape(t, conds, target, false, false);
    forall i | 0 <= i < |t.rows|
      ensures RestatusEffect(t, conds, target, false, false).rows[i] ==
        if t.rows[i].status == from && Holds(due, t.rows[i]) then t.rows[i].(status := target) else t.rows[i]
    {
      RestatusRow(t, conds, target, i);
      MatchesTwo(t.rows[i], StatusIs(from), due);
    }
  }

  /**
   * `updatePendingPayments` turns exactly the scheduled payments due today
   * or earlier into pending ones; every other row, and every other column,
   * stays as it was.
   */
  lemma {:induction false} PromoteExact(t: Table, today: Date)
    requires t.Valid()
    ensures |PromoteEffect(t, today, false, false).rows| == |t.rows|
    ensures PromoteEffect(t, today, false, false).nextId == t.nextId
    ensures forall i :: 0 <= i < |t.rows| ==>
      PromoteEffect(t, today, false, false).rows[i] ==
        if IsDueScheduled(t.rows[i], today) then t.rows[i].(status := Pending) else t.rows[i]
  {
    SweepExact(t, Scheduled, DueUpTo(today), Pending);
  }

  /** `updateScheduledPayments` as written turns exactly the pending payments due today or later back into scheduled ones. */
  lemma {:induction false} DemoteExact(t: Table, today: Date)
    requires t.Valid()
    ensures |DemoteEffect(t, today, false, false).rows| == |t.rows|
    ensures DemoteEffect(t, today, false, false).nextId == t.nextId
    ensures forall i :: 0 <= i < |t.rows| ==>
      DemoteEffect(t, today, false, false).rows[i] ==
        if IsPendingFromToday(t.rows[i], today) then t.rows[i].(status := Scheduled) else t.rows[i]
  {
    SweepExact(t, Pending, DueFrom(today), Scheduled);
  }

  /** The corrected inverse turns exactly the pending payments due after today back into scheduled ones. */
  lemma {:induction false} DemoteCorrectedExact(t: Table, today: Date)
    requires t.Valid()
    ensures |DemoteCorrectedEffect(t, today, false, false).rows| == |t.rows|
    ensures DemoteCorrectedEffect(t, today, false, false).nextId == t.nextId
    ensures forall i :: 0 <= i < |t.rows| ==>
      DemoteCorrectedEffect(t, today, false, false).rows[i] ==
        if IsPendingAhead(t.rows[i], today) then t.rows[i].(status := Scheduled) else t.rows[i]
  {
    SweepExact(t, Pending, DueAfter(today), Scheduled);
  }

  /** With nothing selected, nothing is written. */
  lemma {:induction false} RestatusNothingSelected(t: Table, conds: seq<Cond>, target: Status, selectFails: bool, updateFails: bool)
    requires forall i :: 0 <= i < |t.rows| ==> !Matches(t.rows[i], conds)
    ensures RestatusEffect(t, conds, target, selectFails, updateFails) == t
  {
  }

  /** Promoting twice is promoting once: promoted rows are no longer scheduled. */
  lemma {:induction false} PromoteIdempotent(t: Table, today: Date)
    requires t.Valid()
    ensures PromoteEffect(PromoteEffect(t, today, false, false), today, false, false) == PromoteEffect(t, today, false, false)
  {
    var u := PromoteEffect(t, today, false, false);
    PromoteExact(t, today);
    forall i | 0 <= i < |u.rows| ensures !Matches(u.rows[i], DueScheduled(today)) {
      MatchesTwo(u.rows[i], StatusIs(Scheduled), DueUpTo(today));
    }
    RestatusNothingSelected(u, DueScheduled(today), Pending, false, false);
  }

  /** A promotion keeps the ids distinct, so the table after it can be swept again. */
  lemma {:induction false} PromoteValid(t: Table, today: Date)
    requires t.Valid()
    ensures PromoteEffect(t, today, false, false).Valid()
  {
    UpdateValid(t, [IdIn(Map(t.Select(DueScheduled(today)), IdOf()))], SetStatus(Pending));
  }

  /**
   * As written the two sweeps overlap on the current day: a scheduled
   * payment due today is promoted, and the inverse sends it straight back,
   * leaving the row as it was.
   */
  lemma {:induction false} DemoteUndoesPromotion(t: Table, today: Date, i: nat)
    requires t.Valid() && i < |t.rows| && t.rows[i].status == Scheduled && t.rows[i].dueDate == today
    ensures PromoteEffect(t, today, false, false).rows[i].status == Pending
    ensures DemoteEffect(PromoteEffect(t, today, false, false), today, false, false).rows[i] == t.rows[i]
  {
    PromoteExact(t, today);
    PromoteValid(t, today);
    DemoteExact(PromoteEffect(t, today, false, false), today);
  }

  /** The promoter and the corrected inverse select disjoint rows, so the inverse never undoes a promotion. */
  lemma {:induction false} DemoteSparesPromoted(t: Table, today: Date, i: nat)
    requires t.Valid() && i < |t.rows| && IsDueScheduled(t.rows[i], today)
    ensures var u := PromoteEffect(t, today, false, false);
      u.Valid() && DemoteCorrectedEffect(u, today, false, false).rows[i] == t.rows[i].(status := Pending)
  {
    PromoteExact(t, today);
    PromoteValid(t, today);
    DemoteCorrectedExact(PromoteEffect(t, today, false, false), today);
  }

  /** The cron job over the store. */
  method UpdatePendingPayments(store: PaymentStore, today: Date, selectFails: bool, updateFails: bool)
    modifies store
    ensures store.State() == PromoteEffect(old(store.State()), today, selectFails, updateFails)
  {
    var selected := store.Select(DueScheduled(today), selectFails);
    if selected.None? {
      return;
    }
    var ids := Map(selected.value, IdOf());
    if |ids| > 0 {
      var _ := store.Update([IdIn(ids)], SetStatus(Pending), updateFails);
    }
  }

  /** The inverse as written, over the store. */
  method UpdateScheduledPayments(store: PaymentStore, today: Date, selectFails: bool, updateFails: bool)
    modifies store
    ensures store.State() == DemoteEffect(old(store.State()), today, selectFails, updateFails)
  {
    var selected := store.Select(PendingFromToday(today), selectFails);
    if selected.None? {
      return;
    }
    var ids := Map(selected.value, IdOf());
    if |ids| > 0 {
      var _ := store.Update([IdIn(ids)], SetStatus(Scheduled), updateFails);
    }
  }
}
