/**
 * The receivable handlers: a sale is turned into receivables by its payment
 * method (received at once, in N monthly installments, or at 30/60/90
 * days), net of the method's fees; approval requests are turned into
 * receivables the same way; a receivable can be reversed or canceled along
 * with its statement line.
 */
module ReceivableController {
  import opened Wrappers
  import opened Text
  import opened Dates
  import opened DateText
  import opened Statements
  import opened Receivables

  /** The receivable fields of a request body or of a stored approval request. */
  datatype RecData = RecData(
    id: Option<nat>,
    orderNumber: Option<string>,
    customerName: Option<string>,
    customerDocument: Option<string>,
    notes: Option<string>,
    value: real,
    paymentMethodId: Option<nat>,
    bankAccountId: string,
    cnpjId: Option<string>,
    categoryId: Option<string>,
    competence: Option<string>,
    paymentDate: string)

  datatype ReqStatus = ReqPending | ReqApproved | ReqRejected

  /** A row of `receivable_approval_requests`. */
  datatype ApprovalRequest = ApprovalRequest(rec: RecData, status: ReqStatus, approvedBy: Option<string>)

  /** The three tables the handlers write. */
  datatype Books = Books(receivables: RecTable, requests: map<nat, ApprovalRequest>, ledger: Ledger)

  /** The store calls that may fail; `InsertReceivable(k)` is the insert of installment `k`, 0 for a single receivable. */
  datatype RecStep =
    | FindMethod | FindRequest | InsertReceivable(k: nat) | FindReceivable | InsertCredit
    | MarkRequest | WriteReceivable | FindStatement | WriteStatement | DropStatement

  // ------------------------------------------------------------ value and plan

  /** The value after the method's percentage and fixed fee. */
  function Net(value: real, m: PaymentMethod): real {
    value * (1.0 - m.aliquot / 100.0) - m.fixedAliquot
  }

  /** The installment counts the handlers accept. */
  type Count = n: int | 1 <= n <= 12 witness 1

  /** How a payment condition spreads the net value. */
  datatype Plan =
    | Immediate
    | Installments(n: Count)
    /** A condition ending in "x" whose count `parseInt` cannot read (`NaN`). */
    | NoCount
    /** A count below 1 or above 12: the handler throws. */
    | BadCount
    | ThirtySixtyNinety
    | NoPlan

  function PlanOf(condition: string): Plan {
    if condition == "immediate" then Immediate
    else if |condition| > 0 && condition[|condition| - 1] == 'x' then
      match ParseInt(RemoveFirst(condition, 'x'))
      case None => NoCount
      case Some(n) => if n < 1 || n > 12 then BadCount else Installments(n)
    else if condition == "30/60/90" then ThirtySixtyNinety
    else NoPlan
  }

  /**
   * "1x" to "12x" spread over that many installments, larger counts and
   * "0x" are refused, and a bare "x" reads no count at all, so it is
   * neither refused nor spread.
   */
  lemma {:induction false} PlanOfCount(n: nat)
    ensures 1 <= n <= 12 ==> PlanOf(Digits(n) + "x") == Installments(n)
    ensures (n == 0 || n > 12) ==> PlanOf(Digits(n) + "x") == BadCount
    ensures PlanOf("x") == NoCount
  {
    var s := Digits(n) + "x";
    assert s != "immediate" by {
      assert s[|s| - 1] == 'x';
    }
    RemoveFirstAt(Digits(n), 'x', []);
    assert Digits(n) + ['x'] + [] == Digits(n) + "x";
    ParseIntDigits(n, []);
    assert Digits(n) + [] == Digits(n);
    assert ParseInt([]) == None;
  }

  // ------------------------------------------------------------------ series

  /** The due dates of an `n`-installment series: 30, 60, ... days after `start`. */
  function Dues(start: Date, n: nat): (r: seq<Date>)
    ensures |r| == n
    ensures forall i :: 0 <= i < n ==> r[i] == AddDays(start, 30 * (i + 1))
  {
    if n == 0 then [] else Dues(start, n - 1) + [AddDays(start, 30 * n)]
  }

  /** Installments fall due 30 days apart, each after the one before, and on real calendar days. */
  lemma {:induction false} DuesApart(start: Date, n: nat, i: nat)
    requires i + 1 < n
    ensures Dues(start, n)[i + 1] == AddDays(Dues(start, n)[i], 30)
    ensures Before(Dues(start, n)[i], Dues(start, n)[i + 1])
    ensures Valid(start) ==> Valid(Dues(start, n)[i])
  {
    AddDaysAdd(start, 30 * (i + 1), 30);
    AddDaysForward(Dues(start, n)[i], 30);
    AddDaysForward(start, 30 * (i + 1));
  }

  /** `createReceivable`: always one installment, in the caller's group. */
  function Draft(rec: RecData, date: Date, status: RecStatus, userId: string, value: real, group: nat): (r: Receivable)
    ensures r.totalInstallments == 1 && r.group == group && r.paymentDate == date && r.status == status
    ensures r.value == value && r.requestId == rec.id && r.createdBy == userId && r.reversedBy.None?
  {
    Receivable(0, rec.orderNumber, rec.customerName, rec.customerDocument, rec.notes, value,
               rec.paymentMethodId, rec.bankAccountId, rec.cnpjId, rec.categoryId, rec.competence,
               status, userId, 1, date, rec.id, group, None)
  }

  /** The installment loop: one PENDING receivable per due date, each insert failing on its own. */
  function InsertSeries(t: RecTable, rec: RecData, dates: seq<Date>, userId: string, share: real, group: nat,
                        faults: set<RecStep>): (u: RecTable)
    ensures |u.rows| >= |t.rows| && u.rows[..|t.rows|] == t.rows && u.nextGroup == t.nextGroup
    decreases |dates|
  {
    if |dates| == 0 then t
    else
      var n := |dates| - 1;
      var t1 := InsertSeries(t, rec, dates[..n], userId, share, group, faults);
      if InsertReceivable(n + 1) in faults then t1 else t1.Insert(Draft(rec, dates[n], RecPending, userId, share, group))
  }

  /** Without failure the series appends one PENDING receivable per date, in order, under consecutive ids. */
  lemma {:induction false} SeriesAppends(t: RecTable, rec: RecData, dates: seq<Date>, userId: string, share: real, group: nat)
    ensures var u := InsertSeries(t, rec, dates, userId, share, group, {});
      && |u.rows| == |t.rows| + |dates| && u.rows[..|t.rows|] == t.rows
      && u.nextId == t.nextId + |dates| && u.nextGroup == t.nextGroup
      && forall i :: 0 <= i < |dates| ==>
           u.rows[|t.rows| + i] == Draft(rec, dates[i], RecPending, userId, share, group).(id := t.nextId + i)
    decreases |dates|
  {
    if |dates| > 0 {
      var n := |dates| - 1;
      SeriesAppends(t, rec, dates[..n], userId, share, group);
      var u1 := InsertSeries(t, rec, dates[..n], userId, share, group, {});
      var u := InsertSeries(t, rec, dates, userId, share, group, {});
      assert u.rows == u1.rows + [Draft(rec, dates[n], RecPending, userId, share, group).(id := u1.nextId)];
      forall i | 0 <= i < |dates|
        ensures u.rows[|t.rows| + i] == Draft(rec, dates[i], RecPending, userId, share, group).(id := t.nextId + i)
      {
        if i < n {
          assert dates[..n][i] == dates[i];
        }
      }
    }
  }

  /** The sum of the values of some receivables. */
  function Total(rs: seq<Receivable>): real
    decreases |rs|
  {
    if |rs| == 0 then 0.0 else Total(rs[..|rs| - 1]) + rs[|rs| - 1].value
  }

  lemma {:induction false} TotalOfEqual(rs: seq<Receivable>, share: real)
    requires forall i :: 0 <= i < |rs| ==> rs[i].value == share
    ensures Total(rs) == (|rs| as real) * share
    decreases |rs|
  {
    if |rs| > 0 {
      TotalOfEqual(rs[..|rs| - 1], share);
    }
  }

  lemma {:induction false} ShareTimes(net: real, n: nat)
    requires n > 0
    ensures (n as real) * (net / (n as real)) == net
  {
  }

  /**
   * An `n`-installment series without failure adds `n` receivables whose
   * values sum to the net value they split.
   */
  lemma {:induction false} SeriesSplitsNet(t: RecTable, rec: RecData, start: Date, n: nat, userId: string, share: real, group: nat, net: real)
    requires (n as real) * share == net
    ensures var u := InsertSeries(t, rec, Dues(start, n), userId, share, group, {});
      Total(u.rows[|t.rows|..]) == net
  {
    var u := InsertSeries(t, rec, Dues(start, n), userId, share, group, {});
    SeriesRows(t, rec, start, n, userId, share, group);
    var added := u.rows[|t.rows|..];
    forall i | 0 <= i < |added| ensures added[i].value == share {
      assert added[i] == u.rows[|t.rows| + i];
    }
    TotalOfEqual(added, share);
  }

  // ---------------------------------------------------------- the statement

  /** The CREDIT line of an immediate receivable, dated today; PENDING until it has a category. */
  function CreditFor(rec: RecData, net: real, userId: string, today: string, receivableId: nat): Statement {
    Statement(0, rec.bankAccountId, today, today, Credit, rec.notes.GetOr(""), None, net,
              if rec.categoryId.None? then StmtPending else Reconciled,
              rec.customerName, rec.categoryId, None, None, Some(receivableId), userId)
  }

  // ----------------------------------------------------------------- create

  predicate MethodFound(rec: RecData, methods: map<nat, PaymentMethod>, faults: set<RecStep>) {
    FindMethod !in faults && rec.paymentMethodId.Some? && rec.paymentMethodId.value in methods
  }

  /**
   * The immediate branch: the awaited insert, the lookup of the new row by
   * its group, then the statement line. A failed insert throws (500); a
   * lookup that does not find exactly one row answers 404.
   */
  function ImmediateEffect(b: Books, rec: RecData, date: Date, status: RecStatus, lookup: Sel, userId: string,
                           net: real, group: nat, today: Date, faults: set<RecStep>): (Books, int)
    requires Valid(today) && FourDigitYear(today)
  {
    if InsertReceivable(0) in faults then (b, 500)
    else
      var t1 := b.receivables.Insert(Draft(rec, date, status, userId, net, group));
      var b1 := b.(receivables := t1);
      var found := t1.Select([lookup]);
      if FindReceivable in faults || |found| != 1 then (b1, 404)
      else if InsertCredit in faults then (b1, 500)
      else (b1.(ledger := b.ledger.Insert([CreditFor(rec, net, userId, IsoDate(today), found[0].id)])), 200)
  }

  /**
   * What a plan writes once the method is known: the immediate branch, the
   * installment loop, or nothing. `single` is the date of the immediate
   * receivable and `start` the first day the installments count from;
   * `None` stands for a date `toISOString` throws on.
   */
  function PlanEffect(b: Books, rec: RecData, plan: Plan, single: Option<Date>, status: RecStatus, lookup: Sel,
                      start: Option<Date>, userId: string, net: real, group: nat, today: Date,
                      faults: set<RecStep>): (Books, int)
    requires Valid(today) && FourDigitYear(today)
  {
    match plan
    case Immediate =>
      if single.None? then (b, 500)
      else ImmediateEffect(b, rec, single.value, status, lookup, userId, net, group, today, faults)
    case BadCount => (b, 500)
    case Installments(n) =>
      if start.None? then (b, 500)
      else (b.(receivables := InsertSeries(b.receivables, rec, Dues(start.value, n), userId, net / (n as real), group, faults)), 200)
    case ThirtySixtyNinety =>
      (b.(receivables := InsertSeries(b.receivables, rec, Dues(today, 3), userId, net / 3.0, group, faults)), 200)
    case NoCount => (b, 200)
    case NoPlan => (b, 200)
  }

  /**
   * `create`: the immediate receivable is dated on the payment date and is
   * RECEIVED when that is today; installments count from the payment date.
   */
  function CreateEffect(b: Books, rec: Option<RecData>, userId: string, methods: map<nat, PaymentMethod>,
                        today: Date, faults: set<RecStep>): (Books, int)
    requires Valid(today) && FourDigitYear(today)
  {
    if rec.None? then (b, 400)
    else
      var r := rec.value;
      var group := b.receivables.nextGroup;
      var b0 := b.(receivables := b.receivables.NewGroup());
      if !MethodFound(r, methods, faults) then (b0, 404)
      else
        var m := methods[r.paymentMethodId.value];
        var day := ParseIso(r.paymentDate);
        PlanEffect(b0, r, PlanOf(m.condition), day, if day == Some(today) then RecReceived else RecPending,
                   RecByGroup(group), day, userId, Net(r.value, m), group, today, faults)
  }

  /** No receivable body or no payment method: nothing is written. */
  lemma {:induction false} CreateRefuses(b: Books, rec: Option<RecData>, userId: string, methods: map<nat, PaymentMethod>,
                      today: Date, faults: set<RecStep>)
    requires Valid(today) && FourDigitYear(today)
    requires rec.None? || !MethodFound(rec.value, methods, faults)
    ensures var (after, code) := CreateEffect(b, rec, userId, methods, today, faults);
      && code == (if rec.None? then 400 else 404)
      && after.receivables.rows == b.receivables.rows && after.ledger == b.ledger && after.requests == b.requests
  {
  }

  /** A fresh group is carried by the one row just inserted with it, so the lookup by group finds that row. */
  lemma {:induction false} FreshGroupFound(t: RecTable, draft: Receivable)
    requires t.Valid() && draft.group == t.nextGroup
    ensures t.NewGroup().Insert(draft).Select([RecByGroup(draft.group)]) == [draft.(id := t.nextId)]
  {
    var u := t.NewGroup().Insert(draft);
    forall i | 0 <= i < |u.rows| ensures PicksAll(u.rows[i], [RecByGroup(draft.group)]) <==> i == |t.rows| {
      PicksOne(u.rows[i], RecByGroup(draft.group));
    }
    SelectsOnly(u, [RecByGroup(draft.group)], |t.rows|);
  }

  /**
   * An immediate sale without failure: one receivable of the net value,
   * RECEIVED exactly when its payment date is today, and one CREDIT line of
   * the net value dated today and linked to it, PENDING exactly when the
   * sale has no category.
   */
  lemma {:induction false} CreateImmediate(b: Books, rec: RecData, userId: string, methods: map<nat, PaymentMethod>, today: Date, day: Date)
    requires Valid(today) && FourDigitYear(today) && b.receivables.Valid()
    requires MethodFound(rec, methods, {}) && PlanOf(methods[rec.paymentMethodId.value].condition) == Immediate
    requires ParseIso(rec.paymentDate) == Some(day)
    ensures var (after, code) := CreateEffect(b, Some(rec), userId, methods, today, {});
      var net := Net(rec.value, methods[rec.paymentMethodId.value]);
      var t := b.receivables;
      && code == 200
      && after.receivables.rows == t.rows + [Draft(rec, day, if day == today then RecReceived else RecPending,
                                                   userId, net, t.nextGroup).(id := t.nextId)]
      && (after.receivables.rows[|t.rows|].status == RecReceived <==> day == today)
      && |after.ledger.rows| == |b.ledger.rows| + 1 && after.ledger.rows[..|b.ledger.rows|] == b.ledger.rows
      && var line := after.ledger.rows[|b.ledger.rows|];
         && line.kind == Credit && line.value == net && line.receivableId == Some(t.nextId)
         && line.date == IsoDate(today)
         && (line.status == StmtPending <==> rec.categoryId.None?)
  {
    var t := b.receivables;
    var net := Net(rec.value, methods[rec.paymentMethodId.value]);
    var status := if day == today then RecReceived else RecPending;
    FreshGroupFound(t, Draft(rec, day, status, userId, net, t.nextGroup));
  }

  /**
   * `u` holds `rows` followed by `n` PENDING drafts of group `group`, due
   * 30, 60, ... days after `start`, worth `share` each, numbered from `first`.
   */
  ghost predicate SeriesAppended(u: RecTable, rows: seq<Receivable>, first: nat, rec: RecData, userId: string, start: Date,
                                 share: real, group: nat, n: nat)
  {
    && |u.rows| == |rows| + n && u.rows[..|rows|] == rows
    && forall j :: |rows| <= j < |u.rows| ==>
         u.rows[j] == Draft(rec, AddDays(start, 30 * (j - |rows| + 1)), RecPending, userId, share, group)
                        .(id := first + (j - |rows|))
  }

  /** The rows a series without failure appends, indexed by their place in the table. */
  lemma {:induction false} SeriesRows(t: RecTable, rec: RecData, start: Date, n: nat, userId: string, share: real, group: nat)
    ensures SeriesAppended(InsertSeries(t, rec, Dues(start, n), userId, share, group, {}), t.rows, t.nextId, rec, userId, start,
                           share, group, n)
  {
    var u := InsertSeries(t, rec, Dues(start, n), userId, share, group, {});
    SeriesAppends(t, rec, Dues(start, n), userId, share, group);
    forall j | |t.rows| <= j < |u.rows|
      ensures u.rows[j] == Draft(rec, AddDays(start, 30 * (j - |t.rows| + 1)), RecPending, userId, share, group)
                             .(id := t.nextId + (j - |t.rows|))
    {
      var i := j - |t.rows|;
      assert u.rows[|t.rows| + i] == Draft(rec, Dues(start, n)[i], RecPending, userId, share, group).(id := t.nextId + i);
    }
  }

  /**
   * "Nx" without failure: `n` PENDING receivables of the group, due 30, 60,
   * ... days after the payment date, each worth the net value over `n`; no
   * statement line.
   */
  lemma {:induction false} CreateInstallments(b: Books, rec: RecData, userId: string, methods: map<nat, PaymentMethod>, today: Date,
                           day: Date, n: Count)
    requires Valid(today) && FourDigitYear(today)
    requires MethodFound(rec, methods, {}) && PlanOf(methods[rec.paymentMethodId.value].condition) == Installments(n)
    requires ParseIso(rec.paymentDate) == Some(day)
    ensures var r := CreateEffect(b, Some(rec), userId, methods, today, {});
      var net := Net(rec.value, methods[rec.paymentMethodId.value]);
      && r.1 == 200 && r.0.ledger == b.ledger
      && SeriesAppended(r.0.receivables, b.receivables.rows, b.receivables.nextId, rec, userId, day, net / (n as real),
                        b.receivables.nextGroup, n)
  {
    var net := Net(rec.value, methods[rec.paymentMethodId.value]);
    var t0 := b.receivables.NewGroup();
    var g := b.receivables.nextGroup;
    var u := InsertSeries(t0, rec, Dues(day, n), userId, net / (n as real), g, {});
    var status := if Some(day) == Some(today) then RecReceived else RecPending;
    calc {
      CreateEffect(b, Some(rec), userId, methods, today, {});
      PlanEffect(b.(receivables := t0), rec, Installments(n), Some(day), status, RecByGroup(g), Some(day), userId, net, g, today, {});
      (b.(receivables := u), 200);
    }
    SeriesRows(t0, rec, day, n, userId, net / (n as real), b.receivables.nextGroup);
  }

  /** With the payment method found, `create` comes down to the plan its condition names. */
  lemma {:induction false} CreateFollowsPlan(b: Books, rec: RecData, userId: string, methods: map<nat, PaymentMethod>, today: Date)
    requires Valid(today) && FourDigitYear(today)
    requires MethodFound(rec, methods, {})
    ensures var m := methods[rec.paymentMethodId.value];
      var day := ParseIso(rec.paymentDate);
      CreateEffect(b, Some(rec), userId, methods, today, {}) ==
        PlanEffect(b.(receivables := b.receivables.NewGroup()), rec, PlanOf(m.condition), day,
                   if day == Some(today) then RecReceived else RecPending,
                   RecByGroup(b.receivables.nextGroup), day, userId, Net(rec.value, m), b.receivables.nextGroup, today, {})
  {
  }

  /**
   * `after` answers 200 and leaves the ledger as it was; its receivables are
   * `rows` followed by three PENDING rows, numbered from `first`, of group `group`, due 30, 60 and 90
   * days from today, a third of `net` each.
   */
  ghost predicate ThirtyWritten(after: Books, code: int, rows: seq<Receivable>, first: nat, ledger: Ledger, rec: RecData,
                                userId: string, net: real, group: nat, today: Date)
  {
    && code == 200 && after.ledger == ledger
    && SeriesAppended(after.receivables, rows, first, rec, userId, today, net / 3.0, group, 3)
  }

  /** "30/60/90" without failure: three PENDING receivables due 30, 60 and 90 days from today, a third of the net value each. */
  lemma {:induction false} CreateThirtySixtyNinety(b: Books, rec: RecData, userId: string, methods: map<nat, PaymentMethod>, today: Date)
    requires Valid(today) && FourDigitYear(today)
    requires MethodFound(rec, methods, {}) && PlanOf(methods[rec.paymentMethodId.value].condition) == ThirtySixtyNinety
    ensures var r := CreateEffect(b, Some(rec), userId, methods, today, {});
      ThirtyWritten(r.0, r.1, b.receivables.rows, b.receivables.nextId, b.ledger, rec, userId, Net(rec.value, methods[rec.paymentMethodId.value]),
                    b.receivables.nextGroup, today)
  {
    CreateFollowsPlan(b, rec, userId, methods, today);
    var day := ParseIso(rec.paymentDate);
    ThirtyRows(b.(receivables := b.receivables.NewGroup()), rec, day, if day == Some(today) then RecReceived else RecPending,
               RecByGroup(b.receivables.nextGroup), userId, Net(rec.value, methods[rec.paymentMethodId.value]),
               b.receivables.nextGroup, today);
  }

  /** The "30/60/90" plan appends three rows due 30, 60 and 90 days from today, whatever the payment date. */
  lemma {:induction false} ThirtyRows(b: Books, rec: RecData, day: Option<Date>, status: RecStatus, lookup: Sel, userId: string,
                   net: real, group: nat, today: Date)
    requires Valid(today) && FourDigitYear(today)
    ensures var r := PlanEffect(b, rec, ThirtySixtyNinety, day, status, lookup, day, userId, net, group, today, {});
      ThirtyWritten(r.0, r.1, b.receivables.rows, b.receivables.nextId, b.ledger, rec, userId, net, group, today)
  {
    SeriesRows(b.receivables, rec, today, 3, userId, net / 3.0, group);
  }

  /** A count outside 1 to 12 throws before any receivable is written. */
  lemma {:induction false} CreateBadCount(b: Books, rec: RecData, userId: string, methods: map<nat, PaymentMethod>, today: Date,
                       faults: set<RecStep>)
    requires Valid(today) && FourDigitYear(today)
    requires MethodFound(rec, methods, faults) && PlanOf(methods[rec.paymentMethodId.value].condition) == BadCount
    ensures var (after, code) := CreateEffect(b, Some(rec), userId, methods, today, faults);
      code == 500 && after.receivables.rows == b.receivables.rows && after.ledger == b.ledger
  {
  }

  /** A condition "x" with no count slips past the range check: the sale is answered as created, yet nothing is written. */
  lemma {:induction false} CreateNoCount(b: Books, rec: RecData, userId: string, methods: map<nat, PaymentMethod>, today: Date)
    requires Valid(today) && FourDigitYear(today)
    requires MethodFound(rec, methods, {}) && methods[rec.paymentMethodId.value].condition == "x"
    ensures var (after, code) := CreateEffect(b, Some(rec), userId, methods, today, {});
      code == 200 && after.receivables.rows == b.receivables.rows && after.ledger == b.ledger
  {
    PlanOfCount(0);
  }

  // ---------------------------------------------------------------- approve

  /**
   * `approveReceivableRequest`: the immediate receivable is RECEIVED and
   * dated today, installments count from today, and the request is marked
   * APPROVED only after its receivables are written.
   */
  function ApproveEffect(b: Books, requestId: Option<nat>, userId: string, methods: map<nat, PaymentMethod>,
                         today: Date, faults: set<RecStep>): (Books, int)
    requires Valid(today) && FourDigitYear(today)
  {
    if requestId.None? then (b, 400)
    else
      var id := requestId.value;
      var group := b.receivables.nextGroup;
      var b0 := b.(receivables := b.receivables.NewGroup());
      if FindRequest in faults || id !in b.requests then (b0, 404)
      else
        var q := b.requests[id];
        var r := q.rec.(id := Some(id));
        if r.paymentMethodId.None? || r.paymentMethodId.value !in methods then (b0, 500)
        else
          var m := methods[r.paymentMethodId.value];
          var (b1, code) := PlanEffect(b0, r, PlanOf(m.condition), Some(today), RecReceived, RecByRequest(id),
                                       Some(today), userId, Net(r.value, m), group, today, faults);
          if code != 200 then (b1, code)
          else if MarkRequest in faults then (b1, 500)
          else (b1.(requests := b.requests[id := q.(status := ReqApproved, approvedBy := Some(userId))]), 200)
  }

  /**
   * Approving an immediate request without failure: one RECEIVED receivable
   * dated today, linked to the request, its CREDIT line, and the request
   * APPROVED by the user, provided no receivable of that request exists yet.
   */
  lemma {:induction false} ApproveImmediate(b: Books, id: nat, userId: string, methods: map<nat, PaymentMethod>, today: Date)
    requires Valid(today) && FourDigitYear(today) && b.receivables.Valid()
    requires id in b.requests && MethodFound(b.requests[id].rec, methods, {})
    requires PlanOf(methods[b.requests[id].rec.paymentMethodId.value].condition) == Immediate
    requires forall i :: 0 <= i < |b.receivables.rows| ==> b.receivables.rows[i].requestId != Some(id)
    ensures var (after, code) := ApproveEffect(b, Some(id), userId, methods, today, {});
      var t := b.receivables;
      && code == 200
      && |after.receivables.rows| == |t.rows| + 1
      && after.receivables.rows[|t.rows|].status == RecReceived
      && after.receivables.rows[|t.rows|].paymentDate == today
      && after.receivables.rows[|t.rows|].requestId == Some(id)
      && |after.ledger.rows| == |b.ledger.rows| + 1
      && after.ledger.rows[|b.ledger.rows|].receivableId == Some(t.nextId)
      && after.requests == b.requests[id := b.requests[id].(status := ReqApproved, approvedBy := Some(userId))]
  {
    var t := b.receivables;
    var r := b.requests[id].rec.(id := Some(id));
    var net := Net(r.value, methods[r.paymentMethodId.value]);
    var u := t.NewGroup().Insert(Draft(r, today, RecReceived, userId, net, t.nextGroup));
    forall i | 0 <= i < |u.rows| ensures PicksAll(u.rows[i], [RecByRequest(id)]) <==> i == |t.rows| {
      PicksOne(u.rows[i], RecByRequest(id));
    }
    SelectsOnly(u, [RecByRequest(id)], |t.rows|);
  }

  /**
   * Approving an immediate request a second time writes a second receivable
   * and then answers 404, because the lookup by request finds two rows; no
   * statement line is written and the request is not marked again.
   */
  lemma {:induction false} ApproveImmediateTwice(b: Books, id: nat, userId: string, methods: map<nat, PaymentMethod>, today: Date, k: nat)
    requires Valid(today) && FourDigitYear(today) && b.receivables.Valid()
    requires id in b.requests && MethodFound(b.requests[id].rec, methods, {})
    requires PlanOf(methods[b.requests[id].rec.paymentMethodId.value].condition) == Immediate
    requires k < |b.receivables.rows| && b.receivables.rows[k].requestId == Some(id)
    ensures var (after, code) := ApproveEffect(b, Some(id), userId, methods, today, {});
      && code == 404 && |after.receivables.rows| == |b.receivables.rows| + 1
      && after.ledger == b.ledger && after.requests == b.requests
  {
    var t := b.receivables;
    var r := b.requests[id].rec.(id := Some(id));
    var net := Net(r.value, methods[r.paymentMethodId.value]);
    var u := t.NewGroup().Insert(Draft(r, today, RecReceived, userId, net, t.nextGroup));
    var found := u.Select([RecByRequest(id)]);
    PicksOne(u.rows[k], RecByRequest(id));
    PicksOne(u.rows[|t.rows|], RecByRequest(id));
    assert u.rows[k] in found && u.rows[|t.rows|] in found;
    assert u.rows[k].id != u.rows[|t.rows|].id;
    TwoInOne(found, u.rows[k], u.rows[|t.rows|]);
  }

  lemma {:induction false} TwoInOne(s: seq<Receivable>, x: Receivable, y: Receivable)
    requires x in s && y in s && x != y
    ensures |s| != 1
  {
  }

  /**
   * "Nx" at approval counts from today, not from the payment date; once the
   * series is written the request is APPROVED.
   */
  lemma {:induction false} ApproveInstallments(b: Books, id: nat, userId: string, methods: map<nat, PaymentMethod>, today: Date, n: Count)
    requires Valid(today) && FourDigitYear(today)
    requires id in b.requests && MethodFound(b.requests[id].rec, methods, {})
    requires PlanOf(methods[b.requests[id].rec.paymentMethodId.value].condition) == Installments(n)
    ensures var (after, code) := ApproveEffect(b, Some(id), userId, methods, today, {});
      var t := b.receivables;
      && code == 200 && after.ledger == b.ledger
      && |after.receivables.rows| == |t.rows| + n
      && (forall j :: |t.rows| <= j < |after.receivables.rows| ==>
            && after.receivables.rows[j].paymentDate == AddDays(today, 30 * (j - |t.rows| + 1))
            && after.receivables.rows[j].status == RecPending
            && after.receivables.rows[j].requestId == Some(id))
      && after.requests[id].status == ReqApproved
  {
    var q := b.requests[id];
    var r := q.rec.(id := Some(id));
    var net := Net(r.value, methods[r.paymentMethodId.value]);
    var t0 := b.receivables.NewGroup();
    var u := InsertSeries(t0, r, Dues(today, n), userId, net / (n as real), b.receivables.nextGroup, {});
    assert ApproveEffect(b, Some(id), userId, methods, today, {})
        == (b.(receivables := u, requests := b.requests[id := q.(status := ReqApproved, approvedBy := Some(userId))]), 200);
    SeriesRows(t0, r, today, n, userId, net / (n as real), b.receivables.nextGroup);
  }

  /** A failure marking the request leaves the receivables already written and the request as it was. */
  lemma {:induction false} ApproveMarksLast(b: Books, id: nat, userId: string, methods: map<nat, PaymentMethod>, today: Date, n: Count)
    requires Valid(today) && FourDigitYear(today)
    requires id in b.requests && MethodFound(b.requests[id].rec, methods, {})
    requires PlanOf(methods[b.requests[id].rec.paymentMethodId.value].condition) == Installments(n)
    ensures var (after, code) := ApproveEffect(b, Some(id), userId, methods, today, {MarkRequest});
      code == 500 && |after.receivables.rows| == |b.receivables.rows| + n && after.requests == b.requests
  {
    var r := b.requests[id].rec.(id := Some(id));
    var net := Net(r.value, methods[r.paymentMethodId.value]);
    var t0 := b.receivables.NewGroup();
    var share := net / (n as real);
    var u := InsertSeries(t0, r, Dues(today, n), userId, share, b.receivables.nextGroup, {MarkRequest});
    assert ApproveEffect(b, Some(id), userId, methods, today, {MarkRequest}) == (b.(receivables := u), 500);
    SeriesIgnores(t0, r, Dues(today, n), userId, share, b.receivables.nextGroup, {MarkRequest});
    SeriesRows(t0, r, today, n, userId, share, b.receivables.nextGroup);
  }

  /** Only the installment inserts can fail inside the loop. */
  lemma {:induction false} SeriesIgnores(t: RecTable, rec: RecData, dates: seq<Date>, userId: string, share: real,
                                         group: nat, faults: set<RecStep>)
    requires forall k :: InsertReceivable(k) !in faults
    ensures InsertSeries(t, rec, dates, userId, share, group, faults) == InsertSeries(t, rec, dates, userId, share, group, {})
    decreases |dates|
  {
    if |dates| > 0 {
      SeriesIgnores(t, rec, dates[..|dates| - 1], userId, share, group, faults);
    }
  }

  // ----------------------------------------------------------------- reject

  /** `rejectReceivableRequest`. */
  function RejectEffect(b: Books, requestId: Option<nat>, userId: string, faults: set<RecStep>): (Books, int) {
    if requestId.None? then (b, 400)
    else if FindRequest in faults || requestId.value !in b.requests then (b, 404)
    else if MarkRequest in faults then (b, 500)
    else
      var q := b.requests[requestId.value];
      (b.(requests := b.requests[requestId.value := q.(status := ReqRejected, approvedBy := Some(userId))]), 200)
  }

  /** Rejecting touches only the request: REJECTED, by the user, and nothing else changes. */
  lemma {:induction false} RejectOnlyMarks(b: Books, id: nat, userId: string, faults: set<RecStep>)
    ensures var (after, code) := RejectEffect(b, Some(id), userId, faults);
      && after.receivables == b.receivables && after.ledger == b.ledger
      && (code == 200 <==> id in b.requests && FindRequest !in faults && MarkRequest !in faults)
      && (code == 200 ==> after.requests == b.requests[id := b.requests[id].(status := ReqRejected, approvedBy := Some(userId))])
      && (code != 200 ==> after.requests == b.requests)
  {
  }

  // ------------------------------------------------------- reverse and cancel

  /**
   * `reverseReceivable`: the receivable is REVERSED before its statement
   * line is looked up, so a missing line answers 404 with the receivable
   * already REVERSED.
   */
  function ReverseEffect(b: Books, receivableId: Option<nat>, userId: string, faults: set<RecStep>): (Books, int) {
    if receivableId.None? then (b, 400)
    else
      var id := receivableId.value;
      if FindReceivable in faults || |b.receivables.Select([RecById(id)])| != 1 then (b, 404)
      else if WriteReceivable in faults then (b, 500)
      else
        var b1 := b.(receivables := b.receivables.Update([RecById(id)], ReverseBy(userId)));
        var lines := b.ledger.Select([ByReceivable(id)]);
        if FindStatement in faults || |lines| != 1 then (b1, 404)
        else if WriteStatement in faults then (b1, 500)
        else (b1.(ledger := b.ledger.Update([ById(lines[0].id)], Restatus(Reversed))), 200)
  }

  /** With no statement line for it, the receivable still ends REVERSED, by the user, and the answer is 404. */
  lemma {:induction false} ReverseWithoutLine(b: Books, k: nat, userId: string)
    requires b.receivables.Valid() && k < |b.receivables.rows|
    requires forall i :: 0 <= i < |b.ledger.rows| ==> b.ledger.rows[i].receivableId != Some(b.receivables.rows[k].id)
    ensures var (after, code) := ReverseEffect(b, Some(b.receivables.rows[k].id), userId, {});
      && code == 404 && after.ledger == b.ledger
      && after.receivables.rows[k] == b.receivables.rows[k].(status := RecReversed, reversedBy := Some(userId))
  {
    var id := b.receivables.rows[k].id;
    SelectsById(b.receivables, k);
    PicksOne(b.receivables.rows[k], RecById(id));
    var lines := b.ledger.Select([ByReceivable(id)]);
    if |lines| > 0 {
      var j :| 0 <= j < |b.ledger.rows| && b.ledger.rows[j] == lines[0];
      FitsOne(lines[0], ByReceivable(id));
    }
  }

  /** With exactly one line for it, both the receivable and the line end REVERSED, and no other row changes. */
  lemma {:induction false} ReverseWithLine(b: Books, k: nat, j: nat, userId: string)
    requires b.receivables.Valid() && k < |b.receivables.rows| && j < |b.ledger.rows|
    requires b.ledger.rows[j].receivableId == Some(b.receivables.rows[k].id)
    requires forall i :: 0 <= i < |b.ledger.rows| && i != j ==> b.ledger.rows[i].receivableId != Some(b.receivables.rows[k].id)
    requires forall i :: 0 <= i < |b.ledger.rows| && i != j ==> b.ledger.rows[i].id != b.ledger.rows[j].id
    ensures var (after, code) := ReverseEffect(b, Some(b.receivables.rows[k].id), userId, {});
      && code == 200
      && |after.receivables.rows| == |b.receivables.rows|
      && (forall i :: 0 <= i < |b.receivables.rows| ==>
            after.receivables.rows[i] == if i == k then b.receivables.rows[k].(status := RecReversed, reversedBy := Some(userId))
                                         else b.receivables.rows[i])
      && |after.ledger.rows| == |b.ledger.rows|
      && (forall i :: 0 <= i < |b.ledger.rows| ==>
            after.ledger.rows[i] == if i == j then b.ledger.rows[j].(status := Reversed) else b.ledger.rows[i])
  {
    var id := b.receivables.rows[k].id;
    SelectsById(b.receivables, k);
    RecUpdateById(b.receivables, id, ReverseBy(userId));
    LineOfReceivable(b.ledger, id, j);
    UpdateById(b.ledger, b.ledger.rows[j].id, Restatus(Reversed));
  }

  /** The lookup of the line of a receivable that has exactly one. */
  lemma {:induction false} LineOfReceivable(l: Ledger, id: nat, j: nat)
    requires j < |l.rows| && l.rows[j].receivableId == Some(id)
    requires forall i :: 0 <= i < |l.rows| && i != j ==> l.rows[i].receivableId != Some(id)
    ensures l.Select([ByReceivable(id)]) == [l.rows[j]]
  {
    forall i | 0 <= i < |l.rows| ensures Fitting([ByReceivable(id)])(l.rows[i]) <==> i == j {
      FitsOne(l.rows[i], ByReceivable(id));
    }
    Seqs.FilterSingle(l.rows, Fitting([ByReceivable(id)]), j);
  }

  /**
   * `cancelReceivable`: the receivable becomes CANCELED, then its statement
   * lines are deleted; the outcome of the delete is not checked.
   */
  function CancelEffect(b: Books, receivableId: Option<nat>, faults: set<RecStep>): (Books, int) {
    if receivableId.None? then (b, 400)
    else
      var id := receivableId.value;
      if FindReceivable in faults || |b.receivables.Select([RecById(id)])| != 1 then (b, 404)
      else if WriteReceivable in faults then (b, 500)
      else
        var t1 := b.receivables.Update([RecById(id)], Settle(RecCanceled));
        (b.(receivables := t1, ledger := if DropStatement in faults then b.ledger else b.ledger.Delete([ByReceivable(id)])), 200)
  }

  /** Canceling: the receivable CANCELED, every line linked to it gone, every other line kept. */
  lemma {:induction false} CancelDropsLines(b: Books, k: nat)
    requires b.receivables.Valid() && k < |b.receivables.rows|
    ensures var id := b.receivables.rows[k].id;
      var (after, code) := CancelEffect(b, Some(id), {});
      && code == 200
      && after.receivables.rows[k] == b.receivables.rows[k].(status := RecCanceled)
      && forall x :: x in after.ledger.rows <==> x in b.ledger.rows && x.receivableId != Some(id)
  {
    var id := b.receivables.rows[k].id;
    SelectsById(b.receivables, k);
    PicksOne(b.receivables.rows[k], RecById(id));
    forall x | x in b.ledger.rows ensures FitsAll(x, [ByReceivable(id)]) <==> x.receivableId == Some(id) {
      FitsOne(x, ByReceivable(id));
    }
  }

  /** The receivable handlers over the three tables. */
  class ReceivableDesk {
    var receivables: RecTable
    var requests: map<nat, ApprovalRequest>
    var ledger: Ledger

    function State(): Books
      reads this
    {
      Books(receivables, requests, ledger)
    }

    constructor (b: Books)
      ensures State() == b
    {
      receivables, requests, ledger := b.receivables, b.requests, b.ledger;
    }

    /** `uuidv4()`. */
    method NewGroup() returns (group: nat)
      modifies this
      ensures group == old(receivables.nextGroup) && receivables == old(receivables).NewGroup()
      ensures requests == old(requests) && ledger == old(ledger)
    {
      group := receivables.nextGroup;
      receivables := receivables.NewGroup();
    }

    /** `createReceivable`; returns whether the insert went through. */
    method CreateReceivable(rec: RecData, date: Date, status: RecStatus, userId: string, value: real, group: nat,
                            fails: bool) returns (ok: bool)
      modifies this
      ensures ok == !fails
      ensures receivables == if fails then old(receivables) else old(receivables).Insert(Draft(rec, date, status, userId, value, group))
      ensures requests == old(requests) && ledger == old(ledger)
    {
      ok := !fails;
      if ok {
        receivables := receivables.Insert(Draft(rec, date, status, userId, value, group));
      }
    }

    /** The installment loop. */
    method CreateSeries(rec: RecData, dates: seq<Date>, userId: string, share: real, group: nat, faults: set<RecStep>)
      modifies this
      ensures receivables == InsertSeries(old(receivables), rec, dates, userId, share, group, faults)
      ensures requests == old(requests) && ledger == old(ledger)
    {
      ghost var t0 := receivables;
      var i := 0;
      while i < |dates|
        invariant 0 <= i <= |dates|
        invariant receivables == InsertSeries(t0, rec, dates[..i], userId, share, group, faults)
        invariant requests == old(requests) && ledger == old(ledger)
      {
        assert dates[..i + 1][..i] == dates[..i];
        var _ := CreateReceivable(rec, dates[i], RecPending, userId, share, group, InsertReceivable(i + 1) in faults);
        i := i + 1;
      }
      assert dates[..i] == dates;
    }

    /** The immediate branch. */
    method Immediate(rec: RecData, date: Date, status: RecStatus, lookup: Sel, userId: string, net: real, group: nat,
                     today: Date, faults: set<RecStep>) returns (code: int)
      requires Valid(today) && FourDigitYear(today)
      modifies this
      ensures (State(), code) == ImmediateEffect(old(State()), rec, date, status, lookup, userId, net, group, today, faults)
    {
      var ok := CreateReceivable(rec, date, status, userId, net, group, InsertReceivable(0) in faults);
      if !ok {
        return 500;
      }
      var found := receivables.Select([lookup]);
      if FindReceivable in faults || |found| != 1 {
        return 404;
      }
      if InsertCredit in faults {
        return 500;
      }
      ledger := ledger.Insert([CreditFor(rec, net, userId, IsoDate(today), found[0].id)]);
      code := 200;
    }

    /** The branch a plan takes once the method is known. */
    method ApplyPlan(rec: RecData, plan: Plan, single: Option<Date>, status: RecStatus, lookup: Sel,
                     start: Option<Date>, userId: string, net: real, group: nat, today: Date,
                     faults: set<RecStep>) returns (code: int)
      requires Valid(today) && FourDigitYear(today)
      modifies this
      ensures (State(), code) == PlanEffect(old(State()), rec, plan, single, status, lookup, start, userId, net, group, today, faults)
    {
      match plan
      case Immediate =>
        if single.None? {
          return 500;
        }
        code := Immediate(rec, single.value, status, lookup, userId, net, group, today, faults);
      case BadCount =>
        code := 500;
      case Installments(n) =>
        if start.None? {
          return 500;
        }
        CreateSeries(rec, Dues(start.value, n), userId, net / (n as real), group, faults);
        code := 200;
      case ThirtySixtyNinety =>
        CreateSeries(rec, Dues(today, 3), userId, net / 3.0, group, faults);
        code := 200;
      case NoCount =>
        code := 200;
      case NoPlan =>
        code := 200;
    }

    /** `create`. */
    method Create(rec: Option<RecData>, userId: string, methods: map<nat, PaymentMethod>, today: Date,
                  faults: set<RecStep>) returns (code: int)
      requires Valid(today) && FourDigitYear(today)
      modifies this
      ensures (State(), code) == CreateEffect(old(State()), rec, userId, methods, today, faults)
    {
      if rec.None? {
        return 400;
      }
      var r := rec.value;
      var group := NewGroup();
      if !MethodFound(r, methods, faults) {
        return 404;
      }
      var m := methods[r.paymentMethodId.value];
      var day := ParseIso(r.paymentDate);
      code := ApplyPlan(r, PlanOf(m.condition), day, if day == Some(today) then RecReceived else RecPending,
                        RecByGroup(group), day, userId, Net(r.value, m), group, today, faults);
    }

    /** `approveReceivableRequest`. */
    method Approve(requestId: Option<nat>, userId: string, methods: map<nat, PaymentMethod>, today: Date,
                   faults: set<RecStep>) returns (code: int)
      requires Valid(today) && FourDigitYear(today)
      modifies this
      ensures (State(), code) == ApproveEffect(old(State()), requestId, userId, methods, today, faults)
    {
      if requestId.None? {
        return 400;
      }
      var id := requestId.value;
      var group := NewGroup();
      if FindRequest in faults || id !in requests {
        return 404;
      }
      var q := requests[id];
      var r := q.rec.(id := Some(id));
      if r.paymentMethodId.None? || r.paymentMethodId.value !in methods {
        return 500;
      }
      var m := methods[r.paymentMethodId.value];
      code := ApplyPlan(r, PlanOf(m.condition), Some(today), RecReceived, RecByRequest(id), Some(today),
                        userId, Net(r.value, m), group, today, faults);
      if code != 200 {
        return;
      }
      if MarkRequest in faults {
        return 500;
      }
      requests := requests[id := q.(status := ReqApproved, approvedBy := Some(userId))];
    }

    /** `rejectReceivableRequest`. */
    method Reject(requestId: Option<nat>, userId: string, faults: set<RecStep>) returns (code: int)
      modifies this
      ensures (State(), code) == RejectEffect(old(State()), requestId, userId, faults)
    {
      if requestId.None? {
        return 400;
      }
      if FindRequest in faults || requestId.value !in requests {
        return 404;
      }
      if MarkRequest in faults {
        return 500;
      }
      var q := requests[requestId.value];
      requests := requests[requestId.value := q.(status := ReqRejected, approvedBy := Some(userId))];
      code := 200;
    }

    /** `reverseReceivable`. */
    method Reverse(receivableId: Option<nat>, userId: string, faults: set<RecStep>) returns (code: int)
      modifies this
      ensures (State(), code) == ReverseEffect(old(State()), receivableId, userId, faults)
    {
      if receivableId.None? {
        return 400;
      }
      var id := receivableId.value;
      if FindReceivable in faults || |receivables.Select([RecById(id)])| != 1 {
        return 404;
      }
      if WriteReceivable in faults {
        return 500;
      }
      receivables := receivables.Update([RecById(id)], ReverseBy(userId));
      var lines := ledger.Select([ByReceivable(id)]);
      if FindStatement in faults || |lines| != 1 {
        return 404;
      }
      if WriteStatement in faults {
        return 500;
      }
      ledger := ledger.Update([ById(lines[0].id)], Restatus(Reversed));
      code := 200;
    }

    /** `cancelReceivable`. */
    method Cancel(receivableId: Option<nat>, faults: set<RecStep>) returns (code: int)
      modifies this
      ensures (State(), code) == CancelEffect(old(State()), receivableId, faults)
    {
      if receivableId.None? {
        return 400;
      }
      var id := receivableId.value;
      if FindReceivable in faults || |receivables.Select([RecById(id)])| != 1 {
        return 404;
      }
      if WriteReceivable in faults {
        return 500;
      }
      receivables := receivables.Update([RecById(id)], Settle(RecCanceled));
      if DropStatement !in faults {
        ledger := ledger.Delete([ByReceivable(id)]);
      }
      code := 200;
    }
  }
}
