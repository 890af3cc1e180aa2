/**
 * The receivable settlement sweep that runs every fifteen minutes: pending
 * receivables whose acquirer settles them today get a pending credit line
 * on the bank statement and become RECEIVED.
 */
module ReceivableCron {
  import opened Wrappers
  import opened Seqs
  import opened Text
  import opened Dates
  import opened DateText
  import opened Statements
  import opened Receivables

  /** The store calls of one sweep; a step in the fault set fails and throws. */
  datatype SweepStep = SelectDue | InsertLines | UpdateReceived

  /** `.lte("payment_date", today).eq("status", "PENDING")`. */
  function Candidates(today: Date): seq<Sel> {
    [RecDueBy(today), RecByStatus(RecPending)]
  }

  predicate IsCandidate(r: Receivable, today: Date) {
    r.status == RecPending && NotAfter(r.paymentDate, today)
  }

  /** The joined `payment_method`; `None` is a null join. */
  function MethodOf(r: Receivable, methods: map<nat, PaymentMethod>): Option<PaymentMethod> {
    if r.paymentMethodId.Some? && r.paymentMethodId.value in methods then Some(methods[r.paymentMethodId.value])
    else None
  }

  /** Reading `settlementDays` of a null join throws, so every candidate needs its method. */
  predicate Joined(rows: seq<Receivable>, methods: map<nat, PaymentMethod>) {
    forall i :: 0 <= i < |rows| ==> MethodOf(rows[i], methods).Some?
  }

  /** The payment date moved on by the method's settlement days is today. */
  predicate Settles(r: Receivable, methods: map<nat, PaymentMethod>, today: Date) {
    MethodOf(r, methods).Some? && AddDays(r.paymentDate, MethodOf(r, methods).value.settlementDays) == today
  }

  function SettlingOn(methods: map<nat, PaymentMethod>, today: Date): Receivable -> bool {
    (r: Receivable) => Settles(r, methods, today)
  }

  function RecIdOf(): Receivable -> nat {
    (r: Receivable) => r.id
  }

  /**
   * The statement line a settled receivable yields: a pending credit of its
   * value on its account, stamped `now` and valued today, carrying its
   * order number, category and creator, linked back to it.
   */
  function SettlementLine(r: Receivable, now: string, today: Date): Statement
    requires Valid(today) && FourDigitYear(today)
  {
    Statement(0, r.bankAccountId, now, IsoDate(today), Credit, Or(r.notes, "Pagamento Recebido"), r.orderNumber, r.value, StmtPending,
              None, r.categoryId, None, None, Some(r.id), r.createdBy)
  }

  function LineFor(now: string, today: Date): Receivable -> Statement
    requires Valid(today) && FourDigitYear(today)
  {
    (r: Receivable) requires Valid(today) && FourDigitYear(today) => SettlementLine(r, now, today)
  }

  /** The receivables the sweep settles, in table order; `None` when the method lookup throws. */
  function Settled(t: RecTable, methods: map<nat, PaymentMethod>, today: Date): Option<seq<Receivable>> {
    var due := t.Select(Candidates(today));
    if Joined(due, methods) then Some(Filter(due, SettlingOn(methods, today))) else None
  }

  /** The lines the settled receivables yield, in their order. */
  function LinesOf(picked: seq<Receivable>, now: string, today: Date): seq<Statement>
    requires Valid(today) && FourDigitYear(today)
  {
    Map(picked, LineFor(now, today))
  }

  /** `update({status: "RECEIVED"}).in("id", ids)` over the settled receivables' ids. */
  function MarkReceived(t: RecTable, picked: seq<Receivable>): RecTable {
    t.Update([RecIdIn(Map(picked, RecIdOf()))], Settle(RecReceived))
  }

  /**
   * `updatePaidReceivables`: select the candidates, keep those settling
   * today, insert their lines in one call, then mark them RECEIVED by id.
   * A failed call throws and is only logged, so later calls do not happen.
   */
  function SweepEffect(t: RecTable, l: Ledger, methods: map<nat, PaymentMethod>, today: Date, now: string,
                       faults: set<SweepStep>): (RecTable, Ledger)
    requires Valid(today) && FourDigitYear(today)
  {
    if SelectDue in faults then (t, l)
    else
      var picked := Settled(t, methods, today);
      if picked.None? || |picked.value| == 0 || InsertLines in faults then (t, l)
      else
        var l1 := l.Insert(LinesOf(picked.value, now, today));
        if UpdateReceived in faults then (t, l1) else (MarkReceived(t, picked.value), l1)
  }

  // ------------------------------------------------------------ selection

  lemma {:induction false} PicksTwo(r: Receivable, a: Sel, b: Sel)
    ensures PicksAll(r, [a, b]) <==> Picks(r, a) && Picks(r, b)
  {
    if Picks(r, a) && Picks(r, b) {
      forall i | 0 <= i < 2 ensures Picks(r, [a, b][i]) {
      }
    }
    if PicksAll(r, [a, b]) {
      assert Picks(r, [a, b][0]) && Picks(r, [a, b][1]);
    }
  }

  /** A row is selected exactly when it is a pending receivable dated today or earlier. */
  lemma {:induction false} CandidateRows(t: RecTable, today: Date, x: Receivable)
    ensures x in t.Select(Candidates(today)) <==> x in t.rows && IsCandidate(x, today)
  {
    PicksTwo(x, RecDueBy(today), RecByStatus(RecPending));
  }

  /** With distinct ids, a row's id is among the settled ids exactly when that row is settled. */
  lemma {:induction false} SettledIds(t: RecTable, picked: seq<Receivable>, i: nat)
    requires t.Valid() && i < |t.rows|
    requires forall x :: x in picked ==> x in t.rows
    ensures t.rows[i].id in Map(picked, RecIdOf()) <==> t.rows[i] in picked
  {
    var ids := Map(picked, RecIdOf());
    if t.rows[i] in picked {
      var k :| 0 <= k < |picked| && picked[k] == t.rows[i];
      assert ids[k] == t.rows[i].id;
    }
    if t.rows[i].id in ids {
      var k :| 0 <= k < |ids| && ids[k] == t.rows[i].id;
      assert picked[k] in t.rows;
      var j :| 0 <= j < |t.rows| && t.rows[j] == picked[k];
      assert t.rows[j].id == t.rows[i].id;
    }
  }

  /** A row is settled exactly when it is a candidate and settles today. */
  lemma {:induction false} SettledRows(t: RecTable, methods: map<nat, PaymentMethod>, today: Date, x: Receivable)
    requires Settled(t, methods, today).Some?
    ensures x in Settled(t, methods, today).value <==> x in t.rows && IsCandidate(x, today) && Settles(x, methods, today)
  {
    var due := t.Select(Candidates(today));
    var picked := Filter(due, SettlingOn(methods, today));
    CandidateRows(t, today, x);
    if x in due && Settles(x, methods, today) {
      var k :| 0 <= k < |due| && due[k] == x;
      assert SettlingOn(methods, today)(due[k]);
    }
  }

  // ------------------------------------------------------------ properties

  /** Marking by id changes a row exactly when it is one of the settled receivables. */
  lemma {:induction false} MarkReceivedRow(t: RecTable, picked: seq<Receivable>, i: nat)
    requires t.Valid() && i < |t.rows|
    requires forall x :: x in picked ==> x in t.rows
    ensures |MarkReceived(t, picked).rows| == |t.rows|
    ensures MarkReceived(t, picked).rows[i] == if t.rows[i] in picked then t.rows[i].(status := RecReceived) else t.rows[i]
  {
    SettledIds(t, picked, i);
    PicksOne(t.rows[i], RecIdIn(Map(picked, RecIdOf())));
  }

  /**
   * A successful sweep turns exactly the pending receivables dated today or
   * earlier whose settlement date is today into RECEIVED ones; every other
   * row, and every other column, stays as it was.
   */
  lemma {:induction false} SweepSettlesExactly(t: RecTable, l: Ledger, methods: map<nat, PaymentMethod>, today: Date, now: string)
    requires Valid(today) && FourDigitYear(today) && t.Valid()
    requires Settled(t, methods, today).Some?
    ensures var (u, _) := SweepEffect(t, l, methods, today, now, {});
      && |u.rows| == |t.rows| && u.nextId == t.nextId && u.nextGroup == t.nextGroup
      && forall i :: 0 <= i < |t.rows| ==>
           u.rows[i] == if IsCandidate(t.rows[i], today) && Settles(t.rows[i], methods, today)
                        then t.rows[i].(status := RecReceived) else t.rows[i]
  {
    var picked := Settled(t, methods, today).value;
    var u := if |picked| == 0 then t else MarkReceived(t, picked);
    assert SweepEffect(t, l, methods, today, now, {}).0 == u;
    forall x | x in picked ensures x in t.rows {
      SettledRows(t, methods, today, x);
    }
    forall i | 0 <= i < |t.rows|
      ensures u.rows[i] == if IsCandidate(t.rows[i], today) && Settles(t.rows[i], methods, today)
                           then t.rows[i].(status := RecReceived) else t.rows[i]
    {
      SettledRows(t, methods, today, t.rows[i]);
      MarkReceivedRow(t, picked, i);
    }
  }

  /**
   * `m` is `l` followed by one pending credit per receivable of `picked`, in
   * order, under fresh ids, worth the receivable's value and linked to it,
   * described by its notes or by "Pagamento Recebido".
   */
  ghost predicate AppendsSettlements(m: Ledger, l: Ledger, picked: seq<Receivable>, now: string, today: Date)
    requires Valid(today) && FourDigitYear(today)
  {
    && |m.rows| == |l.rows| + |picked| && m.rows[..|l.rows|] == l.rows
    && forall j :: |l.rows| <= j < |m.rows| ==>
         var line, r := m.rows[j], picked[j - |l.rows|];
         && line.id == l.nextId + (j - |l.rows|) && line.kind == Credit && line.status == StmtPending
         && line.value == r.value && line.receivableId == Some(r.id)
         && line.account == r.bankAccountId && line.document == r.orderNumber
         && line.description == (if r.notes.Some? && r.notes.value != "" then r.notes.value else "Pagamento Recebido")
         && line.valueDate == IsoDate(today) && line.date == now
  }

  /** Inserting the settlement lines appends them after the existing ones. */
  lemma {:induction false} InsertSettlements(l: Ledger, picked: seq<Receivable>, now: string, today: Date)
    requires Valid(today) && FourDigitYear(today)
    ensures AppendsSettlements(l.Insert(LinesOf(picked, now, today)), l, picked, now, today)
  {
    var m := l.Insert(LinesOf(picked, now, today));
    forall j | |l.rows| <= j < |m.rows|
      ensures m.rows[j] == SettlementLine(picked[j - |l.rows|], now, today).(id := l.nextId + (j - |l.rows|))
    {
      LinesOfRow(picked, now, today, j - |l.rows|);
    }
  }

  /**
   * The lines a successful sweep appends: one pending credit per settled
   * receivable, in table order, under fresh ids, worth the receivable's
   * value and linked to it, described by its notes or by "Pagamento
   * Recebido"; earlier lines stay.
   */
  lemma {:induction false} SweepLines(t: RecTable, l: Ledger, methods: map<nat, PaymentMethod>, today: Date, now: string)
    requires Valid(today) && FourDigitYear(today)
    requires Settled(t, methods, today).Some?
    ensures AppendsSettlements(SweepEffect(t, l, methods, today, now, {}).1, l, Settled(t, methods, today).value, now, today)
  {
    var picked := Settled(t, methods, today).value;
    assert SweepEffect(t, l, methods, today, now, {}).1 == l.Insert(LinesOf(picked, now, today));
    InsertSettlements(l, picked, now, today);
  }

  /** When no pending receivable settles today, nothing is written. */
  lemma {:induction false} SweepIdle(t: RecTable, l: Ledger, methods: map<nat, PaymentMethod>, today: Date, now: string,
                  faults: set<SweepStep>)
    requires Valid(today) && FourDigitYear(today)
    requires forall i :: 0 <= i < |t.rows| ==> !(IsCandidate(t.rows[i], today) && Settles(t.rows[i], methods, today))
    ensures SweepEffect(t, l, methods, today, now, faults) == (t, l)
  {
    var p := Settled(t, methods, today);
    if p.Some? && |p.value| > 0 {
      SettledRows(t, methods, today, p.value[0]);
    }
  }

  /** A candidate without a payment method makes the sweep throw before any write. */
  lemma {:induction false} SweepWithoutMethod(t: RecTable, l: Ledger, methods: map<nat, PaymentMethod>, today: Date, now: string,
                           faults: set<SweepStep>, i: nat)
    requires Valid(today) && FourDigitYear(today)
    requires i < |t.rows| && IsCandidate(t.rows[i], today) && MethodOf(t.rows[i], methods).None?
    ensures SweepEffect(t, l, methods, today, now, faults) == (t, l)
  {
    var due := t.Select(Candidates(today));
    CandidateRows(t, today, t.rows[i]);
    var k :| 0 <= k < |due| && due[k] == t.rows[i];
  }

  /** A failed line insert throws before the status update: nothing is written at all. */
  lemma {:induction false} SweepInsertFails(t: RecTable, l: Ledger, methods: map<nat, PaymentMethod>, today: Date, now: string,
                         faults: set<SweepStep>)
    requires Valid(today) && FourDigitYear(today) && InsertLines in faults
    ensures SweepEffect(t, l, methods, today, now, faults) == (t, l)
  {
  }

  /** Line `k` of the lines is the settlement line of receivable `k`. */
  lemma {:induction false} LinesOfRow(picked: seq<Receivable>, now: string, today: Date, k: nat)
    requires Valid(today) && FourDigitYear(today) && k < |picked|
    ensures |LinesOf(picked, now, today)| == |picked|
    ensures LinesOf(picked, now, today)[k] == SettlementLine(picked[k], now, today)
  {
  }

  /** Two inserts of equally long batches linked pairwise to the same receivables. */
  lemma {:induction false} InsertedPairwise(l: Ledger, a: seq<Statement>, b: seq<Statement>)
    requires |a| == |b| && forall k :: 0 <= k < |a| ==> a[k].receivableId == b[k].receivableId
    ensures var l2 := l.Insert(a).Insert(b);
      && |l2.rows| == |l.rows| + 2 * |a|
      && forall j :: |l.rows| <= j < |l.rows| + |a| ==> l2.rows[j].receivableId == l2.rows[j + |a|].receivableId
  {
    var n := |a|;
    var l1 := l.Insert(a);
    var l2 := l1.Insert(b);
    forall j | |l.rows| <= j < |l.rows| + n
      ensures l2.rows[j].receivableId == l2.rows[j + n].receivableId
    {
      assert l2.rows[j] == l1.rows[j];
      assert l1.rows[j] == a[j - |l.rows|].(id := l.nextId + j - |l.rows|);
      assert l2.rows[j + n] == b[j + n - |l1.rows|].(id := l1.nextId + j + n - |l1.rows|);
    }
  }

  /** Inserting the lines of the same receivables twice links each second copy to the same receivable as the first. */
  lemma {:induction false} InsertedTwice(l: Ledger, picked: seq<Receivable>, now: string, later: string, today: Date)
    requires Valid(today) && FourDigitYear(today)
    ensures var l2 := l.Insert(LinesOf(picked, now, today)).Insert(LinesOf(picked, later, today));
      && |l2.rows| == |l.rows| + 2 * |picked|
      && forall j :: |l.rows| <= j < |l.rows| + |picked| ==> l2.rows[j].receivableId == l2.rows[j + |picked|].receivableId
  {
    var a, b := LinesOf(picked, now, today), LinesOf(picked, later, today);
    forall k | 0 <= k < |a| ensures a[k].receivableId == b[k].receivableId {
      LinesOfRow(picked, now, today, k);
      LinesOfRow(picked, later, today, k);
    }
    InsertedPairwise(l, a, b);
  }

  /**
   * A failed status update leaves the lines in and the receivables pending,
   * so the next run on the same day inserts the same lines a second time.
   */
  lemma {:induction false} SweepRetryDuplicates(t: RecTable, l: Ledger, methods: map<nat, PaymentMethod>, today: Date, now: string,
                             later: string)
    requires Valid(today) && FourDigitYear(today)
    requires Settled(t, methods, today).Some? && |Settled(t, methods, today).value| > 0
    ensures var (t1, l1) := SweepEffect(t, l, methods, today, now, {UpdateReceived});
      var (_, l2) := SweepEffect(t1, l1, methods, today, later, {});
      var n := |Settled(t, methods, today).value|;
      && t1 == t
      && |l2.rows| == |l.rows| + 2 * n
      && forall j :: |l.rows| <= j < |l.rows| + n ==> l2.rows[j].receivableId == l2.rows[j + n].receivableId
  {
    var picked := Settled(t, methods, today).value;
    var l1 := l.Insert(LinesOf(picked, now, today));
    assert SweepEffect(t, l, methods, today, now, {UpdateReceived}) == (t, l1);
    assert SweepEffect(t, l1, methods, today, later, {}).1 == l1.Insert(LinesOf(picked, later, today));
    InsertedTwice(l, picked, now, later, today);
  }

  /** A settled receivable is no longer pending, so a second run on the same day writes nothing. */
  lemma {:induction false} SweepIdempotent(t: RecTable, l: Ledger, methods: map<nat, PaymentMethod>, today: Date,
                                           now: string, later: string)
    requires Valid(today) && FourDigitYear(today) && t.Valid()
    ensures var (t1, l1) := SweepEffect(t, l, methods, today, now, {});
      SweepEffect(t1, l1, methods, today, later, {}) == (t1, l1)
  {
    var (t1, l1) := SweepEffect(t, l, methods, today, now, {});
    if Settled(t, methods, today).Some? {
      SweepSettlesExactly(t, l, methods, today, now);
      forall i | 0 <= i < |t1.rows| ensures !(IsCandidate(t1.rows[i], today) && Settles(t1.rows[i], methods, today)) {
      }
      SweepIdle(t1, l1, methods, today, later, {});
    } else {
      assert (t1, l1) == (t, l);
    }
  }

  /** With non-negative settlement days, a receivable that settles today is dated today or earlier, so the date filter loses none. */
  lemma {:induction false} SettlingIsDue(r: Receivable, methods: map<nat, PaymentMethod>, today: Date)
    requires Settles(r, methods, today) && MethodOf(r, methods).value.settlementDays >= 0
    ensures NotAfter(r.paymentDate, today)
  {
    var k := MethodOf(r, methods).value.settlementDays;
    if k > 0 {
      AddDaysForward(r.paymentDate, k);
    }
  }

  // ------------------------------------------------------------ the cron job

  /** The two tables the sweep writes. */
  class SettlementBooks {
    var receivables: RecTable
    var ledger: Ledger

    constructor (t: RecTable, l: Ledger)
      ensures receivables == t && ledger == l
    {
      receivables := t;
      ledger := l;
    }

    /** `updatePaidReceivables`. */
    method UpdatePaidReceivables(methods: map<nat, PaymentMethod>, today: Date, now: string, faults: set<SweepStep>)
      requires Valid(today) && FourDigitYear(today)
      modifies this
      ensures (receivables, ledger) == SweepEffect(old(receivables), old(ledger), methods, today, now, faults)
    {
      if SelectDue in faults {
        return;
      }
      var picked := Settled(receivables, methods, today);
      if picked.None? || |picked.value| == 0 || InsertLines in faults {
        return;
      }
      ledger := ledger.Insert(LinesOf(picked.value, now, today));
      if UpdateReceived in faults {
        return;
      }
      receivables := MarkReceived(receivables, picked.value);
    }
  }
}
