/**
 * Executing a payment: the payment is marked PAID, then a DEBIT line for it
 * is written to the bank statements. The two writes are separate; a failure
 * of the second leaves the first in place.
 */
module BankPayment {
  import opened Wrappers
  import opened Text
  import opened Payments
  import opened Statements

  /** The ways `executePayment` throws, in the order it can reach them. */
  datatype Failure = NoPaymentId | PaymentNotFound | StatusNotUpdated | StatementNotInserted

  datatype Outcome = Executed(payment: Payment) | Threw(failure: Failure)

  /** The store calls, each of which may fail. */
  datatype Step = SelectPayment | MarkPaid | InsertStatement

  /** JavaScript truthiness of a nullable number. */
  predicate Truthy(n: Option<int>) {
    n.Some? && n.value != 0
  }

  /** `(installment_number/installments)` when both are set, otherwise nothing. */
  function InstallmentSuffix(p: Payment): string {
    if Truthy(p.installments) && Truthy(p.installmentNumber)
    then "(" + IntText(p.installmentNumber.value) + "/" + IntText(p.installments.value) + ")"
    else ""
  }

  /** The statement line written for a paid payment; `today` is the clock's `YYYY-MM-DD`. */
  function DebitLine(p: Payment, userId: string, today: string): Statement {
    Statement(0, p.details.bankAccountId, today, today, Debit,
              p.description + " " + InstallmentSuffix(p), None, p.value,
              if p.details.categoryId.None? then StmtPending else Reconciled,
              Some(p.supplierName), p.details.categoryId, None, Some(p.id), None, userId)
  }

  /**
   * `executePayment`: a missing id or a lookup that does not find exactly one
   * row throws before any write; a failed status write throws before the
   * statement; a failed statement insert throws with the payment already PAID.
   */
  function ExecuteEffect(payments: Table, ledger: Ledger, paymentId: Option<nat>, userId: string, today: string,
                         faults: set<Step>): (Table, Ledger, Outcome)
  {
    if paymentId.None? then (payments, ledger, Threw(NoPaymentId))
    else
      var found := payments.Select([IdIs(paymentId.value)]);
      if SelectPayment in faults || |found| != 1 then (payments, ledger, Threw(PaymentNotFound))
      else if MarkPaid in faults then (payments, ledger, Threw(StatusNotUpdated))
      else
        var paid := payments.Update([IdIs(paymentId.value)], SetStatus(Paid));
        if InsertStatement in faults then (paid, ledger, Threw(StatementNotInserted))
        else (paid, ledger.Insert([DebitLine(found[0], userId, today)]), Executed(found[0]))
  }

  /** Without an id nothing is read or written. */
  lemma {:induction false} ExecuteNeedsId(payments: Table, ledger: Ledger, userId: string, today: string, faults: set<Step>)
    ensures ExecuteEffect(payments, ledger, None, userId, today, faults) == (payments, ledger, Threw(NoPaymentId))
  {
  }

  /** An id no row carries throws "Payment not found" and writes nothing. */
  lemma {:induction false} ExecuteUnknown(payments: Table, ledger: Ledger, id: nat, userId: string, today: string, faults: set<Step>)
    requires forall i :: 0 <= i < |payments.rows| ==> payments.rows[i].id != id
    ensures ExecuteEffect(payments, ledger, Some(id), userId, today, faults) == (payments, ledger, Threw(PaymentNotFound))
  {
    var found := payments.Select([IdIs(id)]);
    if |found| > 0 {
      MatchesOne(found[0], IdIs(id));
    }
  }

  /** In a table with distinct ids, the lookup by the id of row `k` finds exactly that row. */
  lemma {:induction false} FindsRow(payments: Table, k: nat)
    requires payments.Valid() && k < |payments.rows|
    ensures payments.Select([IdIs(payments.rows[k].id)]) == [payments.rows[k]]
  {
    var id := payments.rows[k].id;
    var found := payments.Select([IdIs(id)]);
    MatchesOne(payments.rows[k], IdIs(id));
    forall i | 0 <= i < |found| ensures found[i] == payments.rows[k] {
      MatchesOne(found[i], IdIs(id));
      var j :| 0 <= j < |payments.rows| && payments.rows[j] == found[i];
    }
    KeptIsFilter(payments.rows, [IdIs(id)], true);
    FilterDistinct(payments.rows, Matching([IdIs(id)]));
    var j :| 0 <= j < |found| && found[j] == payments.rows[k];
    if |found| > 1 {
      DistinctPair(found, 0, 1);
    }
  }

  lemma {:induction false} DistinctPair(s: seq<Payment>, i: int, j: int)
    requires DistinctIds(s) && 0 <= i < j < |s|
    ensures s[i].id != s[j].id
  {
  }

  /**
   * Without failure the payment with the id, and no other row, becomes PAID,
   * and exactly one statement line is appended: the DEBIT for that payment.
   */
  lemma {:induction false} ExecutePays(payments: Table, ledger: Ledger, k: nat, userId: string, today: string)
    requires payments.Valid() && k < |payments.rows|
    ensures var p := payments.rows[k];
      var (t, l, out) := ExecuteEffect(payments, ledger, Some(p.id), userId, today, {});
      && out == Executed(p)
      && |t.rows| == |payments.rows|
      && (forall i :: 0 <= i < |t.rows| ==>
            t.rows[i] == if payments.rows[i].id == p.id then payments.rows[i].(status := Paid) else payments.rows[i])
      && l == ledger.Insert([DebitLine(p, userId, today)])
  {
    var id := payments.rows[k].id;
    FindsRow(payments, k);
    forall i | 0 <= i < |payments.rows| {
      MatchesOne(payments.rows[i], IdIs(id));
    }
  }

  /** A failed statement insert leaves the payment PAID with no statement line for it. */
  lemma {:induction false} ExecuteHalfDone(payments: Table, ledger: Ledger, k: nat, userId: string, today: string)
    requires payments.Valid() && k < |payments.rows|
    ensures var (t, l, out) := ExecuteEffect(payments, ledger, Some(payments.rows[k].id), userId, today, {InsertStatement});
      out == Threw(StatementNotInserted) && l == ledger && t.rows[k].status == Paid
  {
    FindsRow(payments, k);
    MatchesOne(payments.rows[k], IdIs(payments.rows[k].id));
  }

  /**
   * The line is a DEBIT of the payment's value for its supplier, linked to
   * it, PENDING exactly when the payment has no category; its description is
   * the payment's, a space, and the installment suffix, which is there
   * exactly when both installment fields are set.
   */
  lemma {:induction false} DebitLineShape(p: Payment, userId: string, today: string)
    ensures var s := DebitLine(p, userId, today);
      && s.kind == Debit && s.value == p.value && s.beneficiary == Some(p.supplierName)
      && s.paymentId == Some(p.id) && s.date == today && s.valueDate == today
      && (s.status == StmtPending <==> p.details.categoryId.None?)
      && s.description[..|p.description| + 1] == p.description + " "
      && (|s.description| > |p.description| + 1 <==> Truthy(p.installments) && Truthy(p.installmentNumber))
  {
    var s := DebitLine(p, userId, today);
    assert s.description == (p.description + " ") + InstallmentSuffix(p);
  }

  /** The `Error` message each failure is thrown with; `detail` is the store's own message. */
  function Message(f: Failure, detail: string): string {
    match f
    case NoPaymentId => "Payment ID not provided"
    case PaymentNotFound => "Payment not found"
    case StatusNotUpdated => "Error updating payment status: " + detail
    case StatementNotInserted => "Error inserting bank statement: " + detail
  }

  /** The text the bank controller compares a thrown message with to answer 400, as written. */
  const MissingAsWritten := "Payment not provided"
  /** The text the service actually throws for a missing id. */
  const MissingThrown := "Payment ID not provided"

  /**
   * The status the bank controller's `executePayment` answers: 200 with the
   * result, otherwise 400 when the message is `missing`, 404 for "Payment not
   * found" and 500 for anything else.
   */
  function ReplyStatus(out: Outcome, detail: string, missing: string): int {
    match out
    case Executed(_) => 200
    case Threw(f) =>
      var m := Message(f, detail);
      if m == missing then 400 else if m == "Payment not found" then 404 else 500
  }

  /** The thrown messages other than the missing-id one never start with "Payment ID". */
  lemma {:induction false} MessagesDiffer(f: Failure, detail: string)
    ensures Message(f, detail) == MissingThrown <==> f == NoPaymentId
    ensures Message(f, detail) == "Payment not found" <==> f == PaymentNotFound
    ensures Message(f, detail) != MissingAsWritten
  {
    var m := Message(f, detail);
    if f.StatusNotUpdated? || f.StatementNotInserted? {
      assert m[0] == 'E';
    } else if f == PaymentNotFound {
      assert m[8] != MissingThrown[8];
    } else {
      assert m[8] != MissingAsWritten[8];
    }
  }

  /**
   * As written, the 400 branch is dead: no thrown message is "Payment not
   * provided", so a missing id answers 500 like a store failure.
   */
  lemma {:induction false} MissingIdAnswers500(out: Outcome, detail: string)
    ensures ReplyStatus(out, detail, MissingAsWritten) != 400
    ensures ReplyStatus(Threw(NoPaymentId), detail, MissingAsWritten) == 500
  {
    if out.Threw? {
      MessagesDiffer(out.failure, detail);
    }
    MessagesDiffer(NoPaymentId, detail);
  }

  /**
   * Compared with the message the service throws, the controller answers 400
   * exactly for a missing id, 404 exactly for an unknown one and 200 exactly
   * on success.
   */
  lemma {:induction false} ReplyStatusIntended(out: Outcome, detail: string)
    ensures ReplyStatus(out, detail, MissingThrown) == 400 <==> out == Threw(NoPaymentId)
    ensures ReplyStatus(out, detail, MissingThrown) == 404 <==> out == Threw(PaymentNotFound)
    ensures ReplyStatus(out, detail, MissingThrown) == 200 <==> out.Executed?
  {
    if out.Threw? {
      MessagesDiffer(out.failure, detail);
    }
  }

  /** `executePayment` over the two stores. */
  method ExecutePayment(store: PaymentStore, bank: StatementStore, paymentId: Option<nat>, userId: string,
                        today: string, faults: set<Step>) returns (out: Outcome)
    modifies store, bank
    ensures (store.State(), bank.State(), out) ==
      ExecuteEffect(old(store.State()), old(bank.State()), paymentId, userId, today, faults)
  {
    if paymentId.None? {
      return Threw(NoPaymentId);
    }
    var found := store.Select([IdIs(paymentId.value)], SelectPayment in faults);
    if found.None? || |found.value| != 1 {
      return Threw(PaymentNotFound);
    }
    var payment := found.value[0];
    var ok := store.Update([IdIs(paymentId.value)], SetStatus(Paid), MarkPaid in faults);
    if !ok {
      return Threw(StatusNotUpdated);
    }
    ok := bank.Insert([DebitLine(payment, userId, today)], InsertStatement in faults);
    if !ok {
      return Threw(StatementNotInserted);
    }
    out := Executed(payment);
  }

  /**
   * The bank controller's `executePayment` handler: it calls the service with
   * the body's id and user and answers with the status the thrown message maps to.
   */
  method HandleExecutePayment(store: PaymentStore, bank: StatementStore, paymentId: Option<nat>, userId: string,
                              today: string, detail: string, faults: set<Step>) returns (status: int)
    modifies store, bank
    ensures var (t, l, out) := ExecuteEffect(old(store.State()), old(bank.State()), paymentId, userId, today, faults);
      store.State() == t && bank.State() == l && status == ReplyStatus(out, detail, MissingAsWritten)
  {
    var out := ExecutePayment(store, bank, paymentId, userId, today, faults);
    status := ReplyStatus(out, detail, MissingAsWritten);
  }
}
