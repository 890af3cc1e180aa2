/**
 * Batch payments through the bank: a payload of boleto, Pix or transfer
 * entries is split into the bank's form and the list of payment ids it
 * settles, the batch is sent and released, and on release every payment is
 * flagged and executed in turn. The helper the transfer cron uses settles
 * `bank_transfers` rows instead.
 */
module BatchPayments {
  import opened Wrappers
  import opened Seqs
  import opened Payments
  import opened Statements
  import opened BankPayment
  import opened Transfers

  /** One list entry: the two fields the split takes out, and whatever else it carries. */
  datatype Entry<R> = Entry(userId: Option<string>, paymentId: Option<nat>, rest: R)

  /**
   * The request payload: its list (`None` when it is not an array), the
   * top-level ids, `numeroRequisicao`, and the bank-facing header fields.
   */
  datatype Payload<H, R> = Payload(
    entries: Option<seq<Entry<R>>>,
    paymentId: Option<nat>,
    userId: Option<string>,
    numeroRequisicao: Option<int>,
    header: H)

  /** The list is an array with at least one entry. */
  predicate HasEntries<H, R>(p: Option<Payload<H, R>>) {
    p.Some? && p.value.entries.Some? && |p.value.entries.value| > 0
  }

  /** What the split hands on: the payload for the bank, the ids to settle, the acting user. */
  datatype Split<H, R> = Split(payload: Payload<H, R>, paymentIds: seq<Option<nat>>, userId: Option<string>)

  function Stripped<R>(): Entry<R> -> Entry<R> {
    (e: Entry<R>) => e.(userId := None, paymentId := None)
  }

  function PaymentIdOf<R>(): Entry<R> -> Option<nat> {
    (e: Entry<R>) => e.paymentId
  }

  /** Several entries, or one and no top-level payment id: the ids come from the entries. */
  predicate FromEntries<H, R>(p: Payload<H, R>)
    requires p.entries.Some?
  {
    |p.entries.value| > 1 || (|p.entries.value| == 1 && p.paymentId.None?)
  }

  /** The split shared by all three handlers and the helper. */
  function SplitPayload<H, R>(p: Payload<H, R>): Split<H, R>
    requires p.entries.Some? && |p.entries.value| > 0
  {
    var es := p.entries.value;
    if FromEntries(p)
    then Split(p.(entries := Some(Map(es, Stripped()))), Map(es, PaymentIdOf()), es[0].userId)
    else Split(p.(userId := None, paymentId := None), [p.paymentId], p.userId)
  }

  /**
   * From the entries: the ids are the entries' ids in order, the user is the
   * first entry's, and every entry loses exactly its two ids.
   */
  lemma {:induction false} SplitFromEntries<H, R>(p: Payload<H, R>)
    requires p.entries.Some? && |p.entries.value| > 0 && FromEntries(p)
    ensures var s := SplitPayload(p);
      var es := p.entries.value;
      && |s.paymentIds| == |es|
      && (forall i :: 0 <= i < |es| ==> s.paymentIds[i] == es[i].paymentId)
      && s.userId == es[0].userId
      && s.payload.entries.Some? && |s.payload.entries.value| == |es|
      && (forall i :: 0 <= i < |es| ==>
            s.payload.entries.value[i] == Entry(None, None, es[i].rest))
      && s.payload.paymentId == p.paymentId && s.payload.userId == p.userId
      && s.payload.numeroRequisicao == p.numeroRequisicao && s.payload.header == p.header
  {
  }

  /**
   * One entry and a top-level id: that id alone is settled, the top-level
   * user acts, both are cleared from the payload, and the entry goes to the
   * bank unchanged, its own ids included.
   */
  lemma {:induction false} SplitFromTop<H, R>(p: Payload<H, R>)
    requires p.entries.Some? && |p.entries.value| > 0 && !FromEntries(p)
    ensures var s := SplitPayload(p);
      && |p.entries.value| == 1 && p.paymentId.Some?
      && s.paymentIds == [p.paymentId] && s.userId == p.userId
      && s.payload == p.(userId := None, paymentId := None)
      && s.payload.entries == p.entries
  {
  }

  /** Which handler: boleto and Pix read `numeroRequisicao` from the bank's answer, transfers from their own payload. */
  datatype Handler = InvoiceBatch | PixBatch | TransferBatch

  /** The bank's answer to a call: a body, or an error with or without a response and an `erros` list. */
  datatype BankAnswer = Answered(numeroRequisicao: Option<int>, status: int) | BankError(responded: bool, erros: bool)

  datatype Reply =
    | Status(code: int)   // an error status, or 200 for the success body
    | ErrosReply          // 200 with `error: true` and the bank's `erros`
    | NoReply             // the catch block itself throws

  /** `numeroRequisicao` counts as present when it is a non-zero number. */
  predicate Present(n: Option<int>) {
    n.Some? && n.value != 0
  }

  /** The request number the release uses. */
  function RequestNumber<H, R>(h: Handler, split: Split<H, R>, lote: BankAnswer): Option<int>
    requires lote.Answered?
  {
    if h == TransferBatch then split.payload.numeroRequisicao else lote.numeroRequisicao
  }

  /**
   * The catch block: an `erros` list in the bank's response is answered with
   * status 200; the Pix handler reads `error.response.data` without checking
   * that a response exists, so an error without one leaves it with no answer.
   */
  function Caught(h: Handler, responded: bool, erros: bool): Reply {
    if responded && erros then ErrosReply
    else if h == PixBatch && !responded then NoReply
    else Status(500)
  }

  function SomeIds(ids: seq<Option<nat>>): (r: seq<nat>)
    ensures forall x :: x in r <==> Some(x) in ids
  {
    if ids == [] then []
    else if ids[0].Some? then [ids[0].value] + SomeIds(ids[1..])
    else SomeIds(ids[1..])
  }

  function FaultsAt(faults: seq<set<Step>>, i: nat): set<Step> {
    if i < |faults| then faults[i] else {}
  }

  /**
   * `executePayment` for each id in order; the first one that throws ends the
   * loop, with the earlier ones' writes (and its own partial ones) kept.
   */
  function ExecuteAll(t: Table, l: Ledger, ids: seq<Option<nat>>, userId: string, today: string,
                      faults: seq<set<Step>>): (Table, Ledger, bool)
    decreases |ids|
  {
    if |ids| == 0 then (t, l, true)
    else
      var prior := ExecuteAll(t, l, ids[..|ids| - 1], userId, today, faults);
      if !prior.2 then prior
      else
        var step := ExecuteEffect(prior.0, prior.1, ids[|ids| - 1], userId, today, FaultsAt(faults, |ids| - 1));
        (step.0, step.1, step.2.Executed?)
  }

  /** Once an execution throws, later ids are never tried. */
  lemma {:induction false} ExecuteAllStops(t: Table, l: Ledger, ids: seq<Option<nat>>, k: nat, userId: string,
                                           today: string, faults: seq<set<Step>>)
    requires k <= |ids| && !ExecuteAll(t, l, ids[..k], userId, today, faults).2
    ensures ExecuteAll(t, l, ids, userId, today, faults) == ExecuteAll(t, l, ids[..k], userId, today, faults)
    decreases |ids| - k
  {
    if k < |ids| {
      var longer := ids[..k + 1];
      assert longer[..|longer| - 1] == ids[..k];
      ExecuteAllStops(t, l, ids, k + 1, userId, today, faults);
    } else {
      assert ids[..k] == ids;
    }
  }

  /**
   * A missing id throws "Payment ID not provided" before any write, so a
   * batch whose first id is missing settles nothing beyond the flag.
   */
  lemma {:induction false} ExecuteAllMissingFirst(t: Table, l: Ledger, ids: seq<Option<nat>>, userId: string, today: string,
                               faults: seq<set<Step>>)
    requires |ids| > 0 && ids[0].None?
    ensures ExecuteAll(t, l, ids, userId, today, faults) == (t, l, false)
  {
    var one := ids[..1];
    assert one[..0] == [];
    ExecuteAllStops(t, l, ids, 1, userId, today, faults);
  }

  /** After a release answered 200: flag the ids `COMPLETED` (the result is not checked), then execute each. */
  function SettleEffect(t: Table, l: Ledger, split: Split, today: string, flagFails: bool,
                        faults: seq<set<Step>>): (Table, Ledger, bool)
  {
    var flagged := if flagFails then t else t.Update([IdIn(SomeIds(split.paymentIds))], SetBankStatus("COMPLETED"));
    ExecuteAll(flagged, l, split.paymentIds, split.userId.GetOr(""), today, faults)
  }

  /**
   * One handler from the request to the reply. The bank's two answers, the
   * flag write and the executions are the parameters; token and account
   * lookups are left out.
   */
  function BatchEffect<H, R>(h: Handler, p: Option<Payload<H, R>>, lote: BankAnswer, release: BankAnswer,
                             t: Table, l: Ledger, today: string, flagFails: bool,
                             faults: seq<set<Step>>): (Table, Ledger, Reply)
  {
    if !HasEntries(p) then (t, l, Status(400))
    else
      var split := SplitPayload(p.value);
      if lote.BankError? then (t, l, Caught(h, lote.responded, lote.erros))
      else if !Present(RequestNumber(h, split, lote)) then (t, l, Status(400))
      else if release.BankError? then (t, l, Caught(h, release.responded, release.erros))
      else if release.status != 200 then (t, l, Status(200))
      else
        var (t2, l2, ok) := SettleEffect(t, l, split, today, flagFails, faults);
        (t2, l2, if ok then Status(200) else Caught(h, false, false))
  }

  /** A payload without a non-empty list is refused with 400 and nothing is called or written. */
  lemma {:induction false} BatchNeedsEntries<H, R>(h: Handler, p: Option<Payload<H, R>>, lote: BankAnswer, release: BankAnswer,
                                t: Table, l: Ledger, today: string, flagFails: bool, faults: seq<set<Step>>)
    requires !HasEntries(p)
    ensures BatchEffect(h, p, lote, release, t, l, today, flagFails, faults) == (t, l, Status(400))
  {
  }

  /**
   * Without a request number nothing is released or written, and the
   * answer is 400; the transfer handler takes the number from its own
   * payload, whatever the bank answered.
   */
  lemma {:induction false} BatchNeedsRequestNumber<H, R>(h: Handler, p: Option<Payload<H, R>>, lote: BankAnswer, release: BankAnswer,
                                      t: Table, l: Ledger, today: string, flagFails: bool, faults: seq<set<Step>>)
    requires HasEntries(p) && lote.Answered?
    requires !Present(if h == TransferBatch then p.value.numeroRequisicao else lote.numeroRequisicao)
    ensures BatchEffect(h, p, lote, release, t, l, today, flagFails, faults) == (t, l, Status(400))
  {
  }

  /**
   * After a release with status 200, exactly the rows whose ids the split
   * settles carry `bb_payment_status` COMPLETED before the first execution;
   * every other row is as it was.
   */
  lemma {:induction false} FlagExact(t: Table, split: Split)
    ensures var u := t.Update([IdIn(SomeIds(split.paymentIds))], SetBankStatus("COMPLETED"));
      && |u.rows| == |t.rows|
      && forall i :: 0 <= i < |t.rows| ==>
           u.rows[i] == if Some(t.rows[i].id) in split.paymentIds then t.rows[i].(bankStatus := Some("COMPLETED")) else t.rows[i]
  {
    var ids := SomeIds(split.paymentIds);
    forall i | 0 <= i < |t.rows| {
      MatchesOne(t.rows[i], IdIn(ids));
    }
  }

  /** The batch handler: validate, split, send, release, settle. */
  method CreateBatchPayment<H, R>(h: Handler, p: Option<Payload<H, R>>, lote: BankAnswer, release: BankAnswer,
                                  store: PaymentStore, bank: StatementStore, today: string, flagFails: bool,
                                  faults: seq<set<Step>>) returns (reply: Reply)
    modifies store, bank
    ensures (store.State(), bank.State(), reply) ==
      BatchEffect(h, p, lote, release, old(store.State()), old(bank.State()), today, flagFails, faults)
  {
    if !HasEntries(p) {
      return Status(400);
    }
    var split := SplitPayload(p.value);
    if lote.BankError? {
      return Caught(h, lote.responded, lote.erros);
    }
    if !Present(RequestNumber(h, split, lote)) {
      return Status(400);
    }
    if release.BankError? {
      return Caught(h, release.responded, release.erros);
    }
    if release.status != 200 {
      return Status(200);
    }
    var _ := store.Update([IdIn(SomeIds(split.paymentIds))], SetBankStatus("COMPLETED"), flagFails);
    var ok := ExecuteEach(store, bank, split.paymentIds, split.userId.GetOr(""), today, faults);
    reply := if ok then Status(200) else Caught(h, false, false);
  }

  /** The `for … of paymentIds` loop. */
  method ExecuteEach(store: PaymentStore, bank: StatementStore, ids: seq<Option<nat>>, userId: string,
                     today: string, faults: seq<set<Step>>) returns (ok: bool)
    modifies store, bank
    ensures (store.State(), bank.State(), ok) == ExecuteAll(old(store.State()), old(bank.State()), ids, userId, today, faults)
  {
    ghost var t0, l0 := store.State(), bank.State();
    var i := 0;
    while i < |ids|
      invariant 0 <= i <= |ids|
      invariant (store.State(), bank.State(), true) == ExecuteAll(t0, l0, ids[..i], userId, today, faults)
    {
      ghost var prefix := ids[..i + 1];
      assert prefix[..|prefix| - 1] == ids[..i];
      var out := ExecutePayment(store, bank, ids[i], userId, today, FaultsAt(faults, i));
      if out.Threw? {
        ExecuteAllStops(t0, l0, ids, i + 1, userId, today, faults);
        return false;
      }
      i := i + 1;
    }
    assert ids[..i] == ids;
    ok := true;
  }

  // ------------------------------------------------ the transfer cron's helper

  /** How the helper ends: with the bank's answer, or by throwing. */
  datatype HelperOutcome = HelperDone | HelperThrew

  /**
   * `createTransferBatchPaymentHelper`: the same split, the request number
   * from the payload, and on a 200 release the settled ids are marked
   * COMPLETED in `bank_transfers` (not `payments`); every error throws.
   */
  function HelperEffect<H, R>(p: Option<Payload<H, R>>, lote: BankAnswer, release: BankAnswer,
                              t: TransferTable, markFails: bool): (TransferTable, HelperOutcome)
  {
    if !HasEntries(p) then (t, HelperThrew)
    else
      var split := SplitPayload(p.value);
      if lote.BankError? || !Present(split.payload.numeroRequisicao) || release.BankError? then (t, HelperThrew)
      else if release.status == 200 && !markFails then (t.Restatus(SomeIds(split.paymentIds), TransferCompleted), HelperDone)
      else (t, HelperDone)
  }

  /**
   * For a payload of one entry and no top-level id, as the transfer cron
   * builds it, a 200 release marks exactly the transfer named by the entry.
   */
  lemma {:induction false} HelperMarksEntry<H, R>(p: Payload<H, R>, e: Entry<R>, id: nat, n: int, t: TransferTable)
    requires p.entries == Some([e]) && p.paymentId.None? && e.paymentId == Some(id)
    requires p.numeroRequisicao == Some(n) && n != 0
    ensures var (u, out) := HelperEffect(Some(p), Answered(None, 200), Answered(None, 200), t, false);
      && out == HelperDone && |u.rows| == |t.rows|
      && forall i :: 0 <= i < |t.rows| ==>
           u.rows[i] == if t.rows[i].id == id then t.rows[i].(status := TransferCompleted) else t.rows[i]
  {
    var split := SplitPayload(p);
    SplitFromEntries(p);
    assert split.paymentIds == [Some(id)];
    assert SomeIds(split.paymentIds) == [id];
  }
}
