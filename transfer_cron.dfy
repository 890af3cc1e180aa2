/**
 * The transfer cron: every PENDING transfer dated today is sent to the bank
 * as a one-entry transfer batch under a fresh request number, and its
 * statement lines are written once the transfer is marked COMPLETED. One
 * transfer's failure does not stop the others.
 */
module TransferCron {
  import opened Wrappers
  import opened Dates
  import opened DateText
  import opened BankDates
  import opened Statements
  import opened Transfers
  import opened BatchPayments

  // -------------------------------------------------------------- the counter

  /** `getNumReq`: the stored request number is returned and the stored one moves on by one. */
  function NumReqEffect(counter: int, readFails: bool, writeFails: bool): (int, Option<int>) {
    if readFails || writeFails then (counter, None) else (counter + 1, Some(counter))
  }

  /** Each successful call hands out the number it finds and leaves the next one behind, so two calls never share a number. */
  lemma {:induction false} NumReqFresh(counter: int)
    ensures NumReqEffect(counter, false, false) == (counter + 1, Some(counter))
    ensures var (c1, n1) := NumReqEffect(counter, false, false);
      var (c2, n2) := NumReqEffect(c1, false, false);
      n1.Some? && n2.Some? && n1.value < n2.value && c2 == counter + 2
  {
  }

  // ---------------------------------------------------------------- the payload

  datatype Account = Account(id: string, branch: string, account: string, digit: Option<string>, cnpjId: string)

  /** The debit side of the payload. */
  datatype Header = Header(agenciaDebito: string, contaCorrenteDebito: string,
                           digitoVerificadorContaCorrente: string, tipoPagamento: int)

  /** The one credit leg of the payload. */
  datatype CreditLeg = CreditLeg(agenciaCredito: string, contaCorrenteCredito: string,
                                 digitoVerificadorContaCorrente: string, dataTransferencia: string,
                                 numeroCOMPE: string, codigoFinalidadeTED: int, valorTransferencia: real,
                                 cnpjBeneficiario: string)

  const PaymentKindTransfer: int := 128
  const BeneficiaryCnpj: string := "83645297000170"

  /** `digit || "X"`. */
  function CheckDigit(a: Account): string {
    if a.digit.Some? && a.digit.value != "" then a.digit.value else "X"
  }

  /** `split("-").reverse().join("")` of the ten-character `YYYY-MM-DD` text `toISOString` starts with. */
  function DayFirst(iso: string): (r: string)
    requires |iso| == 10
    ensures |r| == 8
  {
    iso[8..10] + iso[5..7] + iso[..4]
  }

  /** The transfer date goes to the bank in the same `DDMMYYYY` form as the statement dates, and reads back as the same day. */
  lemma {:induction false} DayFirstIsBankForm(d: Date)
    requires FeedYear(d)
    ensures DayFirst(IsoDate(d)) == ToDDMMYYYY(d)
    ensures FromDDMMYYYY(DayFirst(IsoDate(d))) == IsoDate(d)
  {
    var y, m, dd := Pad4(d.Year()), Pad2(d.MonthOfYear()), Pad2(d.day);
    var s := IsoDate(d);
    assert s == y + "-" + m + "-" + dd;
    assert s[8..10] == dd && s[5..7] == m && s[..4] == y;
    FourDigits(d.Year());
    DDMMYYYYRoundTrip(d);
  }

  function TransferPayload(t: Transfer, source: Account, destination: Account, date: string, numReq: int)
    : Payload<Header, CreditLeg>
  {
    var leg := CreditLeg(destination.branch, destination.account, CheckDigit(destination), date,
                         "12", 1, t.value, BeneficiaryCnpj);
    Payload(Some([Entry(Some(if t.userId.Some? then t.userId.value else ""), Some(t.id), leg)]),
            None, None, Some(numReq),
            Header(source.branch, source.account, CheckDigit(source), PaymentKindTransfer))
  }

  /**
   * The payload pays with type 128, falls back to "X" for a missing check
   * digit, and holds exactly one leg, which names the transfer itself as
   * the payment to settle and carries its value and date.
   */
  lemma {:induction false} PayloadShape(t: Transfer, source: Account, destination: Account, date: string, numReq: int)
    ensures var p := TransferPayload(t, source, destination, date, numReq);
      && p.header.tipoPagamento == 128
      && (source.digit.None? ==> p.header.digitoVerificadorContaCorrente == "X")
      && p.entries.Some? && |p.entries.value| == 1
      && p.entries.value[0].paymentId == Some(t.id)
      && p.entries.value[0].rest.valorTransferencia == t.value
      && p.entries.value[0].rest.dataTransferencia == date
      && (destination.digit.None? ==> p.entries.value[0].rest.digitoVerificadorContaCorrente == "X")
      && p.paymentId.None? && p.numeroRequisicao == Some(numReq)
      && SplitPayload(p).paymentIds == [Some(t.id)]
  {
    SplitFromEntries(TransferPayload(t, source, destination, date, numReq));
  }

  // ---------------------------------------------------------- the statements

  /** `createStatement`: a RECONCILED line dated today; its errors are logged, never thrown. */
  function CronLine(account: string, kind: TxType, notes: string, t: Transfer, today: string): Statement {
    Statement(0, account, today, today, kind, notes, None, t.value, Reconciled,
              t.customerName, None, None, None, None, t.createdBy.GetOr(""))
  }

  function TestNotes(t: Transfer): string {
    t.description + " - Transferência TESTE"
  }

  // ----------------------------------------------------------- one transfer

  /** The calls made for one transfer that may fail. */
  datatype CronStep = ReadCounter | WriteCounter | TestInsert | MarkTransfer | CompleteTransfer | CreditInsert | DebitInsert

  /** What the world answers while one transfer is processed. */
  datatype TransferEnv = TransferEnv(faults: set<CronStep>, lote: BankAnswer, release: BankAnswer)

  datatype CronState = CronState(counter: int, transfers: TransferTable, ledger: Ledger)

  function InsertIf(l: Ledger, s: Statement, fails: bool): Ledger {
    if fails then l else l.Insert([s])
  }

  /**
   * One pass of the loop body. A failed counter call, a missing destination
   * or source account, or a date `toISOString` rejects throws before the
   * test line; the helper throwing skips the rest; a failed COMPLETED write
   * skips the two lines.
   */
  function ProcessOne(s: CronState, t: Transfer, accounts: map<string, Account>, today: string, env: TransferEnv)
    : CronState
  {
    var (counter, numReq) := NumReqEffect(s.counter, ReadCounter in env.faults, WriteCounter in env.faults);
    if numReq.None? then s
    else
      var s1 := s.(counter := counter);
      var day := ParseIso(t.date);
      if t.destination !in accounts || t.source !in accounts || day.None? then s1
      else
        SendEffect(s1, t, accounts[t.source], accounts[t.destination], day.value, numReq.value, today, env)
  }

  /**
   * The rest of the pass once the request number, the accounts and the date
   * are in hand: the test line, the bank call through the helper, the
   * COMPLETED status and the two lines.
   */
  function SendEffect(s1: CronState, t: Transfer, source: Account, destination: Account, day: Date, numReq: int,
                      today: string, env: TransferEnv): CronState
    requires Valid(day) && FourDigitYear(day)
  {
    var payload := TransferPayload(t, source, destination, DayFirst(IsoDate(day)), numReq);
    var l1 := InsertIf(s1.ledger, CronLine(source.id, Debit, TestNotes(t), t, today), TestInsert in env.faults);
    var (marked, out) := HelperEffect(Some(payload), env.lote, env.release, s1.transfers, MarkTransfer in env.faults);
    if out == HelperThrew then s1.(ledger := l1)
    else if CompleteTransfer in env.faults then s1.(transfers := marked, ledger := l1)
    else
      var l2 := InsertIf(l1, CronLine(destination.id, Credit, t.description, t, today), CreditInsert in env.faults);
      var l3 := InsertIf(l2, CronLine(source.id, Debit, t.description, t, today), DebitInsert in env.faults);
      s1.(transfers := marked.Restatus([t.id], TransferCompleted), ledger := l3)
  }

  function EnvAt(envs: seq<TransferEnv>, i: nat): TransferEnv {
    if i < |envs| then envs[i] else TransferEnv({}, Answered(None, 200), Answered(None, 200))
  }

  /** The loop over the transfers selected at the start; every transfer is tried whatever happened to the earlier ones. */
  function ProcessAll(s: CronState, pending: seq<Transfer>, accounts: map<string, Account>, today: string,
                      envs: seq<TransferEnv>): CronState
    decreases |pending|
  {
    if |pending| == 0 then s
    else
      var n := |pending| - 1;
      ProcessOne(ProcessAll(s, pending[..n], accounts, today, envs), pending[n], accounts, today, EnvAt(envs, n))
  }

  /** `processPendingTransfers`: a failed or empty selection ends the run with no write. */
  function CronEffect(s: CronState, accounts: map<string, Account>, today: string, selectFails: bool,
                      envs: seq<TransferEnv>): CronState
  {
    if selectFails then s
    else
      var pending := s.transfers.DueToday(today);
      if |pending| == 0 then s else ProcessAll(s, pending, accounts, today, envs)
  }

  /** With no PENDING transfer dated today nothing is written. */
  lemma {:induction false} CronIdleWhenNothingDue(s: CronState, accounts: map<string, Account>, today: string, selectFails: bool,
                               envs: seq<TransferEnv>)
    requires forall i :: 0 <= i < |s.transfers.rows| ==>
      s.transfers.rows[i].status != TransferPending || s.transfers.rows[i].date != today
    ensures CronEffect(s, accounts, today, selectFails, envs) == s
  {
  }

  /**
   * A transfer whose bank call goes through: one request number is used,
   * the transfer becomes COMPLETED, and three RECONCILED lines dated today
   * follow in order: the test DEBIT on the source, the CREDIT on the
   * destination and the DEBIT on the source.
   */
  lemma {:induction false} ProcessOneSucceeds(s: CronState, t: Transfer, accounts: map<string, Account>, today: string, d: Date)
    requires t.source in accounts && t.destination in accounts && ParseIso(t.date) == Some(d)
    requires s.counter != 0
    ensures var after := ProcessOne(s, t, accounts, today, TransferEnv({}, Answered(None, 200), Answered(None, 200)));
      var source, destination := accounts[t.source], accounts[t.destination];
      && after.counter == s.counter + 1
      && after.ledger == s.ledger.Insert([CronLine(source.id, Debit, TestNotes(t), t, today)])
                                 .Insert([CronLine(destination.id, Credit, t.description, t, today)])
                                 .Insert([CronLine(source.id, Debit, t.description, t, today)])
      && |after.transfers.rows| == |s.transfers.rows|
      && forall i :: 0 <= i < |s.transfers.rows| ==>
           after.transfers.rows[i] ==
             if s.transfers.rows[i].id == t.id then s.transfers.rows[i].(status := TransferCompleted) else s.transfers.rows[i]
  {
    var env := TransferEnv({}, Answered(None, 200), Answered(None, 200));
    var source, destination := accounts[t.source], accounts[t.destination];
    var s1 := s.(counter := s.counter + 1);
    assert ProcessOne(s, t, accounts, today, env) == SendEffect(s1, t, source, destination, d, s.counter, today, env);
    SendSucceeds(s1, t, source, destination, d, s.counter, today);
  }

  /** With a request number and no failure, the transfer is marked COMPLETED and its three lines follow. */
  lemma {:induction false} SendSucceeds(s1: CronState, t: Transfer, source: Account, destination: Account, d: Date,
                                        numReq: int, today: string)
    requires Valid(d) && FourDigitYear(d) && numReq != 0
    ensures var after := SendEffect(s1, t, source, destination, d, numReq, today,
                                    TransferEnv({}, Answered(None, 200), Answered(None, 200)));
      && after.counter == s1.counter
      && after.ledger == s1.ledger.Insert([CronLine(source.id, Debit, TestNotes(t), t, today)])
                                  .Insert([CronLine(destination.id, Credit, t.description, t, today)])
                                  .Insert([CronLine(source.id, Debit, t.description, t, today)])
      && |after.transfers.rows| == |s1.transfers.rows|
      && forall i :: 0 <= i < |s1.transfers.rows| ==>
           after.transfers.rows[i] ==
             if s1.transfers.rows[i].id == t.id then s1.transfers.rows[i].(status := TransferCompleted) else s1.transfers.rows[i]
  {
    var payload := TransferPayload(t, source, destination, DayFirst(IsoDate(d)), numReq);
    HelperMarksEntry(payload, payload.entries.value[0], t.id, numReq, s1.transfers);
  }

  /**
   * When the helper throws, the transfer stays as it was and only the
   * counter and the test line remain: the next run tries it again with a
   * new request number and writes another test line.
   */
  lemma {:induction false} ProcessOneBankFails(s: CronState, t: Transfer, accounts: map<string, Account>, today: string, env: TransferEnv)
    requires t.source in accounts && t.destination in accounts && ParseIso(t.date).Some?
    requires env.faults == {} && env.lote.BankError?
    ensures var after := ProcessOne(s, t, accounts, today, env);
      && after.counter == s.counter + 1
      && after.transfers == s.transfers
      && after.ledger == s.ledger.Insert([CronLine(accounts[t.source].id, Debit, TestNotes(t), t, today)])
  {
  }

  /** A request number of zero counts as missing, so the transfer that draws it fails after its test line. */
  lemma {:induction false} ZeroRequestNumberFails(s: CronState, t: Transfer, accounts: map<string, Account>, today: string)
    requires t.source in accounts && t.destination in accounts && ParseIso(t.date).Some?
    requires s.counter == 0
    ensures var after := ProcessOne(s, t, accounts, today, TransferEnv({}, Answered(None, 200), Answered(None, 200)));
      after.transfers == s.transfers && after.counter == 1
  {
  }

  /** Whatever happens to one transfer, the loop goes on to the next: the run is the passes one after another. */
  lemma {:induction false} ProcessAllSteps(s: CronState, pending: seq<Transfer>, t: Transfer, accounts: map<string, Account>,
                        today: string, envs: seq<TransferEnv>)
    ensures ProcessAll(s, pending + [t], accounts, today, envs) ==
      ProcessOne(ProcessAll(s, pending, accounts, today, envs), t, accounts, today, EnvAt(envs, |pending|))
  {
    assert (pending + [t])[..|pending|] == pending;
  }

  // ---------------------------------------------------------------- the job

  /** The tables the transfer cron touches. */
  class TransferDesk {
    var counter: int
    var transfers: TransferTable
    var ledger: Ledger

    function State(): CronState
      reads this
    {
      CronState(counter, transfers, ledger)
    }

    constructor (s: CronState)
      ensures State() == s
    {
      counter, transfers, ledger := s.counter, s.transfers, s.ledger;
    }

    /** `getNumReq`: read, then write the next number; either call failing throws. */
    method GetNumReq(readFails: bool, writeFails: bool) returns (numReq: Option<int>)
      modifies this
      ensures (counter, numReq) == NumReqEffect(old(counter), readFails, writeFails)
      ensures transfers == old(transfers) && ledger == old(ledger)
    {
      if readFails {
        return None;
      }
      var n := counter;
      if writeFails {
        return None;
      }
      counter := n + 1;
      numReq := Some(n);
    }

    /** `createStatement`. */
    method CreateStatement(line: Statement, fails: bool)
      modifies this
      ensures ledger == InsertIf(old(ledger), line, fails)
      ensures counter == old(counter) && transfers == old(transfers)
    {
      if !fails {
        ledger := ledger.Insert([line]);
      }
    }

    /** The body of the loop, for one transfer. */
    method ProcessTransfer(t: Transfer, accounts: map<string, Account>, today: string, env: TransferEnv)
      modifies this
      ensures State() == ProcessOne(old(State()), t, accounts, today, env)
    {
      var numReq := GetNumReq(ReadCounter in env.faults, WriteCounter in env.faults);
      if numReq.None? {
        return;
      }
      if t.destination !in accounts || t.source !in accounts {
        return;
      }
      var day := ParseIso(t.date);
      if day.None? {
        return;
      }
      Send(t, accounts[t.source], accounts[t.destination], day.value, numReq.value, today, env);
    }

    /** The test line, the helper, the COMPLETED status and the two lines. */
    method Send(t: Transfer, source: Account, destination: Account, day: Date, numReq: int, today: string,
                env: TransferEnv)
      requires Valid(day) && FourDigitYear(day)
      modifies this
      ensures State() == SendEffect(old(State()), t, source, destination, day, numReq, today, env)
    {
      var payload := TransferPayload(t, source, destination, DayFirst(IsoDate(day)), numReq);
      CreateStatement(CronLine(source.id, Debit, TestNotes(t), t, today), TestInsert in env.faults);
      var (marked, out) := HelperEffect(Some(payload), env.lote, env.release, transfers, MarkTransfer in env.faults);
      if out == HelperThrew {
        return;
      }
      transfers := marked;
      if CompleteTransfer in env.faults {
        return;
      }
      transfers := transfers.Restatus([t.id], TransferCompleted);
      CreateStatement(CronLine(destination.id, Credit, t.description, t, today), CreditInsert in env.faults);
      CreateStatement(CronLine(source.id, Debit, t.description, t, today), DebitInsert in env.faults);
    }

    /** `processPendingTransfers`. */
    method ProcessPendingTransfers(accounts: map<string, Account>, today: string, selectFails: bool,
                                   envs: seq<TransferEnv>)
      modifies this
      ensures State() == CronEffect(old(State()), accounts, today, selectFails, envs)
    {
      if selectFails {
        return;
      }
      var pending := transfers.DueToday(today);
      if |pending| == 0 {
        return;
      }
      ghost var s0 := State();
      var i := 0;
      while i < |pending|
        invariant 0 <= i <= |pending|
        invariant State() == ProcessAll(s0, pending[..i], accounts, today, envs)
      {
        ProcessAllSteps(s0, pending[..i], pending[i], accounts, today, envs);
        assert pending[..i] + [pending[i]] == pending[..i + 1];
        ProcessTransfer(pending[i], accounts, today, EnvAt(envs, i));
        i := i + 1;
      }
      assert pending[..i] == pending;
    }
  }
}
