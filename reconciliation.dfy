/**
 * Bank reconciliation: the bank feed becomes `reconciliation_statements`
 * rows (deduplicated against what is already there), unreconciled rows are
 * listed, candidate `bank_statements` rows are proposed for each pending row,
 * and a chosen pair is marked RECONCILED in two separate writes.
 */
module Reconciliation {
  import opened Wrappers
  import opened Seqs
  import opened Dates
  import opened Text
  import opened DateText
  import opened BankDates
  import opened Statements

  // ------------------------------------------------------------------ the feed

  /**
   * One `listaLancamento` entry: `dataLancamento` (a number, day first),
   * `numeroLote`, `numeroDocumento`, `indicadorSinalLancamento`, the two
   * description texts and `valorLancamento`.
   */
  datatype FeedEntry = FeedEntry(
    date: nat,
    batch: Option<int>,
    document: Option<string>,
    sign: string,
    history: string,
    complement: string,
    value: real)

  /** `created_by_id` when the request names no user. */
  const DefaultCreator: string := "b02d6e5f-13b4-452f-9b3d-7753a0145c55"

  /** `statement.numeroLote || statement.numeroDocumento`: a non-zero batch or a non-empty document. */
  predicate HasReference(e: FeedEntry) {
    (e.batch.Some? && e.batch.value != 0) || (e.document.Some? && e.document.value != "")
  }

  function Referenced(): FeedEntry -> bool {
    (e: FeedEntry) => HasReference(e)
  }

  /** The row one feed entry becomes. */
  function FeedRow(e: FeedEntry, account: string, userId: Option<string>): Statement {
    var date := FromDDMMYYYY(Digits(e.date));
    Statement(0, account, date, date, if e.sign == "C" then Credit else Debit,
              e.history + " " + e.complement, e.document, e.value, StmtPending,
              None, None, None, None, None,
              if userId.Some? && userId.value != "" then userId.value else DefaultCreator)
  }

  function FeedRowOf(account: string, userId: Option<string>): FeedEntry -> Statement {
    (e: FeedEntry) => FeedRow(e, account, userId)
  }

  /** `shift()` when the list is not empty. */
  function Shifted(feed: seq<FeedEntry>): seq<FeedEntry> {
    if |feed| > 0 then feed[1..] else feed
  }

  /** The rows `fetchBankStatement` hands on: first entry dropped, unreferenced entries skipped, the rest mapped. */
  function FeedRows(feed: seq<FeedEntry>, account: string, userId: Option<string>): seq<Statement> {
    Map(Filter(Shifted(feed), Referenced()), FeedRowOf(account, userId))
  }

  /**
   * A mapped row is PENDING, of the account, CREDIT exactly for sign "C",
   * described by the two texts around a space, and dated with the stored
   * form of the day the feed's number names.
   */
  lemma {:induction false} FeedRowShape(e: FeedEntry, account: string, userId: Option<string>, d: Date)
    requires FeedYear(d) && e.date == FeedNumber(d)
    ensures var r := FeedRow(e, account, userId);
      && r.account == account && r.status == StmtPending
      && (r.kind == Credit <==> e.sign == "C")
      && r.description == e.history + " " + e.complement
      && r.document == e.document && r.value == e.value
      && r.date == IsoDate(d) && r.valueDate == IsoDate(d)
  {
    FeedDateRead(d);
  }

  /** `x` is the row the `j`-th feed entry, a later one with a reference, becomes. */
  predicate RowOfEntry(feed: seq<FeedEntry>, j: int, x: Statement, account: string, userId: Option<string>) {
    1 <= j < |feed| && HasReference(feed[j]) && x == FeedRow(feed[j], account, userId)
  }

  /**
   * The first entry is never mapped for its own sake; every later entry with
   * a reference is mapped, and every row comes from such an entry.
   */
  lemma {:induction false} FeedRowsCover(feed: seq<FeedEntry>, account: string, userId: Option<string>)
    ensures |feed| > 0 ==> |FeedRows(feed, account, userId)| <= |feed| - 1
    ensures forall j :: 1 <= j < |feed| && HasReference(feed[j]) ==>
      FeedRow(feed[j], account, userId) in FeedRows(feed, account, userId)
    ensures forall x :: x in FeedRows(feed, account, userId) ==>
      exists j :: RowOfEntry(feed, j, x, account, userId)
  {
    forall j | 1 <= j < |feed| && HasReference(feed[j]) ensures FeedRow(feed[j], account, userId) in FeedRows(feed, account, userId) {
      FeedRowsHas(feed, account, userId, j);
    }
    forall x | x in FeedRows(feed, account, userId) ensures exists j :: RowOfEntry(feed, j, x, account, userId) {
      var i :| 0 <= i < |FeedRows(feed, account, userId)| && FeedRows(feed, account, userId)[i] == x;
      var j := FeedRowsFrom(feed, account, userId, i);
      assert RowOfEntry(feed, j, x, account, userId);
    }
  }

  lemma {:induction false} FeedRowsHas(feed: seq<FeedEntry>, account: string, userId: Option<string>, j: nat)
    requires 1 <= j < |feed| && HasReference(feed[j])
    ensures FeedRow(feed[j], account, userId) in FeedRows(feed, account, userId)
  {
    var kept := Filter(Shifted(feed), Referenced());
    assert Shifted(feed)[j - 1] == feed[j];
    assert Referenced()(feed[j]);
    assert feed[j] in kept;
    var k :| 0 <= k < |kept| && kept[k] == feed[j];
    assert FeedRows(feed, account, userId)[k] == FeedRowOf(account, userId)(kept[k]);
  }

  lemma {:induction false} FeedRowsFrom(feed: seq<FeedEntry>, account: string, userId: Option<string>, i: nat) returns (j: nat)
    requires i < |FeedRows(feed, account, userId)|
    ensures 1 <= j < |feed| && HasReference(feed[j]) && FeedRows(feed, account, userId)[i] == FeedRow(feed[j], account, userId)
  {
    var kept := Filter(Shifted(feed), Referenced());
    assert kept[i] in Shifted(feed) && Referenced()(kept[i]);
    var k :| 0 <= k < |Shifted(feed)| && Shifted(feed)[k] == kept[i];
    j := k + 1;
    assert feed[j] == kept[i];
    assert FeedRows(feed, account, userId)[i] == FeedRowOf(account, userId)(kept[i]);
  }

  // --------------------------------------------------------- sync windows

  /** The first day asked of the bank: the last sync, or 29 days back. */
  function FetchStart(lastSync: Option<Date>, today: Date): Date {
    if lastSync.Some? then lastSync.value else AddDays(today, -29)
  }

  /** The first day the dedupe looks at: the day before the last sync, or 29 days back. */
  function WindowStart(lastSync: Option<Date>, today: Date): Date {
    if lastSync.Some? then AddDays(lastSync.value, -1) else AddDays(today, -29)
  }

  /** Every day the bank is asked about lies inside the dedupe window. */
  lemma {:induction false} FetchInsideWindow(lastSync: Option<Date>, today: Date)
    ensures NotAfter(WindowStart(lastSync, today), FetchStart(lastSync, today))
    ensures lastSync.Some? ==> Before(WindowStart(lastSync, today), FetchStart(lastSync, today))
  {
    if lastSync.Some? {
      AddDaysBackward(lastSync.value, -1);
    }
  }

  // ---------------------------------------------------------------- dedupe

  /** The natural key of the dedupe: date, description, document and value; the type is not compared. */
  predicate SameKey(a: Statement, b: Statement) {
    a.date == b.date && a.description == b.description && a.document == b.document && a.value == b.value
  }

  predicate Seen(s: Statement, existing: seq<Statement>) {
    exists k :: 0 <= k < |existing| && SameKey(existing[k], s)
  }

  function Unseen(existing: seq<Statement>): Statement -> bool {
    (s: Statement) => !Seen(s, existing)
  }

  /** `newStatements`: everything when nothing exists, otherwise the rows with no existing row of the same key. */
  function NewStatements(batch: seq<Statement>, existing: seq<Statement>): seq<Statement> {
    if |existing| > 0 then Filter(batch, Unseen(existing)) else batch
  }

  /** A batch row is kept exactly when no existing row shares its key; the kept rows keep their order. */
  lemma {:induction false} NewStatementsExact(batch: seq<Statement>, existing: seq<Statement>)
    ensures NewStatements(batch, existing) == Filter(batch, Unseen(existing))
    ensures forall x :: x in NewStatements(batch, existing) <==> x in batch && !Seen(x, existing)
  {
    if |existing| == 0 {
      FilterKeepsAll(batch, Unseen(existing));
    }
    var r := NewStatements(batch, existing);
    forall x | x in batch && !Seen(x, existing) ensures x in r {
      var i :| 0 <= i < |batch| && batch[i] == x;
    }
  }

  /** The rows the dedupe compares against: the batch's account, from the window's first day. */
  function WindowKeys(batch: seq<Statement>, lastSync: Option<Date>, today: Date): seq<Key>
    requires |batch| > 0
  {
    [ByAccount(batch[0].account), FromDate(WindowStart(lastSync, today))]
  }

  /** The store calls of this controller, each of which may fail. */
  datatype Call = SelectBank | SelectRecon | InsertRecon | UpdateRecon | UpdateBank | UpdateAccount

  /**
   * `insertBankStatement`: nothing for an empty batch; a failed lookup reads
   * as no existing rows; nothing when no row is new; a failed insert is
   * logged and swallowed.
   */
  function ImportEffect(recon: Ledger, batch: seq<Statement>, lastSync: Option<Date>, today: Date,
                        faults: set<Call>): Ledger
  {
    if |batch| == 0 then recon
    else
      var existing := if SelectRecon in faults then [] else recon.Select(WindowKeys(batch, lastSync, today));
      var newRows := NewStatements(batch, existing);
      if |newRows| == 0 || InsertRecon in faults then recon else recon.Insert(newRows)
  }

  /** A stored row that passes the lookup's filters makes every row of its key seen. */
  lemma {:induction false} StoredIsSeen(t: Ledger, keys: seq<Key>, x: Statement, s: Statement)
    requires x in t.rows && FitsAll(x, keys) && SameKey(x, s)
    ensures Seen(s, t.Select(keys))
  {
    var k :| 0 <= k < |t.Select(keys)| && t.Select(keys)[k] == x;
  }

  /** The window's filters read the account and the date, never the id. */
  lemma {:induction false} InWindow(batch: seq<Statement>, lastSync: Option<Date>, today: Date, s: Statement, id: nat)
    requires |batch| > 0 && s.account == batch[0].account
    requires Fits(s, FromDate(WindowStart(lastSync, today)))
    ensures FitsAll(s.(id := id), WindowKeys(batch, lastSync, today))
  {
    var keys := WindowKeys(batch, lastSync, today);
    forall j | 0 <= j < |keys| ensures Fits(s.(id := id), keys[j]) {
      assert Fits(s, keys[j]);
    }
  }

  /** A batch row inside the window is seen on the lookup right after a fault-free import. */
  lemma {:induction false} SeenAfterImport(recon: Ledger, batch: seq<Statement>, lastSync: Option<Date>, today: Date, s: Statement)
    requires |batch| > 0 && s in batch && s.account == batch[0].account
    requires Fits(s, FromDate(WindowStart(lastSync, today)))
    ensures Seen(s, ImportEffect(recon, batch, lastSync, today, {}).Select(WindowKeys(batch, lastSync, today)))
  {
    var keys := WindowKeys(batch, lastSync, today);
    if Seen(s, recon.Select(keys)) {
      SeenBefore(recon, batch, lastSync, today, s);
    } else {
      SeenOnceInserted(recon, batch, lastSync, today, s);
    }
  }

  /** A row already seen stays seen: the import only appends. */
  lemma {:induction false} SeenBefore(recon: Ledger, batch: seq<Statement>, lastSync: Option<Date>, today: Date, s: Statement)
    requires |batch| > 0 && Seen(s, recon.Select(WindowKeys(batch, lastSync, today)))
    ensures Seen(s, ImportEffect(recon, batch, lastSync, today, {}).Select(WindowKeys(batch, lastSync, today)))
  {
    var keys := WindowKeys(batch, lastSync, today);
    var existing := recon.Select(keys);
    var newRows := NewStatements(batch, existing);
    var k :| 0 <= k < |existing| && SameKey(existing[k], s);
    var x := existing[k];
    assert x in recon.rows && FitsAll(x, keys);
    if |newRows| > 0 {
      InsertKeeps(recon, newRows, x);
    }
    StoredIsSeen(ImportEffect(recon, batch, lastSync, today, {}), keys, x, s);
  }

  /** A batch row inside the window not seen before is inserted, and the lookup then finds it. */
  lemma {:induction false} SeenOnceInserted(recon: Ledger, batch: seq<Statement>, lastSync: Option<Date>, today: Date, s: Statement)
    requires |batch| > 0 && s in batch && s.account == batch[0].account
    requires Fits(s, FromDate(WindowStart(lastSync, today)))
    requires !Seen(s, recon.Select(WindowKeys(batch, lastSync, today)))
    ensures Seen(s, ImportEffect(recon, batch, lastSync, today, {}).Select(WindowKeys(batch, lastSync, today)))
  {
    var keys := WindowKeys(batch, lastSync, today);
    var existing := recon.Select(keys);
    var newRows := NewStatements(batch, existing);
    NewStatementsExact(batch, existing);
    assert s in newRows;
    var i :| 0 <= i < |newRows| && newRows[i] == s;
    InWindow(batch, lastSync, today, s, recon.nextId + i);
    InsertedIsSeen(recon, newRows, i, keys);
    assert ImportEffect(recon, batch, lastSync, today, {}) == recon.Insert(newRows);
  }

  /** An inserted row that passes the lookup's filters under its new id is found by that lookup. */
  lemma {:induction false} InsertedIsSeen(t: Ledger, newRows: seq<Statement>, i: nat, keys: seq<Key>)
    requires i < |newRows| && FitsAll(newRows[i].(id := t.nextId + i), keys)
    ensures Seen(newRows[i], t.Insert(newRows).Select(keys))
  {
    var after := t.Insert(newRows);
    var stored := after.rows[|t.rows| + i];
    assert stored == newRows[i].(id := t.nextId + i);
    StoredIsSeen(after, keys, stored, newRows[i]);
  }

  /**
   * Importing the same batch again right after a fault-free import adds no
   * row dated inside the window: every such row now has a stored twin.
   */
  lemma {:induction false} ImportIdempotent(recon: Ledger, batch: seq<Statement>, lastSync: Option<Date>, today: Date)
    requires |batch| > 0
    requires forall i :: 0 <= i < |batch| ==> batch[i].account == batch[0].account
    ensures var after := ImportEffect(recon, batch, lastSync, today, {});
      var again := NewStatements(batch, after.Select(WindowKeys(batch, lastSync, today)));
      forall x :: x in again ==> !Fits(x, FromDate(WindowStart(lastSync, today)))
  {
    var after := ImportEffect(recon, batch, lastSync, today, {});
    var existing := after.Select(WindowKeys(batch, lastSync, today));
    NewStatementsExact(batch, existing);
    forall x | x in NewStatements(batch, existing) ensures !Fits(x, FromDate(WindowStart(lastSync, today))) {
      if Fits(x, FromDate(WindowStart(lastSync, today))) {
        SeenAfterImport(recon, batch, lastSync, today, x);
        assert false;
      }
    }
  }

  // ------------------------------------------- getReconciliationStatements

  /** Equal on the five compared fields: date, description, document, value and type. */
  predicate SameLine(b: Statement, r: Statement) {
    b.date == r.date && b.description == r.description && b.document == r.document
    && b.value == r.value && b.kind == r.kind
  }

  predicate MatchedIn(r: Statement, bank: seq<Statement>) {
    exists k :: 0 <= k < |bank| && SameLine(bank[k], r)
  }

  function Unmatched(bank: seq<Statement>): Statement -> bool {
    (r: Statement) => !MatchedIn(r, bank)
  }

  /** The loop of `getReconciliationStatements`: the rows no bank row equals on all five fields, in order. */
  method UnreconciledLines(recon: seq<Statement>, bank: seq<Statement>) returns (r: seq<Statement>)
    ensures r == Filter(recon, Unmatched(bank))
  {
    r := [];
    var i := 0;
    while i < |recon|
      invariant 0 <= i <= |recon|
      invariant r == Filter(recon[..i], Unmatched(bank))
    {
      var found := false;
      var k := 0;
      while k < |bank| && !found
        invariant 0 <= k <= |bank|
        invariant found <==> exists j :: 0 <= j < k && SameLine(bank[j], recon[i])
      {
        found := SameLine(bank[k], recon[i]);
        k := k + 1;
      }
      assert found == MatchedIn(recon[i], bank);
      FilterPrefixStep(recon, i, Unmatched(bank));
      if !found {
        r := r + [recon[i]];
      }
      i := i + 1;
    }
    assert recon[..i] == recon;
  }

  /** A row is listed exactly when it is a reconciliation row no bank row equals on all five fields. */
  lemma {:induction false} UnreconciledExact(recon: seq<Statement>, bank: seq<Statement>)
    ensures forall x :: x in Filter(recon, Unmatched(bank)) <==> x in recon && !MatchedIn(x, bank)
  {
    var r := Filter(recon, Unmatched(bank));
    forall x | x in recon && !MatchedIn(x, bank) ensures x in r {
      var i :| 0 <= i < |recon| && recon[i] == x;
    }
  }

  // --------------------------------------------------------- compareStatements

  function Abs(x: real): real {
    if x < 0.0 then -x else x
  }

  /**
   * A bank row is a candidate for a reconciliation row when both dates read
   * as dates, the bank date lies from the day before to the day after, the
   * types are equal and the values differ by at most one.
   */
  predicate Candidate(r: Statement, b: Statement) {
    var rd, bd := ParseIso(r.date), ParseIso(b.date);
    && rd.Some? && bd.Some?
    && NotAfter(AddDays(rd.value, -1), bd.value) && NotAfter(bd.value, AddDays(rd.value, 1))
    && b.kind == r.kind
    && Abs(b.value - r.value) <= 1.0
  }

  function CandidateFor(r: Statement): Statement -> bool {
    (b: Statement) => Candidate(r, b)
  }

  datatype Pairing = Pairing(statement: Statement, candidates: seq<Statement>)

  function PairWith(bank: seq<Statement>): Statement -> Pairing {
    (r: Statement) => Pairing(r, Filter(bank, CandidateFor(r)))
  }

  function CompareLines(recon: seq<Statement>, bank: seq<Statement>): seq<Pairing> {
    Map(recon, PairWith(bank))
  }

  /**
   * One entry per reconciliation row, in order, even with no candidate; a
   * bank row is among its candidates exactly when it is a candidate.
   */
  lemma {:induction false} CompareShape(recon: seq<Statement>, bank: seq<Statement>)
    ensures var m := CompareLines(recon, bank);
      && |m| == |recon|
      && forall i :: 0 <= i < |m| ==>
           && m[i].statement == recon[i]
           && forall b :: b in m[i].candidates <==> b in bank && Candidate(recon[i], b)
  {
    var m := CompareLines(recon, bank);
    forall i, b | 0 <= i < |m| && b in bank && Candidate(recon[i], b) ensures b in m[i].candidates {
      var k :| 0 <= k < |bank| && bank[k] == b;
    }
  }

  /** The date window holds exactly three days: the day before, the day itself and the day after. */
  lemma {:induction false} CandidateDays(r: Statement, b: Statement)
    requires ParseIso(r.date).Some? && ParseIso(b.date).Some?
    ensures var rd, bd := ParseIso(r.date).value, ParseIso(b.date).value;
      Candidate(r, b) <==>
        && (bd == PrevDay(rd) || bd == rd || bd == NextDay(rd))
        && b.kind == r.kind && Abs(b.value - r.value) <= 1.0
  {
    OneDayWindow(ParseIso(r.date).value, ParseIso(b.date).value);
  }

  // --------------------------------------------------------- reconcileStatements

  /**
   * Two writes, no transaction: the reconciliation row is linked first, then
   * the bank row is marked. `.single()` fails unless exactly one row was
   * written; a failure of the second write leaves the first in place.
   */
  function ReconcileEffect(bank: Ledger, recon: Ledger, reconId: Option<nat>, bankId: Option<nat>,
                           faults: set<Call>): (Ledger, Ledger, int)
  {
    if reconId.None? || bankId.None? then (bank, recon, 400)
    else if UpdateRecon in faults then (bank, recon, 500)
    else
      var recon2 := recon.Update([ById(reconId.value)], LinkTo(bankId.value));
      if |recon.Select([ById(reconId.value)])| != 1 then (bank, recon2, 500)
      else if UpdateBank in faults then (bank, recon2, 500)
      else
        var bank2 := bank.Update([ById(bankId.value)], Restatus(Reconciled));
        if |bank.Select([ById(bankId.value)])| != 1 then (bank2, recon2, 500)
        else (bank2, recon2, 200)
  }

  /** Either id missing: 400 and no write. */
  lemma {:induction false} ReconcileNeedsBothIds(bank: Ledger, recon: Ledger, reconId: Option<nat>, bankId: Option<nat>, faults: set<Call>)
    ensures var (b, r, code) := ReconcileEffect(bank, recon, reconId, bankId, faults);
      (code == 400 <==> reconId.None? || bankId.None?) && (code == 400 ==> b == bank && r == recon)
  {
  }

  /** A table with distinct ids holding a row with `id` selects exactly one row for it. */
  lemma {:induction false} SelectOne(t: Ledger, id: nat, k: nat)
    requires t.Valid() && k < |t.rows| && t.rows[k].id == id
    ensures |t.Select([ById(id)])| == 1
  {
    var sel := t.Select([ById(id)]);
    FitsOne(t.rows[k], ById(id));
    assert t.rows[k] in sel;
    forall i | 0 <= i < |sel| ensures sel[i] == t.rows[k] {
      FitsOne(sel[i], ById(id));
      var j :| 0 <= j < |t.rows| && t.rows[j] == sel[i];
    }
    if |sel| > 1 {
      assert sel[0] == sel[1];
      SelectDistinct(t, [ById(id)]);
      assert false;
    }
  }

  /** A selection from a table with distinct ids has distinct rows. */
  lemma {:induction false} SelectDistinct(t: Ledger, keys: seq<Key>)
    requires t.Valid()
    ensures forall i, j :: 0 <= i < j < |t.Select(keys)| ==> t.Select(keys)[i] != t.Select(keys)[j]
  {
    FilterDistinctRows(t.rows, Fitting(keys));
  }

  lemma {:induction false} FilterDistinctRows(s: seq<Statement>, p: Statement -> bool)
    requires forall i, j :: 0 <= i < j < |s| ==> s[i].id != s[j].id
    ensures forall i, j :: 0 <= i < j < |Filter(s, p)| ==> Filter(s, p)[i] != Filter(s, p)[j]
    decreases |s|
  {
    if s != [] {
      var init := s[..|s| - 1];
      FilterDistinctRows(init, p);
      var rest := Filter(init, p);
      assert forall x :: x in rest ==> x.id != s[|s| - 1].id;
    }
  }

  /**
   * With both rows present and no failure, the reconciliation row becomes
   * RECONCILED and points at the bank row, the bank row becomes RECONCILED,
   * and no other row of either table changes. Nothing checks that either row
   * was still pending.
   */
  lemma {:induction false} ReconcileSucceeds(bank: Ledger, recon: Ledger, reconId: nat, bankId: nat, i: nat, j: nat)
    requires bank.Valid() && recon.Valid()
    requires i < |recon.rows| && recon.rows[i].id == reconId && j < |bank.rows| && bank.rows[j].id == bankId
    ensures ReconcileEffect(bank, recon, Some(reconId), Some(bankId), {}) ==
      (bank.Update([ById(bankId)], Restatus(Reconciled)), recon.Update([ById(reconId)], LinkTo(bankId)), 200)
    ensures forall k :: 0 <= k < |recon.rows| ==>
      recon.Update([ById(reconId)], LinkTo(bankId)).rows[k] ==
        if recon.rows[k].id == reconId
        then recon.rows[k].(status := Reconciled, bankStatementId := Some(bankId))
        else recon.rows[k]
    ensures forall k :: 0 <= k < |bank.rows| ==>
      bank.Update([ById(bankId)], Restatus(Reconciled)).rows[k] ==
        if bank.rows[k].id == bankId then bank.rows[k].(status := Reconciled) else bank.rows[k]
  {
    SelectOne(recon, reconId, i);
    SelectOne(bank, bankId, j);
    UpdateById(recon, reconId, LinkTo(bankId));
    UpdateById(bank, bankId, Restatus(Reconciled));
  }

  /** When the second write fails the first stays: the reconciliation row is linked, the bank row is not. */
  lemma {:induction false} ReconcileHalfDone(bank: Ledger, recon: Ledger, reconId: nat, bankId: nat, i: nat, faults: set<Call>)
    requires recon.Valid() && i < |recon.rows| && recon.rows[i].id == reconId
    requires UpdateRecon !in faults && UpdateBank in faults
    ensures var (b, r, code) := ReconcileEffect(bank, recon, Some(reconId), Some(bankId), faults);
      && code == 500 && b == bank
      && r.rows[i] == recon.rows[i].(status := Reconciled, bankStatementId := Some(bankId))
  {
    SelectOne(recon, reconId, i);
    UpdateById(recon, reconId, LinkTo(bankId));
  }

  // ------------------------------------------------------------ the handlers

  datatype Reply =
    | NoReply
    | Status(code: int)
    | Lines(rows: seq<Statement>)
    | Proposals(pairs: seq<Pairing>, pending: seq<Statement>)

  /**
   * `getReconciliationStatements`: a failed bank lookup returns without
   * answering; a failed reconciliation lookup leaves no rows to loop over and
   * ends in 500.
   */
  function UnreconciledReply(bank: Ledger, recon: Ledger, account: Option<string>, faults: set<Call>): Reply {
    if account.None? then Status(400)
    else if SelectBank in faults then NoReply
    else if SelectRecon in faults then Status(500)
    else Lines(Filter(recon.Select([ByAccount(account.value)]), Unmatched(bank.Select([ByAccount(account.value)]))))
  }

  function PendingOf(account: string): seq<Key> {
    [ByAccount(account), ByStatus(StmtPending)]
  }

  /** `compareStatements`: pending rows of the account on both sides. */
  function CompareReply(bank: Ledger, recon: Ledger, account: Option<string>, faults: set<Call>): Reply {
    if account.None? then Status(400)
    else if SelectBank in faults || SelectRecon in faults then Status(500)
    else
      var pendingBank := bank.Select(PendingOf(account.value));
      Proposals(CompareLines(recon.Select(PendingOf(account.value)), pendingBank), pendingBank)
  }

  /** The two statement tables the bank controller works on. */
  class Books {
    var bank: Ledger
    var recon: Ledger

    constructor(bank: Ledger, recon: Ledger)
      ensures this.bank == bank && this.recon == recon
    {
      this.bank := bank;
      this.recon := recon;
    }

    /** `insertBankStatement`. */
    method ImportStatements(batch: seq<Statement>, lastSync: Option<Date>, today: Date, faults: set<Call>)
      modifies this
      ensures recon == ImportEffect(old(recon), batch, lastSync, today, faults)
      ensures bank == old(bank)
    {
      if |batch| == 0 {
        return;
      }
      var existing: seq<Statement> := [];
      if SelectRecon !in faults {
        existing := recon.Select(WindowKeys(batch, lastSync, today));
      }
      var newRows := NewStatements(batch, existing);
      if |newRows| == 0 || InsertRecon in faults {
        return;
      }
      recon := recon.Insert(newRows);
    }

    /**
     * `fetchBankStatement` once the bank has answered with `feed`: the rows are
     * imported, then the account's last sync moves to today unless that write
     * fails. A failed import does not hold the sync date back.
     */
    method FetchBankStatement(feed: seq<FeedEntry>, account: string, lastSync: Option<Date>, userId: Option<string>,
                              today: Date, faults: set<Call>) returns (newSync: Option<Date>)
      modifies this
      ensures recon == ImportEffect(old(recon), FeedRows(feed, account, userId), lastSync, today, faults)
      ensures bank == old(bank)
      ensures newSync == if UpdateAccount in faults then lastSync else Some(today)
    {
      ImportStatements(FeedRows(feed, account, userId), lastSync, today, faults);
      newSync := if UpdateAccount in faults then lastSync else Some(today);
    }

    method UnreconciledStatements(account: Option<string>, faults: set<Call>) returns (reply: Reply)
      ensures reply == UnreconciledReply(bank, recon, account, faults)
    {
      if account.None? {
        return Status(400);
      }
      if SelectBank in faults {
        return NoReply;
      }
      if SelectRecon in faults {
        return Status(500);
      }
      var lines := UnreconciledLines(recon.Select([ByAccount(account.value)]), bank.Select([ByAccount(account.value)]));
      reply := Lines(lines);
    }

    method CompareStatements(account: Option<string>, faults: set<Call>) returns (reply: Reply)
      ensures reply == CompareReply(bank, recon, account, faults)
    {
      if account.None? {
        return Status(400);
      }
      if SelectBank in faults || SelectRecon in faults {
        return Status(500);
      }
      var pendingBank := bank.Select(PendingOf(account.value));
      reply := Proposals(CompareLines(recon.Select(PendingOf(account.value)), pendingBank), pendingBank);
    }

    method ReconcileStatements(reconId: Option<nat>, bankId: Option<nat>, faults: set<Call>) returns (code: int)
      modifies this
      ensures (bank, recon, code) == ReconcileEffect(old(bank), old(recon), reconId, bankId, faults)
    {
      if reconId.None? || bankId.None? {
        return 400;
      }
      if UpdateRecon in faults {
        return 500;
      }
      var single := |recon.Select([ById(reconId.value)])| == 1;
      recon := recon.Update([ById(reconId.value)], LinkTo(bankId.value));
      if !single || UpdateBank in faults {
        return 500;
      }
      single := |bank.Select([ById(bankId.value)])| == 1;
      bank := bank.Update([ById(bankId.value)], Restatus(Reconciled));
      code := if single then 200 else 500;
    }
  }
}
