/**
 * Rows of the `bank_statements` and `reconciliation_statements` tables, and
 * the in-memory table both are kept in: filters on named columns, insert with
 * fresh ids, update and delete through a filter.
 */
module Statements {
  import opened Wrappers
  import opened Seqs
  import opened Dates
  import opened DateText

  datatype TxType = Credit | Debit
  datatype StmtStatus = StmtPending | Reconciled | Reversed

  /**
   * One statement line. `date` is `transaction_date` and `valueDate` is
   * `value_date`, both as the `YYYY-MM-DD` text the database hands back;
   * `bankStatementId` is the link a reconciliation row gets when reconciled.
   */
  datatype Statement = Statement(
    id: nat,
    account: string,
    date: string,
    valueDate: string,
    kind: TxType,
    description: string,
    document: Option<string>,
    value: real,
    status: StmtStatus,
    beneficiary: Option<string>,
    categoryId: Option<string>,
    bankStatementId: Option<nat>,
    paymentId: Option<nat>,
    receivableId: Option<nat>,
    createdBy: string)

  /** The column filters used on statement tables. */
  datatype Key =
    | ById(id: nat)
    | ByAccount(account: string)
    | ByStatus(status: StmtStatus)
    | ByReceivable(receivable: nat)
    | FromDate(start: Date)

  /** `.gte("transaction_date", start)` compares dates; a row whose text is not a date never passes. */
  predicate Fits(s: Statement, k: Key) {
    match k
    case ById(id) => s.id == id
    case ByAccount(a) => s.account == a
    case ByStatus(st) => s.status == st
    case ByReceivable(r) => s.receivableId == Some(r)
    case FromDate(start) => ParseIso(s.date).Some? && NotAfter(start, ParseIso(s.date).value)
  }

  predicate FitsAll(s: Statement, keys: seq<Key>) {
    forall i :: 0 <= i < |keys| ==> Fits(s, keys[i])
  }

  function Fitting(keys: seq<Key>): Statement -> bool {
    (s: Statement) => FitsAll(s, keys)
  }

  function Remaining(keys: seq<Key>): Statement -> bool {
    (s: Statement) => !FitsAll(s, keys)
  }

  /** The column writes used on statement tables. */
  datatype Change = Restatus(status: StmtStatus) | LinkTo(bankStatement: nat)

  /** `LinkTo` is the reconciliation write: status RECONCILED and the bank row's id. */
  function Changed(s: Statement, c: Change): Statement {
    match c
    case Restatus(st) => s.(status := st)
    case LinkTo(b) => s.(status := Reconciled, bankStatementId := Some(b))
  }

  function Changing(keys: seq<Key>, c: Change): Statement -> Statement {
    (s: Statement) => if FitsAll(s, keys) then Changed(s, c) else s
  }

  function NumberedFrom(drafts: seq<Statement>, first: nat): (r: seq<Statement>)
    ensures |r| == |drafts|
    ensures forall i :: 0 <= i < |drafts| ==> r[i] == drafts[i].(id := first + i)
    decreases |drafts|
  {
    if drafts == [] then []
    else NumberedFrom(drafts[..|drafts| - 1], first) + [drafts[|drafts| - 1].(id := first + |drafts| - 1)]
  }

  /** A statement table: its rows in insertion order and the next id to hand out. */
  datatype Ledger = Ledger(rows: seq<Statement>, nextId: nat) {

    ghost predicate Valid() {
      && (forall i :: 0 <= i < |rows| ==> rows[i].id < nextId)
      && (forall i, j :: 0 <= i < j < |rows| ==> rows[i].id != rows[j].id)
    }

    function Select(keys: seq<Key>): (r: seq<Statement>)
      ensures forall x :: x in r <==> x in rows && FitsAll(x, keys)
    {
      var r := Filter(rows, Fitting(keys));
      assert forall x :: x in rows && FitsAll(x, keys) ==> x in r by {
        forall x | x in rows && FitsAll(x, keys) ensures x in r {
          var i :| 0 <= i < |rows| && rows[i] == x;
        }
      }
      r
    }

    function Insert(drafts: seq<Statement>): (t: Ledger)
      ensures |t.rows| == |rows| + |drafts|
      ensures forall i :: 0 <= i < |rows| ==> t.rows[i] == rows[i]
      ensures forall i :: |rows| <= i < |t.rows| ==> t.rows[i] == drafts[i - |rows|].(id := nextId + i - |rows|)
      ensures t.nextId == nextId + |drafts|
    {
      Ledger(rows + NumberedFrom(drafts, nextId), nextId + |drafts|)
    }

    function Update(keys: seq<Key>, c: Change): (t: Ledger)
      ensures |t.rows| == |rows| && t.nextId == nextId
      ensures forall i :: 0 <= i < |rows| ==>
        t.rows[i] == if FitsAll(rows[i], keys) then Changed(rows[i], c) else rows[i]
    {
      Ledger(Map(rows, Changing(keys, c)), nextId)
    }

    function Delete(keys: seq<Key>): (t: Ledger)
      ensures forall x :: x in t.rows <==> x in rows && !FitsAll(x, keys)
      ensures t.nextId == nextId
    {
      var r := Filter(rows, Remaining(keys));
      assert forall x :: x in rows && !FitsAll(x, keys) ==> x in r by {
        forall x | x in rows && !FitsAll(x, keys) ensures x in r {
          var i :| 0 <= i < |rows| && rows[i] == x;
        }
      }
      Ledger(r, nextId)
    }
  }

  /** A one-column filter holds exactly when its column test does. */
  lemma {:induction false} FitsOne(s: Statement, k: Key)
    ensures FitsAll(s, [k]) <==> Fits(s, k)
  {
    if FitsAll(s, [k]) {
      assert Fits(s, [k][0]);
    }
    if Fits(s, k) {
      forall i | 0 <= i < 1 ensures Fits(s, [k][i]) {
        assert [k][i] == k;
      }
    }
  }

  /** An update by id rewrites the rows with that id and no other row. */
  lemma {:induction false} UpdateById(t: Ledger, id: nat, c: Change)
    ensures forall i :: 0 <= i < |t.rows| ==>
      t.Update([ById(id)], c).rows[i] == if t.rows[i].id == id then Changed(t.rows[i], c) else t.rows[i]
  {
    forall i | 0 <= i < |t.rows| {
      FitsOne(t.rows[i], ById(id));
    }
  }

  /** Inserting keeps every earlier row, in place. */
  lemma {:induction false} InsertKeeps(t: Ledger, drafts: seq<Statement>, x: Statement)
    requires x in t.rows
    ensures x in t.Insert(drafts).rows
  {
    var i :| 0 <= i < |t.rows| && t.rows[i] == x;
    assert t.Insert(drafts).rows[i] == x;
  }

  /** An in-memory statement table whose every call may fail. */
  class StatementStore {
    var rows: seq<Statement>
    var nextId: nat

    function State(): Ledger
      reads this
    {
      Ledger(rows, nextId)
    }

    constructor (t: Ledger)
      ensures State() == t
    {
      rows := t.rows;
      nextId := t.nextId;
    }

    method Select(keys: seq<Key>, fail: bool) returns (r: Option<seq<Statement>>)
      ensures r == if fail then None else Some(State().Select(keys))
    {
      r := if fail then None else Some(State().Select(keys));
    }

    /** `insert(drafts)`: all rows or, on failure, none. */
    method Insert(drafts: seq<Statement>, fail: bool) returns (ok: bool)
      modifies this
      ensures ok == !fail
      ensures State() == if fail then old(State()) else old(State()).Insert(drafts)
    {
      ok := !fail;
      if ok {
        var t := State().Insert(drafts);
        rows, nextId := t.rows, t.nextId;
      }
    }

    method Update(keys: seq<Key>, c: Change, fail: bool) returns (ok: bool)
      modifies this
      ensures ok == !fail
      ensures State() == if fail then old(State()) else old(State()).Update(keys, c)
    {
      ok := !fail;
      if ok {
        rows := State().Update(keys, c).rows;
      }
    }

    method Delete(keys: seq<Key>, fail: bool) returns (ok: bool)
      modifies this
      ensures ok == !fail
      ensures State() == if fail then old(State()) else old(State()).Delete(keys)
    {
      ok := !fail;
      if ok {
        rows := State().Delete(keys).rows;
      }
    }
  }
}
