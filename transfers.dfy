/**
 * The `bank_transfers` table and `createBankTransfer`, which records a
 * transfer to be carried out by the transfer cron on its date.
 */
module Transfers {
  import opened Wrappers
  import opened Seqs
  import opened Text

  datatype TransferStatus = TransferPending | TransferCompleted

  datatype Transfer = Transfer(
    id: nat,
    source: string,
    destination: string,
    value: real,
    date: string,
    description: string,
    transferType: string,
    bankTransactionId: string,
    status: TransferStatus,
    createdBy: Option<string>,
    userId: Option<string>,
    customerName: Option<string>)

  /** The table: rows in insertion order and the next id the database hands out. */
  datatype TransferTable = TransferTable(rows: seq<Transfer>, nextId: nat) {

    ghost predicate Valid() {
      && (forall i :: 0 <= i < |rows| ==> rows[i].id < nextId)
      && (forall i, j :: 0 <= i < j < |rows| ==> rows[i].id != rows[j].id)
    }

    function Insert(draft: Transfer): (t: TransferTable)
      ensures t.rows == rows + [draft.(id := nextId)] && t.nextId == nextId + 1
    {
      TransferTable(rows + [draft.(id := nextId)], nextId + 1)
    }

    /** `update({status}).in("id", ids)`. */
    function Restatus(ids: seq<nat>, s: TransferStatus): (t: TransferTable)
      ensures |t.rows| == |rows| && t.nextId == nextId
      ensures forall i :: 0 <= i < |rows| ==> t.rows[i] == if rows[i].id in ids then rows[i].(status := s) else rows[i]
    {
      TransferTable(Map(rows, Restated(ids, s)), nextId)
    }

    /** `.eq("status", "PENDING").eq("transfer_date", today)`. */
    function DueToday(today: string): (r: seq<Transfer>)
      ensures forall x :: x in r <==> x in rows && x.status == TransferPending && x.date == today
    {
      var r := Filter(rows, PendingOn(today));
      assert forall x :: x in rows && x.status == TransferPending && x.date == today ==> x in r by {
        forall x | x in rows && x.status == TransferPending && x.date == today ensures x in r {
          var i :| 0 <= i < |rows| && rows[i] == x;
        }
      }
      r
    }
  }

  function Restated(ids: seq<nat>, s: TransferStatus): Transfer -> Transfer {
    (x: Transfer) => if x.id in ids then x.(status := s) else x
  }

  function PendingOn(today: string): Transfer -> bool {
    (x: Transfer) => x.status == TransferPending && x.date == today
  }

  /** The request body of `createBankTransfer`; `None` is a missing field. */
  datatype TransferRequest = TransferRequest(
    source: Option<string>,
    destination: Option<string>,
    value: Option<real>,
    date: Option<string>,
    description: Option<string>,
    transferType: Option<string>,
    userId: Option<string>)

  /** The four fields the handler insists on: a zero value counts as missing. */
  predicate Complete(r: TransferRequest) {
    Given(r.source) && Given(r.destination) && r.value.Some? && r.value.value != 0.0 && Given(r.date)
  }

  /** The row `createBankTransfer` inserts. */
  function TransferRecord(r: TransferRequest): Transfer
    requires Complete(r)
  {
    Transfer(0, r.source.value, r.destination.value, r.value.value, r.date.value,
             Or(r.description, ""), Or(r.transferType, "TRANSFER"), "", TransferPending,
             r.userId, None, None)
  }

  /** `createBankTransfer`: 400 before any write when a required field is missing, 500 when the insert fails, 201 otherwise. */
  function CreateTransferEffect(t: TransferTable, r: TransferRequest, insertFails: bool): (TransferTable, int) {
    if !Complete(r) then (t, 400)
    else if insertFails then (t, 500)
    else (t.Insert(TransferRecord(r)), 201)
  }

  /**
   * A complete request appends exactly one PENDING transfer of that value
   * and date between the two accounts, under a new id, with an empty bank
   * transaction id, an empty description and type "TRANSFER" when those are
   * not given; an incomplete one writes nothing.
   */
  lemma {:induction false} CreateTransferRecords(t: TransferTable, r: TransferRequest)
    ensures var (u, code) := CreateTransferEffect(t, r, false);
      && (code == 201 <==> Complete(r))
      && (code == 400 <==> !Complete(r))
      && (!Complete(r) ==> u == t)
      && (Complete(r) ==>
            && u.rows[..|t.rows|] == t.rows && |u.rows| == |t.rows| + 1
            && var x := u.rows[|t.rows|];
               && x.id == t.nextId && x.status == TransferPending
               && x.source == r.source.value && x.destination == r.destination.value
               && x.value == r.value.value && x.date == r.date.value
               && x.bankTransactionId == ""
               && x.description == (if Given(r.description) then r.description.value else "")
               && x.transferType == (if Given(r.transferType) then r.transferType.value else "TRANSFER"))
  {
    if Complete(r) {
      var u := t.Insert(TransferRecord(r));
      assert u.rows[..|t.rows|] == t.rows;
    }
  }

  /** Inserting hands out a fresh id, so ids stay distinct. */
  lemma {:induction false} CreateTransferValid(t: TransferTable, r: TransferRequest, insertFails: bool)
    requires t.Valid()
    ensures CreateTransferEffect(t, r, insertFails).0.Valid()
  {
  }

  /** The in-memory `bank_transfers` table. */
  class TransferStore {
    var table: TransferTable

    constructor (t: TransferTable)
      ensures table == t
    {
      table := t;
    }

    /** `createBankTransfer`. */
    method CreateBankTransfer(r: TransferRequest, insertFails: bool) returns (code: int)
      modifies this
      ensures (table, code) == CreateTransferEffect(old(table), r, insertFails)
    {
      if !Complete(r) {
        return 400;
      }
      if insertFails {
        return 500;
      }
      table := table.Insert(TransferRecord(r));
      code := 201;
    }

    /** `update({status}).in("id", ids)`; a failed call changes nothing. */
    method Restatus(ids: seq<nat>, s: TransferStatus, fail: bool) returns (ok: bool)
      modifies this
      ensures ok == !fail
      ensures table == if fail then old(table) else old(table).Restatus(ids, s)
    {
      ok := !fail;
      if ok {
        table := table.Restatus(ids, s);
      }
    }
  }
}
