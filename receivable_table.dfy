/**
 * Rows of the `receivables` table and the `payment_methods` they refer to,
 * kept in an in-memory table with column filters, single-row inserts and
 * updates through a filter.
 */
module Receivables {
  import opened Wrappers
  import opened Seqs
  import opened Dates

  datatype RecStatus = RecPending | RecReceived | RecReversed | RecCanceled

  /**
   * One receivable. `group` is `receivable_group`, the identifier every
   * receivable of one sale shares; `requestId` is
   * `receivable_approval_request_id`.
   */
  datatype Receivable = Receivable(
    id: nat,
    orderNumber: Option<string>,
    customerName: Option<string>,
    customerDocument: Option<string>,
    notes: Option<string>,
    value: real,
    paymentMethodId: Option<nat>,
    bankAccountId: string,
    cnpjId: Option<string>,
    categoryId: Option<string>,
    competence: Option<string>,
    status: RecStatus,
    createdBy: string,
    totalInstallments: int,
    paymentDate: Date,
    requestId: Option<nat>,
    group: nat,
    reversedBy: Option<string>)

  /**
   * A payment method: the percentage and the fixed amount deducted from the
   * gross value, the condition text ("immediate", "3x", "30/60/90", ...) and
   * the days the acquirer takes to settle.
   */
  datatype PaymentMethod = PaymentMethod(aliquot: real, fixedAliquot: real, condition: string, settlementDays: int)

  /** The column filters used on `receivables`. */
  datatype Sel =
    | RecById(id: nat)
    | RecByGroup(group: nat)
    | RecByRequest(request: nat)
    | RecIdIn(ids: seq<nat>)
    | RecByStatus(status: RecStatus)
    | RecDueBy(day: Date)

  predicate Picks(r: Receivable, s: Sel) {
    match s
    case RecById(id) => r.id == id
    case RecByGroup(g) => r.group == g
    case RecByRequest(q) => r.requestId == Some(q)
    case RecIdIn(ids) => r.id in ids
    case RecByStatus(st) => r.status == st
    case RecDueBy(day) => NotAfter(r.paymentDate, day)
  }

  predicate PicksAll(r: Receivable, sels: seq<Sel>) {
    forall i :: 0 <= i < |sels| ==> Picks(r, sels[i])
  }

  function Picking(sels: seq<Sel>): Receivable -> bool {
    (r: Receivable) => PicksAll(r, sels)
  }

  /** The column writes used on `receivables`. */
  datatype RecChange = Settle(status: RecStatus) | ReverseBy(user: string)

  function RecChanged(r: Receivable, c: RecChange): Receivable {
    match c
    case Settle(st) => r.(status := st)
    case ReverseBy(u) => r.(status := RecReversed, reversedBy := Some(u))
  }

  function RecChanging(sels: seq<Sel>, c: RecChange): Receivable -> Receivable {
    (r: Receivable) => if PicksAll(r, sels) then RecChanged(r, c) else r
  }

  /**
   * The table: rows in insertion order, the next id the database hands out,
   * and the next group identifier, which stands for a fresh `uuidv4()`.
   */
  datatype RecTable = RecTable(rows: seq<Receivable>, nextId: nat, nextGroup: nat) {

    ghost predicate Valid() {
      && (forall i :: 0 <= i < |rows| ==> rows[i].id < nextId && rows[i].group < nextGroup)
      && (forall i, j :: 0 <= i < j < |rows| ==> rows[i].id != rows[j].id)
    }

    function Select(sels: seq<Sel>): (r: seq<Receivable>)
      ensures forall x :: x in r <==> x in rows && PicksAll(x, sels)
    {
      var r := Filter(rows, Picking(sels));
      assert forall x :: x in rows && PicksAll(x, sels) ==> x in r by {
        forall x | x in rows && PicksAll(x, sels) ensures x in r {
          var i :| 0 <= i < |rows| && rows[i] == x;
        }
      }
      r
    }

    function Insert(draft: Receivable): (t: RecTable)
      ensures t.rows == rows + [draft.(id := nextId)] && t.nextId == nextId + 1 && t.nextGroup == nextGroup
    {
      RecTable(rows + [draft.(id := nextId)], nextId + 1, nextGroup)
    }

    function Update(sels: seq<Sel>, c: RecChange): (t: RecTable)
      ensures |t.rows| == |rows| && t.nextId == nextId && t.nextGroup == nextGroup
      ensures forall i :: 0 <= i < |rows| ==> t.rows[i] == if PicksAll(rows[i], sels) then RecChanged(rows[i], c) else rows[i]
    {
      RecTable(Map(rows, RecChanging(sels, c)), nextId, nextGroup)
    }

    /** `uuidv4()`: a group no row carries yet. */
    function NewGroup(): (t: RecTable)
      ensures t.rows == rows && t.nextId == nextId && t.nextGroup == nextGroup + 1
    {
      RecTable(rows, nextId, nextGroup + 1)
    }
  }

  lemma {:induction false} PicksOne(r: Receivable, s: Sel)
    ensures PicksAll(r, [s]) <==> Picks(r, s)
  {
    if PicksAll(r, [s]) {
      assert Picks(r, [s][0]);
    }
  }

  /** A filter that exactly one row passes selects that row alone. */
  lemma {:induction false} SelectsOnly(t: RecTable, sels: seq<Sel>, k: nat)
    requires k < |t.rows| && PicksAll(t.rows[k], sels)
    requires forall i :: 0 <= i < |t.rows| && i != k ==> !PicksAll(t.rows[i], sels)
    ensures t.Select(sels) == [t.rows[k]]
  {
    FilterSingle(t.rows, Picking(sels), k);
  }

  /** In a valid table, the filter on the id of row `k` selects row `k` alone. */
  lemma {:induction false} SelectsById(t: RecTable, k: nat)
    requires t.Valid() && k < |t.rows|
    ensures t.Select([RecById(t.rows[k].id)]) == [t.rows[k]]
  {
    var id := t.rows[k].id;
    forall i | 0 <= i < |t.rows| ensures PicksAll(t.rows[i], [RecById(id)]) <==> i == k {
      PicksOne(t.rows[i], RecById(id));
    }
    SelectsOnly(t, [RecById(id)], k);
  }

  /** An id no row carries selects nothing. */
  lemma {:induction false} SelectsNoId(t: RecTable, id: nat)
    requires forall i :: 0 <= i < |t.rows| ==> t.rows[i].id != id
    ensures t.Select([RecById(id)]) == []
  {
    forall i | 0 <= i < |t.rows| ensures !Picking([RecById(id)])(t.rows[i]) {
      PicksOne(t.rows[i], RecById(id));
    }
    FilterKeepsNone(t.rows, Picking([RecById(id)]));
  }

  /** An update on one id rewrites that row and no other. */
  lemma {:induction false} RecUpdateById(t: RecTable, id: nat, c: RecChange)
    ensures forall i :: 0 <= i < |t.rows| ==>
      t.Update([RecById(id)], c).rows[i] == if t.rows[i].id == id then RecChanged(t.rows[i], c) else t.rows[i]
  {
    forall i | 0 <= i < |t.rows| {
      PicksOne(t.rows[i], RecById(id));
    }
  }

  lemma {:induction false} InsertValid(t: RecTable, draft: Receivable)
    requires t.Valid() && draft.group < t.nextGroup
    ensures t.Insert(draft).Valid()
  {
  }

  lemma {:induction false} UpdateValid(t: RecTable, sels: seq<Sel>, c: RecChange)
    requires t.Valid()
    ensures t.Update(sels, c).Valid()
  {
    var u := t.Update(sels, c);
    assert forall i :: 0 <= i < |u.rows| ==> u.rows[i].id == t.rows[i].id && u.rows[i].group == t.rows[i].group;
  }
}
