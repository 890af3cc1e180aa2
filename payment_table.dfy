/**
 * The `payments` table: its rows, the filters and patches the controllers
 * send to it, and an in-memory store whose every call may fail.
 */
module Payments {
  import opened Wrappers
  import opened Dates
  import opened Seqs

  type GroupId = nat

  datatype Status = Scheduled | Pending | Paid | Canceled

  /** The `type` column. */
  datatype Kind = Single | Installments | Recurring | OtherKind(name: string)

  datatype Frequency = Biweekly | Monthly | Bimonthly | Quarterly | Yearly | OtherFrequency(name: string)

  /** Where the money goes: competence and the bank/PIX/boleto coordinates. */
  datatype Routing = Routing(competence: string, pixKey: Option<string>, barcode: string,
                             branch: string, account: string, digit: string)

  /** Bookkeeping columns every path copies from its input unchanged. */
  datatype Details = Details(cnpjId: string, categoryId: Option<string>, bankAccountId: string,
                             paymentMethod: string, pixPaymentMethod: string,
                             bankCode: string, cpfCnpj: string)

  /**
   * A payment row. The table has two creator columns: `createdBy` is
   * `created_by_id` and `createdByText` is `created_by`, which only the
   * create paths fill (`None` is SQL NULL).
   */
  datatype Payment = Payment(
    id: nat,
    supplierName: string,
    description: string,
    value: real,
    dueDate: Date,
    status: Status,
    kind: Kind,
    group: Option<GroupId>,
    installments: Option<int>,
    installmentNumber: Option<int>,
    frequency: Option<Frequency>,
    endDate: Option<Date>,
    createdBy: string,
    createdByText: Option<string>,
    requestId: Option<nat>,
    routing: Routing,
    details: Details,
    bankStatus: Option<string>)

  /** The body of an edit request (camel-case fields of `updatePayment`). */
  datatype Edit = Edit(
    id: nat,
    kind: Option<Kind>,
    singleUpdate: bool,
    supplierName: string,
    description: string,
    value: real,
    dueDate: Date,
    endDate: Option<Date>,
    frequency: Option<Frequency>,
    installments: Option<int>,
    routing: Routing,
    snakePixKey: Option<string>,
    details: Details)

  /**
   * The body carries the PIX key twice: `routing.pixKey` is its `pixKey`,
   * which the two `update` paths write, and `snakePixKey` its `pix_key`,
   * which the four inserting helpers copy. An absent key is `None`.
   */
  function InsertedRouting(e: Edit): (r: Routing)
    ensures r.pixKey == e.snakePixKey
    ensures r.(pixKey := e.routing.pixKey) == e.routing
  {
    e.routing.(pixKey := e.snakePixKey)
  }

  /** An `update` with `pix_key: undefined` leaves the stored key alone. */
  function UpdatedRouting(stored: Routing, e: Edit): (r: Routing)
    ensures e.routing.pixKey.Some? ==> r == e.routing
    ensures e.routing.pixKey.None? ==> r == e.routing.(pixKey := stored.pixKey)
  {
    if e.routing.pixKey.Some? then e.routing else e.routing.(pixKey := stored.pixKey)
  }

  /** One supabase filter: `eq`, `gt`, `gte`, `lte` or `in`. */
  datatype Cond =
    | IdIs(id: nat)
    | GroupIs(group: Option<GroupId>)
    | KindIs(kind: Kind)
    | StatusIs(status: Status)
    | DueAfter(after: Date)
    | DueFrom(from: Date)
    | DueUpTo(upTo: Date)
    | IdIn(ids: seq<nat>)

  /** `eq("payment_group", null)` compares with SQL NULL and so matches no row. */
  predicate Holds(c: Cond, p: Payment) {
    match c
    case IdIs(id) => p.id == id
    case GroupIs(g) => g.Some? && p.group == g
    case KindIs(k) => p.kind == k
    case StatusIs(s) => p.status == s
    case DueAfter(d) => Before(d, p.dueDate)
    case DueFrom(d) => NotAfter(d, p.dueDate)
    case DueUpTo(d) => NotAfter(p.dueDate, d)
    case IdIn(ids) => p.id in ids
  }

  predicate Matches(p: Payment, conds: seq<Cond>) {
    forall i :: 0 <= i < |conds| ==> Holds(conds[i], p)
  }

  /** The filter as a row predicate, one value per filter list. */
  function Matching(conds: seq<Cond>): Payment -> bool {
    p => Matches(p, conds)
  }

  function Surviving(conds: seq<Cond>): Payment -> bool {
    p => !Matches(p, conds)
  }

  /** The column values one `update` call writes. */
  datatype Patch =
    | SetInstallments(count: int)
    | SetStatus(status: Status)
    | SetBankStatus(bankStatus: string)
    | EditInPlace(edit: Edit)
    | EditToSingle(edit: Edit)

  function Apply(p: Payment, patch: Patch): Payment {
    match patch
    case SetInstallments(n) => p.(installments := Some(n))
    case SetStatus(s) => p.(status := s)
    case SetBankStatus(s) => p.(bankStatus := Some(s))
    case EditInPlace(e) =>
      p.(supplierName := e.supplierName, description := e.description, value := e.value,
         dueDate := e.dueDate, details := e.details, routing := UpdatedRouting(p.routing, e), status := Scheduled)
    case EditToSingle(e) =>
      p.(supplierName := e.supplierName, description := e.description, value := e.value,
         dueDate := e.dueDate, details := e.details, routing := UpdatedRouting(p.routing, e),
         kind := e.kind.GetOr(OtherKind("")), frequency := None, installments := None,
         installmentNumber := None, endDate := None, group := None)
  }

  function Patching(conds: seq<Cond>, patch: Patch): Payment -> Payment {
    p => if Matches(p, conds) then Apply(p, patch) else p
  }

  /**
   * The rows whose verdict under a filter list is `verdict`, in storage
   * order: a `select` keeps the matching rows, a `delete` the others.
   */
  function Kept(rows: seq<Payment>, conds: seq<Cond>, verdict: bool): (r: seq<Payment>)
    ensures |r| <= |rows|
    ensures forall i :: 0 <= i < |r| ==> r[i] in rows && Matches(r[i], conds) == verdict
    ensures forall i :: 0 <= i < |rows| && Matches(rows[i], conds) == verdict ==> rows[i] in r
    decreases |rows|
  {
    if rows == [] then []
    else
      var init, x := rows[..|rows| - 1], rows[|rows| - 1];
      assert forall y :: y in init ==> y in rows;
      assert forall i :: 0 <= i < |init| ==> init[i] == rows[i];
      if Matches(x, conds) == verdict then Kept(init, conds, verdict) + [x] else Kept(init, conds, verdict)
  }

  /** Every row, patched where a filter list matches it, in storage order. */
  function Patched(rows: seq<Payment>, conds: seq<Cond>, patch: Patch): (r: seq<Payment>)
    ensures |r| == |rows|
    ensures forall i :: 0 <= i < |rows| ==>
      r[i] == if Matches(rows[i], conds) then Apply(rows[i], patch) else rows[i]
    decreases |rows|
  {
    if rows == [] then []
    else
      var x := rows[|rows| - 1];
      Patched(rows[..|rows| - 1], conds, patch) + [if Matches(x, conds) then Apply(x, patch) else x]
  }

  /** `Kept` is the generic filter under the row predicate of its verdict. */
  lemma {:induction false} KeptIsFilter(rows: seq<Payment>, conds: seq<Cond>, verdict: bool)
    ensures Kept(rows, conds, verdict) == Filter(rows, if verdict then Matching(conds) else Surviving(conds))
    decreases |rows|
  {
    if rows != [] {
      KeptIsFilter(rows[..|rows| - 1], conds, verdict);
    }
  }

  /** `Patched` is the generic map under `Patching`. */
  lemma {:induction false} PatchedIsMap(rows: seq<Payment>, conds: seq<Cond>, patch: Patch)
    ensures Patched(rows, conds, patch) == Map(rows, Patching(conds, patch))
    decreases |rows|
  {
    if rows != [] {
      PatchedIsMap(rows[..|rows| - 1], conds, patch);
    }
  }

  /** The table: its rows in storage order and the next id the database hands out. */
  datatype Table = Table(rows: seq<Payment>, nextId: nat) {

    /** Ids are distinct and below `nextId`. */
    ghost predicate Valid() {
      && (forall i :: 0 <= i < |rows| ==> rows[i].id < nextId)
      && DistinctIds(rows)
    }

    function Select(conds: seq<Cond>): (r: seq<Payment>)
      ensures forall i :: 0 <= i < |r| ==> r[i] in rows && Matches(r[i], conds)
      ensures forall i :: 0 <= i < |rows| && Matches(rows[i], conds) ==> rows[i] in r
    {
      Kept(rows, conds, true)
    }

    function Delete(conds: seq<Cond>): (t: Table)
      ensures t.nextId == nextId
      ensures forall i :: 0 <= i < |t.rows| ==> t.rows[i] in rows && !Matches(t.rows[i], conds)
      ensures forall i :: 0 <= i < |rows| && !Matches(rows[i], conds) ==> rows[i] in t.rows
    {
      Table(Kept(rows, conds, false), nextId)
    }

    function Update(conds: seq<Cond>, patch: Patch): (t: Table)
      ensures t.nextId == nextId && |t.rows| == |rows|
      ensures forall i :: 0 <= i < |rows| ==>
        t.rows[i] == if Matches(rows[i], conds) then Apply(rows[i], patch) else rows[i]
    {
      Table(Patched(rows, conds, patch), nextId)
    }

    /** New rows go to the end, numbered from `nextId` on. */
    function Insert(drafts: seq<Payment>): (t: Table)
      ensures t.nextId == nextId + |drafts|
      ensures |t.rows| == |rows| + |drafts|
      ensures forall i :: 0 <= i < |rows| ==> t.rows[i] == rows[i]
      ensures forall i :: |rows| <= i < |t.rows| ==> t.rows[i] == drafts[i - |rows|].(id := nextId + i - |rows|)
    {
      Table(rows + Numbered(drafts, nextId), nextId + |drafts|)
    }
  }

  function Numbered(drafts: seq<Payment>, first: nat): (r: seq<Payment>)
    ensures |r| == |drafts|
    ensures forall i :: 0 <= i < |drafts| ==> r[i] == drafts[i].(id := first + i)
    decreases |drafts|
  {
    if drafts == [] then []
    else Numbered(drafts[..|drafts| - 1], first) + [drafts[|drafts| - 1].(id := first + |drafts| - 1)]
  }

  lemma {:induction false} InsertAppends(t: Table, drafts: seq<Payment>)
    ensures t.Insert(drafts).rows == t.rows + Numbered(drafts, t.nextId)
    ensures t.Insert(drafts).rows[..|t.rows|] == t.rows
  {
  }

  /** The table ends with `rows`, numbered from `first` on. */
  ghost predicate EndsWithNumbered(u: Table, first: nat, rows: seq<Payment>) {
    var base := |u.rows| - |rows|;
    && base >= 0
    && forall j :: base <= j < |u.rows| ==> u.rows[j] == rows[j - base].(id := first + j - base)
  }

  /** The last `|drafts|` rows after an insert are the drafts, numbered from `nextId` on. */
  lemma {:induction false} InsertEnds(t: Table, drafts: seq<Payment>)
    ensures EndsWithNumbered(t.Insert(drafts), t.nextId, drafts)
  {
  }

  function InGroupOf(g: GroupId): Payment -> bool {
    (p: Payment) => p.group == Some(g)
  }

  lemma {:induction false} MatchesOne(x: Payment, c: Cond)
    ensures Matches(x, [c]) <==> Holds(c, x)
  {
    if Matches(x, [c]) {
      assert Holds([c][0], x);
    }
    if Holds(c, x) {
      forall i | 0 <= i < 1 ensures Holds([c][i], x) {
        assert [c][i] == c;
      }
    }
  }

  /** A `select` on one group sees exactly the rows carrying that group. */
  lemma {:induction false} SelectGroup(t: Table, g: GroupId)
    ensures t.Select([GroupIs(Some(g))]) == Filter(t.rows, InGroupOf(g))
  {
    forall x ensures Matching([GroupIs(Some(g))])(x) == InGroupOf(g)(x) {
      MatchesOne(x, GroupIs(Some(g)));
    }
    KeptIsFilter(t.rows, [GroupIs(Some(g))], true);
    FilterCongruent(t.rows, Matching([GroupIs(Some(g))]), InGroupOf(g));
  }

  /** Rows a filter never matches are untouched by a delete, in order. */
  lemma {:induction false} DeleteFrame(t: Table, conds: seq<Cond>, q: Payment -> bool)
    requires forall x :: q(x) ==> !Matches(x, conds)
    ensures Filter(t.Delete(conds).rows, q) == Filter(t.rows, q)
  {
    KeptIsFilter(t.rows, conds, false);
    FilterAbsorbs(t.rows, Surviving(conds), q);
  }

  /** Rows a filter never matches are untouched by an update that keeps the verdict of `q`. */
  lemma {:induction false} UpdateFrame(t: Table, conds: seq<Cond>, patch: Patch, q: Payment -> bool)
    requires forall x :: q(x) ==> !Matches(x, conds)
    requires forall x :: Matches(x, conds) ==> q(Apply(x, patch)) == q(x)
    ensures Filter(t.Update(conds, patch).rows, q) == Filter(t.rows, q)
  {
    var f := Patching(conds, patch);
    assert forall x :: q(f(x)) == q(x);
    PatchedIsMap(t.rows, conds, patch);
    FilterAfterMap(t.rows, f, q);
  }

  /** An update that keeps the verdict of `q` keeps the number of rows `q` accepts. */
  lemma {:induction false} UpdateCount(t: Table, conds: seq<Cond>, patch: Patch, q: Payment -> bool)
    requires forall x :: Matches(x, conds) ==> q(Apply(x, patch)) == q(x)
    ensures |Filter(t.Update(conds, patch).rows, q)| == |Filter(t.rows, q)|
  {
    var f := Patching(conds, patch);
    assert forall x :: q(f(x)) == q(x);
    PatchedIsMap(t.rows, conds, patch);
    FilterMapLength(t.rows, f, q);
  }

  /** Inserted rows that `q` rejects are invisible to `q`. */
  lemma {:induction false} InsertFrame(t: Table, drafts: seq<Payment>, q: Payment -> bool)
    requires forall i :: 0 <= i < |drafts| ==> !q(drafts[i].(id := t.nextId + i))
    ensures Filter(t.Insert(drafts).rows, q) == Filter(t.rows, q)
  {
    var added := Numbered(drafts, t.nextId);
    assert forall i :: 0 <= i < |added| ==> !q(added[i]);
    FilterKeepsNone(added, q);
    FilterAppend(t.rows, added, q);
    assert Filter(t.rows, q) + [] == Filter(t.rows, q);
  }

  /** Inserted rows that `q` accepts all pass `q`, after the rows that passed before. */
  lemma {:induction false} InsertKeepsAll(t: Table, drafts: seq<Payment>, q: Payment -> bool)
    requires forall i :: 0 <= i < |drafts| ==> q(drafts[i].(id := t.nextId + i))
    ensures Filter(t.Insert(drafts).rows, q) == Filter(t.rows, q) + Numbered(drafts, t.nextId)
  {
    var added := Numbered(drafts, t.nextId);
    assert forall i :: 0 <= i < |added| ==> q(added[i]);
    FilterKeepsAll(added, q);
    FilterAppend(t.rows, added, q);
  }

  /** No row carries `id`. */
  predicate IdAbsent(t: Table, id: nat) {
    forall j :: 0 <= j < |t.rows| ==> t.rows[j].id != id
  }

  /** A deleted row's id is gone from the table. */
  lemma {:induction false} DeleteRemovesId(t: Table, conds: seq<Cond>, i: nat)
    requires t.Valid() && i < |t.rows| && Matches(t.rows[i], conds)
    ensures IdAbsent(t.Delete(conds), t.rows[i].id)
  {
    var u := t.Delete(conds);
    forall j | 0 <= j < |u.rows| ensures u.rows[j].id != t.rows[i].id {
      var k :| 0 <= k < |t.rows| && t.rows[k] == u.rows[j];
      assert k != i;
    }
  }

  /** Ids already handed out are never handed out again. */
  lemma {:induction false} InsertKeepsAbsent(t: Table, drafts: seq<Payment>, id: nat)
    requires IdAbsent(t, id) && id < t.nextId
    ensures IdAbsent(t.Insert(drafts), id) && id < t.Insert(drafts).nextId
  {
    var u := t.Insert(drafts);
    forall j | 0 <= j < |u.rows| ensures u.rows[j].id != id {
      if j < |t.rows| {
        assert u.rows[j] == t.rows[j];
      }
    }
  }

  lemma {:induction false} UpdateKeepsAbsent(t: Table, conds: seq<Cond>, patch: Patch, id: nat)
    requires IdAbsent(t, id)
    ensures IdAbsent(t.Update(conds, patch), id)
  {
    var u := t.Update(conds, patch);
    forall j | 0 <= j < |u.rows| ensures u.rows[j].id != id {
      assert u.rows[j].id == t.rows[j].id;
    }
  }

  /** Inserted rows that an update reaches carry its patch, in insertion order. */
  lemma {:induction false} InsertThenPatch(t: Table, drafts: seq<Payment>, conds: seq<Cond>, patch: Patch)
    requires forall k :: 0 <= k < |drafts| ==> Matches(drafts[k].(id := t.nextId + k), conds)
    ensures var u := t.Insert(drafts).Update(conds, patch);
      |u.rows| == |t.rows| + |drafts| &&
      forall j :: |t.rows| <= j < |u.rows| ==> u.rows[j] == Apply(drafts[j - |t.rows|].(id := t.nextId + j - |t.rows|), patch)
  {
  }

  /** Deleting keeps ids distinct and below `nextId`. */
  lemma {:induction false} DeleteValid(t: Table, conds: seq<Cond>)
    requires t.Valid()
    ensures t.Delete(conds).Valid()
  {
    KeptIsFilter(t.rows, conds, false);
    FilterDistinct(t.rows, Surviving(conds));
  }

  /** Updating never writes an id. */
  lemma {:induction false} UpdateValid(t: Table, conds: seq<Cond>, patch: Patch)
    requires t.Valid()
    ensures t.Update(conds, patch).Valid()
  {
    var u := t.Update(conds, patch);
    forall i | 0 <= i < |u.rows| ensures u.rows[i].id == t.rows[i].id {
    }
  }

  /** Inserting hands out fresh ids. */
  lemma {:induction false} InsertValid(t: Table, drafts: seq<Payment>)
    requires t.Valid()
    ensures t.Insert(drafts).Valid()
  {
  }

  ghost predicate DistinctIds(s: seq<Payment>) {
    forall i, j :: 0 <= i < j < |s| ==> s[i].id != s[j].id
  }

  /** A filter of rows with distinct ids has distinct ids. */
  lemma {:induction false} FilterDistinct(s: seq<Payment>, p: Payment -> bool)
    requires DistinctIds(s)
    ensures DistinctIds(Filter(s, p))
    decreases |s|
  {
    if s != [] {
      var init, x := s[..|s| - 1], s[|s| - 1];
      FilterDistinct(init, p);
      var r := Filter(init, p);
      forall j | 0 <= j < |r| ensures r[j].id != x.id {
        var k :| 0 <= k < |init| && init[k] == r[j];
        assert s[k] == r[j];
      }
    }
  }

  /** The in-memory `payments` table the controllers talk to. */
  class PaymentStore {
    var rows: seq<Payment>
    var nextId: nat

    function State(): Table
      reads this
    {
      Table(rows, nextId)
    }

    constructor (t: Table)
      ensures State() == t
    {
      rows := t.rows;
      nextId := t.nextId;
    }

    /** `select("*")` with filters; `None` when the call fails. */
    method Select(conds: seq<Cond>, fail: bool) returns (r: Option<seq<Payment>>)
      ensures r == if fail then None else Some(State().Select(conds))
    {
      if fail {
        r := None;
      } else {
        r := Some(State().Select(conds));
      }
    }

    /** `delete()` with filters; a failed call changes nothing. */
    method Delete(conds: seq<Cond>, fail: bool) returns (ok: bool)
      modifies this
      ensures ok == !fail
      ensures State() == if fail then old(State()) else old(State()).Delete(conds)
    {
      ok := !fail;
      if ok {
        var t := State().Delete(conds);
        rows := t.rows;
      }
    }

    /** `update(patch)` with filters; a failed call changes nothing. */
    method Update(conds: seq<Cond>, patch: Patch, fail: bool) returns (ok: bool)
      modifies this
      ensures ok == !fail
      ensures State() == if fail then old(State()) else old(State()).Update(conds, patch)
    {
      ok := !fail;
      if ok {
        var t := State().Update(conds, patch);
        rows := t.rows;
      }
    }

    /** `insert(drafts)`: all rows or, on failure, none. */
    method Insert(drafts: seq<Payment>, fail: bool) returns (ok: bool)
      modifies this
      ensures ok == !fail
      ensures State() == if fail then old(State()) else old(State()).Insert(drafts)
    {
      ok := !fail;
      if ok {
        var t := State().Insert(drafts);
        rows, nextId := t.rows, t.nextId;
      }
    }
  }
}
