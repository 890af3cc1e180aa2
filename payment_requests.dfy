/**
 * `createPaymentRequest`, which both the upload endpoint and the mailbox cron
 * use to turn the data read off a boleto into a row of `payment_requests`:
 * a guard against a second PENDING boleto with the same barcode, the insert,
 * and the best-effort upload of the document to the `attachments` bucket with
 * its `payment_request_attachments` record.
 */
module PaymentRequests {
  import opened Wrappers
  import opened Text
  import opened BillFormat

  /** An octet of a `Uint8Array`. */
  type Byte = x: int | 0 <= x < 256

  /** One row of `payment_requests`; `value` is `None` where the amount read as NaN. */
  datatype PaymentRequest = PaymentRequest(
    id: nat,
    supplierName: Option<string>,
    description: string,
    value: Option<real>,
    dueDate: BillDate,
    status: string,
    origin: string,
    kind: string,
    paymentMethod: string,
    barcode: Option<string>,
    cpfCnpj: Option<string>,
    competence: BillDate)

  /** One row of `payment_request_attachments`. */
  datatype AttachmentRow = AttachmentRow(
    requestId: nat, fileName: string, fileType: string, fileSize: nat, fileUrl: string)

  /** The shapes the attachment's binary content can take. */
  datatype BufferData =
    | ArrayData(items: seq<int>)     // a plain array of numbers
    | Bytes(bytes: seq<Byte>)        // a `Uint8Array` (a Node `Buffer` is one)
    | ObjectData(values: seq<int>)   // an array-like object, read through `Object.values`
    | Missing                        // `undefined` or `null`: reading it throws

  datatype Attachment = Attachment(filename: Option<string>, contentType: Option<string>, data: BufferData)

  /** What the callers hand to `createPaymentRequest`. */
  datatype RequestData = RequestData(
    supplierName: Option<string>,
    cpfCnpj: Option<string>,
    value: Option<real>,
    dueDate: BillDate,
    barcode: Option<string>,
    kind: string,
    paymentMethod: string,
    status: string,
    origin: Option<string>,
    attachment: Option<Attachment>)

  /** The tables and the storage bucket; `nextId` is the id the database assigns next. */
  datatype RequestDb = RequestDb(
    requests: seq<PaymentRequest>,
    attachments: seq<AttachmentRow>,
    files: map<string, seq<Byte>>,
    nextId: nat)

  /** The store calls that can fail: the duplicate search, the insert, the upload, the attachment record. */
  datatype Call = Search | Insert | Upload | Record

  datatype CreateOutcome = Created(row: PaymentRequest) | Duplicate | InsertFailed

  const PdfType := "application/pdf"
  const Description := "Boleto - Email"

  /* ---------- names and types ---------- */

  function LowerChar(c: char): char {
    if 'A' <= c <= 'Z' then (c as int + 32) as char else c
  }

  function UpperChar(c: char): char {
    if 'a' <= c <= 'z' then (c as int - 32) as char else c
  }

  /** `s.toLowerCase()` on ASCII letters. */
  function ToLower(s: string): (r: string)
    ensures |r| == |s| && forall i :: 0 <= i < |s| ==> r[i] == LowerChar(s[i])
  {
    if s == [] then [] else [LowerChar(s[0])] + ToLower(s[1..])
  }

  /** `s.toUpperCase()` on ASCII letters. */
  function ToUpper(s: string): (r: string)
    ensures |r| == |s| && forall i :: 0 <= i < |s| ==> r[i] == UpperChar(s[i])
  {
    if s == [] then [] else [UpperChar(s[0])] + ToUpper(s[1..])
  }

  predicate EndsWith(s: string, suffix: string) {
    |s| >= |suffix| && s[|s| - |suffix|..] == suffix
  }

  /** `name.toLowerCase().endsWith(".pdf")`. */
  predicate IsPdfName(name: string) {
    EndsWith(ToLower(name), ".pdf")
  }

  /** `name.split(".").pop()`: the text after the last point, or all of it when there is none. */
  function AfterLastDot(s: string): (r: string)
    ensures |r| <= |s| && r == s[|s| - |r|..]
    ensures '.' !in r
    ensures |r| < |s| ==> s[|s| - |r| - 1] == '.'
  {
    if s == [] || s[|s| - 1] == '.' then []
    else AfterLastDot(s[..|s| - 1]) + [s[|s| - 1]]
  }

  /** The extension given to the stored file: `split(".").pop() || "pdf"`. */
  function Extension(name: string): string {
    var e := AfterLastDot(name);
    if e == [] then "pdf" else e
  }

  /** The content type the file is stored under: a PDF name forces `application/pdf`. */
  function ContentType(name: string, declared: Option<string>): string {
    if IsPdfName(name) then PdfType else Or(declared, PdfType)
  }

  /** `payment-requests/<random>.<extension>`; the random part is the `token` parameter. */
  function FilePath(token: string, name: string): string {
    "payment-requests/" + token + "." + Extension(name)
  }

  /* ---------- the binary content ---------- */

  /** `new Uint8Array(items)`: each number is taken modulo 2^8. */
  function Wrap(items: seq<int>): (r: seq<Byte>)
    ensures |r| == |items| && forall i :: 0 <= i < |items| ==> r[i] == items[i] % 256
  {
    if items == [] then [] else [items[0] % 256] + Wrap(items[1..])
  }

  /** The octets that are uploaded, or `None` when reading the content throws. */
  function Normalise(d: BufferData): Option<seq<Byte>> {
    match d
    case ArrayData(items) => Some(Wrap(items))
    case Bytes(bytes) => Some(bytes)
    case ObjectData(values) => Some(Wrap(values))
    case Missing => None
  }

  /** `%PDF-`, the header every PDF file opens with (ISO 32000-1, section 7.5.2). */
  const PdfSignature: seq<Byte> := [0x25, 0x50, 0x44, 0x46, 0x2d]

  predicate HasPdfHeader(bytes: seq<Byte>) {
    |bytes| >= 5 && bytes[..5] == PdfSignature
  }

  /** The condition under which a warning is logged; nothing else depends on it. */
  predicate SignatureWarning(contentType: string, bytes: seq<Byte>) {
    contentType == PdfType && !HasPdfHeader(bytes)
  }

  /* ---------- the duplicate guard ---------- */

  /** A row the guard's query selects for `origin`: a PENDING boleto of that origin. */
  predicate PendingBoleto(r: PaymentRequest, origin: string) {
    r.origin == origin && r.paymentMethod == "boleto" && r.status == "PENDING"
  }

  predicate Blocks(r: PaymentRequest, barcode: string, origin: string) {
    PendingBoleto(r, origin) && r.barcode == Some(barcode)
  }

  predicate HasDuplicate(rows: seq<PaymentRequest>, barcode: string, origin: string) {
    exists i :: 0 <= i < |rows| && Blocks(rows[i], barcode, origin)
  }

  /** No two PENDING boletos of `origin` share a (non-empty) barcode. */
  predicate UniqueBarcodes(rows: seq<PaymentRequest>, origin: string) {
    forall i, j ::
      (0 <= i < j < |rows| && PendingBoleto(rows[i], origin) && PendingBoleto(rows[j], origin)
       && Given(rows[j].barcode)) ==> rows[i].barcode != rows[j].barcode
  }

  /** The guard refuses the request. */
  predicate Refused(db: RequestDb, data: RequestData, guardOrigin: string, faults: set<Call>) {
    Given(data.barcode) && Search !in faults && HasDuplicate(db.requests, data.barcode.value, guardOrigin)
  }

  /* ---------- the effect ---------- */

  /** The row the insert produces. */
  function NewRow(id: nat, data: RequestData): PaymentRequest {
    PaymentRequest(id, data.supplierName, Description, data.value, data.dueDate, data.status,
      Or(data.origin, "MANUAL"), data.kind, data.paymentMethod, data.barcode, data.cpfCnpj, data.dueDate)
  }

  /** The upload and its record, for the request `id`; every failure leaves `db` as it was at that point. */
  function AttachEffect(db: RequestDb, id: nat, att: Option<Attachment>, token: string, url: string,
                        faults: set<Call>): RequestDb
  {
    if att.None? || !Given(att.value.filename) then db
    else
      var name := att.value.filename.value;
      var path := FilePath(token, name);
      match Normalise(att.value.data)
      case None => db
      case Some(bytes) =>
        if Upload in faults || path in db.files then db
        else
          var stored := db.(files := db.files[path := bytes]);
          if Record in faults then stored
          else stored.(attachments := db.attachments
                 + [AttachmentRow(id, name, ContentType(name, att.value.contentType), |bytes|, url)])
  }

  /** `createPaymentRequest(data)` against `db`, with the guard querying `guardOrigin`. */
  function CreateEffect(db: RequestDb, data: RequestData, guardOrigin: string, token: string, url: string,
                        faults: set<Call>): (RequestDb, CreateOutcome)
  {
    if Refused(db, data, guardOrigin, faults) then (db, Duplicate)
    else if Insert in faults then (db, InsertFailed)
    else
      var row := NewRow(db.nextId, data);
      var inserted := db.(requests := db.requests + [row], nextId := db.nextId + 1);
      (AttachEffect(inserted, row.id, data.attachment, token, url, faults), Created(row))
  }

  /* ---------- the store ---------- */

  predicate HasRequest(rows: seq<PaymentRequest>, id: nat) {
    exists i :: 0 <= i < |rows| && rows[i].id == id
  }

  /** Ids increase in insertion order and stay below `nextId`; every attachment record names a request. */
  predicate Valid(db: RequestDb) {
    (forall i :: 0 <= i < |db.requests| ==> db.requests[i].id < db.nextId)
    && (forall i, j :: 0 <= i < j < |db.requests| ==> db.requests[i].id < db.requests[j].id)
    && (forall k :: 0 <= k < |db.attachments| ==> HasRequest(db.requests, db.attachments[k].requestId))
  }

  class RequestStore {
    var db: RequestDb

    constructor(initial: RequestDb)
      ensures db == initial
    {
      db := initial;
    }

    /** The upload of `att` for the request `id`, and its record. */
    method SaveAttachment(id: nat, att: Option<Attachment>, token: string, url: string, faults: set<Call>)
      modifies this
      ensures db == AttachEffect(old(db), id, att, token, url, faults)
    {
      if att.None? || !Given(att.value.filename) {
        return;
      }
      var name := att.value.filename.value;
      var contentType := ContentType(name, att.value.contentType);
      var path := FilePath(token, name);
      var content := Normalise(att.value.data);
      if content.None? {
        return;
      }
      var bytes := content.value;
      if Upload in faults || path in db.files {
        return;
      }
      db := db.(files := db.files[path := bytes]);
      if Record in faults {
        return;
      }
      db := db.(attachments := db.attachments + [AttachmentRow(id, name, contentType, |bytes|, url)]);
    }

    method CreatePaymentRequest(data: RequestData, guardOrigin: string, token: string, url: string,
                                faults: set<Call>) returns (outcome: CreateOutcome)
      modifies this
      ensures (db, outcome) == CreateEffect(old(db), data, guardOrigin, token, url, faults)
    {
      if Given(data.barcode) && Search !in faults && HasDuplicate(db.requests, data.barcode.value, guardOrigin) {
        return Duplicate;
      }
      if Insert in faults {
        return InsertFailed;
      }
      var row := NewRow(db.nextId, data);
      db := db.(requests := db.requests + [row], nextId := db.nextId + 1);
      SaveAttachment(row.id, data.attachment, token, url, faults);
      outcome := Created(row);
    }
  }

  /* ---------- properties ---------- */

  /** The attachment step touches neither the requests nor the id counter. */
  lemma {:induction false} AttachKeepsRequests(db: RequestDb, id: nat, att: Option<Attachment>, token: string, url: string,
                            faults: set<Call>)
    ensures var r := AttachEffect(db, id, att, token, url, faults);
      r.requests == db.requests && r.nextId == db.nextId
      && |db.attachments| <= |r.attachments| <= |db.attachments| + 1
      && r.attachments[..|db.attachments|] == db.attachments
      && (|r.attachments| > |db.attachments| ==> r.attachments[|db.attachments|].requestId == id)
  {
  }

  /** The request is refused exactly when a barcode is given, the search answers, and a PENDING boleto
   *  of the guard's origin already carries it; a refusal changes nothing. */
  lemma {:induction false} DuplicateRefused(db: RequestDb, data: RequestData, guardOrigin: string, token: string, url: string,
                         faults: set<Call>)
    ensures var (r, o) := CreateEffect(db, data, guardOrigin, token, url, faults);
      (o == Duplicate <==> Given(data.barcode) && Search !in faults
                            && HasDuplicate(db.requests, data.barcode.value, guardOrigin))
      && (o == Duplicate ==> r == db)
  {
  }

  /** A failed search lets the request through: the guard fails open, and a duplicate can be stored. */
  lemma {:induction false} SearchFaultAdmitsDuplicate(db: RequestDb, data: RequestData, token: string, url: string, faults: set<Call>)
    requires Search in faults && Insert !in faults
    requires data.paymentMethod == "boleto" && data.status == "PENDING" && Given(data.barcode)
    requires HasDuplicate(db.requests, data.barcode.value, Or(data.origin, "MANUAL"))
    ensures var (r, o) := CreateEffect(db, data, Or(data.origin, "MANUAL"), token, url, faults);
      o.Created? && !UniqueBarcodes(r.requests, Or(data.origin, "MANUAL"))
  {
    var origin := Or(data.origin, "MANUAL");
    var (r, o) := CreateEffect(db, data, origin, token, url, faults);
    AttachKeepsRequests(db.(requests := db.requests + [o.row], nextId := db.nextId + 1),
      o.row.id, data.attachment, token, url, faults);
    var i :| 0 <= i < |db.requests| && Blocks(db.requests[i], data.barcode.value, origin);
    assert r.requests[i] == db.requests[i];
    assert r.requests[|db.requests|] == o.row;
  }

  /** A created request is the one new row, with a fresh id and the fields the insert writes. */
  lemma {:induction false} CreatedRow(db: RequestDb, data: RequestData, guardOrigin: string, token: string, url: string,
                   faults: set<Call>)
    ensures var (r, o) := CreateEffect(db, data, guardOrigin, token, url, faults);
      (o.Created? <==> !Refused(db, data, guardOrigin, faults) && Insert !in faults)
      && (o.Created? ==>
            r.requests == db.requests + [o.row] && r.nextId == db.nextId + 1
            && (Valid(db) ==> !HasRequest(db.requests, o.row.id))
            && o.row.status == data.status && o.row.paymentMethod == data.paymentMethod && o.row.kind == data.kind
            && o.row.description == Description && o.row.competence == o.row.dueDate == data.dueDate
            && o.row.origin == Or(data.origin, "MANUAL") && o.row.barcode == data.barcode
            && o.row.value == data.value)
      && (!o.Created? ==> r == db)
  {
    var (r, o) := CreateEffect(db, data, guardOrigin, token, url, faults);
    if o.Created? {
      AttachKeepsRequests(db.(requests := db.requests + [o.row], nextId := db.nextId + 1),
        o.row.id, data.attachment, token, url, faults);
      if Valid(db) {
        assert forall i :: 0 <= i < |db.requests| ==> db.requests[i].id != o.row.id;
      }
    }
  }

  /** `createPaymentRequest` keeps the store well formed. */
  lemma {:induction false} CreateKeepsValid(db: RequestDb, data: RequestData, guardOrigin: string, token: string, url: string,
                         faults: set<Call>)
    requires Valid(db)
    ensures Valid(CreateEffect(db, data, guardOrigin, token, url, faults).0)
  {
    var (r, o) := CreateEffect(db, data, guardOrigin, token, url, faults);
    if o.Created? {
      var inserted := db.(requests := db.requests + [o.row], nextId := db.nextId + 1);
      AttachKeepsRequests(inserted, o.row.id, data.attachment, token, url, faults);
      assert r.requests == inserted.requests;
      forall k | 0 <= k < |r.attachments|
        ensures HasRequest(r.requests, r.attachments[k].requestId)
      {
        if k < |db.attachments| {
          assert r.attachments[k] == db.attachments[k];
          var i :| 0 <= i < |db.requests| && db.requests[i].id == db.attachments[k].requestId;
          assert r.requests[i] == db.requests[i];
        } else {
          assert r.requests[|db.requests|] == o.row;
        }
      }
    }
  }

  /** With the search answering, the guard keeps PENDING boletos of its own origin free of repeated
   *  barcodes, for the requests it creates under that origin. */
  lemma {:induction false} CreateKeepsBarcodesUnique(db: RequestDb, data: RequestData, token: string, url: string, faults: set<Call>)
    requires Search !in faults
    requires UniqueBarcodes(db.requests, Or(data.origin, "MANUAL"))
    ensures UniqueBarcodes(CreateEffect(db, data, Or(data.origin, "MANUAL"), token, url, faults).0.requests,
                           Or(data.origin, "MANUAL"))
  {
    var origin := Or(data.origin, "MANUAL");
    var (r, o) := CreateEffect(db, data, origin, token, url, faults);
    if o.Created? {
      var inserted := db.(requests := db.requests + [o.row], nextId := db.nextId + 1);
      AttachKeepsRequests(inserted, o.row.id, data.attachment, token, url, faults);
      assert r.requests == db.requests + [o.row];
      forall i, j | 0 <= i < j < |r.requests| && PendingBoleto(r.requests[i], origin)
        && PendingBoleto(r.requests[j], origin) && Given(r.requests[j].barcode)
        ensures r.requests[i].barcode != r.requests[j].barcode
      {
        if j == |db.requests| {
          assert r.requests[j] == o.row;
          assert r.requests[i] == db.requests[i];
          assert !Blocks(db.requests[i], data.barcode.value, origin);
        } else {
          assert r.requests[i] == db.requests[i] && r.requests[j] == db.requests[j];
        }
      }
    }
  }

  /** A failed upload loses only the document: the request stays, with no record and no file. */
  lemma {:induction false} UploadFailureKeepsRequest(db: RequestDb, data: RequestData, guardOrigin: string, token: string,
                                  url: string, faults: set<Call>)
    requires Upload in faults && !Refused(db, data, guardOrigin, faults) && Insert !in faults
    ensures var (r, o) := CreateEffect(db, data, guardOrigin, token, url, faults);
      o.Created? && r.requests == db.requests + [o.row]
      && r.attachments == db.attachments && r.files == db.files
  {
  }

  /** The attachment step with the upload and the record succeeding. */
  lemma {:induction false} AttachStoresContent(db: RequestDb, id: nat, a: Attachment, token: string, url: string, faults: set<Call>)
    requires Upload !in faults && Record !in faults
    requires Given(a.filename) && Normalise(a.data).Some? && FilePath(token, a.filename.value) !in db.files
    ensures AttachEffect(db, id, Some(a), token, url, faults)
      == db.(files := db.files[FilePath(token, a.filename.value) := Normalise(a.data).value],
             attachments := db.attachments + [AttachmentRow(id, a.filename.value,
               ContentType(a.filename.value, a.contentType), |Normalise(a.data).value|, url)])
  {
  }

  /** When the upload and the record succeed, the file holds exactly the normalised content and the
   *  record names it, whether or not the content opens with the PDF header. */
  lemma {:induction false} UploadStoresContent(db: RequestDb, data: RequestData, guardOrigin: string, token: string, url: string,
                            faults: set<Call>)
    requires !Refused(db, data, guardOrigin, faults) && Insert !in faults && Upload !in faults && Record !in faults
    requires data.attachment.Some? && Given(data.attachment.value.filename)
    requires Normalise(data.attachment.value.data).Some?
    requires FilePath(token, data.attachment.value.filename.value) !in db.files
    ensures var r := CreateEffect(db, data, guardOrigin, token, url, faults).0;
      var a := data.attachment.value;
      r.files == db.files[FilePath(token, a.filename.value) := Normalise(a.data).value]
      && r.attachments == db.attachments + [AttachmentRow(db.nextId, a.filename.value,
           ContentType(a.filename.value, a.contentType), |Normalise(a.data).value|, url)]
  {
    var row := NewRow(db.nextId, data);
    var inserted := db.(requests := db.requests + [row], nextId := db.nextId + 1);
    AttachStoresContent(inserted, row.id, data.attachment.value, token, url, faults);
  }

  /** A Node `Buffer` is uploaded verbatim; an array or array-like object is reduced modulo 2^8. */
  lemma {:induction false} NormaliseContent(d: BufferData)
    ensures d.Bytes? ==> Normalise(d) == Some(d.bytes)
    ensures d.ArrayData? ==> (Normalise(d).Some? && |Normalise(d).value| == |d.items|
      && forall i :: 0 <= i < |d.items| && 0 <= d.items[i] < 256 ==> Normalise(d).value[i] == d.items[i])
    ensures d.ObjectData? ==> (Normalise(d).Some? && |Normalise(d).value| == |d.values|)
    ensures Normalise(d).None? <==> d.Missing?
  {
  }

  /** The signature is the text `%PDF-`, and a content that opens with it draws no warning. */
  lemma {:induction false} PdfSignatureIsPercentPdf(rest: seq<Byte>)
    ensures |PdfSignature| == |"%PDF-"| && forall i :: 0 <= i < 5 ==> PdfSignature[i] == "%PDF-"[i] as int
    ensures !SignatureWarning(PdfType, PdfSignature + rest)
    ensures SignatureWarning(PdfType, rest) <==> !(|rest| >= 5 && rest[..5] == PdfSignature)
  {
    assert (PdfSignature + rest)[..5] == PdfSignature;
  }

  /** The text after the last point of `base.ext`, when `ext` has no point, is `ext`. */
  lemma {:induction false} AfterLastDotOf(base: string, ext: string)
    requires '.' !in ext
    ensures AfterLastDot(base + "." + ext) == ext
    decreases |ext|
  {
    var s := base + "." + ext;
    if ext == [] {
      assert s[|s| - 1] == '.';
    } else {
      assert s[|s| - 1] == ext[|ext| - 1];
      assert s[..|s| - 1] == base + "." + ext[..|ext| - 1];
      AfterLastDotOf(base, ext[..|ext| - 1]);
    }
  }

  /** A PDF name is `<base>.<ext>` with `ext` lower-casing to `pdf`. */
  lemma {:induction false} PdfNameParts(name: string)
    requires IsPdfName(name)
    ensures |name| >= 4 && name == name[..|name| - 4] + "." + name[|name| - 3..]
    ensures '.' !in name[|name| - 3..] && ToLower(name[|name| - 3..]) == "pdf"
  {
    var n := |name|;
    var low := ToLower(name);
    assert low[n - 4..] == ".pdf";
    assert low[n - 4] == '.' && low[n - 3] == 'p' && low[n - 2] == 'd' && low[n - 1] == 'f';
    var ext := name[n - 3..];
    assert name == name[..n - 4] + "." + ext;
    var le := ToLower(ext);
    assert le[0] == low[n - 3] && le[1] == low[n - 2] && le[2] == low[n - 1];
    assert le == "pdf";
  }

  /** A name that reads as a PDF is stored as `application/pdf`, under an extension that lower-cases to `pdf`. */
  lemma {:induction false} PdfNameStoredAsPdf(name: string, declared: Option<string>)
    requires IsPdfName(name)
    ensures ContentType(name, declared) == PdfType
    ensures ToLower(Extension(name)) == "pdf"
  {
    PdfNameParts(name);
    AfterLastDotOf(name[..|name| - 4], name[|name| - 3..]);
  }

  /** Letter case does not matter to the PDF test: `report.PDF` is a PDF. */
  lemma {:induction false} PdfNameIgnoresCase(name: string)
    ensures IsPdfName(ToUpper(name)) <==> IsPdfName(name)
  {
    assert forall c :: LowerChar(UpperChar(c)) == LowerChar(c);
    var a := ToLower(ToUpper(name));
    var b := ToLower(name);
    assert a == b by {
      forall i | 0 <= i < |name| ensures a[i] == b[i] {
        assert a[i] == LowerChar(UpperChar(name[i]));
      }
    }
  }
}
