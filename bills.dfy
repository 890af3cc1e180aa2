/**
 * The upload endpoint for boletos (`processDocument` of the bill controller):
 * it checks the file's type, reads its text both as a PDF and as an image and
 * keeps the longer reading, asks the text model for the billing fields, and
 * files a MANUAL payment request through `createPaymentRequest`.
 */
module Bills {
  import opened Wrappers
  import opened Text
  import opened BillFormat
  import opened PaymentRequests

  /** The uploaded file. */
  datatype Upload = Upload(originalName: string, mimeType: string, buffer: seq<Byte>)

  /** The fields the text model reads off a boleto. */
  datatype Billing = Billing(
    beneficiario: Option<string>,
    cnpjBeneficiario: Option<string>,
    valor: Amount,
    vencimento: Option<string>,
    codigoBarras: Option<string>)

  /** The external services' answers for one document: the two text readings (`None` where the
   *  call throws) and the text model, as a function of the text it is given. */
  datatype Services = Services(pdfText: Option<string>, imageText: Option<string>, model: string -> Option<Billing>)

  /** The endpoint's answers; `Status` gives their HTTP codes. */
  datatype BillReply =
    | Ok(row: PaymentRequest)
    | NoFile
    | UnsupportedType
    | NoText
    | ModelFailed
    | RequestFailed(outcome: CreateOutcome)

  function Status(reply: BillReply): (code: nat)
    ensures code == 200 <==> reply.Ok?
    ensures code == 400 <==> reply.NoFile? || reply.UnsupportedType? || reply.NoText?
  {
    match reply
    case Ok(_) => 200
    case NoFile => 400
    case UnsupportedType => 400
    case NoText => 400
    case ModelFailed => 500
    case RequestFailed(_) => 500
  }

  const AcceptedTypes: seq<string> := ["application/pdf", "image/png", "image/jpeg"]

  /** The type looked up from the file name, falling back to the one the client declared. */
  function GuessedType(lookup: Option<string>, declared: string): string {
    Or(lookup, declared)
  }

  /** The reading kept: the PDF reading when it is strictly longer, else the image reading. */
  function ChooseText(pdfText: string, imageText: string): string {
    if |pdfText| > |imageText| then pdfText else imageText
  }

  /** The request both document handlers build from the billing fields. */
  function FromBilling(b: Billing, origin: string, att: Attachment): RequestData {
    RequestData(b.beneficiario, b.cnpjBeneficiario, FormatBillCurrencyAsWritten(b.valor), FormatBillDate(b.vencimento),
      b.codigoBarras, "single", "boleto", "PENDING", Some(origin), Some(att))
  }

  /** `processDocument(req, res)` against the store `db`. */
  function ProcessBillEffect(db: RequestDb, file: Option<Upload>, lookup: Option<string>, sv: Services,
                             token: string, url: string, faults: set<Call>): (RequestDb, BillReply)
  {
    if file.None? then (db, NoFile)
    else
      var f := file.value;
      var mime := GuessedType(lookup, f.mimeType);
      if mime !in AcceptedTypes then (db, UnsupportedType)
      else
        var text := ChooseText(sv.pdfText.GetOr(""), sv.imageText.GetOr(""));
        if text == "" then (db, NoText)
        else match sv.model(text)
          case None => (db, ModelFailed)
          case Some(b) =>
            var data := FromBilling(b, "MANUAL", Attachment(Some(f.originalName), Some(mime), Bytes(f.buffer)));
            var (r, o) := CreateEffect(db, data, "MANUAL", token, url, faults);
            if o.Created? then (r, Ok(o.row)) else (r, RequestFailed(o))
  }

  method ProcessDocument(store: RequestStore, file: Option<Upload>, lookup: Option<string>, sv: Services,
                         token: string, url: string, faults: set<Call>) returns (reply: BillReply)
    modifies store
    ensures (store.db, reply) == ProcessBillEffect(old(store.db), file, lookup, sv, token, url, faults)
  {
    if file.None? {
      return NoFile;
    }
    var f := file.value;
    var mime := GuessedType(lookup, f.mimeType);
    if mime !in AcceptedTypes {
      return UnsupportedType;
    }
    var pdfText := "";
    if sv.pdfText.Some? {
      pdfText := sv.pdfText.value;
    }
    var imageText := "";
    if sv.imageText.Some? {
      imageText := sv.imageText.value;
    }
    var text := ChooseText(pdfText, imageText);
    if text == "" {
      return NoText;
    }
    var billing := sv.model(text);
    if billing.None? {
      return ModelFailed;
    }
    var data := FromBilling(billing.value, "MANUAL", Attachment(Some(f.originalName), Some(mime), Bytes(f.buffer)));
    var outcome := store.CreatePaymentRequest(data, "MANUAL", token, url, faults);
    if outcome.Created? {
      reply := Ok(outcome.row);
    } else {
      reply := RequestFailed(outcome);
    }
  }

  /* ---------- properties ---------- */

  /** The kept reading is the longer one (the image reading on a tie), so it is empty only when both are. */
  lemma {:induction false} ChooseTextLonger(pdfText: string, imageText: string)
    ensures var t := ChooseText(pdfText, imageText);
      (t == pdfText || t == imageText) && |t| >= |pdfText| && |t| >= |imageText|
      && (|pdfText| == |imageText| ==> t == imageText)
      && (t == "" <==> pdfText == "" && imageText == "")
  {
  }

  /** The looked-up type wins over the declared one; only PDF, PNG and JPEG pass. */
  lemma {:induction false} TypeGate(db: RequestDb, f: Upload, lookup: Option<string>, sv: Services, token: string, url: string,
                 faults: set<Call>)
    ensures var reply := ProcessBillEffect(db, Some(f), lookup, sv, token, url, faults).1;
      reply == UnsupportedType <==> GuessedType(lookup, f.mimeType) !in AcceptedTypes
    ensures Given(lookup) ==> GuessedType(lookup, f.mimeType) == lookup.value
  {
  }

  /** Every answer but 200 leaves the store as it was. */
  lemma {:induction false} FailureChangesNothing(db: RequestDb, file: Option<Upload>, lookup: Option<string>, sv: Services,
                              token: string, url: string, faults: set<Call>)
    ensures var (r, reply) := ProcessBillEffect(db, file, lookup, sv, token, url, faults);
      !reply.Ok? ==> r == db
  {
    if file.Some? && GuessedType(lookup, file.value.mimeType) in AcceptedTypes {
      var text := ChooseText(sv.pdfText.GetOr(""), sv.imageText.GetOr(""));
      if text != "" && sv.model(text).Some? {
        var f := file.value;
        var data := FromBilling(sv.model(text).value, "MANUAL",
          Attachment(Some(f.originalName), Some(GuessedType(lookup, f.mimeType)), Bytes(f.buffer)));
        CreatedRow(db, data, "MANUAL", token, url, faults);
      }
    }
  }

  /** A 200 answer files one MANUAL PENDING boleto carrying the fields the text model read, with the
   *  amount and the due date normalised. */
  lemma {:induction false} FiledRequest(db: RequestDb, f: Upload, lookup: Option<string>, sv: Services, token: string, url: string,
                     faults: set<Call>)
    ensures var (r, reply) := ProcessBillEffect(db, Some(f), lookup, sv, token, url, faults);
      var text := ChooseText(sv.pdfText.GetOr(""), sv.imageText.GetOr(""));
      reply.Ok? ==>
        text != "" && sv.model(text).Some?
        && r.requests == db.requests + [reply.row]
        && reply.row.origin == "MANUAL" && reply.row.status == "PENDING"
        && reply.row.paymentMethod == "boleto" && reply.row.kind == "single"
        && reply.row.value == FormatBillCurrencyAsWritten(sv.model(text).value.valor)
        && reply.row.dueDate == FormatBillDate(sv.model(text).value.vencimento)
        && reply.row.barcode == sv.model(text).value.codigoBarras
  {
    var mime := GuessedType(lookup, f.mimeType);
    var text := ChooseText(sv.pdfText.GetOr(""), sv.imageText.GetOr(""));
    if mime in AcceptedTypes && text != "" && sv.model(text).Some? {
      var data := FromBilling(sv.model(text).value, "MANUAL",
        Attachment(Some(f.originalName), Some(mime), Bytes(f.buffer)));
      CreatedRow(db, data, "MANUAL", token, url, faults);
    }
  }

  /**
   * As written, an amount with two grouping points, such as "R$ 1.234.567,89",
   * reads as NaN, so the filed request carries no value.
   */
  lemma {:induction false} FiledMillionsHasNoValue(db: RequestDb, f: Upload, lookup: Option<string>, sv: Services,
                                                   token: string, url: string, faults: set<Call>,
                                                   a: string, b: string, c: string, d: string)
    requires |a| > 0 && AllDigits(a) && AllDigits(b) && AllDigits(c) && |d| > 0 && AllDigits(d)
    requires var text := ChooseText(sv.pdfText.GetOr(""), sv.imageText.GetOr(""));
      sv.model(text).Some? && sv.model(text).value.valor == Text("R$ " + (a + "." + b + "." + c + "," + d))
    ensures var reply := ProcessBillEffect(db, Some(f), lookup, sv, token, url, faults).1;
      reply.Ok? ==> reply.row.value.None?
  {
    FiledRequest(db, f, lookup, sv, token, url, faults);
    MillionsAsWritten(a, b, c, d);
  }

  /** The stored document keeps the accepted type, except that a `.pdf` name forces `application/pdf`. */
  lemma {:induction false} StoredType(name: string, mime: string)
    requires mime in AcceptedTypes
    ensures ContentType(name, Some(mime)) == (if IsPdfName(name) then PdfType else mime)
  {
  }

  /** With the duplicate search answering, two uploads of the same barcode file one request. */
  lemma {:induction false} SecondUploadRefused(db: RequestDb, f: Upload, g: Upload, lookup: Option<string>, sv: Services,
                            token1: string, token2: string, url: string, faults1: set<Call>, faults2: set<Call>)
    requires Search !in faults2
    ensures var (r1, reply1) := ProcessBillEffect(db, Some(f), lookup, sv, token1, url, faults1);
      var (r2, reply2) := ProcessBillEffect(r1, Some(g), lookup, sv, token2, url, faults2);
      (reply1.Ok? && GuessedType(lookup, g.mimeType) in AcceptedTypes && Given(reply1.row.barcode))
      ==> (reply2 == RequestFailed(Duplicate) && r2 == r1)
  {
    var (r1, reply1) := ProcessBillEffect(db, Some(f), lookup, sv, token1, url, faults1);
    if reply1.Ok? && GuessedType(lookup, g.mimeType) in AcceptedTypes && Given(reply1.row.barcode) {
      FiledRequest(db, f, lookup, sv, token1, url, faults1);
      var text := ChooseText(sv.pdfText.GetOr(""), sv.imageText.GetOr(""));
      var b := sv.model(text).value;
      assert r1.requests[|db.requests|] == reply1.row;
      assert Blocks(r1.requests[|db.requests|], b.codigoBarras.value, "MANUAL");
    }
  }
}
