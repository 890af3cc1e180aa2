/**
 * The mailbox cron: it lists the parts of each message, downloads those whose
 * disposition is ATTACHMENT, and passes each attachment named `*.pdf` to the
 * e-mail variant of `processDocument`, which reads the document, asks the text
 * model for the billing fields and files an EMAIL payment request.
 */
module MailParser {
  import opened Wrappers
  import opened Text
  import opened BillFormat
  import opened PaymentRequests
  import opened Bills

  /** A downloaded part's content, in the shapes the handler tells apart. */
  datatype PartData =
    | Octets(bytes: seq<Byte>)    // a Node `Buffer`
    | Items(items: seq<int>)      // an array of numbers
    | Values(values: seq<int>)    // another object, read through `Object.values`
    | Scalar                      // a truthy value that is not an object (a text, a number)
    | Falsy                       // `undefined`, `null`, `""` or `0`

  /** A MIME part: its `Content-Disposition` type, if it has one, its file name and its content. */
  datatype Part = Part(disposition: Option<string>, filename: string, data: PartData)

  datatype Email = Email(parts: seq<Part>)

  /** An attachment as the cron keeps it after the download. */
  datatype Downloaded = Downloaded(filename: string, data: PartData, isPdf: bool)

  /** What the e-mail `processDocument` can be handed: a bare buffer or an attachment record. */
  datatype MailInput = RawBuffer(bytes: seq<Byte>) | Received(filename: Option<string>, data: PartData)

  datatype MailError =
    | NoAttachment
    | InvalidFormat
    | UnsupportedData
    | OcrFailed
    | ExtractionFailed
    | NotFiled(outcome: CreateOutcome)

  datatype MailReply = Processed(row: PaymentRequest) | Failed(error: MailError)

  datatype BufferRead = Buffer(bytes: seq<Byte>) | Unreadable(error: MailError)

  /** The services' answers, the random file token, the public URL and the failing store calls
   *  for one document. */
  datatype Env = Env(services: Services, token: string, url: string, faults: set<Call>)

  /* ---------- listing the attachments ---------- */

  predicate IsAttachmentType(t: string) {
    ToUpper(t) == "ATTACHMENT"
  }

  predicate IsAttachment(p: Part) {
    p.disposition.Some? && IsAttachmentType(p.disposition.value)
  }

  function Download(p: Part): Downloaded {
    Downloaded(p.filename, p.data, IsPdfName(p.filename))
  }

  /** Each attachment part of a message, downloaded and labelled, in order. */
  function Downloads(parts: seq<Part>): (r: seq<Downloaded>)
    ensures |r| <= |parts|
    ensures forall i :: 0 <= i < |r| ==> r[i].isPdf == IsPdfName(r[i].filename)
    ensures r == [] <==> forall j :: 0 <= j < |parts| ==> !IsAttachment(parts[j])
  {
    if parts == [] then []
    else if IsAttachment(parts[0]) then [Download(parts[0])] + Downloads(parts[1..])
    else
      var rest := Downloads(parts[1..]);
      assert forall j :: 1 <= j < |parts| ==> parts[j] == parts[1..][j - 1];
      rest
  }

  /** The attachments labelled as PDFs, in order. */
  function PdfsOf(ds: seq<Downloaded>): (r: seq<Downloaded>)
    ensures |r| <= |ds|
    ensures forall i :: 0 <= i < |r| ==> r[i].isPdf && r[i] in ds
  {
    if ds == [] then []
    else if ds[0].isPdf then [ds[0]] + PdfsOf(ds[1..])
    else PdfsOf(ds[1..])
  }

  /** The attachment lists of the messages that have any, in mailbox order. */
  function Fetch(emails: seq<Email>): seq<seq<Downloaded>> {
    if emails == [] then []
    else
      var ds := Downloads(emails[|emails| - 1].parts);
      Fetch(emails[..|emails| - 1]) + (if |ds| > 0 then [ds] else [])
  }

  /** The PDF attachments of the fetched messages, in the order they are processed. */
  function Queue(fetched: seq<seq<Downloaded>>): seq<Downloaded> {
    if fetched == [] then [] else Queue(fetched[..|fetched| - 1]) + PdfsOf(fetched[|fetched| - 1])
  }

  /* ---------- one document ---------- */

  /** The name the handler uses: the record's name, or `unknown.pdf`. */
  function MailFileName(input: MailInput): string {
    match input
    case RawBuffer(_) => "unknown.pdf"
    case Received(name, _) => Or(name, "unknown.pdf")
  }

  /** The buffer the handler reads, in the order it tests the shapes. */
  function ReadBuffer(input: MailInput): BufferRead {
    match input
    case RawBuffer(bytes) => Buffer(bytes)
    case Received(_, data) =>
      match data
      case Octets(bytes) => Buffer(bytes)
      case Items(items) => Buffer(Wrap(items))
      case Values(values) => Buffer(Wrap(values))
      case Scalar => Unreadable(UnsupportedData)
      case Falsy => Unreadable(InvalidFormat)
  }

  /** The e-mail `processDocument(attachment)` against the store `db`. */
  function ProcessMailEffect(db: RequestDb, input: Option<MailInput>, env: Env): (RequestDb, MailReply) {
    if input.None? then (db, Failed(NoAttachment))
    else match ReadBuffer(input.value)
      case Unreadable(e) => (db, Failed(e))
      case Buffer(bytes) =>
        var sv := env.services;
        if sv.pdfText.None? || sv.imageText.None? then (db, Failed(OcrFailed))
        else match sv.model(ChooseText(sv.pdfText.value, sv.imageText.value))
          case None => (db, Failed(ExtractionFailed))
          case Some(b) =>
            var data := FromBilling(b, "EMAIL", Attachment(Some(MailFileName(input.value)), Some(PdfType), Bytes(bytes)));
            var (r, o) := CreateEffect(db, data, "EMAIL", env.token, env.url, env.faults);
            if o.Created? then (r, Processed(o.row)) else (r, Failed(NotFiled(o)))
  }

  /** One queued attachment handed to the handler; the reply is only logged. */
  function Step(db: RequestDb, d: Downloaded, env: Env): RequestDb {
    ProcessMailEffect(db, Some(Received(Some(d.filename), d.data)), env).0
  }

  /** The store after the queue `q`, the `i`-th document meeting `env(i)`. */
  function Run(db: RequestDb, q: seq<Downloaded>, env: nat -> Env): RequestDb {
    if q == [] then db else Step(Run(db, q[..|q| - 1], env), q[|q| - 1], env(|q| - 1))
  }

  method ProcessDocument(store: RequestStore, input: Option<MailInput>, env: Env) returns (reply: MailReply)
    modifies store
    ensures (store.db, reply) == ProcessMailEffect(old(store.db), input, env)
  {
    if input.None? {
      return Failed(NoAttachment);
    }
    var read := ReadBuffer(input.value);
    if read.Unreadable? {
      return Failed(read.error);
    }
    var sv := env.services;
    if sv.pdfText.None? || sv.imageText.None? {
      return Failed(OcrFailed);
    }
    var text := ChooseText(sv.pdfText.value, sv.imageText.value);
    var billing := sv.model(text);
    if billing.None? {
      return Failed(ExtractionFailed);
    }
    var data := FromBilling(billing.value, "EMAIL",
      Attachment(Some(MailFileName(input.value)), Some(PdfType), Bytes(read.bytes)));
    var outcome := store.CreatePaymentRequest(data, "EMAIL", env.token, env.url, env.faults);
    if outcome.Created? {
      reply := Processed(outcome.row);
    } else {
      reply := Failed(NotFiled(outcome));
    }
  }

  /** The listing pass: each message's attachment parts, downloaded, for the messages that have any. */
  method FetchAttachments(emails: seq<Email>) returns (fetched: seq<seq<Downloaded>>)
    ensures fetched == Fetch(emails)
  {
    fetched := [];
    var e := 0;
    while e < |emails|
      invariant 0 <= e <= |emails|
      invariant fetched == Fetch(emails[..e])
    {
      var ds := Downloads(emails[e].parts);
      if |ds| > 0 {
        fetched := fetched + [ds];
      }
      assert emails[..e + 1][..e] == emails[..e];
      e := e + 1;
    }
    assert emails[..|emails|] == emails;
  }

  /** The PDF attachments of one message, handled in turn after the `|done|` documents before them. */
  method HandlePdfs(store: RequestStore, pdfs: seq<Downloaded>, env: nat -> Env, k0: nat,
                    ghost db0: RequestDb, ghost done: seq<Downloaded>)
    requires k0 == |done| && store.db == Run(db0, done, env)
    modifies store
    ensures store.db == Run(db0, done + pdfs, env)
  {
    var j := 0;
    assert done + pdfs[..j] == done;
    while j < |pdfs|
      invariant 0 <= j <= |pdfs|
      invariant store.db == Run(db0, done + pdfs[..j], env)
    {
      var d := pdfs[j];
      var reply := ProcessDocument(store, Some(Received(Some(d.filename), d.data)), env(k0 + j));
      RunNext(db0, done, pdfs, j, env);
      j := j + 1;
    }
    assert pdfs[..j] == pdfs;
  }

  /** A mailbox run: the messages with attachments are fetched, then every PDF attachment is handled
   *  in turn, a failing one only logged. */
  method ProcessMailbox(store: RequestStore, emails: seq<Email>, env: nat -> Env)
    returns (fetched: seq<seq<Downloaded>>)
    modifies store
    ensures fetched == Fetch(emails)
    ensures store.db == Run(old(store.db), Queue(fetched), env)
  {
    fetched := FetchAttachments(emails);
    ghost var db0 := store.db;
    var k := 0;
    var m := 0;
    while m < |fetched|
      invariant 0 <= m <= |fetched|
      invariant k == |Queue(fetched[..m])|
      invariant store.db == Run(db0, Queue(fetched[..m]), env)
    {
      var pdfs := PdfsOf(fetched[m]);
      HandlePdfs(store, pdfs, env, k, db0, Queue(fetched[..m]));
      assert fetched[..m + 1][..m] == fetched[..m];
      k := k + |pdfs|;
      m := m + 1;
    }
    assert fetched[..m] == fetched;
  }

  /* ---------- properties ---------- */

  /** The handled documents grow by the next one. */
  lemma {:induction false} PrefixGrows(done: seq<Downloaded>, pdfs: seq<Downloaded>, j: nat)
    requires j < |pdfs|
    ensures done + pdfs[..j + 1] == (done + pdfs[..j]) + [pdfs[j]]
    ensures |done + pdfs[..j]| == |done| + j
  {
    assert pdfs[..j + 1] == pdfs[..j] + [pdfs[j]];
  }

  /** One more document extends the run by one step. */
  lemma {:induction false} RunStep(db: RequestDb, q: seq<Downloaded>, d: Downloaded, env: nat -> Env)
    ensures Run(db, q + [d], env) == Step(Run(db, q, env), d, env(|q|))
  {
    assert (q + [d])[..|q|] == q;
  }

  /** Handling the next document of a batch extends the run by that document. */
  lemma {:induction false} RunNext(db: RequestDb, done: seq<Downloaded>, pdfs: seq<Downloaded>, j: nat, env: nat -> Env)
    requires j < |pdfs|
    ensures Run(db, done + pdfs[..j + 1], env) == Step(Run(db, done + pdfs[..j], env), pdfs[j], env(|done| + j))
  {
    PrefixGrows(done, pdfs, j);
    RunStep(db, done + pdfs[..j], pdfs[j], env);
  }

  /** The disposition is compared without regard to letter case. */
  lemma {:induction false} AttachmentTypeIgnoresCase(t: string)
    ensures IsAttachmentType(ToLower(t)) <==> IsAttachmentType(t)
  {
    assert forall c :: UpperChar(LowerChar(c)) == UpperChar(c);
    var a := ToUpper(ToLower(t));
    var b := ToUpper(t);
    assert a == b by {
      forall i | 0 <= i < |t| ensures a[i] == b[i] {
        assert a[i] == UpperChar(LowerChar(t[i]));
      }
    }
  }

  /** The same octets read the same whatever shape they arrive in. */
  lemma {:induction false} SameOctetsSameBuffer(bytes: seq<Byte>, name: Option<string>)
    ensures ReadBuffer(RawBuffer(bytes)) == Buffer(bytes)
    ensures ReadBuffer(Received(name, Octets(bytes))) == Buffer(bytes)
    ensures ReadBuffer(Received(name, Items(bytes))) == Buffer(bytes)
    ensures ReadBuffer(Received(name, Values(bytes))) == Buffer(bytes)
  {
    assert Wrap(bytes) == bytes;
  }

  /** Every queued document is an attachment whose name ends in `.pdf`, in any letter case. */
  lemma {:induction false} QueueHoldsPdfs(emails: seq<Email>)
    ensures forall i :: 0 <= i < |Queue(Fetch(emails))| ==> IsPdfName(Queue(Fetch(emails))[i].filename)
  {
    FetchLabelled(emails);
    QueueLabelled(Fetch(emails));
  }

  predicate Labelled(ds: seq<Downloaded>) {
    forall i :: 0 <= i < |ds| ==> ds[i].isPdf == IsPdfName(ds[i].filename)
  }

  lemma {:induction false} FetchLabelled(emails: seq<Email>)
    ensures forall k :: 0 <= k < |Fetch(emails)| ==> Labelled(Fetch(emails)[k])
    decreases |emails|
  {
    if emails != [] {
      FetchLabelled(emails[..|emails| - 1]);
    }
  }

  lemma {:induction false} QueueLabelled(fetched: seq<seq<Downloaded>>)
    requires forall k :: 0 <= k < |fetched| ==> Labelled(fetched[k])
    ensures forall i :: 0 <= i < |Queue(fetched)| ==> IsPdfName(Queue(fetched)[i].filename)
    decreases |fetched|
  {
    if fetched != [] {
      var init := fetched[..|fetched| - 1];
      QueueLabelled(init);
      var last := fetched[|fetched| - 1];
      assert Labelled(last);
      forall i | 0 <= i < |PdfsOf(last)| ensures IsPdfName(PdfsOf(last)[i].filename) {
        var x := PdfsOf(last)[i];
        assert x in last;
      }
    }
  }

  /** A document that is not filed leaves the store as it was. */
  lemma {:induction false} MailFailureChangesNothing(db: RequestDb, input: Option<MailInput>, env: Env)
    ensures var (r, reply) := ProcessMailEffect(db, input, env);
      reply.Failed? ==> r == db
  {
    if input.Some? && ReadBuffer(input.value).Buffer? {
      var sv := env.services;
      if sv.pdfText.Some? && sv.imageText.Some? {
        var text := ChooseText(sv.pdfText.value, sv.imageText.value);
        if sv.model(text).Some? {
          var data := FromBilling(sv.model(text).value, "EMAIL",
            Attachment(Some(MailFileName(input.value)), Some(PdfType), Bytes(ReadBuffer(input.value).bytes)));
          CreatedRow(db, data, "EMAIL", env.token, env.url, env.faults);
        }
      }
    }
  }

  /** A filed document is one new EMAIL PENDING boleto; its document is always stored as a PDF. */
  lemma {:induction false} MailFiled(db: RequestDb, input: Option<MailInput>, env: Env)
    ensures var (r, reply) := ProcessMailEffect(db, input, env);
      reply.Processed? ==>
        r.requests == db.requests + [reply.row]
        && PendingBoleto(reply.row, "EMAIL") && reply.row.kind == "single"
        && (|r.attachments| > |db.attachments| ==> r.attachments[|db.attachments|].fileType == PdfType)
  {
    if input.Some? && ReadBuffer(input.value).Buffer? {
      var sv := env.services;
      if sv.pdfText.Some? && sv.imageText.Some? {
        var text := ChooseText(sv.pdfText.value, sv.imageText.value);
        if sv.model(text).Some? {
          var name := MailFileName(input.value);
          var data := FromBilling(sv.model(text).value, "EMAIL",
            Attachment(Some(name), Some(PdfType), Bytes(ReadBuffer(input.value).bytes)));
          CreatedRow(db, data, "EMAIL", env.token, env.url, env.faults);
          var (r, o) := CreateEffect(db, data, "EMAIL", env.token, env.url, env.faults);
          if o.Created? {
            var inserted := db.(requests := db.requests + [o.row], nextId := db.nextId + 1);
            AttachKeepsRequests(inserted, o.row.id, data.attachment, env.token, env.url, env.faults);
          }
        }
      }
    }
  }

  /** Unlike the upload endpoint, which answers 400 to an empty reading, the mailbox handler passes
   *  an empty reading on to the text model. */
  lemma {:induction false} EmptyReadingGoesToModel(db: RequestDb, input: MailInput, f: Upload, lookup: Option<string>, env: Env)
    requires env.services.pdfText == Some("") && env.services.imageText == Some("")
    requires ReadBuffer(input).Buffer?
    ensures var reply := ProcessMailEffect(db, Some(input), env).1;
      reply != Failed(OcrFailed) && (reply == Failed(ExtractionFailed) <==> env.services.model("").None?)
    ensures GuessedType(lookup, f.mimeType) in AcceptedTypes ==>
      ProcessBillEffect(db, Some(f), lookup, env.services, env.token, env.url, env.faults).1 == NoText
  {
  }

  /** The store step of one document appends at most one EMAIL PENDING boleto. */
  lemma {:induction false} StepAppends(db: RequestDb, d: Downloaded, env: Env)
    ensures var r := Step(db, d, env);
      r.requests == db.requests
      || (|r.requests| == |db.requests| + 1 && r.requests[..|db.requests|] == db.requests
          && PendingBoleto(r.requests[|db.requests|], "EMAIL"))
  {
    var input := Some(Received(Some(d.filename), d.data));
    MailFailureChangesNothing(db, input, env);
    MailFiled(db, input, env);
    var (r, reply) := ProcessMailEffect(db, input, env);
    if reply.Processed? {
      assert r.requests[..|db.requests|] == db.requests;
    }
  }

  /** A mailbox run only appends, at most one EMAIL PENDING boleto per queued PDF. */
  lemma {:induction false} RunAppends(db: RequestDb, q: seq<Downloaded>, env: nat -> Env)
    ensures var r := Run(db, q, env);
      |db.requests| <= |r.requests| <= |db.requests| + |q|
      && r.requests[..|db.requests|] == db.requests
      && forall i :: |db.requests| <= i < |r.requests| ==> PendingBoleto(r.requests[i], "EMAIL")
    decreases |q|
  {
    if q != [] {
      var init := q[..|q| - 1];
      RunAppends(db, init, env);
      var mid := Run(db, init, env);
      StepAppends(mid, q[|q| - 1], env(|q| - 1));
      var r := Run(db, q, env);
      assert r == Step(mid, q[|q| - 1], env(|q| - 1));
      if r.requests != mid.requests {
        assert r.requests[..|mid.requests|] == mid.requests;
        assert r.requests[..|db.requests|] == mid.requests[..|db.requests|];
      }
    }
  }

  /** The store step of one document keeps the store well formed and, with the duplicate search
   *  answering, keeps the EMAIL barcodes unique. */
  lemma {:induction false} StepKeepsInvariants(db: RequestDb, d: Downloaded, env: Env)
    requires Valid(db)
    ensures Valid(Step(db, d, env))
    ensures Search !in env.faults && UniqueBarcodes(db.requests, "EMAIL")
      ==> UniqueBarcodes(Step(db, d, env).requests, "EMAIL")
  {
    var input := Received(Some(d.filename), d.data);
    if ReadBuffer(input).Buffer? {
      var sv := env.services;
      if sv.pdfText.Some? && sv.imageText.Some? {
        var text := ChooseText(sv.pdfText.value, sv.imageText.value);
        if sv.model(text).Some? {
          var data := FromBilling(sv.model(text).value, "EMAIL",
            Attachment(Some(MailFileName(input)), Some(PdfType), Bytes(ReadBuffer(input).bytes)));
          CreateKeepsValid(db, data, "EMAIL", env.token, env.url, env.faults);
          if Search !in env.faults && UniqueBarcodes(db.requests, "EMAIL") {
            assert Or(data.origin, "MANUAL") == "EMAIL";
            CreateKeepsBarcodesUnique(db, data, env.token, env.url, env.faults);
          }
        }
      }
    }
  }

  /** A mailbox run keeps the store well formed; when no duplicate search fails, it files no EMAIL
   *  boleto whose barcode a PENDING one already carries. */
  lemma {:induction false} RunKeepsInvariants(db: RequestDb, q: seq<Downloaded>, env: nat -> Env)
    requires Valid(db)
    ensures Valid(Run(db, q, env))
    ensures (forall i :: 0 <= i < |q| ==> Search !in env(i).faults) && UniqueBarcodes(db.requests, "EMAIL")
      ==> UniqueBarcodes(Run(db, q, env).requests, "EMAIL")
    decreases |q|
  {
    if q != [] {
      var init := q[..|q| - 1];
      RunKeepsInvariants(db, init, env);
      StepKeepsInvariants(Run(db, init, env), q[|q| - 1], env(|q| - 1));
    }
  }
}
