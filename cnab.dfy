/**
 * The CNAB 400 remittance file of Banco do Brasil (FEBRABAN 400-position
 * layout): a header record (type 0), one detail record (type 1) per
 * collection and a trailer record (type 9), each built by concatenating
 * fixed-width fields, joined by line breaks.
 */
module Cnab {
  import opened Wrappers
  import opened Text
  import opened Dates
  import opened DateText

  // ------------------------------------------------------------------ fields

  /** `padRight(str, n)`: blank-filled on the right up to `n`, never truncated. */
  function PadRight(s: string, n: nat): (r: string)
    ensures |r| == if |s| >= n then |s| else n
    ensures r[..|s|] == s && forall i :: |s| <= i < |r| ==> r[i] == ' '
  {
    PadEnd(s, n, ' ')
  }

  /** `padLeft(str, n)`: zero-filled on the left up to `n`, never truncated. */
  function PadLeft(s: string, n: nat): (r: string)
    ensures |r| == if |s| >= n then |s| else n
    ensures forall i :: 0 <= i < |s| ==> r[|r| - |s| + i] == s[i]
    ensures forall i :: 0 <= i < |r| - |s| ==> r[i] == '0'
  {
    PadStart(s, n, '0')
  }

  /** How far a text runs past the width of its field. */
  function Over(s: string, n: nat): nat {
    if |s| > n then |s| - n else 0
  }

  /** A text of at most `n` characters is padded to exactly `n`. */
  lemma {:induction false} PadsToWidth(s: string, n: nat)
    ensures |PadRight(s, n)| == n + Over(s, n) && |PadLeft(s, n)| == n + Over(s, n)
  {
  }

  lemma {:induction false} FitsWidth(s: string, n: nat)
    requires |s| <= n
    ensures |PadRight(s, n)| == n && |PadLeft(s, n)| == n
  {
  }

  /** A text that already fills its field is left as it is. */
  lemma {:induction false} FullFieldKept(s: string, n: nat)
    requires |s| >= n
    ensures PadRight(s, n) == s && PadLeft(s, n) == s
  {
    assert PadRight(s, n) == PadRight(s, n)[..|s|];
    assert PadLeft(s, n) == PadLeft(s, n)[|PadLeft(s, n)| - |s|..];
  }

  // ------------------------------------------------------------------ header

  /** The `headerInfo` object; `None` is an undefined field, which the default parameter turns into "". */
  datatype HeaderInfo = HeaderInfo(
    convenio: Option<string>,
    conta: Option<string>,
    nomeEmpresa: Option<string>,
    dataGeracao: Option<string>,
    sequencialArquivo: Option<string>)

  /** `gerarHeader`: record type 0, operation "1" (remittance), service "01" (collection). */
  function Header(info: HeaderInfo): string {
    HeaderLead() + HeaderBody(info) + PadLeft(info.sequencialArquivo.GetOr(""), 6)
  }

  function HeaderLead(): string {
    "0" + "1" + PadRight("REMESSA", 7) + "01" + PadRight("COBRANCA", 8)
  }

  /** The header between its opening nineteen positions and the closing sequence number. */
  function HeaderBody(info: HeaderInfo): string {
    PadRight("", 7)
    + PadLeft(info.convenio.GetOr(""), 4) + "0" + PadLeft(info.conta.GetOr(""), 8) + "0"
    + PadLeft("123456", 6) + PadRight(info.nomeEmpresa.GetOr(""), 30) + PadRight("001BANCODOBRASIL", 18)
    + PadLeft(info.dataGeracao.GetOr(""), 6) + PadLeft(info.sequencialArquivo.GetOr(""), 7)
    + PadRight("", 287)
  }

  /** Every field of the header fits its width. */
  predicate HeaderFits(info: HeaderInfo) {
    && |info.convenio.GetOr("")| <= 4 && |info.conta.GetOr("")| <= 8 && |info.nomeEmpresa.GetOr("")| <= 30
    && |info.dataGeracao.GetOr("")| <= 6 && |info.sequencialArquivo.GetOr("")| <= 6
  }

  lemma {:induction false} HeaderLeadText()
    ensures HeaderLead() == "01REMESSA01COBRANCA"
  {
    FullFieldKept("REMESSA", 7);
    FullFieldKept("COBRANCA", 8);
    assert "0" + "1" + "REMESSA" + "01" + "COBRANCA" == "01REMESSA01COBRANCA";
  }

  lemma {:induction false} HeaderBodyLength(info: HeaderInfo)
    ensures |HeaderBody(info)| == 375 + Over(info.convenio.GetOr(""), 4) + Over(info.conta.GetOr(""), 8)
                                      + Over(info.nomeEmpresa.GetOr(""), 30) + Over(info.dataGeracao.GetOr(""), 6)
                                      + Over(info.sequencialArquivo.GetOr(""), 7)
  {
    PadsToWidth(info.convenio.GetOr(""), 4);
    PadsToWidth(info.conta.GetOr(""), 8);
    PadsToWidth(info.nomeEmpresa.GetOr(""), 30);
    PadsToWidth(info.dataGeracao.GetOr(""), 6);
    PadsToWidth(info.sequencialArquivo.GetOr(""), 7);
    PadsToWidth("", 7);
    PadsToWidth("123456", 6);
    PadsToWidth("001BANCODOBRASIL", 18);
    PadsToWidth("", 287);
  }

  /**
   * The header is 400 characters plus whatever its variable fields run
   * past their widths, so it is exactly 400 long when each field fits.
   */
  lemma {:induction false} HeaderLength(info: HeaderInfo)
    ensures |Header(info)| == 400 + Over(info.convenio.GetOr(""), 4) + Over(info.conta.GetOr(""), 8)
                                + Over(info.nomeEmpresa.GetOr(""), 30) + Over(info.dataGeracao.GetOr(""), 6)
                                + Over(info.sequencialArquivo.GetOr(""), 7) + Over(info.sequencialArquivo.GetOr(""), 6)
    ensures |Header(info)| == 400 <==> HeaderFits(info)
  {
    HeaderLeadText();
    HeaderBodyLength(info);
    PadsToWidth(info.sequencialArquivo.GetOr(""), 6);
  }

  /** The header opens with "01REMESSA01COBRANCA" and closes with the file sequence number in its last six positions. */
  lemma {:induction false} HeaderFields(info: HeaderInfo)
    requires HeaderFits(info)
    ensures Header(info)[..19] == "01REMESSA01COBRANCA"
    ensures Header(info)[394..] == PadLeft(info.sequencialArquivo.GetOr(""), 6)
  {
    HeaderLeadText();
    HeaderBodyLength(info);
    var lead, body, tail := HeaderLead(), HeaderBody(info), PadLeft(info.sequencialArquivo.GetOr(""), 6);
    assert Header(info) == lead + body + tail;
    assert |lead + body| == 394;
  }

  // ------------------------------------------------------------------ trailer

  /** `gerarTrailer(n)`. */
  function Trailer(n: nat): string {
    "9" + PadRight("", 393) + PadLeft(Digits(n), 6)
  }

  /** Below a million records the trailer is 400 long, opens with "9" and its last six digits read back as the count. */
  lemma {:induction false} TrailerFields(n: nat)
    requires n < 1000000
    ensures |Trailer(n)| == 400 && Trailer(n)[0] == '9'
    ensures AllDigits(Trailer(n)[394..]) && DigitsValue(Trailer(n)[394..]) == n
  {
    assert Pow10(6) == 1000000;
    ZeroFilled(n, 6);
    var t := Trailer(n);
    assert t[394..] == PadLeft(Digits(n), 6);
  }
  // ------------------------------------------------------------------ detail

  /**
   * One element of `detalhes`; `None` is an undefined field. `valor` is the
   * amount in cents and `index` the position the caller numbered it with.
   */
  datatype Detail = Detail(
    paymentMethod: Option<string>,
    documentoPagador: Option<string>,
    nossoNumero: Option<string>,
    index: int,
    vencimento: Option<string>,
    valor: Option<nat>,
    nomePagador: Option<string>,
    enderecoPagador: Option<string>,
    cepPagador: Option<string>,
    cidadePagador: Option<string>,
    ufPagador: Option<string>,
    barcode: Option<string>,
    pixKey: Option<string>)

  /** `s.replace(/-/g, "")`. */
  function NoDashes(s: string): (r: string)
    ensures |r| <= |s| && forall i :: 0 <= i < |r| ==> r[i] != '-'
    decreases |s|
  {
    if s == [] then [] else NoDashes(s[..|s| - 1]) + (if s[|s| - 1] == '-' then [] else [s[|s| - 1]])
  }

  /** `s.replace(/\s/g, "")`. */
  function NoSpaces(s: string): (r: string)
    ensures |r| <= |s| && forall i :: 0 <= i < |r| ==> !IsSpace(r[i])
    decreases |s|
  {
    if s == [] then [] else NoSpaces(s[..|s| - 1]) + (if IsSpace(s[|s| - 1]) then [] else [s[|s| - 1]])
  }

  /** `s.slice(2)`. */
  function DropTwo(s: string): string {
    if |s| >= 2 then s[2..] else []
  }

  /** `vencimento?.replace(/-/g, "").slice(2)`: "YYYY-MM-DD" becomes "YYMMDD"; undefined stays undefined. */
  function DueText(v: Option<string>): string {
    if v.None? then "" else DropTwo(NoDashes(v.value))
  }

  /** `valor.toFixed(2)` of a whole number of cents. */
  function Fixed2(cents: nat): string {
    Digits(cents / 100) + "." + Pad2(cents % 100)
  }

  /** `valor?.toFixed(2).replace(".", "")`. */
  function AmountText(valor: Option<nat>): string {
    if valor.None? then "" else RemoveFirst(Fixed2(valor.value), '.')
  }

  /** `ufPagador` is concatenated as it is: an undefined one is written as the text "undefined". */
  function UfText(d: Detail): string {
    if d.ufPagador.Some? then d.ufPagador.value else "undefined"
  }

  /** The free-text instruction: the barcode without white space for a boleto, the PIX key otherwise. */
  function InstructionText(d: Detail): string {
    if d.paymentMethod == Some("boleto") then "BOLETO " + NoSpaces(Or(d.barcode, "000000"))
    else "PIX " + Or(d.pixKey, "000000")
  }

  function PayerDocument(d: Detail): string {
    PadLeft(Or(d.documentoPagador, "00000000000000"), 14)
  }

  function ControlText(d: Detail): string {
    "CONTROLE" + IntText(d.index)
  }

  /** Positions 1 to 105: record type, payer, agreement, our number, control text and fixed zeros. */
  function DetailLead(d: Detail): string {
    "1" + "02" + DetailIds(d)
  }

  /** Positions 4 to 105. */
  function DetailIds(d: Detail): string {
    PayerDocument(d) + PadLeft("1234", 4) + "0" + PadLeft("56789012", 8) + "0"
    + PadLeft(Or(d.nossoNumero, "000000"), 6) + PadRight(ControlText(d), 25)
    + PadLeft(Or(d.nossoNumero, "00000000000"), 11) + "0" + "00" + "00" + PadRight("", 3) + " " + "AI"
    + "001" + "0" + "00000" + "00" + PadRight("", 10)
  }

  /** Positions 125 to 186: bank, kind, issue date and the zero-filled charge fields. */
  function DetailCharges(): string {
    "001" + "0000" + " " + "01" + "N" + PadLeft("180224", 6) + "00" + "00" + PadLeft("00000000000", 11)
    + PadLeft("000000", 6) + PadLeft("00000000000", 11) + PadLeft("00000000000", 11) + "02"
  }

  /** Positions 187 to 315: the payer's document, name, address, postcode and city. */
  function DetailPayer(d: Detail): string {
    PayerDocument(d) + PadRight(d.nomePagador.GetOr(""), 37) + PadRight("", 3)
    + PadRight(d.enderecoPagador.GetOr(""), 52) + PadLeft(d.cepPagador.GetOr(""), 8)
    + PadRight(d.cidadePagador.GetOr(""), 15)
  }

  /** Everything before the record's sequence number, as `gerarDetalhe` writes it. */
  function DetailBody(d: Detail): string {
    DetailLead(d) + PadLeft(DueText(d.vencimento), 6) + PadLeft(AmountText(d.valor), 13) + DetailTail(d)
  }

  /** Positions 125 to 360. */
  function DetailTail(d: Detail): string {
    DetailCharges() + DetailPayer(d) + UfText(d) + PadRight(InstructionText(d), 40) + "00" + " "
  }

  /** `(index + 1)` zero-filled to six: the record's sequence number. */
  function Sequence(d: Detail): string {
    PadLeft(IntText(d.index + 1), 6)
  }

  /** Every variable field of the detail fits its width and the state is two letters. */
  predicate DetailFits(d: Detail) {
    && |Or(d.documentoPagador, "00000000000000")| <= 14 && |Or(d.nossoNumero, "000000")| <= 6
    && |ControlText(d)| <= 25 && |DueText(d.vencimento)| <= 6 && |AmountText(d.valor)| <= 13
    && |d.nomePagador.GetOr("")| <= 37 && |d.enderecoPagador.GetOr("")| <= 52
    && |d.cepPagador.GetOr("")| <= 8 && |d.cidadePagador.GetOr("")| <= 15 && |UfText(d)| == 2
    && |InstructionText(d)| <= 40 && |IntText(d.index + 1)| <= 6
  }

  lemma {:induction false} DetailLeadLength(d: Detail)
    requires DetailFits(d)
    ensures |DetailLead(d)| == 105
  {
    FitsWidth(Or(d.documentoPagador, "00000000000000"), 14);
    FullFieldKept("1234", 4);
    FullFieldKept("56789012", 8);
    FitsWidth(Or(d.nossoNumero, "000000"), 6);
    FitsWidth(ControlText(d), 25);
    FitsWidth(Or(d.nossoNumero, "00000000000"), 11);
    FitsWidth("", 3);
    FitsWidth("", 10);
  }

  lemma {:induction false} DetailLeadStart(d: Detail)
    ensures DetailLead(d)[..3] == "102"
  {
    assert "1" + "02" == "102";
  }

  lemma {:induction false} DetailChargesLength()
    ensures |DetailCharges()| == 62
  {
    FullFieldKept("180224", 6);
    FullFieldKept("00000000000", 11);
    FullFieldKept("000000", 6);
  }

  lemma {:induction false} DetailPayerLength(d: Detail)
    requires DetailFits(d)
    ensures |DetailPayer(d)| == 129
  {
    FitsWidth(Or(d.documentoPagador, "00000000000000"), 14);
    FitsWidth(d.nomePagador.GetOr(""), 37);
    FitsWidth("", 3);
    FitsWidth(d.enderecoPagador.GetOr(""), 52);
    FitsWidth(d.cepPagador.GetOr(""), 8);
    FitsWidth(d.cidadePagador.GetOr(""), 15);
  }

  lemma {:induction false} DetailBodyLength(d: Detail)
    requires DetailFits(d)
    ensures |DetailBody(d)| == 360
  {
    DetailLeadLength(d);
    DetailTailLength(d);
    FitsWidth(DueText(d.vencimento), 6);
    FitsWidth(AmountText(d.valor), 13);
  }

  lemma {:induction false} DetailTailLength(d: Detail)
    requires DetailFits(d)
    ensures |DetailTail(d)| == 236
  {
    DetailChargesLength();
    DetailPayerLength(d);
    FitsWidth(InstructionText(d), 40);
  }

  /** `gerarDetalhe` as written: the body followed directly by the sequence number. */
  function DetailAsWritten(d: Detail): string {
    DetailBody(d) + Sequence(d)
  }

  /**
   * As written, a detail record whose fields all fit is 366 characters
   * long, not the 400 the layout prescribes, and its sequence number sits
   * at positions 361 to 366 instead of 395 to 400.
   */
  lemma {:induction false} DetailAsWrittenIsShort(d: Detail)
    requires DetailFits(d)
    ensures |DetailAsWritten(d)| == 366 && DetailAsWritten(d)[360..] == Sequence(d)
  {
    DetailBodyLength(d);
  }

  /** A record that shows it: a PIX collection numbered 0 with every optional field left out. */
  lemma {:induction false} DetailAsWrittenWitness()
    ensures var d := Detail(None, None, None, 0, None, None, None, None, None, None, Some("SP"), None, None);
      DetailFits(d) && |DetailAsWritten(d)| == 366
  {
    var d := Detail(None, None, None, 0, None, None, None, None, None, None, Some("SP"), None, None);
    assert IntText(0) == "0" && IntText(1) == "1";
    assert |InstructionText(d)| == 10;
    DetailAsWrittenIsShort(d);
  }

  /** The detail record blank-filled to position 394, so the sequence number occupies positions 395 to 400. */
  function DetailRecord(d: Detail): string {
    PadRight(DetailBody(d), 394) + Sequence(d)
  }

  /**
   * A detail record whose fields fit is 400 long, opens with "102", keeps
   * every field of the body at its position (the due date at 106 to 111,
   * the amount at 112 to 124) and closes with the sequence number.
   */
  lemma {:induction false} DetailRecordLayout(d: Detail)
    requires DetailFits(d)
    ensures |DetailRecord(d)| == 400
    ensures DetailRecord(d)[..3] == "102"
    ensures DetailRecord(d)[105..111] == PadLeft(DueText(d.vencimento), 6)
    ensures DetailRecord(d)[111..124] == PadLeft(AmountText(d.valor), 13)
    ensures DetailRecord(d)[394..] == Sequence(d)
  {
    DetailBodyLength(d);
    DetailLeadLength(d);
    DetailLeadStart(d);
    FitsWidth(DueText(d.vencimento), 6);
    FitsWidth(AmountText(d.valor), 13);
    FitsWidth(IntText(d.index + 1), 6);
    RecordSlices(DetailRecord(d), DetailBody(d), DetailLead(d), PadLeft(DueText(d.vencimento), 6),
                 PadLeft(AmountText(d.valor), 13), DetailTail(d), Sequence(d));
  }

  /** Where the pieces of a 360-character body land once it is blank-filled to 394 and numbered. */
  lemma {:induction false} RecordSlices(r: string, body: string, lead: string, due: string, amount: string,
                                        tail: string, sequence: string)
    requires body == lead + due + amount + tail && r == PadRight(body, 394) + sequence
    requires |body| == 360 && |lead| == 105 && |due| == 6 && |amount| == 13 && |sequence| == 6
    ensures |r| == 400 && r[..3] == lead[..3] && r[105..111] == due && r[111..124] == amount && r[394..] == sequence
  {
    assert r[..360] == body;
    assert body[105..111] == due;
    assert body[111..124] == amount;
  }

  // ------------------------------------------------------------------ field contents

  lemma {:induction false} NoDashesAppend(a: string, b: string)
    ensures NoDashes(a + b) == NoDashes(a) + NoDashes(b)
    decreases |b|
  {
    if b == [] {
      assert a + b == a;
    } else {
      var init, c := b[..|b| - 1], b[|b| - 1];
      assert (a + b)[..|a + b| - 1] == a + init && (a + b)[|a + b| - 1] == c;
      NoDashesAppend(a, init);
      var k: string := if c == '-' then [] else [c];
      assert NoDashes(a) + NoDashes(init) + k == NoDashes(a) + (NoDashes(init) + k);
    }
  }

  lemma {:induction false} NoDashesDigits(s: string)
    requires AllDigits(s)
    ensures NoDashes(s) == s
    decreases |s|
  {
    if s != [] {
      NoDashesDigits(s[..|s| - 1]);
      assert s == s[..|s| - 1] + [s[|s| - 1]];
    }
  }

  /** The last two digits of a four-digit number are the number modulo 100. */
  lemma {:induction false} LastTwoDigits(s: string, y: nat)
    requires |s| == 4 && AllDigits(s) && DigitsValue(s) == y
    ensures y < 10000 && s[2..] == Pad2(y % 100)
  {
    LastTwoOfFour(s);
    FixedWidthInjective(s[2..], Pad2(y % 100));
  }

  /** A due date written "YYYY-MM-DD" goes into the record as "YYMMDD". */
  lemma {:induction false} DueDateField(day: Date)
    requires Valid(day) && FourDigitYear(day)
    ensures DueText(Some(IsoDate(day))) == Pad2(day.Year() % 100) + Pad2(day.MonthOfYear()) + Pad2(day.day)
    ensures PadLeft(DueText(Some(IsoDate(day))), 6) == DueText(Some(IsoDate(day)))
  {
    var y, m, dd := Pad4(day.Year()), Pad2(day.MonthOfYear()), Pad2(day.day);
    assert IsoDate(day) == y + "-" + m + "-" + dd;
    LastTwoDigits(y, day.Year());
    DashesDropped(IsoDate(day), y, m, dd);
    FullFieldKept(DueText(Some(IsoDate(day))), 6);
  }

  /** "YYYY-MM-DD" without its dashes and its first two characters is "YYMMDD". */
  lemma {:induction false} DashesDropped(s: string, y: string, m: string, dd: string)
    requires AllDigits(y) && AllDigits(m) && AllDigits(dd) && |y| == 4 && s == y + "-" + m + "-" + dd
    ensures DueText(Some(s)) == y[2..] + m + dd
  {
    NoDashesDigits(y);
    DashAfter(y, y);
    DigitsAfter(y + "-", y, m);
    DashAfter(y + "-" + m, y + m);
    DigitsAfter(y + "-" + m + "-", y + m, dd);
    DropFirstTwo(y, m, dd);
  }

  lemma {:induction false} DashAfter(a: string, x: string)
    requires NoDashes(a) == x
    ensures NoDashes(a + "-") == x
  {
    NoDashesAppend(a, "-");
    assert NoDashes("-") == [];
  }

  lemma {:induction false} DigitsAfter(a: string, x: string, d: string)
    requires NoDashes(a) == x && AllDigits(d)
    ensures NoDashes(a + d) == x + d
  {
    NoDashesAppend(a, d);
    NoDashesDigits(d);
  }

  lemma {:induction false} DropFirstTwo(y: string, m: string, dd: string)
    requires |y| == 4
    ensures DropTwo(y + m + dd) == y[2..] + m + dd
  {
    assert (y + m + dd)[2..] == y[2..] + m + dd;
  }

  /** The amount text of a whole number of cents is its digits: units then the two decimals. */
  lemma {:induction false} AmountDigits(c: nat)
    ensures AmountText(Some(c)) == Digits(c / 100) + Pad2(c % 100)
    ensures AllDigits(AmountText(Some(c))) && DigitsValue(AmountText(Some(c))) == c
  {
    AmountTextParts(c);
    CentsValue(c, Digits(c / 100), Pad2(c % 100));
  }

  lemma {:induction false} AmountTextParts(c: nat)
    ensures AmountText(Some(c)) == Digits(c / 100) + Pad2(c % 100)
  {
    DotRemoved(Fixed2(c), Digits(c / 100), Pad2(c % 100));
  }

  lemma {:induction false} DotRemoved(s: string, u: string, p: string)
    requires AllDigits(u) && s == u + "." + p
    ensures RemoveFirst(s, '.') == u + p
  {
    RemoveFirstAt(u, '.', p);
  }

  lemma {:induction false} CentsValue(c: nat, u: string, p: string)
    requires u == Digits(c / 100) && p == Pad2(c % 100)
    ensures AllDigits(u + p) && DigitsValue(u + p) == c
  {
    DigitsAppendTwo(u, p);
    DigitsRoundTrip(c / 100);
  }

  /**
   * Below 10^13 cents the amount field is thirteen digits that read back
   * as the amount in cents, the same as the cents zero-filled to thirteen.
   */
  lemma {:induction false} AmountField(c: nat)
    requires c < 10000000000000
    ensures var f := PadLeft(AmountText(Some(c)), 13);
      |f| == 13 && AllDigits(f) && DigitsValue(f) == c && f == PadLeft(Digits(c), 13)
  {
    AmountDigits(c);
    AmountWidths(c);
    DigitsRoundTrip(c);
    ZeroFilledSame(AmountText(Some(c)), Digits(c), 13);
  }

  lemma {:induction false} AmountWidths(c: nat)
    requires c < 10000000000000
    ensures |Digits(c / 100)| <= 11 && |Digits(c)| <= 13
  {
    assert Pow10(11) == 100000000000;
    assert Pow10(13) == 10000000000000;
    DigitsLengthBound(c / 100, 11);
    DigitsLengthBound(c, 13);
  }

  /** For an index from 0 to 999998 the sequence number is six digits worth `index + 1`. */
  lemma {:induction false} SequenceField(d: Detail)
    requires 0 <= d.index < 999999
    ensures |Sequence(d)| == 6 && AllDigits(Sequence(d)) && DigitsValue(Sequence(d)) == d.index + 1
  {
    var n := d.index + 1;
    assert n < Pow10(6) by {
      assert Pow10(6) == 1000000;
    }
    ZeroFilled(n, 6);
    SequenceText(d);
  }

  lemma {:induction false} SequenceText(d: Detail)
    requires 0 <= d.index
    ensures Sequence(d) == PadStart(Digits(d.index + 1), 6, '0')
  {
  }

  lemma {:induction false} NoSpacesKeeps(s: string)
    requires forall i :: 0 <= i < |s| ==> !IsSpace(s[i])
    ensures NoSpaces(s) == s
    decreases |s|
  {
    if s != [] {
      NoSpacesKeeps(s[..|s| - 1]);
      assert s == s[..|s| - 1] + [s[|s| - 1]];
    }
  }

  lemma {:induction false} NoSpacesAppend(a: string, b: string)
    ensures NoSpaces(a + b) == NoSpaces(a) + NoSpaces(b)
    decreases |b|
  {
    if b == [] {
      assert a + b == a;
    } else {
      var init, c := b[..|b| - 1], b[|b| - 1];
      assert (a + b)[..|a + b| - 1] == a + init && (a + b)[|a + b| - 1] == c;
      NoSpacesAppend(a, init);
      var k: string := if IsSpace(c) then [] else [c];
      assert NoSpaces(a) + NoSpaces(init) + k == NoSpaces(a) + (NoSpaces(init) + k);
    }
  }

  /**
   * A boleto's instruction is "BOLETO " and its barcode with the blanks
   * between digit groups taken out ("000000" when there is none); any other
   * collection names its PIX key ("000000" when there is none).
   */
  lemma {:induction false} InstructionField(d: Detail, groups: seq<string>)
    requires d.paymentMethod == Some("boleto") && Given(d.barcode)
    requires |groups| == 2 && d.barcode.value == groups[0] + " " + groups[1]
    requires forall k, i :: 0 <= k < 2 && 0 <= i < |groups[k]| ==> !IsSpace(groups[k][i])
    ensures InstructionText(d) == "BOLETO " + groups[0] + groups[1]
  {
    NoSpacesAppend(groups[0] + " ", groups[1]);
    NoSpacesAppend(groups[0], " ");
    NoSpacesKeeps(groups[0]);
    NoSpacesKeeps(groups[1]);
    assert NoSpaces(" ") == [];
  }

  /** Without a barcode a boleto is written "BOLETO 000000"; anything but a boleto takes the PIX key. */
  lemma {:induction false} InstructionDefaults(d: Detail)
    ensures d.paymentMethod == Some("boleto") && !Given(d.barcode) ==> InstructionText(d) == "BOLETO 000000"
    ensures d.paymentMethod != Some("boleto") ==> InstructionText(d) == "PIX " + Or(d.pixKey, "000000")
  {
    NoSpacesKeeps("000000");
  }

  // ------------------------------------------------------------------ the file

  /** `lines.join("\n")`. */
  function Join(lines: seq<string>): string
    decreases |lines|
  {
    if lines == [] then []
    else if |lines| == 1 then lines[0]
    else Join(lines[..|lines| - 1]) + "\n" + lines[|lines| - 1]
  }

  /** `content.split("\n")`: the text between line breaks, the inverse of `Join`. */
  function Split(s: string): (r: seq<string>)
    ensures |r| >= 1
    decreases |s|
  {
    if s == [] then [[]]
    else
      var t := Split(s[..|s| - 1]);
      var c := s[|s| - 1];
      if c == '\n' then t + [[]] else t[..|t| - 1] + [t[|t| - 1] + [c]]
  }

  predicate NoBreak(s: string) {
    forall i :: 0 <= i < |s| ==> s[i] != '\n'
  }

  lemma {:induction false} SplitSingle(a: string)
    requires NoBreak(a)
    ensures Split(a) == [a]
    decreases |a|
  {
    if a != [] {
      SplitSingle(a[..|a| - 1]);
      assert a == a[..|a| - 1] + [a[|a| - 1]];
    }
  }

  /** A line without a break after the last break of a text is the last line of its split. */
  lemma {:induction false} SplitLast(rest: string, a: string)
    requires NoBreak(a)
    ensures Split(rest + "\n" + a) == Split(rest) + [a]
    decreases |a|
  {
    var s := rest + "\n" + a;
    if a == [] {
      assert s[..|s| - 1] == rest && s[|s| - 1] == '\n';
    } else {
      var init := a[..|a| - 1];
      assert s[..|s| - 1] == rest + "\n" + init && s[|s| - 1] == a[|a| - 1];
      SplitLast(rest, init);
      assert init + [a[|a| - 1]] == a;
    }
  }

  /** Splitting joined lines that hold no line break gives the lines back. */
  lemma {:induction false} SplitJoin(lines: seq<string>)
    requires |lines| >= 1 && forall i :: 0 <= i < |lines| ==> NoBreak(lines[i])
    ensures Split(Join(lines)) == lines
    decreases |lines|
  {
    if |lines| == 1 {
      SplitSingle(lines[0]);
    } else {
      var init := lines[..|lines| - 1];
      SplitJoin(init);
      SplitLast(Join(init), lines[|lines| - 1]);
      assert lines == init + [lines[|lines| - 1]];
    }
  }

  lemma {:induction false} JoinSnoc(lines: seq<string>, last: string)
    requires |lines| >= 1
    ensures Join(lines + [last]) == Join(lines) + "\n" + last
  {
    assert (lines + [last])[..|lines|] == lines;
  }

  /** Joining a first line before others puts one break between it and the rest. */
  lemma {:induction false} JoinCons(h: string, recs: seq<string>)
    requires |recs| >= 1
    ensures Join([h] + recs) == h + "\n" + Join(recs)
    decreases |recs|
  {
    if |recs| == 1 {
      assert [h] + recs == [h, recs[0]];
      assert [h, recs[0]][..1] == [h];
    } else {
      var init := recs[..|recs| - 1];
      JoinCons(h, init);
      assert ([h] + recs)[..|recs|] == [h] + init;
    }
  }

  /** The request body: `None` is a missing `headerInfo`, or a missing or non-array `detalhes`; a `None` element is null. */
  datatype CnabRequest = CnabRequest(headerInfo: Option<HeaderInfo>, detalhes: Option<seq<Option<Detail>>>)

  datatype CnabOutcome = Written(content: string) | BadRequest | Failed

  /** The detail records, one per element, or `None` when an element is null (reading its `index` throws). */
  function Records(ds: seq<Option<Detail>>, record: Detail -> string): (r: Option<seq<string>>)
    ensures r.Some? <==> forall i :: 0 <= i < |ds| ==> ds[i].Some?
    ensures r.Some? ==> |r.value| == |ds| && forall i :: 0 <= i < |ds| ==> r.value[i] == record(ds[i].value)
  {
    if ds == [] then Some([])
    else if ds[0].None? then None
    else
      var rest := Records(ds[1..], record);
      if rest.None? then None else Some([record(ds[0].value)] + rest.value)
  }

  /** `gerarCNAB400` with a given detail writer: 400 on a bad body, 500 on a null element, else the file content. */
  function GenerateWith(req: CnabRequest, record: Detail -> string): CnabOutcome {
    if req.headerInfo.None? || req.detalhes.None? then BadRequest
    else
      var ds := req.detalhes.value;
      var recs := Records(ds, record);
      if recs.None? then Failed
      else Written(Header(req.headerInfo.value) + "\n" + Join(recs.value) + "\n" + Trailer(|ds| + 2))
  }

  /** `gerarCNAB400` as written. */
  function GenerateAsWritten(req: CnabRequest): CnabOutcome {
    GenerateWith(req, DetailAsWritten)
  }

  /** `gerarCNAB400` with the 400-position detail record. */
  function Generate(req: CnabRequest): CnabOutcome {
    GenerateWith(req, DetailRecord)
  }

  /** A request with every element present, whose header and records hold no line break. */
  predicate WellFormed(req: CnabRequest, record: Detail -> string) {
    && req.headerInfo.Some? && req.detalhes.Some?
    && (forall i :: 0 <= i < |req.detalhes.value| ==> req.detalhes.value[i].Some?)
    && NoBreak(Header(req.headerInfo.value))
    && forall i :: 0 <= i < |req.detalhes.value| ==> NoBreak(record(req.detalhes.value[i].value))
  }

  /**
   * The lines of a written file are the header, one record per element in
   * order, and the trailer, whose count is the number of those lines; with
   * no elements an empty line stands between header and trailer.
   */
  lemma {:induction false} GenerateLines(req: CnabRequest, record: Detail -> string)
    requires WellFormed(req, record)
    ensures var ds := req.detalhes.value;
      var out := GenerateWith(req, record);
      var h := Header(req.headerInfo.value);
      && out.Written?
      && (|ds| > 0 ==>
            var lines := Split(out.content);
            && |lines| == |ds| + 2 && lines[0] == h && lines[|ds| + 1] == Trailer(|ds| + 2)
            && forall i :: 0 <= i < |ds| ==> lines[i + 1] == record(ds[i].value))
      && (|ds| == 0 ==> Split(out.content) == [h, "", Trailer(|ds| + 2)])
  {
    var ds := req.detalhes.value;
    if |ds| > 0 {
      FileLinesInOrder(req, record);
    } else {
      EmptyFileLines(req, record);
    }
  }

  lemma {:induction false} FileLinesInOrder(req: CnabRequest, record: Detail -> string)
    requires WellFormed(req, record) && |req.detalhes.value| > 0
    ensures GenerateWith(req, record).Written?
    ensures var ds := req.detalhes.value;
      var lines := Split(GenerateWith(req, record).content);
      && |lines| == |ds| + 2 && lines[0] == Header(req.headerInfo.value) && lines[|ds| + 1] == Trailer(|ds| + 2)
      && forall i :: 0 <= i < |ds| ==> lines[i + 1] == record(ds[i].value)
  {
    var ds := req.detalhes.value;
    FileLines(req, record);
    LinesInOrder(Split(GenerateWith(req, record).content), Header(req.headerInfo.value), Records(ds, record).value,
                 Trailer(|ds| + 2), ds, record);
  }

  lemma {:induction false} LinesInOrder(lines: seq<string>, h: string, recs: seq<string>, t: string,
                                        ds: seq<Option<Detail>>, record: Detail -> string)
    requires lines == [h] + recs + [t] && |recs| == |ds|
    requires forall i :: 0 <= i < |ds| ==> ds[i].Some? && recs[i] == record(ds[i].value)
    ensures |lines| == |ds| + 2 && lines[0] == h && lines[|ds| + 1] == t
    ensures forall i :: 0 <= i < |ds| ==> lines[i + 1] == record(ds[i].value)
  {
    forall i | 0 <= i < |ds| ensures lines[i + 1] == record(ds[i].value) {
      assert lines[i + 1] == recs[i];
    }
  }

  lemma {:induction false} EmptyFileLines(req: CnabRequest, record: Detail -> string)
    requires WellFormed(req, record) && |req.detalhes.value| == 0
    ensures GenerateWith(req, record).Written?
    ensures Split(GenerateWith(req, record).content) == [Header(req.headerInfo.value), "", Trailer(|req.detalhes.value| + 2)]
  {
    var n := |req.detalhes.value| + 2;
    var h, t := Header(req.headerInfo.value), Trailer(n);
    assert Records(req.detalhes.value, record) == Some([]);
    assert GenerateWith(req, record) == Written(h + "\n" + Join([]) + "\n" + t);
    TrailerNoBreak(n);
    LinesOfEmptyFile(h, t);
  }

  lemma {:induction false} LinesOfFile(h: string, recs: seq<string>, t: string)
    requires |recs| > 0 && NoBreak(h) && NoBreak(t) && forall i :: 0 <= i < |recs| ==> NoBreak(recs[i])
    ensures Split(h + "\n" + Join(recs) + "\n" + t) == [h] + recs + [t]
  {
    JoinSnoc([h] + recs, t);
    JoinCons(h, recs);
    SplitJoin([h] + recs + [t]);
  }

  lemma {:induction false} LinesOfEmptyFile(h: string, t: string)
    requires NoBreak(h) && NoBreak(t)
    ensures Split(h + "\n" + Join([]) + "\n" + t) == [h, "", t]
  {
    SplitLast(h + "\n" + Join([]), t);
    SplitLast(h, Join([]));
    SplitSingle(h);
  }

  lemma {:induction false} TrailerNoBreak(n: nat)
    ensures NoBreak(Trailer(n))
  {
  }

  /** A body without `headerInfo` or without an array of `detalhes` is refused; a null element fails. */
  lemma {:induction false} GenerateRefuses(req: CnabRequest, record: Detail -> string)
    ensures GenerateWith(req, record) == BadRequest <==> req.headerInfo.None? || req.detalhes.None?
    ensures GenerateWith(req, record) == Failed <==>
      req.headerInfo.Some? && req.detalhes.Some? && exists i :: 0 <= i < |req.detalhes.value| && req.detalhes.value[i].None?
  {
    if req.headerInfo.Some? && req.detalhes.Some? {
      assert GenerateWith(req, record).Failed? <==> Records(req.detalhes.value, record).None?;
    }
  }

  /** Every header, detail and trailer field fits and the file has fewer than a million records. */
  predicate AllFit(req: CnabRequest) {
    && req.headerInfo.Some? && req.detalhes.Some? && HeaderFits(req.headerInfo.value)
    && |req.detalhes.value| + 2 < 1000000
    && forall i :: 0 <= i < |req.detalhes.value| ==>
         req.detalhes.value[i].Some? && DetailFits(req.detalhes.value[i].value)
  }

  /** The lines of a well-formed file with at least one element: header, records, trailer. */
  lemma {:induction false} FileLines(req: CnabRequest, record: Detail -> string)
    requires WellFormed(req, record) && |req.detalhes.value| > 0
    ensures Records(req.detalhes.value, record).Some?
    ensures Split(GenerateWith(req, record).content)
         == [Header(req.headerInfo.value)] + Records(req.detalhes.value, record).value + [Trailer(|req.detalhes.value| + 2)]
  {
    var ds := req.detalhes.value;
    var recs := Records(ds, record).value;
    var h, t := Header(req.headerInfo.value), Trailer(|ds| + 2);
    assert GenerateWith(req, record) == Written(h + "\n" + Join(recs) + "\n" + t);
    TrailerNoBreak(|ds| + 2);
    LinesOfFile(h, recs, t);
  }

  /** Elements that are all present and fit give records of `w` characters. */
  lemma {:induction false} RecordsWide(ds: seq<Option<Detail>>, record: Detail -> string, w: nat)
    requires forall i :: 0 <= i < |ds| ==> ds[i].Some? && |record(ds[i].value)| == w
    ensures Records(ds, record).Some? && forall i :: 0 <= i < |ds| ==> |Records(ds, record).value[i]| == w
  {
  }

  /** With the 400-position detail record, every line of a file whose fields fit is 400 characters long. */
  lemma {:induction false} GenerateFixedWidth(req: CnabRequest)
    requires AllFit(req) && WellFormed(req, DetailRecord) && |req.detalhes.value| > 0
    ensures var lines := Split(Generate(req).content);
      forall k :: 0 <= k < |lines| ==> |lines[k]| == 400
  {
    var ds := req.detalhes.value;
    FileLines(req, DetailRecord);
    HeaderLength(req.headerInfo.value);
    TrailerFields(|ds| + 2);
    forall i | 0 <= i < |ds| ensures ds[i].Some? && |DetailRecord(ds[i].value)| == 400 {
      DetailRecordLayout(ds[i].value);
    }
    RecordsWide(ds, DetailRecord, 400);
    EveryLineWide(Header(req.headerInfo.value), Records(ds, DetailRecord).value, Trailer(|ds| + 2), 400);
  }

  lemma {:induction false} EveryLineWide(h: string, recs: seq<string>, t: string, w: nat)
    requires |h| == w && |t| == w && forall i :: 0 <= i < |recs| ==> |recs[i]| == w
    ensures var lines := [h] + recs + [t];
      forall k :: 0 <= k < |lines| ==> |lines[k]| == w
  {
    var lines := [h] + recs + [t];
    forall k | 1 <= k < |lines| - 1 ensures |lines[k]| == w {
      assert lines[k] == recs[k - 1];
    }
  }

  lemma {:induction false} InnerLinesWide(h: string, recs: seq<string>, t: string, w: nat)
    requires forall i :: 0 <= i < |recs| ==> |recs[i]| == w
    ensures var lines := [h] + recs + [t];
      |lines| == |recs| + 2 && forall k :: 1 <= k <= |recs| ==> |lines[k]| == w
  {
    var lines := [h] + recs + [t];
    forall k | 1 <= k <= |recs| ensures |lines[k]| == w {
      assert lines[k] == recs[k - 1];
    }
  }

  /** As written, every detail line of a file whose fields fit is 366 characters long. */
  lemma {:induction false} GenerateAsWrittenShortLines(req: CnabRequest)
    requires AllFit(req) && WellFormed(req, DetailAsWritten) && |req.detalhes.value| > 0
    ensures var lines := Split(GenerateAsWritten(req).content);
      |lines| == |req.detalhes.value| + 2 && forall k :: 1 <= k <= |req.detalhes.value| ==> |lines[k]| == 366
  {
    var ds := req.detalhes.value;
    FileLines(req, DetailAsWritten);
    forall i | 0 <= i < |ds| ensures ds[i].Some? && |DetailAsWritten(ds[i].value)| == 366 {
      DetailAsWrittenIsShort(ds[i].value);
    }
    RecordsWide(ds, DetailAsWritten, 366);
    InnerLinesWide(Header(req.headerInfo.value), Records(ds, DetailAsWritten).value, Trailer(|ds| + 2), 366);
  }
}
