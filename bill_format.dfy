/**
 * The two normalisers applied to what the text extractor reads off a boleto:
 * the amount ("R$ 1.619,82") and the due date ("25/03/2025"), together with
 * the part of JavaScript's `Number(text)` they rely on.
 */
module BillFormat {
  import opened Wrappers
  import opened Text
  import opened Dates
  import opened DateText

  /* ---------- text helpers ---------- */

  /** The text before its trailing white space. */
  function TrimEnd(s: string): (r: string)
    ensures |r| <= |s| && r == s[..|r|]
    ensures |r| > 0 ==> !IsSpace(r[|r| - 1])
  {
    if |s| > 0 && IsSpace(s[|s| - 1]) then TrimEnd(s[..|s| - 1]) else s
  }

  /** `s.trim()`. */
  function Trim(s: string): string {
    TrimEnd(TrimStart(s))
  }

  /** `s.indexOf(c)`, with `|s|` standing for "not found". */
  function IndexOf(s: string, c: char): (i: nat)
    ensures i <= |s| && (i < |s| ==> s[i] == c)
    ensures forall j :: 0 <= j < i ==> s[j] != c
  {
    if s == [] then 0 else if s[0] == c then 0 else 1 + IndexOf(s[1..], c)
  }

  /** `s.replace(p, "")` with a text pattern: its first occurrence removed. */
  function DropFirst(s: string, p: string): (r: string)
    requires |p| > 0
    ensures |r| == |s| || |r| == |s| - |p|
    decreases |s|
  {
    if |s| < |p| then s
    else if s[..|p|] == p then s[|p|..]
    else [s[0]] + DropFirst(s[1..], p)
  }

  /** `s.replace(a, b)` with one-character texts: the first `a` becomes `b`. */
  function ReplaceFirst(s: string, a: char, b: char): (r: string)
    ensures |r| == |s|
  {
    if s == [] then []
    else if s[0] == a then [b] + s[1..]
    else [s[0]] + ReplaceFirst(s[1..], a, b)
  }

  /** `s.replaceAll(c, "")`. */
  function RemoveAll(s: string, c: char): (r: string)
    ensures |r| <= |s|
    ensures forall i :: 0 <= i < |r| ==> r[i] != c
    decreases |s|
  {
    if s == [] then []
    else
      var r := RemoveAll(s[..|s| - 1], c);
      if s[|s| - 1] == c then r else r + [s[|s| - 1]]
  }

  /* ---------- Number(text) ---------- */

  /** The value of the digits after a decimal point: `0.d1d2...` is `(d1 + 0.d2...) / 10`. */
  function Fraction(f: string): real
    requires AllDigits(f)
  {
    if f == [] then 0.0 else (DigitValue(f[0]) as real + Fraction(f[1..])) / 10.0
  }

  /** Digits, with at most one decimal point, read as a non-negative decimal. */
  function DecimalValue(body: string): Option<real> {
    var i := IndexOf(body, '.');
    DecimalOf(body[..i], if i < |body| then body[i + 1..] else [])
  }

  /** The decimal with the given digits before and after the point, if both are digits and not both empty. */
  function DecimalOf(whole: string, frac: string): Option<real> {
    if AllDigits(whole) && AllDigits(frac) && |whole| + |frac| > 0 then
      Some(DigitsValue(whole) as real + Fraction(frac))
    else None
  }

  /**
   * `Number(text)`: white space around the text is ignored, an empty text is
   * 0, a sign may lead; `None` is `NaN`.
   */
  function ParseNumber(s: string): Option<real> {
    var t := Trim(s);
    if t == [] then Some(0.0)
    else if t[0] == '-' then
      match DecimalValue(t[1..])
      case Some(x) => Some(-x)
      case None => None
    else if t[0] == '+' then DecimalValue(t[1..])
    else DecimalValue(t)
  }

  /* ---------- formatBillCurrency ---------- */

  /** The `valor` the extractor returns: nothing, a number, or a text. */
  datatype Amount = Absent | Num(x: real) | Text(s: string)

  /**
   * The shared shape of the amount normaliser: nothing or an empty text is 0,
   * a number or a numeric text is itself; otherwise "R$" goes, the rest is
   * trimmed and, when it has a comma, the thousands points go (every one when
   * `allPoints`, else the first) and the comma becomes the decimal point.
   */
  function CurrencyWith(v: Amount, allPoints: bool): Option<real> {
    match v
    case Absent => Some(0.0)
    case Num(x) => Some(x)
    case Text(s) =>
      if s == "" then Some(0.0)
      else if ParseNumber(s).Some? then ParseNumber(s)
      else CommaDecimal(Trim(DropFirst(s, "R$")), allPoints)
  }

  /** The thousands points removed: every one, or only the first. */
  function Ungroup(t: string, allPoints: bool): string {
    if allPoints then RemoveAll(t, '.') else RemoveFirst(t, '.')
  }

  /** A text with a decimal comma loses its thousands points and the comma becomes a point. */
  function CommaDecimal(t: string, allPoints: bool): Option<real> {
    if ',' in t then ParseNumber(ReplaceFirst(Ungroup(t, allPoints), ',', '.'))
    else ParseNumber(t)
  }

  /** The code as written: only the first point is removed. */
  function FormatBillCurrencyAsWritten(v: Amount): Option<real> {
    CurrencyWith(v, false)
  }

  /** The corrected normaliser: every thousands point is removed. */
  function FormatBillCurrency(v: Amount): Option<real> {
    CurrencyWith(v, true)
  }

  /* ---------- formatBillDate ---------- */

  /** The due date written on the request: a `YYYY-MM-DD` text, or the clock's current instant. */
  datatype BillDate = Formatted(text: string) | Now

  /** `/^\d{2}\/\d{2}\/\d{4}$/`. */
  predicate IsBrDate(s: string) {
    |s| == 10 && s[2] == '/' && s[5] == '/'
    && AllDigits(s[..2]) && AllDigits(s[3..5]) && AllDigits(s[6..])
  }

  /** `date.split("/").reverse().join("-")` on a text the pattern accepts, or `new Date()`. */
  function FormatBillDate(date: Option<string>): BillDate {
    if !Given(date) || !IsBrDate(date.value) then Now
    else
      var s := date.value;
      Formatted(s[6..] + "-" + s[3..5] + "-" + s[..2])
  }

  /** How a day is printed on a Brazilian boleto, `DD/MM/YYYY`. */
  function BrDate(d: Date): (s: string)
    requires Valid(d) && FourDigitYear(d)
    ensures IsBrDate(s)
  {
    var dd, mm, yyyy := Pad2(d.day), Pad2(d.MonthOfYear()), Pad4(d.Year());
    var r := dd + "/" + mm + "/" + yyyy;
    assert r[..2] == dd && r[3..5] == mm && r[6..] == yyyy;
    r
  }

  /* ---------- lemmas: trimming and parsing ---------- */

  lemma {:induction false} TrimEndKeeps(s: string, k: nat)
    requires k < |s| && !IsSpace(s[k])
    ensures |TrimEnd(s)| > k
    decreases |s|
  {
    if IsSpace(s[|s| - 1]) {
      TrimEndKeeps(s[..|s| - 1], k);
    }
  }

  /** A text with no white space at either end trims to itself. */
  lemma {:induction false} TrimKeeps(s: string)
    requires |s| > 0 && !IsSpace(s[0]) && !IsSpace(s[|s| - 1])
    ensures Trim(s) == s
  {
    assert TrimStart(s) == s;
    assert TrimEnd(s) == s;
  }

  /** One leading space goes. */
  lemma {:induction false} TrimLeadingSpace(s: string)
    requires |s| > 0 && !IsSpace(s[0]) && !IsSpace(s[|s| - 1])
    ensures Trim(" " + s) == s
  {
    assert (" " + s)[0] == ' ' && (" " + s)[1..] == s;
    assert TrimStart(" " + s) == TrimStart(s) == s;
    TrimKeeps(s);
  }

  lemma {:induction false} IndexOfAt(a: string, c: char, b: string)
    requires forall i :: 0 <= i < |a| ==> a[i] != c
    ensures IndexOf(a + [c] + b, c) == |a|
  {
    if a != [] {
      assert (a + [c] + b)[1..] == a[1..] + [c] + b;
      IndexOfAt(a[1..], c, b);
    }
  }

  lemma {:induction false} IndexOfAbsent(a: string, c: char)
    requires forall i :: 0 <= i < |a| ==> a[i] != c
    ensures IndexOf(a, c) == |a|
  {
  }

  /** An untrimmable text that starts with a digit is read without a sign. */
  lemma {:induction false} ParseUnsigned(s: string)
    requires |s| > 0 && IsDigit(s[0]) && !IsSpace(s[|s| - 1])
    ensures ParseNumber(s) == DecimalValue(s)
  {
    TrimKeeps(s);
  }

  /** `Number` reads a digit string as its value. */
  lemma {:induction false} ParseWhole(w: string)
    requires |w| > 0 && AllDigits(w)
    ensures ParseNumber(w) == Some(DigitsValue(w) as real)
  {
    ParseUnsigned(w);
    IndexOfAbsent(w, '.');
    assert w[..|w|] == w;
    assert Fraction([]) == 0.0;
  }

  /** `Number` reads digits, a point and digits as a decimal fraction. */
  lemma {:induction false} ParseDecimal(w: string, f: string)
    requires |w| > 0 && AllDigits(w) && AllDigits(f)
    ensures ParseNumber(w + "." + f) == Some(DigitsValue(w) as real + Fraction(f))
  {
    var s := w + "." + f;
    assert s[0] == w[0];
    assert s[|s| - 1] == '.' || s[|s| - 1] == f[|f| - 1];
    ParseUnsigned(s);
    DecimalAt(w, f);
  }

  lemma {:induction false} DecimalAt(w: string, f: string)
    requires AllDigits(w) && AllDigits(f) && |w| > 0
    ensures DecimalValue(w + "." + f) == Some(DigitsValue(w) as real + Fraction(f))
  {
    var s := w + "." + f;
    IndexOfAt(w, '.', f);
    assert s[..|w|] == w;
    assert s[|w| + 1..] == f;
    DecimalFields(s, w, f);
  }

  /** `DecimalValue` reads the digits before the first point and those after it. */
  lemma {:induction false} DecimalFields(s: string, w: string, f: string)
    requires AllDigits(w) && AllDigits(f) && |w| > 0
    requires IndexOf(s, '.') == |w| < |s| && s[..|w|] == w && s[|w| + 1..] == f
    ensures DecimalValue(s) == Some(DigitsValue(w) as real + Fraction(f))
  {
    var i := IndexOf(s, '.');
    assert s[..i] == w && s[i + 1..] == f;
  }

  /** `Number(String(n))` is `n`. */
  lemma {:induction false} ParseDigitsRoundTrip(n: nat)
    ensures ParseNumber(Digits(n)) == Some(n as real)
  {
    ParseWhole(Digits(n));
    DigitsRoundTrip(n);
  }

  /** A second point makes the text `NaN`. */
  lemma {:induction false} ParseTwoPoints(w: string, f: string, g: string)
    requires |w| > 0 && AllDigits(w) && AllDigits(f) && AllDigits(g)
    ensures ParseNumber(w + "." + f + "." + g) == None
  {
    var s := w + "." + f + "." + g;
    TrimKeeps(s);
    assert s == w + ['.'] + (f + "." + g);
    IndexOfAt(w, '.', f + "." + g);
    assert s[|w| + 1..] == f + "." + g;
    assert (f + "." + g)[|f|] == '.';
  }

  /** A text that starts with a letter, such as "R$ 10,00", is `NaN`. */
  lemma {:induction false} LeadingLetterIsNaN(s: string)
    requires |s| > 0 && !IsSpace(s[0]) && !IsDigit(s[0]) && s[0] !in ".+-"
    ensures ParseNumber(s) == None
  {
    TrimEndKeeps(s, 0);
    var t := Trim(s);
    assert t[0] == s[0];
    var i := IndexOf(t, '.');
    assert i > 0;
    assert t[..i][0] == s[0];
  }

  /* ---------- lemmas: the amount ---------- */

  /** Nothing, zero and an empty text are all 0. */
  lemma {:induction false} FalsyAmountIsZero(v: Amount)
    requires v == Absent || v == Num(0.0) || v == Text("")
    ensures FormatBillCurrency(v) == Some(0.0) && FormatBillCurrencyAsWritten(v) == Some(0.0)
  {
  }

  /** A number, or a text `Number` already reads, passes through unchanged. */
  lemma {:induction false} NumericAmountPassesThrough(v: Amount, x: real)
    requires v == Num(x) || (v.Text? && v.s != "" && ParseNumber(v.s) == Some(x))
    ensures FormatBillCurrency(v) == Some(x) && FormatBillCurrencyAsWritten(v) == Some(x)
  {
  }

  /** `"1619.82"` and the like are read directly, without any currency handling. */
  lemma {:induction false} DotDecimalAmount(w: string, f: string)
    requires |w| > 0 && AllDigits(w) && AllDigits(f)
    ensures FormatBillCurrency(Text(w + "." + f))
         == Some(DigitsValue(w) as real + Fraction(f))
  {
    ParseDecimal(w, f);
  }

  /** What both normalisers do to a Brazilian amount once "R$" and the spaces are gone. */
  lemma {:induction false} CurrencyOfGrouped(t: string, allPoints: bool)
    requires |t| > 0 && IsDigit(t[0]) && IsDigit(t[|t| - 1]) && ',' in t
    ensures CurrencyWith(Text("R$ " + t), allPoints) == ParseNumber(ReplaceFirst(Ungroup(t, allPoints), ',', '.'))
  {
    StripCurrency(t);
    CurrencySignIsNaN(t);
    CurrencyFallback("R$ " + t, t, allPoints);
  }

  /** `Number` reads nothing from a text that opens with the currency sign. */
  lemma {:induction false} CurrencySignIsNaN(t: string)
    ensures ParseNumber("R$ " + t) == None
  {
    LeadingLetterIsNaN("R$ " + t);
  }

  /** A non-empty text `Number` cannot read goes through the comma handling of what is left of it. */
  lemma {:induction false} CurrencyFallback(s: string, body: string, allPoints: bool)
    requires s != "" && ParseNumber(s) == None && Trim(DropFirst(s, "R$")) == body && ',' in body
    ensures CurrencyWith(Text(s), allPoints) == ParseNumber(ReplaceFirst(Ungroup(body, allPoints), ',', '.'))
  {
  }

  lemma {:induction false} ReplaceFirstAt(a: string, x: char, y: char, b: string)
    requires forall i :: 0 <= i < |a| ==> a[i] != x
    ensures ReplaceFirst(a + [x] + b, x, y) == a + [y] + b
    decreases |a|
  {
    if a != [] {
      assert (a + [x] + b)[1..] == a[1..] + [x] + b;
      ReplaceFirstAt(a[1..], x, y, b);
      assert a + [y] + b == [a[0]] + (a[1..] + [y] + b);
    }
  }

  lemma {:induction false} RemoveAllDigits(a: string)
    requires AllDigits(a)
    ensures RemoveAll(a, '.') == a
    decreases |a|
  {
    if a != [] {
      RemoveAllDigits(a[..|a| - 1]);
      assert a == a[..|a| - 1] + [a[|a| - 1]];
    }
  }

  lemma {:induction false} RemoveAllAppend(a: string, b: string, c: char)
    ensures RemoveAll(a + b, c) == RemoveAll(a, c) + RemoveAll(b, c)
    decreases |b|
  {
    if b == [] {
      assert a + b == a;
    } else {
      var init := b[..|b| - 1];
      assert (a + b)[..|a + b| - 1] == a + init && (a + b)[|a + b| - 1] == b[|b| - 1];
      RemoveAllAppend(a, init, c);
      if b[|b| - 1] != c {
        assert RemoveAll(a, c) + RemoveAll(init, c) + [b[|b| - 1]] == RemoveAll(a, c) + (RemoveAll(init, c) + [b[|b| - 1]]);
      }
    }
  }

  lemma {:induction false} DigitsNoChar(a: string, c: char)
    requires AllDigits(a) && !IsDigit(c)
    ensures forall i :: 0 <= i < |a| ==> a[i] != c
  {
  }

  /** The text the normalisers see once "R$ " is dropped and trimmed. */
  lemma {:induction false} StripCurrency(body: string)
    requires |body| > 0 && IsDigit(body[0]) && IsDigit(body[|body| - 1])
    ensures Trim(DropFirst("R$ " + body, "R$")) == body
  {
    var s := "R$ " + body;
    assert s[..2] == "R$";
    assert s[2..] == " " + body;
    TrimLeadingSpace(body);
  }

  /** Once ungrouped to `w,f`, a Brazilian amount reads as `w` units and the fraction `f`. */
  lemma {:induction false} CommaAmount(t: string, allPoints: bool, w: string, f: string)
    requires |t| > 0 && IsDigit(t[0]) && IsDigit(t[|t| - 1]) && ',' in t
    requires |w| > 0 && AllDigits(w) && AllDigits(f) && Ungroup(t, allPoints) == w + [','] + f
    ensures CurrencyWith(Text("R$ " + t), allPoints) == Some(DigitsValue(w) as real + Fraction(f))
  {
    CurrencyOfGrouped(t, allPoints);
    DigitsNoChar(w, ',');
    ReplaceFirstAt(w, ',', '.', f);
    assert w + ['.'] + f == w + "." + f;
    ParseDecimal(w, f);
  }

  /** `a.b,c` ungroups to `ab,c` either way. */
  lemma {:induction false} UngroupThousands(a: string, b: string, c: string)
    requires AllDigits(a) && AllDigits(b) && AllDigits(c)
    ensures Ungroup(a + "." + b + "," + c, false) == (a + b) + [','] + c
    ensures Ungroup(a + "." + b + "," + c, true) == (a + b) + [','] + c
  {
    var t := a + "." + b + "," + c;
    assert t == a + ['.'] + (b + "," + c);
    DigitsNoChar(a, '.');
    RemoveFirstAt(a, '.', b + "," + c);
    assert a + (b + "," + c) == (a + b) + [','] + c;
    AllPointsOfThousands(a, b, c);
  }

  lemma {:induction false} AllPointsOfThousands(a: string, b: string, c: string)
    requires AllDigits(a) && AllDigits(b) && AllDigits(c)
    ensures RemoveAll(a + "." + b + "," + c, '.') == (a + b) + [','] + c
  {
    RemoveAllAppend(a + "." + b + ",", c, '.');
    RemoveAllAppend(a + "." + b, ",", '.');
    RemoveAllAppend(a + ".", b, '.');
    RemoveAllAppend(a, ".", '.');
    RemoveAllDigits(a);
    RemoveAllDigits(b);
    RemoveAllDigits(c);
    assert RemoveAll(".", '.') == [] && RemoveAll(",", '.') == ",";
    assert a + [] + b + "," + c == (a + b) + [','] + c;
  }

  /** `a.b.c,d` ungroups to `ab.c,d` as written and to `abc,d` once corrected. */
  lemma {:induction false} UngroupMillions(a: string, b: string, c: string, d: string)
    requires AllDigits(a) && AllDigits(b) && AllDigits(c) && AllDigits(d)
    ensures Ungroup(a + "." + b + "." + c + "," + d, false) == (a + b + "." + c) + [','] + d
    ensures Ungroup(a + "." + b + "." + c + "," + d, true) == (a + b + c) + [','] + d
  {
    FirstPointOfMillions(a, b, c, d);
    AllPointsOfMillions(a, b, c, d);
  }

  lemma {:induction false} FirstPointOfMillions(a: string, b: string, c: string, d: string)
    requires AllDigits(a)
    ensures RemoveFirst(a + "." + b + "." + c + "," + d, '.') == (a + b + "." + c) + [','] + d
  {
    var t := a + "." + b + "." + c + "," + d;
    assert t == a + ['.'] + (b + "." + c + "," + d);
    DigitsNoChar(a, '.');
    RemoveFirstAt(a, '.', b + "." + c + "," + d);
    assert a + (b + "." + c + "," + d) == (a + b + "." + c) + [','] + d;
  }

  lemma {:induction false} AllPointsOfMillions(a: string, b: string, c: string, d: string)
    requires AllDigits(a) && AllDigits(b) && AllDigits(c) && AllDigits(d)
    ensures RemoveAll(a + "." + b + "." + c + "," + d, '.') == (a + b + c) + [','] + d
  {
    RemoveAllAppend(a + "." + b + "." + c + ",", d, '.');
    RemoveAllAppend(a + "." + b + "." + c, ",", '.');
    RemoveAllAppend(a + "." + b + ".", c, '.');
    RemoveAllAppend(a + "." + b, ".", '.');
    RemoveAllAppend(a + ".", b, '.');
    RemoveAllAppend(a, ".", '.');
    RemoveAllDigits(a);
    RemoveAllDigits(b);
    RemoveAllDigits(c);
    RemoveAllDigits(d);
    assert RemoveAll(".", '.') == [] && RemoveAll(",", '.') == ",";
    assert a + [] + b + [] + c + "," + d == (a + b + c) + [','] + d;
  }

  /** A comma amount that still has a point after ungrouping is `NaN`. */
  lemma {:induction false} CommaAmountNaN(t: string, allPoints: bool, w: string, f: string, g: string)
    requires |t| > 0 && IsDigit(t[0]) && IsDigit(t[|t| - 1]) && ',' in t
    requires |w| > 0 && AllDigits(w) && AllDigits(f) && AllDigits(g)
    requires Ungroup(t, allPoints) == (w + "." + f) + [','] + g
    ensures CurrencyWith(Text("R$ " + t), allPoints) == None
  {
    CurrencyOfGrouped(t, allPoints);
    PointBeforeComma(w, f, g);
    ParseTwoPoints(w, f, g);
  }

  lemma {:induction false} PointBeforeComma(w: string, f: string, g: string)
    requires AllDigits(w) && AllDigits(f) && AllDigits(g)
    ensures ReplaceFirst((w + "." + f) + [','] + g, ',', '.') == w + "." + f + "." + g
  {
    assert forall i :: 0 <= i < |w + "." + f| ==> (w + "." + f)[i] != ',';
    ReplaceFirstAt(w + "." + f, ',', '.', g);
  }

  /** What the amount lemmas need to know about `a.b,c`. */
  lemma {:induction false} ThousandsShape(a: string, b: string, c: string)
    requires |a| > 0 && AllDigits(a) && AllDigits(b) && |c| > 0 && AllDigits(c)
    ensures |a + "." + b + "," + c| > 0 && IsDigit((a + "." + b + "," + c)[0])
    ensures IsDigit((a + "." + b + "," + c)[|a + "." + b + "," + c| - 1]) && ',' in a + "." + b + "," + c
    ensures |a + b| > 0 && AllDigits(a + b)
    ensures Ungroup(a + "." + b + "," + c, false) == (a + b) + [','] + c
    ensures Ungroup(a + "." + b + "," + c, true) == (a + b) + [','] + c
  {
    var t := a + "." + b + "," + c;
    assert t[0] == a[0] && t[|t| - 1] == c[|c| - 1] && t[|a| + 1 + |b|] == ',';
    UngroupThousands(a, b, c);
  }

  /** What the amount lemmas need to know about `a.b.c,d`. */
  lemma {:induction false} MillionsShape(a: string, b: string, c: string, d: string)
    requires |a| > 0 && AllDigits(a) && AllDigits(b) && AllDigits(c) && |d| > 0 && AllDigits(d)
    ensures var t := a + "." + b + "." + c + "," + d;
      |t| > 0 && IsDigit(t[0]) && IsDigit(t[|t| - 1]) && ',' in t
    ensures |a + b| > 0 && AllDigits(a + b) && |a + b + c| > 0 && AllDigits(a + b + c)
    ensures Ungroup(a + "." + b + "." + c + "," + d, false) == (a + b + "." + c) + [','] + d
    ensures Ungroup(a + "." + b + "." + c + "," + d, true) == (a + b + c) + [','] + d
  {
    var t := a + "." + b + "." + c + "," + d;
    assert t[0] == a[0] && t[|t| - 1] == d[|d| - 1] && t[|a| + |b| + |c| + 2] == ',';
    UngroupMillions(a, b, c, d);
  }

  /**
   * `R$ a.b,c` (one thousands point) is `ab` units and `c` hundredths, as the
   * code is written and once corrected.
   */
  lemma {:induction false} ThousandsAmount(a: string, b: string, c: string)
    requires |a| > 0 && AllDigits(a) && AllDigits(b) && |c| > 0 && AllDigits(c)
    ensures CurrencyWith(Text("R$ " + (a + "." + b + "," + c)), false) == Some(DigitsValue(a + b) as real + Fraction(c))
    ensures CurrencyWith(Text("R$ " + (a + "." + b + "," + c)), true) == Some(DigitsValue(a + b) as real + Fraction(c))
  {
    ThousandsShape(a, b, c);
    ThousandsAmountAt(a, b, c, a + "." + b + "," + c, false);
    ThousandsAmountAt(a, b, c, a + "." + b + "," + c, true);
  }

  lemma {:induction false} ThousandsAmountAt(a: string, b: string, c: string, t: string, allPoints: bool)
    requires |a| > 0 && AllDigits(a) && AllDigits(b) && |c| > 0 && AllDigits(c)
    requires t == a + "." + b + "," + c
    requires |t| > 0 && IsDigit(t[0]) && IsDigit(t[|t| - 1]) && ',' in t
    requires |a + b| > 0 && AllDigits(a + b) && Ungroup(t, allPoints) == (a + b) + [','] + c
    ensures CurrencyWith(Text("R$ " + t), allPoints) == Some(DigitsValue(a + b) as real + Fraction(c))
  {
    CommaAmount(t, allPoints, a + b, c);
  }

  /**
   * `R$ a.b.c,d` (a million or more): the code as written removes only the
   * first point and reads "ab.c.d", which is `NaN`.
   */
  lemma {:induction false} MillionsAsWritten(a: string, b: string, c: string, d: string)
    requires |a| > 0 && AllDigits(a) && AllDigits(b) && AllDigits(c) && |d| > 0 && AllDigits(d)
    ensures CurrencyWith(Text("R$ " + (a + "." + b + "." + c + "," + d)), false) == None
  {
    MillionsShape(a, b, c, d);
    CommaAmountNaN(a + "." + b + "." + c + "," + d, false, a + b, c, d);
  }

  /** The corrected normaliser reads `R$ a.b.c,d` as `abc` units and `d` hundredths. */
  lemma {:induction false} MillionsCorrected(a: string, b: string, c: string, d: string)
    requires |a| > 0 && AllDigits(a) && AllDigits(b) && AllDigits(c) && |d| > 0 && AllDigits(d)
    ensures CurrencyWith(Text("R$ " + (a + "." + b + "." + c + "," + d)), true)
         == Some(DigitsValue(a + b + c) as real + Fraction(d))
  {
    MillionsShape(a, b, c, d);
    MillionsCorrectedAt(a, b, c, d, a + "." + b + "." + c + "," + d);
  }

  lemma {:induction false} MillionsCorrectedAt(a: string, b: string, c: string, d: string, t: string)
    requires |a| > 0 && AllDigits(a) && AllDigits(b) && AllDigits(c) && |d| > 0 && AllDigits(d)
    requires t == a + "." + b + "." + c + "," + d
    requires |t| > 0 && IsDigit(t[0]) && IsDigit(t[|t| - 1]) && ',' in t
    requires |a + b + c| > 0 && AllDigits(a + b + c) && Ungroup(t, true) == (a + b + c) + [','] + d
    ensures CurrencyWith(Text("R$ " + t), true) == Some(DigitsValue(a + b + c) as real + Fraction(d))
  {
    CommaAmount(t, true, a + b + c, d);
  }

  /* ---------- lemmas: the due date ---------- */

  /** A date printed `DD/MM/YYYY` comes out as its ISO text, which reads back as the same day. */
  lemma {:induction false} BillDateRoundTrip(d: Date)
    requires Valid(d) && FourDigitYear(d)
    ensures FormatBillDate(Some(BrDate(d))) == Formatted(IsoDate(d))
    ensures ParseIso(FormatBillDate(Some(BrDate(d))).text) == Some(d)
  {
    BrDateToIso(d);
    IsoRoundTrip(d);
  }

  lemma {:induction false} BrDateToIso(d: Date)
    requires Valid(d) && FourDigitYear(d)
    ensures FormatBillDate(Some(BrDate(d))) == Formatted(IsoDate(d))
  {
    var s := BrDate(d);
    BrDateFields(d);
    assert FormatBillDate(Some(s)) == Formatted(s[6..] + "-" + s[3..5] + "-" + s[..2]);
  }

  /** The three fields of a printed date. */
  lemma {:induction false} BrDateFields(d: Date)
    requires Valid(d) && FourDigitYear(d)
    ensures var s := BrDate(d);
      s[..2] == Pad2(d.day) && s[3..5] == Pad2(d.MonthOfYear()) && s[6..] == Pad4(d.Year())
  {
    var dd, mm, yyyy := Pad2(d.day), Pad2(d.MonthOfYear()), Pad4(d.Year());
    assert BrDate(d) == dd + "/" + mm + "/" + yyyy;
    SlashedFields(dd, mm, yyyy);
  }

  lemma {:induction false} SlashedFields(dd: string, mm: string, yyyy: string)
    requires |dd| == 2 && |mm| == 2 && |yyyy| == 4
    ensures var r := dd + "/" + mm + "/" + yyyy;
      r[..2] == dd && r[3..5] == mm && r[6..] == yyyy
  {
    var r := dd + "/" + mm + "/" + yyyy;
    assert r[..2] == dd && r[3..5] == mm && r[6..] == yyyy;
  }

  /**
   * The other direction: when the normaliser's output reads as a day, the
   * input was that day printed `DD/MM/YYYY`.
   */
  lemma {:induction false} BillDateOnlyFromBrDate(s: string, d: Date)
    requires FormatBillDate(Some(s)).Formatted? && ParseIso(FormatBillDate(Some(s)).text) == Some(d)
    ensures s == BrDate(d)
  {
    var r := FormatBillDate(Some(s)).text;
    assert r[..4] == s[6..] && r[5..7] == s[3..5] && r[8..] == s[..2];
    ParseIsoParts(r, d);
    BrDateParts(s, d);
  }

  /** The fields of a text `ParseIso` accepts are the year, month and day it returns. */
  lemma {:induction false} ParseIsoParts(r: string, d: Date)
    requires ParseIso(r) == Some(d)
    ensures AllDigits(r[..4]) && AllDigits(r[5..7]) && AllDigits(r[8..])
    ensures DigitsValue(r[..4]) == d.Year() && DigitsValue(r[5..7]) == d.MonthOfYear() && DigitsValue(r[8..]) == d.day
  {
    var y, m := ValueAt(r, 0, 4), ValueAt(r, 5, 7);
    assert d == Date(12 * y + m - 1, ValueAt(r, 8, 10));
    assert 12 * y <= d.month < 12 * y + 12;
    ValueAtSlice(r, 0, 4);
    ValueAtSlice(r, 5, 7);
    ValueAtSlice(r, 8, 10);
    assert r[0..4] == r[..4] && r[8..10] == r[8..];
  }

  /** A `DD/MM/YYYY` text whose fields are a valid day's is that day's `BrDate`. */
  lemma {:induction false} BrDateParts(s: string, d: Date)
    requires Valid(d) && FourDigitYear(d) && IsBrDate(s)
    requires DigitsValue(s[6..]) == d.Year() && DigitsValue(s[3..5]) == d.MonthOfYear() && DigitsValue(s[..2]) == d.day
    ensures s == BrDate(d)
  {
    FixedWidthInjective(s[6..], Pad4(d.Year()));
    FixedWidthInjective(s[3..5], Pad2(d.MonthOfYear()));
    FixedWidthInjective(s[..2], Pad2(d.day));
    BrDateFields(d);
    SameSlashed(s, BrDate(d));
  }

  /** Two `DD/MM/YYYY` texts with the same three fields are the same text. */
  lemma {:induction false} SameSlashed(s: string, b: string)
    requires IsBrDate(s) && IsBrDate(b) && s[..2] == b[..2] && s[3..5] == b[3..5] && s[6..] == b[6..]
    ensures s == b
  {
    assert s == s[..2] + [s[2]] + s[3..5] + [s[5]] + s[6..];
    assert b == b[..2] + [b[2]] + b[3..5] + [b[5]] + b[6..];
  }

  /** A missing date, and an ISO date, both fall back to the current instant. */
  lemma {:induction false} BillDateFallsBack(d: Date)
    requires Valid(d) && FourDigitYear(d)
    ensures FormatBillDate(None) == Now && FormatBillDate(Some("")) == Now
    ensures FormatBillDate(Some(IsoDate(d))) == Now
  {
    DashedNotBrDate(IsoDate(d));
  }

  lemma {:induction false} DashedNotBrDate(s: string)
    requires |s| == 10 && s[4] == '-'
    ensures FormatBillDate(Some(s)) == Now
  {
    assert s[3..5][1] == '-';
  }

  /** The fields are only reordered: no calendar check rejects the 31st of February. */
  lemma {:induction false} BillDateNoCalendarCheck()
    ensures FormatBillDate(Some("31/02/2024")) == Formatted("2024-02-31")
  {
    var s := "31/02/2024";
    assert s[6..] == "2024" && s[3..5] == "02" && s[..2] == "31";
  }
}
