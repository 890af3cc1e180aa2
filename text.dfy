/** Decimal digits and fixed-width padding of strings. */
module Text {
  import opened Wrappers

  predicate IsDigit(c: char) {
    '0' <= c <= '9'
  }

  predicate AllDigits(s: string) {
    forall i :: 0 <= i < |s| ==> IsDigit(s[i])
  }

  function DigitChar(d: nat): (c: char)
    requires d < 10
    ensures IsDigit(c)
  {
    ('0' as int + d) as char
  }

  function DigitValue(c: char): (d: nat)
    requires IsDigit(c)
    ensures d < 10 && DigitChar(d) == c
  {
    (c as int - '0' as int) as nat
  }

  /** `String(n)` for a natural number: its decimal digits, no leading zero. */
  function Digits(n: nat): (s: string)
    ensures |s| >= 1 && AllDigits(s)
  {
    if n < 10 then [DigitChar(n)] else Digits(n / 10) + [DigitChar(n % 10)]
  }

  /** `parseInt` of a string of digits. */
  function DigitsValue(s: string): nat
    requires AllDigits(s)
  {
    if s == [] then 0 else 10 * DigitsValue(s[..|s| - 1]) + DigitValue(s[|s| - 1])
  }

  function Pow10(k: nat): (p: nat)
    ensures p >= 1
  {
    if k == 0 then 1 else 10 * Pow10(k - 1)
  }

  function Repeat(c: char, n: nat): (s: string)
    ensures |s| == n
    ensures forall i :: 0 <= i < n ==> s[i] == c
  {
    if n == 0 then [] else [c] + Repeat(c, n - 1)
  }

  /** `s.padStart(n, c)`: never truncates. */
  function PadStart(s: string, n: nat, c: char): (r: string)
    ensures |r| == if |s| >= n then |s| else n
    ensures forall i :: 0 <= i < |s| ==> r[|r| - |s| + i] == s[i]
    ensures forall i :: 0 <= i < |r| - |s| ==> r[i] == c
  {
    if |s| >= n then s else Repeat(c, n - |s|) + s
  }

  /** `s.padEnd(n, c)`: never truncates. */
  function PadEnd(s: string, n: nat, c: char): (r: string)
    ensures |r| == if |s| >= n then |s| else n
    ensures r[..|s|] == s
    ensures forall i :: |s| <= i < |r| ==> r[i] == c
  {
    if |s| >= n then s else s + Repeat(c, n - |s|)
  }

  /** Reading back the digits of a number gives the number. */
  lemma {:induction false} DigitsRoundTrip(n: nat)
    ensures DigitsValue(Digits(n)) == n
  {
    if n >= 10 {
      DigitsRoundTrip(n / 10);
      var s := Digits(n);
      assert s[..|s| - 1] == Digits(n / 10);
    }
  }

  /** A number below `10^k` has at most `k` digits. */
  lemma {:induction false} DigitsLengthBound(n: nat, k: nat)
    requires n < Pow10(k)
    ensures |Digits(n)| <= if k == 0 then 1 else k
  {
    if n >= 10 {
      DigitsLengthBound(n / 10, k - 1);
    }
  }

  /** A number of `10^(k-1)` or more has at least `k` digits. */
  lemma {:induction false} DigitsLengthAtLeast(n: nat, k: nat)
    requires k >= 1 && n >= Pow10(k - 1)
    ensures |Digits(n)| >= k
  {
    if k > 1 {
      DigitsLengthAtLeast(n / 10, k - 1);
    }
  }

  /** A string of `k` digits is worth less than `10^k`. */
  lemma {:induction false} DigitsValueBound(s: string)
    requires AllDigits(s)
    ensures DigitsValue(s) < Pow10(|s|)
    decreases |s|
  {
    if s != [] {
      DigitsValueBound(s[..|s| - 1]);
    }
  }

  /** Leading zeros do not change the value of a digit string. */
  lemma {:induction false} LeadingZeros(s: string, n: nat)
    requires AllDigits(s)
    ensures AllDigits(PadStart(s, n, '0'))
    ensures DigitsValue(PadStart(s, n, '0')) == DigitsValue(s)
  {
    if |s| < n {
      ZerosPrefix(n - |s|, s);
    }
  }

  lemma {:induction false} ZerosPrefix(k: nat, s: string)
    requires AllDigits(s)
    ensures AllDigits(Repeat('0', k) + s) && DigitsValue(Repeat('0', k) + s) == DigitsValue(s)
  {
    if k > 0 {
      ZerosPrefix(k - 1, s);
      var r := Repeat('0', k - 1) + s;
      assert Repeat('0', k) + s == ['0'] + r;
      ZeroPrefix(r);
    } else {
      assert Repeat('0', k) + s == s;
    }
  }

  lemma {:induction false} ZeroPrefix(s: string)
    requires AllDigits(s)
    ensures AllDigits(['0'] + s)
    ensures DigitsValue(['0'] + s) == DigitsValue(s)
    decreases |s|
  {
    if s != [] {
      var t := ['0'] + s;
      assert t[..|t| - 1] == ['0'] + s[..|s| - 1];
      ZeroPrefix(s[..|s| - 1]);
    }
  }

  /** The value of a digit string splits at any position: the head counts in units of `10^|tail|`. */
  lemma {:induction false} DigitsValueSplit(s: string, k: nat)
    requires AllDigits(s) && k <= |s|
    ensures DigitsValue(s) == DigitsValue(s[..k]) * Pow10(|s| - k) + DigitsValue(s[k..])
    decreases |s|
  {
    if k < |s| {
      var init := s[..|s| - 1];
      DigitsValueSplit(init, k);
      assert init[..k] == s[..k];
      var tail := s[k..];
      assert tail[..|tail| - 1] == init[k..] && tail[|tail| - 1] == s[|s| - 1];
      SplitStep(DigitsValue(s), DigitsValue(init), DigitsValue(s[..k]), Pow10(|s| - 1 - k),
                DigitsValue(init[k..]), DigitValue(s[|s| - 1]), DigitsValue(tail), Pow10(|s| - k));
    } else {
      assert s[..k] == s;
    }
  }

  /** Two digit strings side by side: the first counts in units of `10^|b|`. */
  lemma {:induction false} DigitsConcat(a: string, b: string)
    requires AllDigits(a) && AllDigits(b)
    ensures AllDigits(a + b) && DigitsValue(a + b) == DigitsValue(a) * Pow10(|b|) + DigitsValue(b)
  {
    var x := a + b;
    DigitsValueSplit(x, |a|);
    assert x[..|a|] == a && x[|a|..] == b;
  }

  /** `DigitsConcat` with the power of ten given as a number, so a caller with a known width gets a linear equation. */
  lemma {:induction false} DigitsConcatScaled(a: string, b: string, p: nat)
    requires AllDigits(a) && AllDigits(b) && p == Pow10(|b|)
    ensures AllDigits(a + b) && DigitsValue(a + b) == DigitsValue(a) * p + DigitsValue(b)
  {
    DigitsConcat(a, b);
  }

  /** Two trailing digits: the rest counts in hundreds. */
  lemma {:induction false} DigitsAppendTwo(a: string, b: string)
    requires AllDigits(a) && AllDigits(b) && |b| == 2
    ensures AllDigits(a + b) && DigitsValue(a + b) == 100 * DigitsValue(a) + DigitsValue(b)
  {
    DigitsConcat(a, b);
    assert Pow10(2) == 100;
  }

  /** The arithmetic of one step of `DigitsValueSplit`, kept apart from the strings. */
  lemma {:induction false} SplitStep(v: int, vi: int, h: int, p: int, x: int, c: int, vt: int, q: int)
    requires v == 10 * vi + c && vi == h * p + x && vt == 10 * x + c && q == 10 * p
    ensures v == h * q + vt
  {
    MulTen(h, p);
  }

  /** Two digit strings of the same length and the same value are the same string. */
  lemma {:induction false} FixedWidthInjective(s: string, u: string)
    requires AllDigits(s) && AllDigits(u) && |s| == |u| && DigitsValue(s) == DigitsValue(u)
    ensures s == u
    decreases |s|
  {
    if s != [] {
      var a, b := DigitValue(s[|s| - 1]), DigitValue(u[|u| - 1]);
      var x, y := DigitsValue(s[..|s| - 1]), DigitsValue(u[..|u| - 1]);
      DigitSplitUnique(x, a, y, b);
      FixedWidthInjective(s[..|s| - 1], u[..|u| - 1]);
      assert s[|s| - 1] == DigitChar(a) == u[|u| - 1];
      assert s == s[..|s| - 1] + [s[|s| - 1]];
      assert u == u[..|u| - 1] + [u[|u| - 1]];
    }
  }

  lemma {:induction false} DigitSplitUnique(x: int, a: int, y: int, b: int)
    requires 0 <= a < 10 && 0 <= b < 10 && 10 * x + a == 10 * y + b
    ensures a == b && x == y
  {
  }

  /** A number below `10^k`, zero-filled to `k` places, is `k` digits worth the number. */
  lemma {:induction false} ZeroFilled(n: nat, k: nat)
    requires k >= 1 && n < Pow10(k)
    ensures |PadStart(Digits(n), k, '0')| == k && AllDigits(PadStart(Digits(n), k, '0'))
    ensures DigitsValue(PadStart(Digits(n), k, '0')) == n
  {
    DigitsLengthBound(n, k);
    LeadingZeros(Digits(n), k);
    DigitsRoundTrip(n);
  }

  /** Two digit strings of the same value, zero-filled to a width both fit, become the same string. */
  lemma {:induction false} ZeroFilledSame(a: string, b: string, n: nat)
    requires AllDigits(a) && AllDigits(b) && |a| <= n && |b| <= n && DigitsValue(a) == DigitsValue(b)
    ensures |PadStart(a, n, '0')| == n && AllDigits(PadStart(a, n, '0'))
    ensures DigitsValue(PadStart(a, n, '0')) == DigitsValue(a) && PadStart(a, n, '0') == PadStart(b, n, '0')
  {
    LeadingZeros(a, n);
    LeadingZeros(b, n);
    FixedWidthInjective(PadStart(a, n, '0'), PadStart(b, n, '0'));
  }

  /** A number of exactly `k` digits is written with `k` characters, and padding it to `k` changes nothing. */
  lemma {:induction false} ExactWidth(n: nat, k: nat)
    requires k >= 1 && Pow10(k - 1) <= n < Pow10(k)
    ensures |Digits(n)| == k && PadStart(Digits(n), k, '0') == Digits(n)
  {
    DigitsLengthBound(n, k);
    DigitsLengthAtLeast(n, k);
    var r := PadStart(Digits(n), k, '0');
    assert r == r[|r| - |Digits(n)|..];
  }

  /** Of four digits, the last two are worth the whole modulo 100. */
  lemma {:induction false} LastTwoOfFour(s: string)
    requires |s| == 4 && AllDigits(s)
    ensures DigitsValue(s) < 10000 && DigitsValue(s[2..]) == DigitsValue(s) % 100
  {
    DigitsValueSplit(s, 2);
    DigitsValueBound(s[2..]);
    DigitsValueBound(s);
    assert Pow10(2) == 100 && Pow10(4) == 10000;
    LowDigits(DigitsValue(s), DigitsValue(s[..2]), DigitsValue(s[2..]));
  }

  /** A number written as `100 * h + t` with `t < 100` has `t` as its remainder modulo 100. */
  lemma {:induction false} LowDigits(v: int, h: nat, t: nat)
    requires v == h * 100 + t && t < 100
    ensures t == v % 100
  {
  }

  lemma {:induction false} MulTen(h: int, p: int)
    ensures h * (10 * p) == 10 * (h * p)
  {
  }

  /** `String(n)` for an integer. */
  function IntText(n: int): (s: string)
    ensures |s| > 0
  {
    if n < 0 then "-" + Digits(-n) else Digits(n)
  }

  /** `s.replace(c, "")` with a one-character pattern: the first occurrence of `c` removed. */
  function RemoveFirst(s: string, c: char): (r: string)
    ensures |r| == |s| || |r| == |s| - 1
    decreases |s|
  {
    if s == [] then []
    else
      var init := s[..|s| - 1];
      if c in init then RemoveFirst(init, c) + [s[|s| - 1]]
      else if s[|s| - 1] == c then init
      else s
  }

  /** Only the first occurrence goes: a text free of `c` followed by `c` loses exactly that `c`. */
  lemma {:induction false} RemoveFirstAt(a: string, c: char, b: string)
    requires forall i :: 0 <= i < |a| ==> a[i] != c
    ensures RemoveFirst(a + [c] + b, c) == a + b
    decreases |b|
  {
    var s := a + [c] + b;
    if b == [] {
      assert s[..|s| - 1] == a;
    } else {
      var init := b[..|b| - 1];
      assert s[..|s| - 1] == a + [c] + init;
      assert (a + [c] + init)[|a|] == c;
      RemoveFirstAt(a, c, init);
      assert a + b == a + init + [b[|b| - 1]];
    }
  }

  /** JavaScript truthiness of an optional text: present and not empty. */
  predicate Given(s: Option<string>) {
    s.Some? && s.value != ""
  }

  /** `x || fallback` on an optional text. */
  function Or(s: Option<string>, fallback: string): (r: string)
    ensures Given(s) ==> r == s.value
    ensures !Given(s) ==> r == fallback
  {
    if Given(s) then s.value else fallback
  }

  predicate IsSpace(c: char) {
    c == ' ' || c == '\t' || c == '\n' || c == '\r'
  }

  /** The text after its leading white space. */
  function TrimStart(s: string): (r: string)
    ensures |r| <= |s| && r == s[|s| - |r|..]
    ensures |r| > 0 ==> !IsSpace(r[0])
  {
    if |s| > 0 && IsSpace(s[0]) then TrimStart(s[1..]) else s
  }

  /** Every character of `s[i..j]` is a digit. */
  predicate DigitsIn(s: string, i: nat, j: nat)
    requires i <= j <= |s|
  {
    forall k :: i <= k < j ==> IsDigit(s[k])
  }

  /** The value of the digits `s[i..j]`, read in place. */
  function ValueAt(s: string, i: nat, j: nat): nat
    requires i <= j <= |s| && DigitsIn(s, i, j)
    decreases j - i
  {
    if j == i then 0 else 10 * ValueAt(s, i, j - 1) + DigitValue(s[j - 1])
  }

  /** Reading digits in place agrees with reading the slice they form. */
  lemma {:induction false} ValueAtSlice(s: string, i: nat, j: nat)
    requires i <= j <= |s| && DigitsIn(s, i, j)
    ensures AllDigits(s[i..j]) && ValueAt(s, i, j) == DigitsValue(s[i..j])
    decreases j - i
  {
    if j > i {
      ValueAtSlice(s, i, j - 1);
      var t := s[i..j];
      assert t[..|t| - 1] == s[i..j - 1];
      assert t[|t| - 1] == s[j - 1];
    }
  }

  /** `k` digits in place are worth less than `10^k`. */
  lemma {:induction false} ValueAtBound(s: string, i: nat, j: nat)
    requires i <= j <= |s| && DigitsIn(s, i, j)
    ensures ValueAt(s, i, j) < Pow10(j - i)
  {
    ValueAtSlice(s, i, j);
    DigitsValueBound(s[i..j]);
  }

  /** Where the run of white space starting at `i` ends. */
  function SpacesEnd(s: string, i: nat): (k: nat)
    requires i <= |s|
    ensures i <= k <= |s| && (k < |s| ==> !IsSpace(s[k]))
    decreases |s| - i
  {
    if i < |s| && IsSpace(s[i]) then SpacesEnd(s, i + 1) else i
  }

  /** Where the run of digits starting at `i` ends. */
  function DigitsEnd(s: string, i: nat): (k: nat)
    requires i <= |s|
    ensures i <= k <= |s| && DigitsIn(s, i, k) && (k < |s| ==> !IsDigit(s[k]))
    decreases |s| - i
  {
    if i < |s| && IsDigit(s[i]) then DigitsEnd(s, i + 1) else i
  }

  /**
   * `parseInt(s)` in base ten: white space, an optional sign, then the
   * digits up to the first other character; `None` is `NaN`, when there
   * is no such digit.
   */
  function ParseInt(s: string): (r: Option<int>)
    ensures r.Some? <==> DigitsStart(s) < |s| && IsDigit(s[DigitsStart(s)])
  {
    var start := DigitsStart(s);
    var end := DigitsEnd(s, start);
    if end == start then None
    else
      var v := ValueAt(s, start, end);
      Some(if SignedNegative(s) then -(v as int) else v)
  }

  /** Where the digits `parseInt` reads begin: after the white space and the sign. */
  function DigitsStart(s: string): (k: nat)
    ensures k <= |s|
  {
    var k := SpacesEnd(s, 0);
    if k < |s| && (s[k] == '-' || s[k] == '+') then k + 1 else k
  }

  /** The sign `parseInt` reads is a minus. */
  predicate SignedNegative(s: string) {
    var k := SpacesEnd(s, 0);
    k < |s| && s[k] == '-'
  }

  /** The digits run ends at `j` when all before it are digits and `s[j]`, if any, is not. */
  lemma {:induction false} DigitsEndAt(s: string, i: nat, j: nat)
    requires i <= j <= |s| && DigitsIn(s, i, j) && (j == |s| || !IsDigit(s[j]))
    ensures DigitsEnd(s, i) == j
    decreases j - i
  {
    if i < j {
      DigitsEndAt(s, i + 1, j);
    }
  }

  /** `parseInt` reads back `String(n)`, whatever non-digit text follows it. */
  lemma {:induction false} ParseIntDigits(n: nat, b: string)
    requires b == [] || !IsDigit(b[0])
    ensures ParseInt(Digits(n) + b) == Some(n)
  {
    var d := Digits(n);
    var s := d + b;
    assert !IsSpace(s[0]) && s[0] != '-' && s[0] != '+';
    assert DigitsStart(s) == 0;
    assert DigitsIn(s, 0, |d|);
    assert |d| == |s| || s[|d|] == b[0];
    DigitsEndAt(s, 0, |d|);
    ValueAtSlice(s, 0, |d|);
    assert s[0..|d|] == d;
    DigitsRoundTrip(n);
  }
}
