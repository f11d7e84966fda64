/**
 * The string and number operations the core borrows from JavaScript: `parseInt`,
 * `parseFloat` and `toFixed(2)` on decimal numbers, `String` on integers, `trim`
 * and `join`.
 */
module Text {
  import opened Wrappers

  predicate IsDigit(c: char) { '0' <= c <= '9' }

  function DigitChar(d: int): (c: char)
    requires 0 <= d <= 9
    ensures IsDigit(c)
  {
    ('0' as int + d) as char
  }

  function DigitValue(c: char): (d: int)
    requires IsDigit(c)
    ensures 0 <= d <= 9
  {
    c as int - '0' as int
  }

  /** Decimal digits of `n`, most significant first, without leading zeros. */
  function NatToString(n: nat): (s: string)
    ensures |s| >= 1
    ensures forall i :: 0 <= i < |s| ==> IsDigit(s[i])
  {
    if n < 10 then [DigitChar(n)] else NatToString(n / 10) + [DigitChar(n % 10)]
  }

  /**
   * `String(i)` for an integer: a minus sign before the digits of a negative number.
   * JavaScript writes an integer of 10^21 or more in magnitude in exponent form
   * instead; this is the decimal form for every integer.
   */
  function IntToString(i: int): (s: string)
    ensures |s| >= 1
  {
    if i < 0 then "-" + NatToString(-i) else NatToString(i)
  }

  /** The value of a string of decimal digits, as `parseInt` reads it. */
  function ParseDigits(s: string): (n: nat)
    requires forall i :: 0 <= i < |s| ==> IsDigit(s[i])
  {
    if |s| == 0 then 0 else 10 * ParseDigits(s[..|s| - 1]) + DigitValue(s[|s| - 1])
  }

  /** `parseInt` of a number's decimal text: a sign and digits give the number back. */
  function ParseInt(s: string): (r: int)
    requires |s| >= 1
    requires s[0] == '-' ==> forall i :: 1 <= i < |s| ==> IsDigit(s[i])
    requires s[0] != '-' ==> forall i :: 0 <= i < |s| ==> IsDigit(s[i])
  {
    if s[0] == '-' then 0 - ParseDigits(s[1..]) as int else ParseDigits(s)
  }

  lemma {:induction false} ParseNatToString(n: nat)
    ensures ParseDigits(NatToString(n)) == n
  {
    if n >= 10 {
      var s := NatToString(n);
      assert s[..|s| - 1] == NatToString(n / 10);
      ParseNatToString(n / 10);
    }
  }

  /** Formatting an integer and parsing it back gives the integer. */
  lemma ParseIntToString(i: int)
    ensures ParseInt(IntToString(i)) == i
  {
    if i < 0 {
      assert IntToString(i)[1..] == NatToString(-i);
      ParseNatToString(-i);
    } else {
      ParseNatToString(i);
    }
  }

  /** The characters `String.prototype.trim` removes: white space and line terminators. */
  predicate IsSpace(c: char) {
    c == ' ' || c == '\t' || c == '\n' || c == '\r' || c == '\U{000B}' || c == '\U{000C}'
    || c == '\U{00A0}' || c == '\U{FEFF}' || c == '\U{1680}' || ('\U{2000}' <= c <= '\U{200A}')
    || c == '\U{2028}' || c == '\U{2029}' || c == '\U{202F}' || c == '\U{205F}' || c == '\U{3000}'
  }

  /** Index of the first character that is not white space (or |s|). */
  function FirstNonSpace(s: string, from: nat): (i: nat)
    requires from <= |s|
    ensures from <= i <= |s|
    ensures i < |s| ==> !IsSpace(s[i])
    ensures forall k :: from <= k < i ==> IsSpace(s[k])
    decreases |s| - from
  {
    if from == |s| || !IsSpace(s[from]) then from else FirstNonSpace(s, from + 1)
  }

  /** One past the last character before `upto` that is not white space (or `lo`). */
  function LastNonSpace(s: string, lo: nat, upto: nat): (j: nat)
    requires lo <= upto <= |s|
    ensures lo <= j <= upto
    ensures j > lo ==> !IsSpace(s[j - 1])
    ensures forall k :: j <= k < upto ==> IsSpace(s[k])
    decreases upto - lo
  {
    if upto == lo || !IsSpace(s[upto - 1]) then upto else LastNonSpace(s, lo, upto - 1)
  }

  /**
   * `s.trim()`: the slice of `s` between its leading and trailing white space.
   * What is cut off is white space only, and what is kept neither starts nor ends with it.
   */
  function Trim(s: string): (t: string)
    ensures exists i, j :: 0 <= i <= j <= |s| && t == s[i..j]
              && (forall k :: 0 <= k < i ==> IsSpace(s[k]))
              && (forall k :: j <= k < |s| ==> IsSpace(s[k]))
    ensures |t| > 0 ==> !IsSpace(t[0]) && !IsSpace(t[|t| - 1])
    ensures t == [] <==> forall k :: 0 <= k < |s| ==> IsSpace(s[k])
  {
    var i := FirstNonSpace(s, 0);
    var j := LastNonSpace(s, i, |s|);
    s[i..j]
  }

  /** `list.join(sep)`. */
  function Join(parts: seq<string>, sep: string): string {
    if |parts| == 0 then ""
    else if |parts| == 1 then parts[0]
    else parts[0] + sep + Join(parts[1..], sep)
  }

  /** A join is empty exactly when there is at most one part and it is empty, for a non-empty separator. */
  lemma {:induction false} JoinEmpty(parts: seq<string>, sep: string)
    requires |sep| > 0
    ensures Join(parts, sep) == "" <==> |parts| == 0 || (|parts| == 1 && parts[0] == "")
  {
    if |parts| > 1 {
      assert |Join(parts, sep)| >= |sep|;
    }
  }

  /** One past the last decimal digit of the run that starts at `i`. */
  function DigitRunEnd(s: string, i: nat): (j: nat)
    requires i <= |s|
    ensures i <= j <= |s|
    ensures forall k :: i <= k < j ==> IsDigit(s[k])
    ensures j < |s| ==> !IsDigit(s[j])
    decreases |s| - i
  {
    if i == |s| || !IsDigit(s[i]) then i else DigitRunEnd(s, i + 1)
  }

  /** A run of digits ended by a non-digit (or the end) is where `DigitRunEnd` stops. */
  lemma {:induction false} DigitRunEndAt(s: string, i: nat, j: nat)
    requires i <= j <= |s|
    requires forall k :: i <= k < j ==> IsDigit(s[k])
    requires j < |s| ==> !IsDigit(s[j])
    ensures DigitRunEnd(s, i) == j
    decreases j - i
  {
    if i < j {
      DigitRunEndAt(s, i + 1, j);
    }
  }

  function Pow10(k: nat): (p: nat)
    ensures p >= 1
  {
    if k == 0 then 1 else 10 * Pow10(k - 1)
  }

  /**
   * `parseFloat` on decimal notation: leading white space, an optional sign, the
   * digits before and after an optional decimal point; reading stops at the first
   * character that does not fit. Without a single digit the result is NaN (`None`).
   */
  function ParseFloat(s: string): (r: Option<real>)
    ensures r.Some? && r.value < 0.0 ==>
              exists i :: 0 <= i < |s| && s[i] == '-' && forall k :: 0 <= k < i ==> IsSpace(s[k])
  {
    var i := FirstNonSpace(s, 0);
    var k := if i < |s| && (s[i] == '-' || s[i] == '+') then i + 1 else i;
    DecimalAt(s, k, i < |s| && s[i] == '-')
  }

  /** The digits after the decimal point, when there is one at `e`. */
  function FractionAt(s: string, e: nat): string
    requires e <= |s|
  {
    if e < |s| && s[e] == '.' then s[e + 1..DigitRunEnd(s, e + 1)] else []
  }

  /** The unsigned decimal that starts at `k`, negated when `negative`. */
  function DecimalAt(s: string, k: nat, negative: bool): (r: Option<real>)
    requires k <= |s|
    ensures r.Some? && r.value < 0.0 ==> negative
  {
    var e := DigitRunEnd(s, k);
    var fraction := FractionAt(s, e);
    if e == k && |fraction| == 0 then None
    else
      var magnitude := ParseDigits(s[k..e]) as real + ParseDigits(fraction) as real / Pow10(|fraction|) as real;
      Some(if negative then -magnitude else magnitude)
  }

  /** `x.toFixed(2)` for an amount of `cents` hundredths: sign, whole part, point, two digits. */
  function FormatCents(cents: int): (s: string)
    ensures |s| >= 4
  {
    var a := if cents < 0 then -cents else cents;
    (if cents < 0 then "-" else "") + NatToString(a / 100) + ("." + [DigitChar(a % 100 / 10), DigitChar(a % 100 % 10)])
  }

  function Signed(negative: bool, x: real): real { if negative then -x else x }

  /** A string that starts with a minus sign or a digit is read from its first character. */
  lemma ParseFloatStart(s: string, k: nat)
    requires k <= 1 && k < |s|
    requires k == 1 ==> s[0] == '-'
    requires k == 0 ==> IsDigit(s[0])
    ensures ParseFloat(s) == DecimalAt(s, k, k == 1)
  {
    assert !IsSpace(s[0]);
    assert FirstNonSpace(s, 0) == 0;
  }

  /** Whole digits from `k` to `e`, a point, and fraction digits to the end. */
  lemma DecimalLayout(s: string, k: nat, e: nat)
    requires k < e < |s|
    requires forall i :: k <= i < e ==> IsDigit(s[i])
    requires s[e] == '.'
    requires forall i :: e < i < |s| ==> IsDigit(s[i])
    ensures DigitRunEnd(s, k) == e
    ensures FractionAt(s, e) == s[e + 1..]
  {
    DigitRunEndAt(s, k, e);
    DigitRunEndAt(s, e + 1, |s|);
  }

  /** The value `DecimalAt` reads once the digit runs are known. */
  lemma DecimalAtValue(s: string, k: nat, negative: bool, e: nat, w: int, f: int, p: int)
    requires k < e < |s|
    requires DigitRunEnd(s, k) == e && FractionAt(s, e) == s[e + 1..]
    requires w == ParseDigits(s[k..e]) && f == ParseDigits(s[e + 1..]) && p == Pow10(|s| - e - 1)
    ensures DecimalAt(s, k, negative) == Some(Signed(negative, w as real + f as real / p as real))
  {
  }

  /**
   * `parseFloat` of an optional minus sign, whole digits from `k` to `e`, a point at
   * `e` and fraction digits to the end: the signed value `w + f / p` of those digits.
   */
  lemma ParseFloatLayout(s: string, k: nat, e: nat, w: int, f: int, p: int)
    requires k <= 1 && k < e < |s|
    requires k == 1 ==> s[0] == '-'
    requires forall i :: k <= i < e ==> IsDigit(s[i])
    requires s[e] == '.'
    requires forall i :: e < i < |s| ==> IsDigit(s[i])
    requires w == ParseDigits(s[k..e]) && f == ParseDigits(s[e + 1..]) && p == Pow10(|s| - e - 1)
    ensures ParseFloat(s) == Some(Signed(k == 1, w as real + f as real / p as real))
  {
    ParseFloatStart(s, k);
    DecimalLayout(s, k, e);
    DecimalAtValue(s, k, k == 1, e, w, f, p);
  }

  /** Where the sign, the whole digits, the point and the two decimals of `FormatCents` sit. */
  lemma FormatCentsLayout(cents: int, a: nat, k: nat, e: nat)
    requires a == if cents < 0 then -cents else cents
    requires k == if cents < 0 then 1 else 0
    requires e == k + |NatToString(a / 100)|
    ensures |FormatCents(cents)| == e + 3
    ensures k == 1 ==> FormatCents(cents)[0] == '-'
    ensures FormatCents(cents)[k..e] == NatToString(a / 100)
    ensures FormatCents(cents)[e] == '.'
    ensures FormatCents(cents)[e + 1..] == [DigitChar(a % 100 / 10), DigitChar(a % 100 % 10)]
  {
    var sign := if cents < 0 then "-" else "";
    var whole := NatToString(a / 100);
    var fraction := [DigitChar(a % 100 / 10), DigitChar(a % 100 % 10)];
    var s := sign + whole + ("." + fraction);
    assert FormatCents(cents) == s;
    assert |sign| == k;
    assert s[k..e] == whole;
    assert s[e + 1..] == fraction;
  }

  lemma TwoDigits(d1: int, d2: int)
    requires 0 <= d1 <= 9 && 0 <= d2 <= 9
    ensures ParseDigits([DigitChar(d1), DigitChar(d2)]) == 10 * d1 + d2
  {
    var s := [DigitChar(d1), DigitChar(d2)];
    assert s[..1] == [DigitChar(d1)];
    assert s[..1][..0] == [];
    assert ParseDigits(s[..1]) == d1;
  }

  /** Whole units and hundredths of the magnitude, signed again, are the amount in units. */
  lemma CentsValue(cents: int, a: int)
    requires a == if cents < 0 then -cents else cents
    ensures Signed(cents < 0, (a / 100) as real + (a % 100) as real / 100 as real) == cents as real / 100.0
  {
    var q, r := a / 100, a % 100;
    assert a == 100 * q + r;
    assert q as real + r as real / 100 as real == a as real / 100.0;
  }

  /** The characters of a slice that is all digits are digits. */
  lemma DigitsInside(s: string, lo: nat, hi: nat, t: string)
    requires lo <= hi <= |s| && s[lo..hi] == t
    requires forall i :: 0 <= i < |t| ==> IsDigit(t[i])
    ensures forall i :: lo <= i < hi ==> IsDigit(s[i])
  {
    forall i | lo <= i < hi
      ensures IsDigit(s[i])
    {
      assert s[i] == t[i - lo];
    }
  }

  /** A string laid out as `FormatCents` lays out `cents` parses as `cents` hundredths. */
  lemma ParseCentsLayout(s: string, cents: int, a: nat, k: nat, e: nat)
    requires a == if cents < 0 then -cents else cents
    requires k == if cents < 0 then 1 else 0
    requires e == k + |NatToString(a / 100)| && |s| == e + 3
    requires k == 1 ==> s[0] == '-'
    requires s[k..e] == NatToString(a / 100)
    requires s[e] == '.'
    requires s[e + 1..] == [DigitChar(a % 100 / 10), DigitChar(a % 100 % 10)]
    ensures ParseFloat(s) == Some(cents as real / 100.0)
  {
    var w, f := a / 100, a % 100;
    DigitsInside(s, k, e, NatToString(w));
    DigitsInside(s, e + 1, |s|, [DigitChar(f / 10), DigitChar(f % 10)]);
    ParseNatToString(w);
    TwoDigits(f / 10, f % 10);
    assert Pow10(2) == 100;
    assert ParseDigits(s[k..e]) == w && ParseDigits(s[e + 1..]) == f;
    ParseFloatLayout(s, k, e, w, f, 100);
    var v := Signed(k == 1, w as real + f as real / 100 as real);
    assert ParseFloat(s) == Some(v);
    assert (k == 1) == (cents < 0);
    CentsValue(cents, a);
    assert v == cents as real / 100.0;
  }

  /** Reading back an amount written with two decimals gives the amount. */
  lemma ParseFormatCents(cents: int)
    ensures ParseFloat(FormatCents(cents)) == Some(cents as real / 100.0)
  {
    var a := if cents < 0 then -cents else cents;
    var k := if cents < 0 then 1 else 0;
    var e := k + |NatToString(a / 100)|;
    FormatCentsLayout(cents, a, k, e);
    ParseCentsLayout(FormatCents(cents), cents, a, k, e);
  }
}
