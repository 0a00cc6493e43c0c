/**
 Decimal numbers as text. `ParseDouble` stands for `Double.parseDouble`:
 it trims its argument, then reads it with `ParseNumber`, the plain decimal
 notation (an optional sign, digits, an optional point and fraction
 digits), with exact `real` values.
 `FormatDecimal` writes a decimal in the plain notation `Double.toString`
 uses (at least one digit on each side of the point), and parsing its
 output gives the value back.
 */
module Numbers {
  import opened Wrappers
  import opened Text

  predicate IsDigit(c: char) {
    '0' <= c <= '9'
  }

  predicate AllDigits(s: string) {
    forall i :: 0 <= i < |s| ==> IsDigit(s[i])
  }

  function DigitValue(c: char): nat
    requires IsDigit(c)
  {
    c as int - '0' as int
  }

  function DigitChar(d: nat): (c: char)
    requires d < 10
    ensures IsDigit(c) && DigitValue(c) == d
  {
    ('0' as int + d) as char
  }

  function Pow10(k: nat): (p: nat)
    ensures p >= 1
  {
    if k == 0 then 1 else 10 * Pow10(k - 1)
  }

  /** The value of a string of decimal digits, most significant first. */
  function DigitsValue(s: string): nat
    requires AllDigits(s)
  {
    if s == [] then 0 else DigitsValue(s[..|s| - 1]) * 10 + DigitValue(s[|s| - 1])
  }

  /** The value of the digits `whole`, a point, and the digits `fraction`. */
  function PointValue(whole: string, fraction: string): (v: real)
    requires AllDigits(whole) && AllDigits(fraction)
    ensures v >= 0.0
  {
    DigitsValue(whole) as real + DigitsValue(fraction) as real / Pow10(|fraction|) as real
  }

  /** The first index of `c` in `s`. */
  function IndexOf(s: string, c: char): (k: nat)
    requires c in s
    ensures k < |s| && s[k] == c
  {
    if s[0] == c then 0 else 1 + IndexOf(s[1..], c)
  }

  /** An unsigned decimal: digits, optionally a point and more digits; at least one digit in all. */
  function ParseUnsigned(s: string): Option<real> {
    if '.' in s then
      var k := IndexOf(s, '.');
      var whole, fraction := s[..k], s[k + 1..];
      if AllDigits(whole) && AllDigits(fraction) && |whole| + |fraction| > 0 then
        Some(PointValue(whole, fraction))
      else None
    else if AllDigits(s) && s != [] then Some(DigitsValue(s) as real)
    else None
  }

  /** A decimal number with an optional leading '+' or '-'. */
  function ParseNumber(s: string): Option<real> {
    if s != [] && (s[0] == '+' || s[0] == '-') then
      match ParseUnsigned(s[1..])
      case None => None
      case Some(v) => Some(if s[0] == '-' then -v else v)
    else ParseUnsigned(s)
  }

  /** What `ParseUnsigned` accepts is non-empty, made of digits and points only, and its value is not negative. */
  lemma ParsedUnsigned(s: string)
    requires ParseUnsigned(s).Some?
    ensures s != [] && ParseUnsigned(s).value >= 0.0
    ensures forall i :: 0 <= i < |s| ==> IsDigit(s[i]) || s[i] == '.'
  {
    if '.' in s {
      var k := IndexOf(s, '.');
      forall i | 0 <= i < |s| ensures IsDigit(s[i]) || s[i] == '.' {
        if i < k { assert s[i] == s[..k][i]; }
        else if i > k { assert s[i] == s[k + 1..][i - k - 1]; }
      }
    }
  }

  /** Whatever `ParseNumber` accepts is a single word: non-empty, with no space or control character. */
  lemma ParsedIsWord(s: string)
    requires ParseNumber(s).Some?
    ensures IsWord(s)
  {
    if s != [] && (s[0] == '+' || s[0] == '-') {
      ParsedUnsigned(s[1..]);
      assert forall i :: 1 <= i < |s| ==> s[i] == s[1..][i - 1];
    } else {
      ParsedUnsigned(s);
    }
  }

  /**
   Java's `Double.parseDouble`: the characters up to U+0020 at both ends are
   trimmed off first, and what remains is read as a decimal number.
   */
  function ParseDouble(s: string): Option<real> {
    ParseNumber(Trim(s))
  }

  /** What `ParseDouble` accepts is a number word padded on both sides with trimmable characters only. */
  lemma ParsedDoubleIsPaddedWord(s: string)
    requires ParseDouble(s).Some?
    ensures IsWord(Trim(s))
    ensures exists k ::
              && 0 <= k <= |s| - |Trim(s)| && s[k..k + |Trim(s)|] == Trim(s)
              && IsBlank(s[..k]) && IsBlank(s[k + |Trim(s)|..])
  {
    TrimFacts(s);
    ParsedIsWord(Trim(s));
  }

  /** A word is read by `ParseDouble` as it is: trimming takes nothing off it. */
  lemma ParseDoubleOfWord(w: string)
    requires IsWord(w)
    ensures ParseDouble(w) == ParseNumber(w)
  {
    TrimKeeps(w);
  }

  /** The decimal digits of `n`, with no leading zero. */
  function FormatNat(n: nat): (s: string)
    ensures s != [] && AllDigits(s)
    ensures DigitsValue(s) == n
  {
    if n < 10 then [DigitChar(n)]
    else
      var s := FormatNat(n / 10) + [DigitChar(n % 10)];
      assert s[..|s| - 1] == FormatNat(n / 10);
      s
  }

  /** A decimal number: sign, whole part, and the digits after the point. */
  datatype Decimal = Decimal(negative: bool, whole: nat, fraction: string)

  predicate ValidDecimal(d: Decimal) {
    AllDigits(d.fraction)
  }

  function DecimalValue(d: Decimal): real
    requires ValidDecimal(d)
  {
    var magnitude := d.whole as real + PointValue("", d.fraction);
    if d.negative then -magnitude else magnitude
  }

  /** Plain notation with at least one fraction digit, as in "2.0" or "-0.25". */
  function FormatDecimal(d: Decimal): string
    requires ValidDecimal(d)
  {
    (if d.negative then "-" else "") + FormatNat(d.whole) + "." + (if d.fraction == [] then "0" else d.fraction)
  }

  lemma {:induction false} IndexOfFirst(s: string, c: char, k: nat)
    requires k < |s| && s[k] == c && c !in s[..k]
    ensures c in s && IndexOf(s, c) == k
  {
    if k > 0 {
      assert s[0] == s[..k][0];
      assert s[1..][..k - 1] == s[..k][1..];
      IndexOfFirst(s[1..], c, k - 1);
    }
  }

  lemma ParsePointed(w: string, f: string)
    requires w != [] && AllDigits(w) && AllDigits(f)
    ensures ParseUnsigned(w + "." + f) == Some(PointValue(w, f))
  {
    var body := w + "." + f;
    assert '.' !in w by {
      forall i | 0 <= i < |w| ensures w[i] != '.' { assert IsDigit(w[i]); }
    }
    assert body[..|w|] == w;
    IndexOfFirst(body, '.', |w|);
    assert body[|w| + 1..] == f;
  }

  lemma PointValueSplit(w: string, f: string)
    requires AllDigits(w) && AllDigits(f)
    ensures PointValue(w, f) == DigitsValue(w) as real + PointValue("", f)
  {
  }

  /** A single zero after the point adds nothing. */
  lemma PointZero()
    ensures PointValue("", "0") == PointValue("", "") == 0.0
  {
    assert DigitsValue("0") == DigitsValue("0"[..0]) * 10 + 0;
  }

  lemma ParseSigned(body: string, negative: bool, v: real)
    requires body != [] && IsDigit(body[0]) && ParseUnsigned(body) == Some(v)
    ensures ParseNumber((if negative then "-" else "") + body) == Some(if negative then -v else v)
  {
    if negative {
      ParseMinus(body, v);
    } else {
      assert "" + body == body;
    }
  }

  lemma ParseMinus(body: string, v: real)
    requires ParseUnsigned(body) == Some(v)
    ensures ParseNumber("-" + body) == Some(-v)
  {
    var s := "-" + body;
    assert s[0] == '-' && s[1..] == body;
  }

  /** Parsing a formatted decimal gives its value back. */
  lemma DecimalRoundTrip(d: Decimal)
    requires ValidDecimal(d)
    ensures ParseNumber(FormatDecimal(d)) == Some(DecimalValue(d))
  {
    var w := FormatNat(d.whole);
    var f := if d.fraction == [] then "0" else d.fraction;
    assert PointValue("", f) == PointValue("", d.fraction) by {
      if d.fraction == [] { PointZero(); }
    }
    SignedPointed(d.negative, w, f);
  }

  lemma SignedPointed(negative: bool, w: string, f: string)
    requires w != [] && AllDigits(w) && AllDigits(f)
    ensures var v := DigitsValue(w) as real + PointValue("", f);
      ParseNumber((if negative then "-" else "") + w + "." + f) == Some(if negative then -v else v)
  {
    var body := w + "." + f;
    ParsePointed(w, f);
    PointValueSplit(w, f);
    SignedBody(negative, w, f);
    ParseSigned(body, negative, PointValue(w, f));
  }

  lemma SignedBody(negative: bool, w: string, f: string)
    requires w != []
    ensures (if negative then "-" else "") + w + "." + f == (if negative then "-" else "") + (w + "." + f)
    ensures (w + "." + f)[0] == w[0]
  {
  }
}
