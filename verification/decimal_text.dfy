/**
 Plain decimal text (`-12`, `5.00`, `+3.5`) and the exact numbers it denotes:
 the part of JavaScript's numeric text conversions that response leaves and
 request fields use. A number is kept in lowest terms — sign, whole part and
 fractional digits without trailing zeros — so equal numbers are equal values.
 */
module DecimalText {
  import opened Wrappers

  predicate IsDigit(c: char) {
    '0' <= c <= '9'
  }

  predicate AllDigits(s: string) {
    forall i | 0 <= i < |s| :: IsDigit(s[i])
  }

  datatype Decimal = Decimal(negative: bool, whole: nat, fraction: string)

  /** Fraction digits without a trailing zero, and no negative zero. */
  predicate Canonical(d: Decimal) {
    && AllDigits(d.fraction)
    && (|d.fraction| == 0 || d.fraction[|d.fraction| - 1] != '0')
    && !(d.negative && d.whole == 0 && |d.fraction| == 0)
  }

  type Number = d: Decimal | Canonical(d) witness Decimal(false, 0, "")

  /** A number with no fractional part. */
  predicate IsWhole(n: Number) {
    n.fraction == ""
  }

  /** The smallest integer not below `n`. */
  function Ceiling(n: Number): int {
    if n.negative then -(n.whole as int)
    else if IsWhole(n) then n.whole
    else n.whole + 1
  }

  /** The number a string of digits spells, most significant first. */
  function DigitsValue(s: string): nat
    requires AllDigits(s)
  {
    if |s| == 0 then 0
    else DigitsValue(s[..|s| - 1]) * 10 + (s[|s| - 1] as int - '0' as int)
  }

  function DigitChar(d: nat): (c: char)
    requires d < 10
    ensures IsDigit(c) && c as int - '0' as int == d
  {
    ('0' as int + d) as char
  }

  /** The shortest digits of `n` ("0" for zero). */
  function NatDigits(n: nat): (s: string)
    ensures |s| >= 1 && AllDigits(s)
  {
    if n < 10 then [DigitChar(n)] else NatDigits(n / 10) + [DigitChar(n % 10)]
  }

  /** Reading back the digits of `n` gives `n`. */
  lemma {:induction false} NatDigitsValue(n: nat)
    ensures DigitsValue(NatDigits(n)) == n
  {
    if n >= 10 {
      var s := NatDigits(n);
      assert s[..|s| - 1] == NatDigits(n / 10);
      NatDigitsValue(n / 10);
    }
  }

  /** Index of the first `c` in `s`, or `|s|` when there is none. */
  function IndexOf(s: string, c: char): (i: nat)
    ensures i <= |s|
    ensures forall j | 0 <= j < i :: s[j] != c
    ensures i < |s| ==> s[i] == c
  {
    if |s| == 0 || s[0] == c then 0 else 1 + IndexOf(s[1..], c)
  }

  /** The text without its optional leading sign. */
  function Unsigned(s: string): string {
    if |s| > 0 && (s[0] == '-' || s[0] == '+') then s[1..] else s
  }

  /** The digits before the first `.`. */
  function IntegerPart(s: string): string {
    var body := Unsigned(s);
    body[..IndexOf(body, '.')]
  }

  /** The digits after the first `.` ("" when there is none). */
  function FractionPart(s: string): string {
    var body := Unsigned(s);
    var dot := IndexOf(body, '.');
    if dot < |body| then body[dot + 1..] else ""
  }

  /** The plain decimal grammar: `[+-]? digit+ ('.' digit*)?`. */
  predicate IsDecimalText(s: string) {
    |IntegerPart(s)| >= 1 && AllDigits(IntegerPart(s)) && AllDigits(FractionPart(s))
  }

  /** The digits without their trailing zeros. */
  function TrimZeros(s: string): (r: string)
    ensures |r| <= |s| && r == s[..|r|]
    ensures |r| == 0 || r[|r| - 1] != '0'
    ensures forall i | |r| <= i < |s| :: s[i] == '0'
  {
    if |s| == 0 || s[|s| - 1] != '0' then s else TrimZeros(s[..|s| - 1])
  }

  /** The exact number a plain decimal text denotes, or None for any other text. */
  function ParseDecimal(s: string): (r: Option<Number>)
    ensures r.Some? <==> IsDecimalText(s)
  {
    if !IsDecimalText(s) then None
    else
      var whole := DigitsValue(IntegerPart(s));
      var fraction := TrimZeros(FractionPart(s));
      var negative := |s| > 0 && s[0] == '-' && !(whole == 0 && fraction == "");
      Some(Decimal(negative, whole, fraction))
  }

  /** The canonical text of a number, as JavaScript's `String(n)` writes
      it in plain (non-exponent) notation. */
  function Render(n: Number): string {
    (if n.negative then "-" else "") + NatDigits(n.whole)
      + (if IsWhole(n) then "" else "." + n.fraction)
  }

  /** The first `.` after a run of digits is where the run ends. */
  lemma {:induction false} IndexOfAfterDigits(w: string, rest: string)
    requires AllDigits(w)
    requires rest == [] || rest[0] == '.'
    ensures IndexOf(w + rest, '.') == |w|
  {
    if |w| > 0 {
      assert (w + rest)[1..] == w[1..] + rest;
      IndexOfAfterDigits(w[1..], rest);
    }
  }

  /** An optional `-`, a run of digits, and nothing or a `.`-led tail:
      the digits are the integer part and the tail after its `.` the fraction. */
  lemma SignedParts(sign: string, w: string, rest: string)
    requires sign == "" || sign == "-"
    requires |w| >= 1 && AllDigits(w)
    requires rest == "" || rest[0] == '.'
    ensures IntegerPart(sign + w + rest) == w
    ensures FractionPart(sign + w + rest) == if rest == "" then "" else rest[1..]
    ensures |sign + w + rest| > 0 && ((sign + w + rest)[0] == '-' <==> sign == "-")
  {
    var body := w + rest;
    var s := sign + w + rest;
    assert s == sign + body;
    assert body[0] == w[0];
    assert Unsigned(s) == body;
    IndexOfAfterDigits(w, rest);
    assert body[..|w|] == w;
    if rest != "" {
      assert body[|w| + 1..] == rest[1..];
    }
  }

  /** The integer and fraction parts of a rendered number are its own digits. */
  lemma RenderParts(n: Number)
    ensures IntegerPart(Render(n)) == NatDigits(n.whole)
    ensures FractionPart(Render(n)) == n.fraction
    ensures |Render(n)| > 0 && (Render(n)[0] == '-' <==> n.negative)
  {
    var rest := if IsWhole(n) then "" else "." + n.fraction;
    SignedParts(if n.negative then "-" else "", NatDigits(n.whole), rest);
    if !IsWhole(n) {
      assert rest[1..] == n.fraction;
    }
  }

  /** Rendering a number and parsing the text back gives the same number. */
  lemma ParseRender(n: Number)
    ensures ParseDecimal(Render(n)) == Some(n)
  {
    RenderParts(n);
    NatDigitsValue(n.whole);
    assert TrimZeros(n.fraction) == n.fraction;
  }

  /** A decimal text denotes an integer exactly when all its fractional digits are zero. */
  lemma WholeIffZeroFraction(s: string)
    requires IsDecimalText(s)
    ensures IsWhole(ParseDecimal(s).value) <==> forall i | 0 <= i < |FractionPart(s)| :: FractionPart(s)[i] == '0'
  {
    var f := FractionPart(s);
    var t := TrimZeros(f);
    if |t| > 0 {
      assert f[|t| - 1] == t[|t| - 1];
    }
  }
}
