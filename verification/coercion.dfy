/**
 Leaf coercion of response text (`parseValue` in src/utils/xml.js) and the
 inverse direction, JavaScript's `String(v)`, used when a request field or a
 property key is written as text.
 */
module Coercion {
  import opened Wrappers
  import opened OrderedMaps
  import opened DecimalText
  import opened Values

  function LowerChar(c: char): char {
    if 'A' <= c <= 'Z' then (c as int + 32) as char else c
  }

  /** ASCII lower-casing, which is all a case-insensitive match of `true`/`false` sees. */
  function LowerAscii(s: string): (r: string)
    ensures |r| == |s|
    ensures forall i | 0 <= i < |s| :: r[i] == LowerChar(s[i])
  {
    seq(|s|, i requires 0 <= i < |s| => LowerChar(s[i]))
  }

  /** The text matches `/^(?:true|false)$/i`. */
  predicate IsBoolLiteral(s: string) {
    LowerAscii(s) == "true" || LowerAscii(s) == "false"
  }

  /** A boolean literal never reads as a number. */
  lemma BoolLiteralNotDecimal(s: string)
    ensures IsBoolLiteral(s) ==> !IsDecimalText(s)
  {
    if IsBoolLiteral(s) {
      assert LowerChar(s[0]) == 't' || LowerChar(s[0]) == 'f';
      assert !IsDigit(s[0]) && s[0] != '-' && s[0] != '+' && s[0] != '.';
      assert Unsigned(s) == s;
      assert IndexOf(s, '.') >= 1;
      assert IntegerPart(s)[0] == s[0];
    }
  }

  /** A white-space or line-terminator character, which `Number(text)` trims. */
  predicate IsSpace(c: char) {
    var k := c as int;
    k == 0x09 || k == 0x0A || k == 0x0B || k == 0x0C || k == 0x0D || k == 0x20 || k == 0xA0
    || k == 0x1680 || (0x2000 <= k <= 0x200A) || k == 0x2028 || k == 0x2029 || k == 0x202F
    || k == 0x205F || k == 0x3000 || k == 0xFEFF
  }

  /** Empty or only white space: `Number` reads it as 0, so `isFinite` holds
      and `% 1 === 0` too, but `parseInt` finds no digit and gives NaN. */
  predicate IsBlank(s: string) {
    forall i | 0 <= i < |s| :: IsSpace(s[i])
  }

  /** A blank text is not decimal text: decimal text starts with a sign or a digit. */
  lemma BlankNotDecimal(s: string)
    ensures IsBlank(s) ==> !IsDecimalText(s)
  {
    if IsBlank(s) && |s| > 0 {
      assert Unsigned(s) == s;
      assert IntegerPart(s) == s[..IndexOf(s, '.')];
      if |IntegerPart(s)| >= 1 {
        assert IntegerPart(s)[0] == s[0];
      }
    }
  }

  /** A text that starts with a character other than white space is not blank. */
  lemma NotBlank(s: string)
    requires |s| > 0 && !IsSpace(s[0])
    ensures !IsBlank(s)
  {
  }

  /**
   The coerced value of a leaf text: NaN when the text is blank, a number
   when it is plain decimal, else a boolean when it is `true`/`false` in any
   letter case, else the text itself, unchanged.
   */
  function ParseValue(text: string): (v: Value)
    ensures v.NaN? <==> IsBlank(text)
    ensures v.Num? <==> IsDecimalText(text)
    ensures v.Num? ==> (IsWhole(v.n) <==> forall i | 0 <= i < |FractionPart(text)| :: FractionPart(text)[i] == '0')
    ensures v.Bool? <==> IsBoolLiteral(text)
    ensures v.Bool? ==> (v.b <==> LowerAscii(text) == "true")
    ensures v.Str? <==> !IsBlank(text) && !IsDecimalText(text) && !IsBoolLiteral(text)
    ensures v.Str? ==> v.s == text
  {
    BoolLiteralNotDecimal(text);
    BlankNotDecimal(text);
    if IsBlank(text) then
      assert |text| == 0 || !IsBoolLiteral(text) by {
        if |text| > 0 { assert LowerChar(text[0]) == text[0]; }
      }
      NaN
    else match ParseDecimal(text)
    case Some(n) => WholeIffZeroFraction(text); Num(n)
    case None =>
      if IsBoolLiteral(text) then Bool(LowerAscii(text) == "true") else Str(text)
  }

  /** `String(v)`: the text JavaScript writes for a value. */
  function ToText(v: Value): string {
    match v
    case Nil => "undefined"
    case Bool(b) => if b then "true" else "false"
    case Num(n) => Render(n)
    case NaN => "NaN"
    case Str(s) => s
    case List(items) => JoinTexts(items)
    case Obj(_) => "[object Object]"
  }

  /** `Array.prototype.join(",")`, where an undefined element writes nothing. */
  function JoinTexts(items: seq<Value>): string
    decreases items
  {
    if |items| == 0 then ""
    else
      var first := if items[0].Nil? then "" else ToText(items[0]);
      if |items| == 1 then first else first + "," + JoinTexts(items[1..])
  }

  /** Writing a number as text and coercing the text gives the number back. */
  lemma NumberRoundTrip(n: Number)
    ensures ParseValue(ToText(Num(n))) == Num(n)
  {
    ParseRender(n);
  }

  /** The digits of a natural number coerce to that integer. */
  lemma ParseNatDigits(n: nat)
    ensures ParseValue(NatDigits(n)) == Int(n)
  {
    assert Render(Decimal(false, n, "")) == NatDigits(n);
    NumberRoundTrip(Decimal(false, n, ""));
  }

  /** The text `NaN` is neither blank, decimal nor boolean, so it stays text. */
  lemma NaNTextStays()
    ensures ParseValue("NaN") == Str("NaN")
  {
    var t := "NaN";
    NotBlank(t);
    assert IntegerPart(t) == t;
    assert LowerAscii(t) == "nan";
  }

  /** The text of a boolean coerces back to that boolean. */
  lemma BoolTextStable(b: bool)
    ensures ParseValue(ToText(Bool(b))) == Bool(b)
  {
    var t := if b then "true" else "false";
    assert LowerAscii(t) == t;
    NotBlank(t);
  }

  /** Coercion is stable: writing a coerced leaf back as text and coercing
      it again gives the same value, except NaN, whose text `"NaN"` stays text. */
  lemma CoercionStable(text: string)
    ensures !ParseValue(text).NaN? ==> ParseValue(ToText(ParseValue(text))) == ParseValue(text)
    ensures ParseValue(text).NaN? ==> ParseValue(ToText(ParseValue(text))) == Str("NaN")
  {
    var v := ParseValue(text);
    match v
    case Num(n) => NumberRoundTrip(n);
    case Bool(b) => BoolTextStable(b);
    case Str(s) =>
    case NaN => NaNTextStays();
  }

  /** Integral text coerces to an integer. */
  lemma IntegerExample()
    ensures ParseValue("42") == Int(42)
  {
    assert IntegerPart("42") == "42" && FractionPart("42") == "";
    assert DigitsValue("42") == 42 by {
      assert "42"[..1] == "4";
    }
  }

  /** A zero fraction is dropped: the text coerces to an integer. */
  lemma TrailingZerosExample()
    ensures ParseValue("5.00") == Int(5)
  {
    NotBlank("5.00");
    assert IntegerPart("5.00") == "5" && FractionPart("5.00") == "00";
    assert DigitsValue("5") == 5;
    assert TrimZeros("00") == "" by {
      assert "00"[..1] == "0";
      assert "0"[..0] == "";
    }
  }

  /** A fractional text keeps its fraction. */
  lemma FractionExample()
    ensures ParseValue("3.5") == Num(Decimal(false, 3, "5"))
  {
    NotBlank("3.5");
    assert IntegerPart("3.5") == "3" && FractionPart("3.5") == "5";
  }

  /** Boolean literals match in any letter case. */
  lemma BoolExamples()
    ensures ParseValue("TRUE") == Bool(true)
    ensures ParseValue("False") == Bool(false)
  {
    assert LowerAscii("TRUE") == "true";
    assert LowerAscii("False") == "false";
  }

  /** Any other text stays text. */
  lemma TextExamples()
    ensures ParseValue("abc") == Str("abc")
  {
    NotBlank("abc");
    assert IntegerPart("abc") == "abc";
    assert LowerAscii("abc") == "abc";
  }

  /** The empty text and white space alone coerce to NaN, as `parseInt` of them gives. */
  lemma BlankExamples()
    ensures ParseValue("") == NaN
    ensures ParseValue(" ") == NaN
    ensures ParseValue(" 5") != NaN
  {
    assert !IsSpace(" 5"[1]);
  }
}
