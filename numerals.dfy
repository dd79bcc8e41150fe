/**
 * The two numeral conversions of the starknet `num` helpers that address
 * canonicalisation is built from: `getDecimalString` and `getHexString`.
 * Numerals are read as natural numbers and written back in base 10 or in
 * lower-case base 16.
 */
module Numerals {
  import opened Wrappers

  predicate IsDecimalDigit(c: char) {
    '0' <= c <= '9'
  }

  /** A digit as the regular expression `[0-9a-f]` with the `i` flag accepts it. */
  predicate IsHexDigit(c: char) {
    '0' <= c <= '9' || 'a' <= c <= 'f' || 'A' <= c <= 'F'
  }

  function DigitValue(c: char): (v: nat)
    requires IsHexDigit(c)
    ensures v < 16
    ensures v < 10 <==> IsDecimalDigit(c)
  {
    if '0' <= c <= '9' then c as int - '0' as int
    else if 'a' <= c <= 'f' then c as int - 'a' as int + 10
    else c as int - 'A' as int + 10
  }

  /** The lower-case digit for a value below sixteen. */
  function DigitChar(d: nat): (c: char)
    requires d < 16
    ensures IsHexDigit(c) && DigitValue(c) == d
    ensures !('A' <= c <= 'F')
  {
    if d < 10 then ('0' as int + d) as char else ('a' as int + d - 10) as char
  }

  /** Every character of `s` is a digit of the given base. */
  predicate AllDigits(s: string, base: nat) {
    forall i :: 0 <= i < |s| ==> IsHexDigit(s[i]) && DigitValue(s[i]) < base
  }

  /** No character of `s` is an upper-case hex letter. */
  predicate LowerCase(s: string) {
    forall i :: 0 <= i < |s| ==> !('A' <= s[i] <= 'F')
  }

  /** The number a digit string denotes, most significant digit first. */
  function ValueOf(s: string, base: nat): nat
    requires AllDigits(s, base)
  {
    if |s| == 0 then 0 else ValueOf(s[..|s| - 1], base) * base + DigitValue(s[|s| - 1])
  }

  /** Splitting off the last digit of a number of at least two digits. */
  lemma DivModBase(n: nat, base: nat)
    requires 2 <= base <= n
    ensures 1 <= n / base < n && n % base < base && n == n / base * base + n % base
  {
    var q, d := n / base, n % base;
    assert n == q * base + d && d < base;
    AtLeastDouble(q, base);
  }

  lemma {:induction false} AtLeastDouble(q: nat, b: nat)
    requires b >= 2
    ensures q * b >= 2 * q
  {
    if q > 0 {
      AtLeastDouble(q - 1, b);
      assert q * b == (q - 1) * b + b;
    }
  }

  /** The shortest rendering of `n` in `base` (what `BigInt.prototype.toString(base)` gives). */
  function Render(n: nat, base: nat): (s: string)
    requires 2 <= base <= 16
    ensures |s| > 0 && AllDigits(s, base) && LowerCase(s)
    ensures n > 0 ==> s[0] != '0'
    ensures |s| > 1 ==> n >= base && s[0] != '0'
    decreases n
  {
    if n < base then
      assert DigitValue('0') == 0;
      [DigitChar(n)]
    else
      DivModBase(n, base);
      Render(n / base, base) + [DigitChar(n % base)]
  }

  /** Reading back a rendering gives the number rendered. */
  lemma {:induction false} ValueOfRender(n: nat, base: nat)
    requires 2 <= base <= 16
    ensures ValueOf(Render(n, base), base) == n
  {
    if n < base {
      var c := DigitChar(n);
      assert Render(n, base) == [c];
      ValueOfSnoc([], c, base);
      assert [] + [c] == [c];
    } else {
      DivModBase(n, base);
      var q, d := n / base, n % base;
      var r, c := Render(q, base), DigitChar(d);
      assert Render(n, base) == r + [c];
      ValueOfRender(q, base);
      ValueOfSnoc(r, c, base);
    }
  }

  /** Appending a digit multiplies by the base and adds the digit. */
  lemma ValueOfSnoc(s: string, c: char, base: nat)
    requires AllDigits(s, base) && IsHexDigit(c) && DigitValue(c) < base
    ensures AllDigits(s + [c], base)
    ensures ValueOf(s + [c], base) == ValueOf(s, base) * base + DigitValue(c)
  {
    assert (s + [c])[..|s|] == s;
  }

  /** Distinct numbers have distinct renderings. */
  lemma RenderInjective(m: nat, n: nat, base: nat)
    requires 2 <= base <= 16
    requires Render(m, base) == Render(n, base)
    ensures m == n
  {
    ValueOfRender(m, base);
    ValueOfRender(n, base);
  }

  /** Leading zeros do not change the value of a digit string. */
  lemma {:induction false} ValueOfLeadingZero(s: string, base: nat)
    requires 2 <= base <= 16 && AllDigits(s, base)
    ensures AllDigits("0" + s, base) && ValueOf("0" + s, base) == ValueOf(s, base)
  {
    if |s| > 0 {
      var z := "0" + s;
      assert z[..|z| - 1] == "0" + s[..|s| - 1];
      ValueOfLeadingZero(s[..|s| - 1], base);
    }
  }

  /** `num.isHex`: the regular expression `/^0x[0-9a-f]*$/i`, which admits "0x" alone. */
  predicate IsHexNumeral(s: string) {
    |s| >= 2 && s[0] == '0' && (s[1] == 'x' || s[1] == 'X') && AllDigits(s[2..], 16)
  }

  /** `num.isStringWholeNumber`: the regular expression `/^\d+$/`. */
  predicate IsWholeNumeral(s: string) {
    |s| > 0 && AllDigits(s, 10)
  }

  /** The natural a string denotes when it is written in `0x` hex (with at least one digit) or in decimal. */
  function ParseNatural(s: string): Option<nat> {
    if IsHexNumeral(s) && |s| > 2 then Some(ValueOf(s[2..], 16))
    else if IsWholeNumeral(s) then Some(ValueOf(s, 10))
    else None
  }

  /** The canonical text of a natural: `0x` followed by its lower-case hex digits. */
  function HexOf(n: nat): string {
    "0x" + Render(n, 16)
  }

  /**
   * `num.getDecimalString`: a hex numeral goes through `BigInt(...).toString(10)`
   * (which throws on a bare "0x"), a whole-number string is returned as it is,
   * anything else throws. A throw is `None`.
   */
  function GetDecimalString(s: string): (r: Option<string>)
    ensures r.Some? <==> ParseNatural(s).Some?
    ensures r.Some? ==> IsWholeNumeral(r.value) && ValueOf(r.value, 10) == ParseNatural(s).value
  {
    if IsHexNumeral(s) then
      if |s| == 2 then None
      else
        ValueOfRender(ValueOf(s[2..], 16), 10);
        Some(Render(ValueOf(s[2..], 16), 10))
    else if IsWholeNumeral(s) then Some(s)
    else None
  }

  /** Canonical hex text: `0x`, then lower-case hex digits with no leading zero unless the number is 0. */
  predicate IsCanonicalHex(t: string) {
    IsHexNumeral(t) && t[1] == 'x' && |t| > 2 && LowerCase(t[2..]) && (t[2] != '0' || |t| == 3)
  }

  /**
   * `num.getHexString`: a hex numeral is returned unchanged, a whole-number
   * string is turned into the canonical hex text of the same number,
   * anything else throws (`None`).
   */
  function GetHexString(s: string): (r: Option<string>)
    ensures IsHexNumeral(s) ==> r == Some(s)
    ensures !IsHexNumeral(s) && IsWholeNumeral(s) ==>
              r.Some? && IsCanonicalHex(r.value) && ParseNatural(r.value) == Some(ValueOf(s, 10))
    ensures !IsHexNumeral(s) && !IsWholeNumeral(s) ==> r == None
  {
    if IsHexNumeral(s) then Some(s)
    else if IsWholeNumeral(s) then
      ParseHexRendering(ValueOf(s, 10));
      assert HexOf(ValueOf(s, 10))[2..] == Render(ValueOf(s, 10), 16);
      Some("0x" + Render(ValueOf(s, 10), 16))
    else None
  }

  /** The decimal rendering of a number parses back to it. */
  lemma ParseDecimalRendering(n: nat)
    ensures ParseNatural(Render(n, 10)) == Some(n)
  {
    WholeIsNotHex(Render(n, 10));
    ValueOfRender(n, 10);
  }

  /** The canonical hex text of a number parses back to it. */
  lemma ParseHexRendering(n: nat)
    ensures IsHexNumeral(HexOf(n)) && |HexOf(n)| > 2
    ensures ParseNatural(HexOf(n)) == Some(n)
  {
    assert HexOf(n)[2..] == Render(n, 16);
    ValueOfRender(n, 16);
  }

  /** A decimal numeral is never mistaken for a hex one. */
  lemma WholeIsNotHex(s: string)
    requires IsWholeNumeral(s)
    ensures !IsHexNumeral(s)
  {
    if |s| >= 2 {
      assert IsDecimalDigit(s[1]);
    }
  }
}
