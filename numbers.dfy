/**
 * Rust's fixed-width unsigned integers, `u32::from_str` as used by `str::parse`,
 * and the decimal rendering that `format!("{}", id)` and `strfmt` produce.
 */
module Numbers {

  import opened Wrappers

  newtype u32 = x: int | 0 <= x < 0x1_0000_0000
  newtype u64 = x: int | 0 <= x < 0x1_0000_0000_0000_0000

  const U32Max: int := 0xFFFF_FFFF

  predicate IsAsciiDigit(c: char) { '0' <= c <= '9' }

  predicate AllDigits(s: string) { forall i | 0 <= i < |s| :: IsAsciiDigit(s[i]) }

  function DigitValue(c: char): (d: nat)
    requires IsAsciiDigit(c)
    ensures d < 10
  {
    (c as int) - ('0' as int)
  }

  function DigitChar(d: nat): (c: char)
    requires d < 10
    ensures IsAsciiDigit(c) && DigitValue(c) == d
  {
    ('0' as int + d) as char
  }

  /** The value of a string of ASCII digits, most significant first. */
  function DigitsValue(s: string): nat
    requires AllDigits(s)
  {
    if s == [] then 0 else DigitsValue(s[..|s| - 1]) * 10 + DigitValue(s[|s| - 1])
  }

  /** The canonical decimal form of `n`: digits only, no leading zero except for "0" itself. */
  function DecimalString(n: nat): (s: string)
    ensures |s| >= 1 && AllDigits(s)
    ensures s[0] == '0' ==> n == 0 && s == "0"
  {
    if n < 10 then [DigitChar(n)] else DecimalString(n / 10) + [DigitChar(n % 10)]
  }

  /**
   * `u32::from_str`: an optional leading `+`, then one or more ASCII digits whose value
   * fits in 32 bits. The empty string, a lone `+`, a `-` sign, any other character and
   * overflow are all errors; `.ok()` turns every error into `None`.
   */
  function ParseU32(s: string): (r: Option<u32>)
    ensures r.Some? ==> s != [] && (s[0] == '+' || IsAsciiDigit(s[0]))
    ensures r.Some? ==> forall i | 1 <= i < |s| :: IsAsciiDigit(s[i])
    ensures r.Some? && s[0] != '+' ==> r.value as nat == DigitsValue(s)
  {
    if s == [] then None
    else
      var digits := if s[0] == '+' then s[1..] else s;
      if digits == [] || !AllDigits(digits) then None
      else if DigitsValue(digits) <= U32Max then Some(DigitsValue(digits) as u32)
      else None
  }

  lemma {:induction false} DigitsValueOfDecimal(n: nat)
    ensures DigitsValue(DecimalString(n)) == n
  {
    if n >= 10 {
      var s := DecimalString(n);
      assert s[..|s| - 1] == DecimalString(n / 10);
      DigitsValueOfDecimal(n / 10);
    }
  }

  lemma {:induction false} DigitsValueAtLeastLeading(s: string)
    requires AllDigits(s) && |s| >= 1
    ensures DigitsValue(s) >= DigitValue(s[0])
  {
    if |s| > 1 {
      DigitsValueAtLeastLeading(s[..|s| - 1]);
    }
  }

  /** Reading a canonical digit string and rendering the value again gives back the string. */
  lemma {:induction false} DecimalOfDigitsValue(s: string)
    requires AllDigits(s) && |s| >= 1 && (s[0] == '0' ==> |s| == 1)
    ensures DecimalString(DigitsValue(s)) == s
  {
    if |s| > 1 {
      var init := s[..|s| - 1];
      DigitsValueAtLeastLeading(init);
      DecimalOfDigitsValue(init);
      assert DigitsValue(s) / 10 == DigitsValue(init);
      assert s == init + [s[|s| - 1]];
    }
  }

  /** Leading zeros do not change the value Rust's parser reads. */
  lemma {:induction false} DigitsValueLeadingZero(s: string)
    requires AllDigits(s)
    ensures AllDigits("0" + s) && DigitsValue("0" + s) == DigitsValue(s)
  {
    if s != [] {
      var init := s[..|s| - 1];
      assert ("0" + s)[..|s|] == "0" + init;
      DigitsValueLeadingZero(init);
    }
  }

  /** Round trip: every u32 rendered in decimal, with or without a `+`, parses back to itself. */
  lemma ParseDecimalRoundTrip(n: u32)
    ensures ParseU32(DecimalString(n as nat)) == Some(n)
    ensures ParseU32("+" + DecimalString(n as nat)) == Some(n)
  {
    DigitsValueOfDecimal(n as nat);
    assert ("+" + DecimalString(n as nat))[1..] == DecimalString(n as nat);
  }

  /** The error cases of `u32::from_str`, each of which `.ok()` maps to `None`. */
  lemma ParseRejects(n: nat, s: string, t: string)
    requires AllDigits(s)
    ensures ParseU32("") == None && ParseU32("+") == None
    ensures ParseU32("-" + s) == None
    ensures n > U32Max ==> ParseU32(DecimalString(n)) == None
    ensures t != [] && t[0] != '+' && !AllDigits(t) ==> ParseU32(t) == None
  {
    DigitsValueOfDecimal(n);
    assert ("-" + s)[0] == '-';
  }

  /** Leading zeros are accepted and do not change the parsed value. */
  lemma ParseLeadingZero(s: string)
    requires AllDigits(s) && s != []
    ensures ParseU32("0" + s) == ParseU32(s)
  {
    DigitsValueLeadingZero(s);
  }
}
