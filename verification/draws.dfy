/** The random strings the builders draw from the data generator's
    `random_string(length, include_special)`: `length` characters, each a
    letter, a digit or, when `include_special` is true, a punctuation mark.

    Three builder defaults pass a string of allowed characters where the flag
    goes. Python takes any non-empty string as true, so those draws may hold
    punctuation and letters. Each is modelled twice below: as written, and as
    evidently intended, drawing only from the characters listed. */
module Draws {
  import Decimal

  predicate IsAsciiLetter(c: char) {
    'a' <= c <= 'z' || 'A' <= c <= 'Z'
  }

  /** The punctuation `random_string` adds when asked for special characters. */
  const Punctuation: string := "!@#$%^&*()_+-=[]{}|;:,.<>?"

  /** The characters `random_string` picks from. */
  predicate InRandomStringAlphabet(c: char, includeSpecial: bool) {
    IsAsciiLetter(c) || Decimal.IsDigit(c) || (includeSpecial && c in Punctuation)
  }

  /** How many characters a draw of `length` has: `range` of a negative
      count is empty. */
  function DrawLength(length: int): nat {
    if length > 0 then length else 0
  }

  /** `s` is something `random_string(length, includeSpecial)` can return. */
  predicate RandomStringDraw(length: int, includeSpecial: bool, s: string) {
    && |s| == DrawLength(length)
    && forall i :: 0 <= i < |s| ==> InRandomStringAlphabet(s[i], includeSpecial)
  }

  /** `s` is `length` characters each picked from `alphabet`. */
  predicate DrawFrom(length: int, alphabet: string, s: string) {
    && |s| == DrawLength(length)
    && forall i :: 0 <= i < |s| ==> s[i] in alphabet
  }

  /** Python's truth value of a string passed where a bool is expected. */
  predicate Truthy(s: string) {
    s != ""
  }

  const DigitChars: string := "0123456789"
  const UpperAlnumChars: string := "ABCDEFGHIJKLMNOPQRSTUVWXYZ0123456789"

  // ---------------------------------------------------------------------
  // As written

  /** The order id suffix `random_string(8, '0123456789')` draws. */
  predicate OrderIdDrawAsWritten(s: string) {
    RandomStringDraw(8, Truthy(DigitChars), s)
  }

  /** The zip code `random_string(5, "0123456789")` draws. */
  predicate ZipDrawAsWritten(s: string) {
    RandomStringDraw(5, Truthy(DigitChars), s)
  }

  /** The SKU `random_string(10, "ABC...XYZ0123456789")` draws. */
  predicate SkuDrawAsWritten(s: string) {
    RandomStringDraw(10, Truthy(UpperAlnumChars), s)
  }

  /** As written, an order id suffix may be "ab!?1234": not all digits. */
  lemma OrderIdDrawAsWrittenNotDigits()
    ensures exists s :: OrderIdDrawAsWritten(s) && !Decimal.AllDigits(s)
  {
    var s := "ab!?1234";
    assert s[2] in Punctuation && s[3] in Punctuation;
    assert OrderIdDrawAsWritten(s) && !Decimal.IsDigit(s[0]);
  }

  /** As written, a zip code may be "9x#10": not all digits. */
  lemma ZipDrawAsWrittenNotDigits()
    ensures exists s :: ZipDrawAsWritten(s) && !Decimal.AllDigits(s)
  {
    var s := "9x#10";
    assert s[2] in Punctuation;
    assert ZipDrawAsWritten(s) && !Decimal.IsDigit(s[1]);
  }

  /** As written, a SKU may be "abc-DEF123": lower-case letters and a dash. */
  lemma SkuDrawAsWrittenNotUpperAlnum()
    ensures exists s :: SkuDrawAsWritten(s) && !DrawFrom(10, UpperAlnumChars, s)
  {
    var s := "abc-DEF123";
    assert s[3] in Punctuation;
    assert SkuDrawAsWritten(s);
    UpperAlnumCharsAreUpperAlnum(s[0]);
  }

  // ---------------------------------------------------------------------
  // As intended

  /** An order id suffix: eight decimal digits. */
  predicate OrderIdDraw(s: string) {
    DrawFrom(8, DigitChars, s)
  }

  /** A zip code: five decimal digits. */
  predicate ZipDraw(s: string) {
    DrawFrom(5, DigitChars, s)
  }

  /** A SKU: ten upper-case letters and digits. */
  predicate SkuDraw(s: string) {
    DrawFrom(10, UpperAlnumChars, s)
  }

  lemma DigitCharsAreDigits(c: char)
    ensures c in DigitChars <==> Decimal.IsDigit(c)
  {
    if Decimal.IsDigit(c) {
      assert c == DigitChars[c as int - '0' as int];
    }
  }

  /** An intended order id suffix is a number of exactly eight digits, and
      every one of them is a draw the call as written could make too. */
  lemma OrderIdDrawIsNumeric(s: string)
    requires OrderIdDraw(s)
    ensures |s| == 8 && Decimal.AllDigits(s)
    ensures OrderIdDrawAsWritten(s)
  {
    forall i | 0 <= i < |s|
      ensures Decimal.IsDigit(s[i])
    {
      DigitCharsAreDigits(s[i]);
    }
  }

  /** An intended zip code is five digits, and a draw the call as written
      could make too. */
  lemma ZipDrawIsNumeric(s: string)
    requires ZipDraw(s)
    ensures |s| == 5 && Decimal.AllDigits(s)
    ensures ZipDrawAsWritten(s)
  {
    forall i | 0 <= i < |s|
      ensures Decimal.IsDigit(s[i])
    {
      DigitCharsAreDigits(s[i]);
    }
  }

  predicate IsUpperAlnum(c: char) {
    'A' <= c <= 'Z' || Decimal.IsDigit(c)
  }

  lemma UpperAlnumCharsAreUpperAlnum(c: char)
    ensures c in UpperAlnumChars <==> IsUpperAlnum(c)
  {
    if 'A' <= c <= 'Z' {
      assert c == UpperAlnumChars[c as int - 'A' as int];
    } else if Decimal.IsDigit(c) {
      assert c == UpperAlnumChars[26 + c as int - '0' as int];
    } else {
      assert forall i :: 0 <= i < |UpperAlnumChars| ==> IsUpperAlnum(UpperAlnumChars[i]);
    }
  }

  /** An intended SKU is ten characters, each an upper-case letter or a
      digit, and a draw the call as written could make too. */
  lemma SkuDrawIsUpperAlnum(s: string)
    requires SkuDraw(s)
    ensures |s| == 10
    ensures forall i :: 0 <= i < |s| ==> IsUpperAlnum(s[i])
    ensures SkuDrawAsWritten(s)
  {
    forall i | 0 <= i < |s|
      ensures IsUpperAlnum(s[i])
    {
      UpperAlnumCharsAreUpperAlnum(s[i]);
    }
  }
}
