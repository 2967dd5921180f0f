/**
 * NumberContextLike.digit: the numeric value of a digit character relative to
 * the zero digit of the locale, or -1 when the character is not one of the ten
 * characters starting at the zero digit.
 */
module NumberContextLike {

  /** Whether n is the code point of a Dafny char (a Unicode scalar value). */
  predicate IsCharCode(n: int) {
    (0 <= n < 0xD800) || (0xE000 <= n < 0x11_0000)
  }

  function Digit(zeroDigit: char, c: char): (r: int)
    ensures -1 <= r <= 9
    ensures r == -1 <==> c as int < zeroDigit as int || c as int > zeroDigit as int + 9
    ensures r != -1 ==> c as int == zeroDigit as int + r
  {
    var value := c as int - zeroDigit as int;
    if value < 0 || value > 9 then -1 else value
  }

  /** The d-th character after the zero digit has the value d. */
  lemma DigitOfOffset(zeroDigit: char, d: int)
    requires 0 <= d <= 9 && IsCharCode(zeroDigit as int + d)
    ensures Digit(zeroDigit, (zeroDigit as int + d) as char) == d
  {
  }

  /** Two characters with the same digit value, relative to the same zero digit, are the same character. */
  lemma DigitInjective(zeroDigit: char, c1: char, c2: char)
    requires Digit(zeroDigit, c1) == Digit(zeroDigit, c2) != -1
    ensures c1 == c2
  {
  }

  lemma AsciiDigits()
    ensures Digit('0', '0') == 0 && Digit('0', '1') == 1 && Digit('0', '9') == 9
    ensures Digit('0', 'A') == -1 && Digit('0', '/') == -1 && Digit('0', ':') == -1
  {
  }

  /** The Arabic-Indic, extended Arabic-Indic and Devanagari digit runs. */
  lemma NonAsciiDigits(d: int)
    requires 0 <= d <= 9
    ensures Digit('٠', (0x0660 + d) as char) == d
    ensures Digit('۰', (0x06F0 + d) as char) == d
    ensures Digit('०', (0x0966 + d) as char) == d
  {
    DigitOfOffset('٠', d);
    DigitOfOffset('۰', d);
    DigitOfOffset('०', d);
  }
}
