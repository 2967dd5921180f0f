/**
 * The character predicates a symbol set is validated with.
 *
 * The Unicode classes (letter, digit, whitespace) come from a character-class
 * library outside this model, so they are a parameter: every definition and
 * lemma below holds for any classification. As in Java, "letter or digit" is
 * "letter" or "digit". "ascii control" is a code point below 32 or 127.
 */
module Characters {

  import opened Wrappers

  datatype CharClasses = CharClasses(
    isLetter: char -> bool,
    isDigit: char -> bool,
    isWhitespace: char -> bool)

  predicate IsAsciiControl(c: char) {
    (c as int) < 32 || (c as int) == 127
  }

  /** PRINTABLE: not an ascii control character. */
  predicate IsPrintable(c: char) {
    !IsAsciiControl(c)
  }

  /** SYMBOL: printable, not a letter or digit, not whitespace. */
  predicate IsSymbol(cc: CharClasses, c: char) {
    IsPrintable(c) && !(cc.isLetter(c) || cc.isDigit(c)) && !cc.isWhitespace(c)
  }

  /** PERMILL_SYMBOL: printable, not a letter, not whitespace (digits are allowed). */
  predicate IsPermillSymbol(cc: CharClasses, c: char) {
    IsPrintable(c) && !cc.isLetter(c) && !cc.isWhitespace(c)
  }

  /** ZERO_DIGIT: a digit. */
  predicate IsZeroDigit(cc: CharClasses, c: char) {
    cc.isDigit(c)
  }

  /** What checkString accepts: a non-empty text of printable characters. */
  predicate IsSymbolText(s: string) {
    s != [] && forall i | 0 <= i < |s| :: IsPrintable(s[i])
  }

  /** The index of the first character at or after `from` that is not printable. */
  function FirstNonPrintable(s: string, from: nat): (r: Option<nat>)
    requires from <= |s|
    ensures r.Some? ==> from <= r.value < |s| && !IsPrintable(s[r.value])
                        && forall j | from <= j < r.value :: IsPrintable(s[j])
    ensures r.None? <==> forall j | from <= j < |s| :: IsPrintable(s[j])
    decreases |s| - from
  {
    if from == |s| then None
    else if !IsPrintable(s[from]) then Some(from)
    else FirstNonPrintable(s, from + 1)
  }

  /** SYMBOL is strictly stronger than PERMILL_SYMBOL: what it admits PERMILL_SYMBOL admits,
      and the printable digits that are not letters or whitespace separate them. */
  lemma SymbolIsPermillSymbol(cc: CharClasses, c: char)
    ensures IsSymbol(cc, c) ==> IsPermillSymbol(cc, c)
    ensures IsPermillSymbol(cc, c) && !IsSymbol(cc, c) <==> IsPermillSymbol(cc, c) && cc.isDigit(c)
  {
  }
}
