# walkingkooka-math in Dafny

This project models the core of walkingkooka-math, a Java library of number symbols and rounding helpers:

- **`DecimalNumberSymbols`**: an immutable record of the twelve locale symbols used to format and parse decimal numbers:
  - eight characters: negativeSign, positiveSign, zeroDigit, decimalSeparator, groupSeparator, monetaryDecimalSeparator, percentSymbol, permillSymbol;
  - four texts: currencySymbol, exponentSymbol, infinitySymbol, nanSymbol.

  It has:
  - per-property character rules (`SYMBOL`, `PERMILL_SYMBOL`, `ZERO_DIGIT`, printable texts);
  - the constructor's distinctness checks;
  - the twelve copy-on-write setters;
  - the comma-separated text form and `parse`.
- **`DecimalNumberSymbolsInvalidCharacterException`**: the error naming a refused property and character, with its message.
- **`Maths.round` and `Maths.toBigDecimalRoundingMode`**: rounding a double to an integral value under the eight `RoundingMode`s, and the mapping of modes to the legacy `BigDecimal.ROUND_*` constants.
- **`NumberContextLike.digit`**: the value of a digit character relative to a zero digit.
- **`NumberList`**: an immutable list of numbers with null elements, a shared empty list and `with`/`setElements`.

Modules:

- `Wrappers` (wrappers.dfy): `Option` and `Result`.
- `Characters` (characters.dfy): the character predicates. The Unicode letter, digit and whitespace classes are a parameter `CharClasses`, because they come from a character library outside this model. Every result holds for any classification.
- `Csv` (csv.dfy): a minimal comma-separated token codec, standing in for the CSV list the text form is written with.
- `InvalidCharacterExceptions` (invalid_character.dfy): the invalid-character error.
- `Symbols` (symbols.dfy): `DecimalNumberSymbols`, `with`, the constructor, the setters, `text` and `parse`.
- `Maths` (maths.dfy): rounding and the legacy constants.
- `NumberContextLike` (digits.dfy): `digit`.
- `NumberLists` (number_list.dfy): `NumberList`.

How Java's behaviour is represented:

- Exceptions become `Result` failures. `Symbols.Error` names each exception the core raises, with the fields its message is built from.
- A Java `null` text argument is `None` in an `Option<string>`.
- `DecimalNumberSymbols` is a datatype, because every field is final. Each setter returns either the same record or the record with one field replaced.
- The private constructor is `Symbols.Construct`. It runs the 20 `failIfEqual` calls the code makes, in their order, as the table `Symbols.Checks`. The first equal pair is reported. The pair decimalSeparator/monetaryDecimalSeparator is exempt, and zeroDigit is never compared.
- `parse` converts all character tokens before `with` checks anything, as Java evaluates `with`'s arguments before its body.
- `NumberList.with` copies the collection in a loop, so it is a `method`. Its `ensures` ties it to the function `NumberLists.FromCollection`, which the lemmas are about.

## Model

Source paths are relative to the repository root.

| member | source | states |
|---|---|---|
| Characters.FirstNonPrintable | src/main/java/walkingkooka/math/DecimalNumberSymbols.java:631-639 | checkString points at a non-printable character exactly when one exists; the index returned is the first non-printable character, and every character before it is printable |
| Characters.SymbolIsPermillSymbol | src/main/java/walkingkooka/math/DecimalNumberSymbols.java:591-622 | every SYMBOL character is a PERMILL_SYMBOL character; the characters PERMILL_SYMBOL admits and SYMBOL refuses are exactly the admitted digits |
| InvalidCharacterExceptions.InvalidCharacterException.GetMessage | src/main/java/walkingkooka/math/DecimalNumberSymbolsInvalidCharacterException.java:53-55 | the message is "Invalid ", then the property, then " character ", then the character between single quotes (length and every segment fixed) |
| InvalidCharacterExceptions.MessageRoundTrip | src/main/java/walkingkooka/math/DecimalNumberSymbolsInvalidCharacterException.java:28-55 | the property and the character are recovered exactly from the message, so the message carries exactly what property() and value() return |
| InvalidCharacterExceptions.ExampleMessage | src/main/java/walkingkooka/math/DecimalNumberSymbolsInvalidCharacterException.java:53-55 | the message for negativeSign and 'A' is "Invalid negativeSign character 'A'" |
| Symbols.IsIllegalArgument | src/main/java/walkingkooka/math/DecimalNumberSymbolsInvalidCharacterException.java:26 | the invalid-character error, the clash of failIfEqual, the wrong token count and the wrong token length are IllegalArgumentExceptions; a null text is not |
| Symbols.DigitsOf | src/main/java/walkingkooka/math/DecimalNumberSymbols.java:65 | an int written in decimal, as string concatenation writes it: digits only, no leading zero, and read back it is the number |
| Symbols.Message | src/main/java/walkingkooka/math/DecimalNumberSymbolsInvalidCharacterException.java:53-55 | the message of an invalid-character error is that exception's getMessage() |
| Symbols.MessageOfEmptyText | src/test/java/walkingkooka/math/DecimalNumberSymbolsTest.java:2415-2426 | the empty-text message is "Empty " and the property between double quotes |
| Symbols.MessageOfSameAs | src/main/java/walkingkooka/math/DecimalNumberSymbols.java:202-215 | the failIfEqual message is "Invalid character ", the left label quoted, " is same as ", the right label quoted, then the shared character between single quotes |
| Symbols.MessageOfWrongTokenCount | src/main/java/walkingkooka/math/DecimalNumberSymbols.java:63-66 | the token-count message is "Expected 12 tokens but got " followed by the count in decimal |
| Symbols.MessageOfWrongLength | src/main/java/walkingkooka/math/DecimalNumberSymbols.java:84-95 | the wrong-length message is "Invalid ", the property, " expected 1 character but got ", then the length in decimal |
| Symbols.SameAsMessage | src/main/java/walkingkooka/math/DecimalNumberSymbols.java:204-212 | negativeSign and positiveSign both '+' give "Invalid character \"negativeSign\" is same as \"positiveSign\" '+'" |
| Symbols.ParseLongNegativeSign | src/main/java/walkingkooka/math/DecimalNumberSymbols.java:84-95 | a two-character negativeSign token is refused with the wrong-length error and length 2, before any property rule runs |
| Symbols.WrongLengthMessage | src/main/java/walkingkooka/math/DecimalNumberSymbols.java:93 | that error's message is "Invalid negativeSign expected 1 character but got 2" |
| Symbols.CheckCharacter | src/main/java/walkingkooka/math/DecimalNumberSymbols.java:597-611 | accepts a character exactly when it is printable, not a letter or digit and not whitespace, and returns it unchanged; otherwise fails with the invalid-character error for the given property and character |
| Symbols.CheckPermillSymbol | src/main/java/walkingkooka/math/DecimalNumberSymbols.java:616-629 | accepts exactly the printable characters that are not letters and not whitespace (digits allowed), returning them unchanged; otherwise fails with the invalid-character error for permillSymbol |
| Symbols.CheckZeroDigit | src/main/java/walkingkooka/math/DecimalNumberSymbols.java:653-662 | accepts exactly the digits, returning them unchanged; otherwise fails with the invalid-character error for zeroDigit |
| Symbols.CheckString | src/main/java/walkingkooka/math/DecimalNumberSymbols.java:631-639 | succeeds exactly on a present, non-empty, all-printable text and returns it; null fails as a null text, empty fails as an empty text, otherwise the error names the first non-printable index |
| Symbols.DecimalNumberSymbols.Equals | src/main/java/walkingkooka/math/DecimalNumberSymbols.java:715-733 | field-by-field equality holds exactly when the two records are equal |
| Symbols.DecimalNumberSymbols.SetNegativeSign | src/main/java/walkingkooka/math/DecimalNumberSymbols.java:227-244 | same value gives the same record; otherwise succeeds iff the new value is a SYMBOL and the record with it replaced has distinct characters; the result differs only in negativeSign and is valid; failures are the invalid-character error or the first clashing pair's error |
| Symbols.DecimalNumberSymbols.SetPositiveSign | src/main/java/walkingkooka/math/DecimalNumberSymbols.java:258-275 | as for negativeSign, for positiveSign |
| Symbols.DecimalNumberSymbols.SetZeroDigit | src/main/java/walkingkooka/math/DecimalNumberSymbols.java:289-306 | same value gives the same record; otherwise succeeds iff the new value is a digit (zeroDigit is never compared); the result differs only in zeroDigit and is valid; the failure names zeroDigit and the character |
| Symbols.DecimalNumberSymbols.SetCurrencySymbol | src/main/java/walkingkooka/math/DecimalNumberSymbols.java:320-337 | an equal text gives the same record; otherwise succeeds iff the text is present, non-empty and printable; the result differs only in currencySymbol and is valid; the failure is checkString's error |
| Symbols.DecimalNumberSymbols.SetDecimalSeparator | src/main/java/walkingkooka/math/DecimalNumberSymbols.java:351-368 | as for negativeSign, for decimalSeparator |
| Symbols.DecimalNumberSymbols.SetExponentSymbol | src/main/java/walkingkooka/math/DecimalNumberSymbols.java:382-399 | as for currencySymbol, for exponentSymbol |
| Symbols.DecimalNumberSymbols.SetGroupSeparator | src/main/java/walkingkooka/math/DecimalNumberSymbols.java:413-430 | as for negativeSign, for groupSeparator |
| Symbols.DecimalNumberSymbols.SetInfinitySymbol | src/main/java/walkingkooka/math/DecimalNumberSymbols.java:444-461 | as for currencySymbol, for infinitySymbol |
| Symbols.DecimalNumberSymbols.SetMonetaryDecimalSeparator | src/main/java/walkingkooka/math/DecimalNumberSymbols.java:475-492 | as for negativeSign, for monetaryDecimalSeparator |
| Symbols.DecimalNumberSymbols.SetNanSymbol | src/main/java/walkingkooka/math/DecimalNumberSymbols.java:506-523 | as for currencySymbol, for nanSymbol |
| Symbols.DecimalNumberSymbols.SetPercentSymbol | src/main/java/walkingkooka/math/DecimalNumberSymbols.java:537-554 | as for negativeSign, for percentSymbol |
| Symbols.DecimalNumberSymbols.SetPermillSymbolAsWritten | src/main/java/walkingkooka/math/DecimalNumberSymbols.java:568-585 | setPermillSymbol as written: same value gives the same record; otherwise succeeds iff the new value passes SYMBOL (refusing digits) and the characters stay distinct |
| Symbols.DecimalNumberSymbols.SetPermillSymbol | src/main/java/walkingkooka/math/DecimalNumberSymbols.java:568-585 | corrected setPermillSymbol: as above but with PERMILL_SYMBOL, the rule with() applies to permillSymbol |
| Symbols.DecimalNumberSymbols.Tokens | src/main/java/walkingkooka/math/DecimalNumberSymbols.java:670-693 | the text form has twelve tokens, one per property in declaration order |
| Symbols.DecimalNumberSymbols.Text | src/main/java/walkingkooka/math/DecimalNumberSymbols.java:670-693 | reading the text form back as tokens gives exactly the twelve tokens of the record |
| Symbols.Construct | src/main/java/walkingkooka/math/DecimalNumberSymbols.java:146-215 | succeeds exactly when the compared characters are pairwise distinct (the exempt pair aside), giving the candidate; a failure is the error of the first check, in source order, that finds two equal characters |
| Symbols.With | src/main/java/walkingkooka/math/DecimalNumberSymbols.java:118-144 | a success is a valid record whose properties are exactly the arguments, all texts present |
| Symbols.FirstInvalidArgument | src/main/java/walkingkooka/math/DecimalNumberSymbols.java:130-143 | the first argument, in argument order, that fails its property's rule; all before it pass, and none means all pass |
| Symbols.WithStopsAtNegativeSign | src/main/java/walkingkooka/math/DecimalNumberSymbols.java:130-131 | when every check before it passes and the negativeSign check fails, with() fails with that check's error |
| Symbols.WithStopsAtPositiveSign | src/main/java/walkingkooka/math/DecimalNumberSymbols.java:130-132 | when every check before it passes and the positiveSign check fails, with() fails with that check's error |
| Symbols.WithStopsAtZeroDigit | src/main/java/walkingkooka/math/DecimalNumberSymbols.java:130-133 | when every check before it passes and the zeroDigit check fails, with() fails with that check's error |
| Symbols.WithStopsAtCurrencySymbol | src/main/java/walkingkooka/math/DecimalNumberSymbols.java:130-134 | when every check before it passes and the currencySymbol check fails, with() fails with that check's error |
| Symbols.WithStopsAtDecimalSeparator | src/main/java/walkingkooka/math/DecimalNumberSymbols.java:130-135 | when every check before it passes and the decimalSeparator check fails, with() fails with that check's error |
| Symbols.WithStopsAtExponentSymbol | src/main/java/walkingkooka/math/DecimalNumberSymbols.java:130-136 | when every check before it passes and the exponentSymbol check fails, with() fails with that check's error |
| Symbols.WithStopsAtGroupSeparator | src/main/java/walkingkooka/math/DecimalNumberSymbols.java:130-137 | when every check before it passes and the groupSeparator check fails, with() fails with that check's error |
| Symbols.WithStopsAtInfinitySymbol | src/main/java/walkingkooka/math/DecimalNumberSymbols.java:130-138 | when every check before it passes and the infinitySymbol check fails, with() fails with that check's error |
| Symbols.WithStopsAtMonetaryDecimalSeparator | src/main/java/walkingkooka/math/DecimalNumberSymbols.java:130-139 | when every check before it passes and the monetaryDecimalSeparator check fails, with() fails with that check's error |
| Symbols.WithStopsAtNanSymbol | src/main/java/walkingkooka/math/DecimalNumberSymbols.java:130-140 | when every check before it passes and the nanSymbol check fails, with() fails with that check's error |
| Symbols.WithStopsAtPercentSymbol | src/main/java/walkingkooka/math/DecimalNumberSymbols.java:130-141 | when every check before it passes and the percentSymbol check fails, with() fails with that check's error |
| Symbols.WithStopsAtPermillSymbol | src/main/java/walkingkooka/math/DecimalNumberSymbols.java:130-142 | when every check before it passes and the permillSymbol check fails, with() fails with that check's error |
| Symbols.WithReportsFirstInvalid | src/main/java/walkingkooka/math/DecimalNumberSymbols.java:130-143 | when some argument breaks its rule, with() fails with the error of the first such argument in argument order |
| Symbols.WithOfValidArguments | src/main/java/walkingkooka/math/DecimalNumberSymbols.java:130-143 | when every argument meets its rule, all texts are present and with() answers what the constructor answers for those values |
| Symbols.WithSucceedsIffValid | src/main/java/walkingkooka/math/DecimalNumberSymbols.java:118-200 | with() succeeds exactly when all texts are present and the record they describe is valid |
| Symbols.WithOfValid | src/main/java/walkingkooka/math/DecimalNumberSymbols.java:118-200 | with() applied to the properties of a valid record gives that record |
| Symbols.ChecksAreComparisons | src/main/java/walkingkooka/math/DecimalNumberSymbols.java:169-194 | every failIfEqual call compares two different compared characters and never the exempt pair |
| Symbols.ChecksCoverPairs | src/main/java/walkingkooka/math/DecimalNumberSymbols.java:169-194 | every pair of compared characters other than the exempt pair is checked by some failIfEqual call |
| Symbols.DistinctIffNoClash | src/main/java/walkingkooka/math/DecimalNumberSymbols.java:169-194 | all failIfEqual calls pass exactly when the compared characters are pairwise distinct |
| Symbols.SignSettersAgreeWithWith | src/main/java/walkingkooka/math/DecimalNumberSymbols.java:227-306 | for a new value, setNegativeSign, setPositiveSign and setZeroDigit answer exactly what with() answers for the record with that property replaced |
| Symbols.SeparatorSettersAgreeWithWith | src/main/java/walkingkooka/math/DecimalNumberSymbols.java:351-492 | the same, for setDecimalSeparator, setGroupSeparator and setMonetaryDecimalSeparator |
| Symbols.PercentSettersAgreeWithWith | src/main/java/walkingkooka/math/DecimalNumberSymbols.java:537-585 | the same, for setPercentSymbol and the corrected setPermillSymbol |
| Symbols.TextSettersAgreeWithWith | src/main/java/walkingkooka/math/DecimalNumberSymbols.java:320-523 | the same, for the four text setters |
| Symbols.StringToChar | src/main/java/walkingkooka/math/DecimalNumberSymbols.java:84-95 | succeeds exactly on one-character tokens, giving that character; an empty token is an empty-text error for the label, a longer one a wrong-length error with its length |
| Symbols.Parse | src/main/java/walkingkooka/math/DecimalNumberSymbols.java:60-82 | a malformed text fails; a token count other than 12 fails with that count; twelve tokens are converted as ParseTokens does; a success is valid and its text form reads as the same tokens |
| Symbols.ParseTokens | src/main/java/walkingkooka/math/DecimalNumberSymbols.java:68-82 | a success is a valid record whose twelve tokens are exactly the input tokens |
| Symbols.ParseReportsFirstBadToken | src/main/java/walkingkooka/math/DecimalNumberSymbols.java:68-95 | the first character token, in argument order, that is not one character long decides parse's error, with that token's label |
| Symbols.ParseOfCharTokens | src/main/java/walkingkooka/math/DecimalNumberSymbols.java:68-82 | when all character tokens are one character long, parse answers what with() answers for their characters and the text tokens |
| Symbols.ParseText | src/main/java/walkingkooka/math/DecimalNumberSymbols.java:56-82 | parse(text(s)) is s for every valid s |
| Symbols.TextOfParse | src/main/java/walkingkooka/math/DecimalNumberSymbols.java:56-82 | the text form of a parsed record reads as the same tokens as the text it was parsed from |
| Symbols.SampleIsValid | src/test/java/walkingkooka/math/DecimalNumberSymbolsTest.java:2222-2238 | the test's sample record ('-', '+', '0', "AUD", '.', "E", ',', "INFINITY", '*', "NAN", '%', '^') is valid |
| Symbols.SampleTokens | src/test/java/walkingkooka/math/DecimalNumberSymbolsTest.java:2372-2378 | the sample's tokens, in order, with the comma group separator written as a quoted token |
| Symbols.ParseWrongTokenCount | src/test/java/walkingkooka/math/DecimalNumberSymbolsTest.java:2402-2413 | parse("-,+,0") fails with a token count of 3 |
| Symbols.WrongTokenCountMessage | src/main/java/walkingkooka/math/DecimalNumberSymbols.java:63-66 | that failure's message is "Expected 12 tokens but got 3" |
| Symbols.ParseEmptyNegativeSign | src/test/java/walkingkooka/math/DecimalNumberSymbolsTest.java:2415-2426 | an empty negativeSign token fails as "Empty \"negativeSign\"" |
| Symbols.ParseInvalidNegativeSign | src/test/java/walkingkooka/math/DecimalNumberSymbolsTest.java:2428-2439 | a letter negativeSign fails with the invalid-character error "Invalid negativeSign character 'A'" |
| Symbols.WithAcceptsDigitPermill | src/main/java/walkingkooka/math/DecimalNumberSymbols.java:616-629 | with() accepts the digit '5' as permill symbol in the sample record |
| Symbols.PermillSetterRejectsDigit | src/main/java/walkingkooka/math/DecimalNumberSymbols.java:568-585 | setPermillSymbol as written refuses '5' on the valid sample; the corrected setter gives the sample with permill '5' |
| Maths.LongCast | src/main/java/walkingkooka/math/Maths.java:97 | the (long) cast lies in the long range; within it, it truncates toward zero and keeps the sign |
| Maths.Round | src/main/java/walkingkooka/math/Maths.java:56-63 | a null mode fails first, even for NaN; NaN and the infinities are returned unchanged for every mode; a finite value fails exactly for UNNECESSARY on a non-integral value, with that value, and otherwise gives roundFinite's integral value, so every per-mode lemma below applies to round |
| Maths.RoundTwice | src/main/java/walkingkooka/math/Maths.java:56-112 | rounding a value round() has rounded again, under any mode, gives it back unchanged |
| Maths.RoundFinite | src/main/java/walkingkooka/math/Maths.java:65-112 | every result is integral; it fails exactly for UNNECESSARY on a non-integral value, with that value |
| Maths.RoundUp | src/main/java/walkingkooka/math/Maths.java:70-76 | UP gives the integer away from zero: magnitude at least \|v\| and below \|v\| + 1, with v's sign |
| Maths.RoundDown | src/main/java/walkingkooka/math/Maths.java:77-83 | DOWN truncates: magnitude at most \|v\| and above \|v\| - 1, with v's sign |
| Maths.RoundCeilingFloor | src/main/java/walkingkooka/math/Maths.java:84-89 | CEILING gives the least integer at or above v, FLOOR the greatest at or below |
| Maths.RoundHalfUp | src/main/java/walkingkooka/math/Maths.java:122-127 | HALF_UP gives a nearest integer, a tie going away from zero, with v's sign |
| Maths.RoundHalfDown | src/main/java/walkingkooka/math/Maths.java:114-120 | HALF_DOWN gives a nearest integer, a tie going toward zero, with v's sign |
| Maths.RoundHalfEven | src/main/java/walkingkooka/math/Maths.java:96-100 | choosing halfUp on an odd truncated value and halfDown otherwise gives a nearest integer, and the even one on a tie |
| Maths.RoundUnnecessary | src/main/java/walkingkooka/math/Maths.java:101-106 | UNNECESSARY gives v back when it is integral and fails with "Invalid value" and v otherwise |
| Maths.RoundIntegral | src/main/java/walkingkooka/math/Maths.java:65-112 | every mode leaves an integral value unchanged |
| Maths.RoundIdempotent | src/main/java/walkingkooka/math/Maths.java:65-112 | rounding a rounded value again, under any mode, changes nothing |
| Maths.HalfUpAsWrittenInRange | src/main/java/walkingkooka/math/Maths.java:122-127 | below 2^63 - 1/2 in magnitude, halfUp through Math.round agrees with floor(\|v\| + 1/2) |
| Maths.HalfUpSaturates | src/main/java/walkingkooka/math/Maths.java:122-127 | for the integral value 10^19, halfUp as written gives Long.MAX_VALUE, the corrected one gives 10^19 |
| Maths.ToBigDecimalRoundingMode | src/main/java/walkingkooka/math/Maths.java:140-175 | a null mode fails; every mode maps to one of the legacy constants 0 to 7 |
| Maths.FromBigDecimalRoundingMode | src/main/java/walkingkooka/math/Maths.java:140-175 | exactly the constants 0 to 7 stand for a mode |
| Maths.BigDecimalRoundingModeRoundTrip | src/main/java/walkingkooka/math/Maths.java:140-175 | each mode maps to the constant of the same name and back, and each constant to its mode and back |
| Maths.BigDecimalRoundingModeInjective | src/main/java/walkingkooka/math/Maths.java:140-175 | distinct modes give distinct constants |
| NumberContextLike.Digit | src/main/java/walkingkooka/math/NumberContextLike.java:33-39 | the result lies in -1..9; it is -1 exactly when the character is below the zero digit or more than 9 above it; otherwise the character is the zero digit plus the result |
| NumberContextLike.DigitOfOffset | src/main/java/walkingkooka/math/NumberContextLike.java:33-39 | the character d places after the zero digit has value d, for d in 0..9 |
| NumberContextLike.DigitInjective | src/main/java/walkingkooka/math/NumberContextLike.java:33-39 | two characters with the same digit value relative to one zero digit are the same character |
| NumberContextLike.AsciiDigits | src/test/java/walkingkooka/math/NumberContextLikeTest.java:26-80 | with zero digit '0': '0', '1' and '9' give 0, 1 and 9; 'A', '/' and ':' give -1 |
| NumberContextLike.NonAsciiDigits | src/test/java/walkingkooka/math/NumberContextLikeTest.java:83-119 | the Arabic-Indic, extended Arabic-Indic and Devanagari digits give 0..9 relative to their own zero digits |
| NumberLists.NumberList.Get | src/main/java/walkingkooka/math/NumberList.java:74-77 | succeeds exactly for an index inside the list, giving that element; otherwise an index-out-of-bounds error |
| NumberLists.NumberList.Size | src/main/java/walkingkooka/math/NumberList.java:79-82 | the indices get() accepts are exactly those below size() |
| NumberLists.NumberList.ElementCheck | src/main/java/walkingkooka/math/NumberList.java:86-89 | every element, null included, is accepted |
| NumberLists.NumberList.SetElements | src/main/java/walkingkooka/math/NumberList.java:91-97 | null fails; the same elements give this list; otherwise a list of the collection's elements, the shared empty list for an empty collection, or the given list itself |
| NumberLists.FromCollection | src/main/java/walkingkooka/math/NumberList.java:44-68 | null fails; a NumberList is returned as it is; an empty collection gives the shared empty list; any other gives a list of exactly its elements |
| NumberLists.With | src/main/java/walkingkooka/math/NumberList.java:44-68 | the copying loop answers exactly what FromCollection answers, its list holding the collection's elements in order |
| NumberLists.FromItems | src/main/java/walkingkooka/math/NumberList.java:52-82 | the list made from a collection has its size, and get(i) gives its i-th element |
| NumberLists.NoDoubleWrap | src/main/java/walkingkooka/math/NumberList.java:49-50 | with of a NumberList is that list, and setElements to a list's own elements or to itself gives that list |
| NumberLists.SetElementsEmpty | src/test/java/walkingkooka/math/NumberListTest.java:98-109 | setElements of an empty collection gives the shared empty list |
| Csv.Decode | src/main/java/walkingkooka/math/DecimalNumberSymbols.java:60-63 | a well-formed text holds at least one token |
| Csv.DecodeEncode | src/main/java/walkingkooka/math/DecimalNumberSymbols.java:670-693 | reading back a non-empty list of tokens written comma-separated, with quoting, gives the same tokens |

## Left out

- The Unicode letter, digit and whitespace classes are not modelled. They are a parameter (`Characters.CharClasses`), because they come from a character library outside this model.
- Java `char` is a UTF-16 code unit, while a Dafny `char` is a Unicode scalar value. Lone surrogates cannot be represented.
- The CSV list class is not part of this model, so `Csv` is a minimal codec:
  - it quotes a token containing a comma or a quote and doubles embedded quotes;
  - it reads quoted and plain tokens.
  The library's exact escaping and whitespace rules are not modelled.
- The whole test string of `testText` is not proved: comparing the 37-character encoding with its literal costs more than the verifier's resource bound allows. `Symbols.SampleTokens` states the sample's tokens and the quoting of the comma, and `Csv.DecodeEncode` states that the text reads back as those tokens.
- Object identity is not observable on values. "Returns this" and "returns EMPTY" are stated as equality with the record, or with `NumberLists.Empty`.
- The exceptions for null arguments are modelled as error values naming the parameter, without their messages: a null `RoundingMode` in `round` and `toBigDecimalRoundingMode` (`Maths.NullMode`), a null collection in `NumberList.with`, and a null text in `checkString`.
- The messages of the invalid-text and null-text errors of `checkString` are not composed: they come from a character-predicate library outside this model. `Symbols.Error` carries the values they are built from.
- `Symbols.IsIllegalArgument`: says nothing of the empty-text, invalid-text and malformed-text errors, whose exception classes come from the character-predicate and CSV libraries outside this model.
- `InvalidCharacterExceptions.InvalidCharacterException.GetMessage`: puts the character between bare single quotes. The library's `quoteIfChars` also escapes it, so the message is exact only for characters escaping leaves unchanged. Control characters, the single quote and the backslash, which are exactly the characters this error reports, are written escaped by Java.
- `Symbols.Message`: the failIfEqual message quotes the labels and the character through `quoteAndEscape` likewise. The labels need no escaping, and the character is exact only when escaping leaves it unchanged.
- `fromDecimalFormatSymbols` only reads a JDK symbols table and then calls `with`.
- `toString`, `printTree` and `hashCode` are formatting or hashing with no invariant.
- `Maths.isNumber`, `isNumberClass` and `toBigDecimal` use reflection over JDK classes and a visitor that is not part of this model.
- The context classes and delegators only forward getters and wrap `Locale`/`MathContext`. They are not modelled.
- The test file expects duplicate characters to raise a `DecimalNumberSymbolsInvalidArgumentException` with the message "Duplicate ... is same as ...". The code raises an `IllegalArgumentException` with "Invalid character ... is same as ...", and the model follows the code.
- `Maths`: a finite double is an exact real. Not modelled:
  - binary rounding (of `|v| - 0.5`, for example);
  - signed zero;
  - the conversion of a long result back to double: `(double) Long.MAX_VALUE` is 2^63, while `Maths.HalfUpRoundedAsWritten` gives 2^63 - 1.
- `Maths.RoundHalfEven`: stated for values within the long range only. The reason is that beyond 2^63 the exact-real model admits non-integral values, where the `(long)` cast's saturated parity differs from the parity of the integer part. No double that large is non-integral.
- `NumberLists.NumberList.SetElements`: an element is its class (`NumberKind`) and its value as an exact real. Java's `Number.equals`, which `setElements` uses to compare the copy with this list, also tells 0.0 from -0.0 and compares a `BigDecimal`'s scale. For lists that differ only in those, the model answers this list where Java returns the copy.
- `NumberList`'s list mutators, which the immutable-list defaults refuse, are not modelled.

## Findings

| source | as written | input that shows it | evidently intended | confidence | as-written member | corrected member |
|---|---|---|---|---|---|---|
| src/main/java/walkingkooka/math/Maths.java:122-127 | `halfUp` rounds through `Math.round`, whose long result saturates at Long.MAX_VALUE | `round(1e19, HALF_UP)`: 1e19 is integral, yet the result is Long.MAX_VALUE (and HALF_EVEN, whose `(long)` cast of 1e19 is odd, takes the same path) | floor(\|v\| + 1/2) with v's sign, which leaves every integral value unchanged | not executed; high | Maths.HalfUpRoundedAsWritten | Maths.HalfUpRounded |
| src/main/java/walkingkooka/math/DecimalNumberSymbols.java:568-585 | `setPermillSymbol` checks the new value with `checkCharacter` (SYMBOL), which refuses digits | a valid record's `setPermillSymbol('5')` fails, while `with(..., '5')` with the same other properties succeeds | `checkPermillSymbol` (PERMILL_SYMBOL), the rule `with` applies to permillSymbol and that the SYMBOL comment at lines 594-596 reserves for it | not executed; high | Symbols.DecimalNumberSymbols.SetPermillSymbolAsWritten | Symbols.DecimalNumberSymbols.SetPermillSymbol |

Both discrepancies are exhibited by lemmas:

- `Maths.HalfUpSaturates` shows the halfUp failure on 10^19. `Maths.RoundHalfUp` proves the corrected halfUp gives a nearest integer, and `Maths.RoundIntegral` proves it leaves integral values unchanged. `Maths.RoundFinite` uses the corrected halfUp.
- `Symbols.PermillSetterRejectsDigit` and `Symbols.WithAcceptsDigitPermill` show the permill failure. `Symbols.PercentSettersAgreeWithWith` proves the corrected setter agrees with `with`.
