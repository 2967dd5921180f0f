/**
 * DecimalNumberSymbols: the twelve locale symbols used to format and parse
 * decimal numbers, the rules each one must meet, the pairwise distinctness of
 * the sign and separator characters, the copy-on-write setters and the
 * comma-separated text form with its parser.
 */
module Symbols {

  import opened Wrappers
  import opened Characters
  import opened InvalidCharacterExceptions
  import Csv

  const NegativeSignLabel := "negativeSign"
  const PositiveSignLabel := "positiveSign"
  const ZeroDigitLabel := "zeroDigit"
  const CurrencySymbolLabel := "currencySymbol"
  const DecimalSeparatorLabel := "decimalSeparator"
  const ExponentSymbolLabel := "exponentSymbol"
  const GroupSeparatorLabel := "groupSeparator"
  const InfinitySymbolLabel := "infinitySymbol"
  const MonetaryDecimalSeparatorLabel := "monetaryDecimalSeparator"
  const NanSymbolLabel := "nanSymbol"
  const PercentSymbolLabel := "percentSymbol"
  const PermillSymbolLabel := "permillSymbol"

  datatype Field =
    | NegativeSign | PositiveSign | ZeroDigit | CurrencySymbol | DecimalSeparator | ExponentSymbol
    | GroupSeparator | InfinitySymbol | MonetaryDecimalSeparator | NanSymbol | PercentSymbol | PermillSymbol

  /** The fields in declaration order: the order of with's arguments, of its checks and of the text form. */
  const Fields: seq<Field> := [
    NegativeSign, PositiveSign, ZeroDigit, CurrencySymbol, DecimalSeparator, ExponentSymbol,
    GroupSeparator, InfinitySymbol, MonetaryDecimalSeparator, NanSymbol, PercentSymbol, PermillSymbol]

  function Label(f: Field): string {
    match f
    case NegativeSign => NegativeSignLabel
    case PositiveSign => PositiveSignLabel
    case ZeroDigit => ZeroDigitLabel
    case CurrencySymbol => CurrencySymbolLabel
    case DecimalSeparator => DecimalSeparatorLabel
    case ExponentSymbol => ExponentSymbolLabel
    case GroupSeparator => GroupSeparatorLabel
    case InfinitySymbol => InfinitySymbolLabel
    case MonetaryDecimalSeparator => MonetaryDecimalSeparatorLabel
    case NanSymbol => NanSymbolLabel
    case PercentSymbol => PercentSymbolLabel
    case PermillSymbol => PermillSymbolLabel
  }

  predicate IsTextField(f: Field) {
    f.CurrencySymbol? || f.ExponentSymbol? || f.InfinitySymbol? || f.NanSymbol?
  }

  /** The characters that must be pairwise distinct: every character field but zeroDigit. */
  predicate IsCompared(f: Field) {
    !IsTextField(f) && !f.ZeroDigit?
  }

  /** decimalSeparator and monetaryDecimalSeparator may be the same character. */
  predicate IsExempt(f: Field, g: Field) {
    (f.DecimalSeparator? && g.MonetaryDecimalSeparator?) || (f.MonetaryDecimalSeparator? && g.DecimalSeparator?)
  }

  /** The constructor's failIfEqual calls, in the order it makes them, as (left, right). */
  const Checks: seq<(Field, Field)> := [
    (NegativeSign, PositiveSign),
    (NegativeSign, DecimalSeparator),
    (NegativeSign, GroupSeparator),
    (NegativeSign, MonetaryDecimalSeparator),
    (NegativeSign, PercentSymbol),
    (NegativeSign, PermillSymbol),
    (PositiveSign, DecimalSeparator),
    (PositiveSign, GroupSeparator),
    (PositiveSign, MonetaryDecimalSeparator),
    (PositiveSign, PercentSymbol),
    (PositiveSign, PermillSymbol),
    (DecimalSeparator, GroupSeparator),
    (DecimalSeparator, PercentSymbol),
    (DecimalSeparator, PermillSymbol),
    (GroupSeparator, MonetaryDecimalSeparator),
    (GroupSeparator, PercentSymbol),
    (GroupSeparator, PermillSymbol),
    (MonetaryDecimalSeparator, PercentSymbol),
    (MonetaryDecimalSeparator, PermillSymbol),
    (PercentSymbol, PermillSymbol)]

  /** A property value as a caller passes it: a character, or a text that may be null (None). */
  datatype Arg = CharArg(c: char) | TextArg(t: Option<string>)

  datatype Error =
    | InvalidCharacter(exception: InvalidCharacterException)  // DecimalNumberSymbolsInvalidCharacterException
    | NullText(property: string)                                 // a null text property
    | EmptyText(property: string)                                // an empty text property or character token
    | InvalidText(property: string, text: string, index: nat)    // a text property holding a control character
    | SameAs(leftLabel: string, rightLabel: string, value: char)  // two compared characters are equal
    | WrongTokenCount(count: nat)                             // the text form does not hold 12 tokens
    | WrongLength(property: string, length: nat)                 // a character token longer than one character
    | MalformedCsv                                            // the text form is not a valid token list

  /**
   * Whether the error is an IllegalArgumentException: the ones this code throws itself are, and a null text
   * (the null-argument exception of the text check) is not.
   */
  predicate IsIllegalArgument(e: Error)
    ensures e.InvalidCharacter? || e.SameAs? || e.WrongTokenCount? || e.WrongLength? ==> IsIllegalArgument(e)
    ensures e.NullText? ==> !IsIllegalArgument(e)
  {
    !e.NullText?
  }

  /** Whether every character of s is a decimal digit. */
  predicate IsDecimal(s: string) {
    s == [] || ('0' <= s[|s| - 1] <= '9' && IsDecimal(s[..|s| - 1]))
  }

  /** The number a text of decimal digits stands for. */
  function DecimalValue(s: string): nat {
    if s == [] then 0
    else DecimalValue(s[..|s| - 1]) * 10 + (if '0' <= s[|s| - 1] <= '9' then s[|s| - 1] as int - '0' as int else 0)
  }

  /** The decimal form of n, as string concatenation writes an int: no leading zero, and read back it is n. */
  function DigitsOf(n: nat): (s: string)
    ensures |s| >= 1 && IsDecimal(s) && DecimalValue(s) == n
    ensures s[0] == '0' ==> n == 0
  {
    var d := ('0' as int + n % 10) as char;
    if n < 10 then [d]
    else
      var init := DigitsOf(n / 10);
      assert (init + [d])[..|init + [d]| - 1] == init;
      init + [d]
  }

  /** The messages the core itself composes; the shape of each is stated by the MessageOf lemmas below. */
  function Message(e: Error): (m: string)
    requires e.InvalidCharacter? || e.EmptyText? || e.SameAs? || e.WrongTokenCount? || e.WrongLength?
    ensures e.InvalidCharacter? ==> m == e.exception.GetMessage()
  {
    match e
    case InvalidCharacter(x) => x.GetMessage()
    case EmptyText(p) => "Empty \"" + p + "\""
    case SameAs(left, right, c) =>
      "Invalid character \"" + left + "\" is same as \"" + right + "\" " + ['\'', c, '\'']
    case WrongTokenCount(n) => "Expected 12 tokens but got " + DigitsOf(n)
    case WrongLength(p, n) => "Invalid " + p + " expected 1 character but got " + DigitsOf(n)
  }

  /** The empty-text message names the property between double quotes. */
  lemma MessageOfEmptyText(property: string)
    ensures var m := Message(EmptyText(property));
      |m| == |property| + 8 && m[..7] == "Empty \"" && m[7..|m| - 1] == property && m[|m| - 1] == '"'
  {
  }

  /** The clash message names both properties, each between double quotes, and ends with the shared character. */
  lemma MessageOfSameAs(left: string, right: string, c: char)
    ensures var m := Message(SameAs(left, right, c));
      |m| == |left| + |right| + 38 && m[..19] == "Invalid character \"" && m[19..19 + |left|] == left
      && m[19 + |left|..33 + |left|] == "\" is same as \""
      && m[33 + |left|..33 + |left| + |right|] == right
      && m[|m| - 5..] == ['"', ' ', '\'', c, '\'']
  {
    var a := "Invalid character \"" + left;
    var named := a + "\" is same as \"";
    var b := named + right;
    var m := b + "\" " + ['\'', c, '\''];
    assert Message(SameAs(left, right, c)) == m;
    assert m[..|b|] == b;
    assert b[..|named|] == named;
    assert named[..|a|] == a;
    assert m[..19] == a[..19];
    assert m[19..19 + |left|] == a[19..];
    assert m[19 + |left|..33 + |left|] == named[|a|..];
    assert m[33 + |left|..33 + |left| + |right|] == b[|named|..];
    assert m[|m| - 5..] == m[|b|..];
  }

  /** The token-count message ends with the count written in decimal. */
  lemma MessageOfWrongTokenCount(count: nat)
    ensures var m := Message(WrongTokenCount(count));
      |m| > 27 && m[..27] == "Expected 12 tokens but got " && IsDecimal(m[27..]) && DecimalValue(m[27..]) == count
  {
    var m := Message(WrongTokenCount(count));
    assert m[27..] == DigitsOf(count);
  }

  /** The wrong-length message names the property and ends with the token's length written in decimal. */
  lemma MessageOfWrongLength(property: string, length: nat)
    ensures var m := Message(WrongLength(property, length));
      |m| > 38 + |property| && m[..8] == "Invalid " && m[8..8 + |property|] == property
      && m[8 + |property|..38 + |property|] == " expected 1 character but got "
      && IsDecimal(m[38 + |property|..]) && DecimalValue(m[38 + |property|..]) == length
  {
    var m := Message(WrongLength(property, length));
    assert m[38 + |property|..] == DigitsOf(length);
  }

  // Per-property checks ..................................................................................

  /** checkCharacter: accepts exactly the SYMBOL characters. */
  function CheckCharacter(cc: CharClasses, property: string, c: char): (r: Result<char, Error>)
    ensures r.Success? <==> IsSymbol(cc, c)
    ensures r.Success? ==> r.value == c
    ensures r.Failure? ==> r.error == InvalidCharacter(InvalidCharacterException(property, c))
  {
    if IsSymbol(cc, c) then Success(c) else Failure(InvalidCharacter(InvalidCharacterException(property, c)))
  }

  /** checkPermillSymbol: accepts exactly the PERMILL_SYMBOL characters. */
  function CheckPermillSymbol(cc: CharClasses, c: char): (r: Result<char, Error>)
    ensures r.Success? <==> IsPermillSymbol(cc, c)
    ensures r.Success? ==> r.value == c
    ensures r.Failure? ==> r.error == InvalidCharacter(InvalidCharacterException(PermillSymbolLabel, c))
  {
    if IsPermillSymbol(cc, c) then Success(c)
    else Failure(InvalidCharacter(InvalidCharacterException(PermillSymbolLabel, c)))
  }

  /** checkZeroDigit: accepts exactly the digits. */
  function CheckZeroDigit(cc: CharClasses, c: char): (r: Result<char, Error>)
    ensures r.Success? <==> IsZeroDigit(cc, c)
    ensures r.Success? ==> r.value == c
    ensures r.Failure? ==> r.error == InvalidCharacter(InvalidCharacterException(ZeroDigitLabel, c))
  {
    if IsZeroDigit(cc, c) then Success(c)
    else Failure(InvalidCharacter(InvalidCharacterException(ZeroDigitLabel, c)))
  }

  /** checkString: a null, an empty, then a first non-printable character, in that order, are refused. */
  function CheckString(property: string, value: Option<string>): (r: Result<string, Error>)
    ensures r.Success? <==> value.Some? && IsSymbolText(value.value)
    ensures r.Success? ==> r.value == value.value
    ensures value.None? ==> r == Failure(NullText(property))
    ensures value == Some([]) ==> r == Failure(EmptyText(property))
    ensures r.Failure? && value.Some? && value.value != [] ==>
      && r.error.InvalidText? && r.error.property == property && r.error.text == value.value
      && r.error.index < |value.value| && !IsPrintable(value.value[r.error.index])
      && forall j | 0 <= j < r.error.index :: IsPrintable(value.value[j])
  {
    match value
    case None => Failure(NullText(property))
    case Some(s) =>
      if s == [] then Failure(EmptyText(property))
      else
        match FirstNonPrintable(s, 0)
        case None => Success(s)
        case Some(i) => Failure(InvalidText(property, s, i))
  }

  /** The check with() makes of the argument for one field. */
  function WithCheck(cc: CharClasses, f: Field, a: Arg): Result<Arg, Error>
  {
    match a
    case TextArg(t) =>
      var s :- CheckString(Label(f), t);
      Success(TextArg(Some(s)))
    case CharArg(c) =>
      var d :- (if f.ZeroDigit? then CheckZeroDigit(cc, c)
                else if f.PermillSymbol? then CheckPermillSymbol(cc, c)
                else CheckCharacter(cc, Label(f), c));
      Success(CharArg(d))
  }

  /** The position of the first argument, at or after `from`, that fails with()'s check for its field. */
  function FirstInvalidArgument(cc: CharClasses, args: seq<Arg>, from: nat): (r: Option<nat>)
    requires |args| == |Fields| && from <= |args|
    ensures r.Some? ==> from <= r.value < |args| && WithCheck(cc, Fields[r.value], args[r.value]).Failure?
                        && forall j | from <= j < r.value :: WithCheck(cc, Fields[j], args[j]).Success?
    ensures r.None? ==> forall j | from <= j < |args| :: WithCheck(cc, Fields[j], args[j]).Success?
    decreases |args| - from
  {
    if from == |args| then None
    else if WithCheck(cc, Fields[from], args[from]).Failure? then Some(from)
    else
      var r := FirstInvalidArgument(cc, args, from + 1);
      assert forall j | from + 1 <= j < (if r.Some? then r.value else |args|) :: WithCheck(cc, Fields[j], args[j]).Success?;
      r
  }

  // The value ...........................................................................................

  datatype DecimalNumberSymbols = DecimalNumberSymbols(
    negativeSign: char,
    positiveSign: char,
    zeroDigit: char,
    currencySymbol: string,
    decimalSeparator: char,
    exponentSymbol: string,
    groupSeparator: char,
    infinitySymbol: string,
    monetaryDecimalSeparator: char,
    nanSymbol: string,
    percentSymbol: char,
    permillSymbol: char)
  {
    function Get(f: Field): Arg {
      match f
      case NegativeSign => CharArg(negativeSign)
      case PositiveSign => CharArg(positiveSign)
      case ZeroDigit => CharArg(zeroDigit)
      case CurrencySymbol => TextArg(Some(currencySymbol))
      case DecimalSeparator => CharArg(decimalSeparator)
      case ExponentSymbol => TextArg(Some(exponentSymbol))
      case GroupSeparator => CharArg(groupSeparator)
      case InfinitySymbol => TextArg(Some(infinitySymbol))
      case MonetaryDecimalSeparator => CharArg(monetaryDecimalSeparator)
      case NanSymbol => TextArg(Some(nanSymbol))
      case PercentSymbol => CharArg(percentSymbol)
      case PermillSymbol => CharArg(permillSymbol)
    }

    /** The compared characters are pairwise distinct, the exempt pair aside. */
    ghost predicate Distinct() {
      forall f: Field, g: Field | IsCompared(f) && IsCompared(g) && f != g && !IsExempt(f, g) :: Get(f) != Get(g)
    }

    /** What every instance satisfies: each property meets its rule and the characters are distinct. */
    ghost predicate Valid(cc: CharClasses) {
      && IsSymbol(cc, negativeSign)
      && IsSymbol(cc, positiveSign)
      && IsZeroDigit(cc, zeroDigit)
      && IsSymbolText(currencySymbol)
      && IsSymbol(cc, decimalSeparator)
      && IsSymbolText(exponentSymbol)
      && IsSymbol(cc, groupSeparator)
      && IsSymbolText(infinitySymbol)
      && IsSymbol(cc, monetaryDecimalSeparator)
      && IsSymbolText(nanSymbol)
      && IsSymbol(cc, percentSymbol)
      && IsPermillSymbol(cc, permillSymbol)
      && Distinct()
    }

    predicate Clash(k: nat)
      requires k < |Checks|
    {
      Get(Checks[k].0) == Get(Checks[k].1)
    }

    /** Check k is the first of the constructor's checks to find two equal characters. */
    predicate IsFirstClash(k: nat) {
      k < |Checks| && Clash(k) && forall j | 0 <= j < k :: !Clash(j)
    }

    /** The position of the first failing check at or after `from`. */
    function FirstClash(from: nat): (r: Option<nat>)
      requires from <= |Checks|
      ensures r.Some? ==> from <= r.value < |Checks| && Clash(r.value)
                          && forall j | from <= j < r.value :: !Clash(j)
      ensures r.None? ==> forall j | from <= j < |Checks| :: !Clash(j)
      decreases |Checks| - from
    {
      if from == |Checks| then None
      else if Clash(from) then Some(from)
      else FirstClash(from + 1)
    }

    /** failIfEqual's error for check k: both labels and the shared character. */
    function ClashError(k: nat): Error
      requires k < |Checks|
    {
      var right := Get(Checks[k].1);
      SameAs(Label(Checks[k].0), Label(Checks[k].1), if right.CharArg? then right.c else ' ')
    }

    /** equals0: field-by-field equality, chars by value and texts by contents. */
    function Equals(other: DecimalNumberSymbols): (r: bool)
      ensures r <==> this == other
    {
      && negativeSign == other.negativeSign
      && positiveSign == other.positiveSign
      && zeroDigit == other.zeroDigit
      && currencySymbol == other.currencySymbol
      && decimalSeparator == other.decimalSeparator
      && exponentSymbol == other.exponentSymbol
      && groupSeparator == other.groupSeparator
      && infinitySymbol == other.infinitySymbol
      && monetaryDecimalSeparator == other.monetaryDecimalSeparator
      && nanSymbol == other.nanSymbol
      && percentSymbol == other.percentSymbol
      && permillSymbol == other.permillSymbol
    }

    // Setters .........................................................................................

    function SetNegativeSign(cc: CharClasses, negativeSign: char): (r: Result<DecimalNumberSymbols, Error>)
      requires Valid(cc)
      ensures negativeSign == this.negativeSign ==> r == Success(this)
      ensures negativeSign != this.negativeSign ==>
        (r.Success? <==> IsSymbol(cc, negativeSign) && this.(negativeSign := negativeSign).Distinct())
      ensures r.Success? ==> r.value == this.(negativeSign := negativeSign) && r.value.Valid(cc)
      ensures r.Failure? && !IsSymbol(cc, negativeSign) ==>
        r.error == InvalidCharacter(InvalidCharacterException(NegativeSignLabel, negativeSign))
      ensures r.Failure? && IsSymbol(cc, negativeSign) ==>
        exists k :: this.(negativeSign := negativeSign).IsFirstClash(k)
                    && r.error == this.(negativeSign := negativeSign).ClashError(k)
    {
      if this.negativeSign == negativeSign then Success(this)
      else
        var c :- CheckCharacter(cc, NegativeSignLabel, negativeSign);
        Construct(this.(negativeSign := c))
    }

    function SetPositiveSign(cc: CharClasses, positiveSign: char): (r: Result<DecimalNumberSymbols, Error>)
      requires Valid(cc)
      ensures positiveSign == this.positiveSign ==> r == Success(this)
      ensures positiveSign != this.positiveSign ==>
        (r.Success? <==> IsSymbol(cc, positiveSign) && this.(positiveSign := positiveSign).Distinct())
      ensures r.Success? ==> r.value == this.(positiveSign := positiveSign) && r.value.Valid(cc)
      ensures r.Failure? && !IsSymbol(cc, positiveSign) ==>
        r.error == InvalidCharacter(InvalidCharacterException(PositiveSignLabel, positiveSign))
      ensures r.Failure? && IsSymbol(cc, positiveSign) ==>
        exists k :: this.(positiveSign := positiveSign).IsFirstClash(k)
                    && r.error == this.(positiveSign := positiveSign).ClashError(k)
    {
      if this.positiveSign == positiveSign then Success(this)
      else
        var c :- CheckCharacter(cc, PositiveSignLabel, positiveSign);
        Construct(this.(positiveSign := c))
    }

    /** zeroDigit takes part in no distinctness check, so only the digit rule can refuse it. */
    function SetZeroDigit(cc: CharClasses, zeroDigit: char): (r: Result<DecimalNumberSymbols, Error>)
      requires Valid(cc)
      ensures zeroDigit == this.zeroDigit ==> r == Success(this)
      ensures r.Success? <==> IsZeroDigit(cc, zeroDigit) || zeroDigit == this.zeroDigit
      ensures r.Success? ==> r.value == this.(zeroDigit := zeroDigit) && r.value.Valid(cc)
      ensures r.Failure? ==> r.error == InvalidCharacter(InvalidCharacterException(ZeroDigitLabel, zeroDigit))
    {
      if this.zeroDigit == zeroDigit then Success(this)
      else
        var c :- CheckZeroDigit(cc, zeroDigit);
        assert this.(zeroDigit := c).Get(ZeroDigit) == CharArg(c);
        Construct(this.(zeroDigit := c))
    }

    function SetCurrencySymbol(cc: CharClasses, currencySymbol: Option<string>): (r: Result<DecimalNumberSymbols, Error>)
      requires Valid(cc)
      ensures currencySymbol == Some(this.currencySymbol) ==> r == Success(this)
      ensures r.Success? <==> currencySymbol.Some? && (currencySymbol.value == this.currencySymbol || IsSymbolText(currencySymbol.value))
      ensures r.Success? ==> r.value == this.(currencySymbol := currencySymbol.value) && r.value.Valid(cc)
      ensures r.Failure? ==> r.error == CheckString(CurrencySymbolLabel, currencySymbol).error
    {
      if Some(this.currencySymbol) == currencySymbol then Success(this)
      else
        var s :- CheckString(CurrencySymbolLabel, currencySymbol);
        Construct(this.(currencySymbol := s))
    }

    function SetDecimalSeparator(cc: CharClasses, decimalSeparator: char): (r: Result<DecimalNumberSymbols, Error>)
      requires Valid(cc)
      ensures decimalSeparator == this.decimalSeparator ==> r == Success(this)
      ensures decimalSeparator != this.decimalSeparator ==>
        (r.Success? <==> IsSymbol(cc, decimalSeparator) && this.(decimalSeparator := decimalSeparator).Distinct())
      ensures r.Success? ==> r.value == this.(decimalSeparator := decimalSeparator) && r.value.Valid(cc)
      ensures r.Failure? && !IsSymbol(cc, decimalSeparator) ==>
        r.error == InvalidCharacter(InvalidCharacterException(DecimalSeparatorLabel, decimalSeparator))
      ensures r.Failure? && IsSymbol(cc, decimalSeparator) ==>
        exists k :: this.(decimalSeparator := decimalSeparator).IsFirstClash(k)
                    && r.error == this.(decimalSeparator := decimalSeparator).ClashError(k)
    {
      if this.decimalSeparator == decimalSeparator then Success(this)
      else
        var c :- CheckCharacter(cc, DecimalSeparatorLabel, decimalSeparator);
        Construct(this.(decimalSeparator := c))
    }

    function SetExponentSymbol(cc: CharClasses, exponentSymbol: Option<string>): (r: Result<DecimalNumberSymbols, Error>)
      requires Valid(cc)
      ensures exponentSymbol == Some(this.exponentSymbol) ==> r == Success(this)
      ensures r.Success? <==> exponentSymbol.Some? && (exponentSymbol.value == this.exponentSymbol || IsSymbolText(exponentSymbol.value))
      ensures r.Success? ==> r.value == this.(exponentSymbol := exponentSymbol.value) && r.value.Valid(cc)
      ensures r.Failure? ==> r.error == CheckString(ExponentSymbolLabel, exponentSymbol).error
    {
      if Some(this.exponentSymbol) == exponentSymbol then Success(this)
      else
        var s :- CheckString(ExponentSymbolLabel, exponentSymbol);
        Construct(this.(exponentSymbol := s))
    }

    function SetGroupSeparator(cc: CharClasses, groupSeparator: char): (r: Result<DecimalNumberSymbols, Error>)
      requires Valid(cc)
      ensures groupSeparator == this.groupSeparator ==> r == Success(this)
      ensures groupSeparator != this.groupSeparator ==>
        (r.Success? <==> IsSymbol(cc, groupSeparator) && this.(groupSeparator := groupSeparator).Distinct())
      ensures r.Success? ==> r.value == this.(groupSeparator := groupSeparator) && r.value.Valid(cc)
      ensures r.Failure? && !IsSymbol(cc, groupSeparator) ==>
        r.error == InvalidCharacter(InvalidCharacterException(GroupSeparatorLabel, groupSeparator))
      ensures r.Failure? && IsSymbol(cc, groupSeparator) ==>
        exists k :: this.(groupSeparator := groupSeparator).IsFirstClash(k)
                    && r.error == this.(groupSeparator := groupSeparator).ClashError(k)
    {
      if this.groupSeparator == groupSeparator then Success(this)
      else
        var c :- CheckCharacter(cc, GroupSeparatorLabel, groupSeparator);
        Construct(this.(groupSeparator := c))
    }

    function SetInfinitySymbol(cc: CharClasses, infinitySymbol: Option<string>): (r: Result<DecimalNumberSymbols, Error>)
      requires Valid(cc)
      ensures infinitySymbol == Some(this.infinitySymbol) ==> r == Success(this)
      ensures r.Success? <==> infinitySymbol.Some? && (infinitySymbol.value == this.infinitySymbol || IsSymbolText(infinitySymbol.value))
      ensures r.Success? ==> r.value == this.(infinitySymbol := infinitySymbol.value) && r.value.Valid(cc)
      ensures r.Failure? ==> r.error == CheckString(InfinitySymbolLabel, infinitySymbol).error
    {
      if Some(this.infinitySymbol) == infinitySymbol then Success(this)
      else
        var s :- CheckString(InfinitySymbolLabel, infinitySymbol);
        Construct(this.(infinitySymbol := s))
    }

    function SetMonetaryDecimalSeparator(cc: CharClasses, monetaryDecimalSeparator: char): (r: Result<DecimalNumberSymbols, Error>)
      requires Valid(cc)
      ensures monetaryDecimalSeparator == this.monetaryDecimalSeparator ==> r == Success(this)
      ensures monetaryDecimalSeparator != this.monetaryDecimalSeparator ==>
        (r.Success? <==> IsSymbol(cc, monetaryDecimalSeparator)
                         && this.(monetaryDecimalSeparator := monetaryDecimalSeparator).Distinct())
      ensures r.Success? ==> r.value == this.(monetaryDecimalSeparator := monetaryDecimalSeparator) && r.value.Valid(cc)
      ensures r.Failure? && !IsSymbol(cc, monetaryDecimalSeparator) ==>
        r.error == InvalidCharacter(InvalidCharacterException(MonetaryDecimalSeparatorLabel, monetaryDecimalSeparator))
      ensures r.Failure? && IsSymbol(cc, monetaryDecimalSeparator) ==>
        exists k :: this.(monetaryDecimalSeparator := monetaryDecimalSeparator).IsFirstClash(k)
                    && r.error == this.(monetaryDecimalSeparator := monetaryDecimalSeparator).ClashError(k)
    {
      if this.monetaryDecimalSeparator == monetaryDecimalSeparator then Success(this)
      else
        var c :- CheckCharacter(cc, MonetaryDecimalSeparatorLabel, monetaryDecimalSeparator);
        Construct(this.(monetaryDecimalSeparator := c))
    }

    function SetNanSymbol(cc: CharClasses, nanSymbol: Option<string>): (r: Result<DecimalNumberSymbols, Error>)
      requires Valid(cc)
      ensures nanSymbol == Some(this.nanSymbol) ==> r == Success(this)
      ensures r.Success? <==> nanSymbol.Some? && (nanSymbol.value == this.nanSymbol || IsSymbolText(nanSymbol.value))
      ensures r.Success? ==> r.value == this.(nanSymbol := nanSymbol.value) && r.value.Valid(cc)
      ensures r.Failure? ==> r.error == CheckString(NanSymbolLabel, nanSymbol).error
    {
      if Some(this.nanSymbol) == nanSymbol then Success(this)
      else
        var s :- CheckString(NanSymbolLabel, nanSymbol);
        Construct(this.(nanSymbol := s))
    }

    function SetPercentSymbol(cc: CharClasses, percentSymbol: char): (r: Result<DecimalNumberSymbols, Error>)
      requires Valid(cc)
      ensures percentSymbol == this.percentSymbol ==> r == Success(this)
      ensures percentSymbol != this.percentSymbol ==>
        (r.Success? <==> IsSymbol(cc, percentSymbol) && this.(percentSymbol := percentSymbol).Distinct())
      ensures r.Success? ==> r.value == this.(percentSymbol := percentSymbol) && r.value.Valid(cc)
      ensures r.Failure? && !IsSymbol(cc, percentSymbol) ==>
        r.error == InvalidCharacter(InvalidCharacterException(PercentSymbolLabel, percentSymbol))
      ensures r.Failure? && IsSymbol(cc, percentSymbol) ==>
        exists k :: this.(percentSymbol := percentSymbol).IsFirstClash(k)
                    && r.error == this.(percentSymbol := percentSymbol).ClashError(k)
    {
      if this.percentSymbol == percentSymbol then Success(this)
      else
        var c :- CheckCharacter(cc, PercentSymbolLabel, percentSymbol);
        Construct(this.(percentSymbol := c))
    }

    /** setPermillSymbol as written: it checks the new value with SYMBOL, which refuses digits, where with() uses PERMILL_SYMBOL. */
    function SetPermillSymbolAsWritten(cc: CharClasses, permillSymbol: char): (r: Result<DecimalNumberSymbols, Error>)
      requires Valid(cc)
      ensures permillSymbol == this.permillSymbol ==> r == Success(this)
      ensures permillSymbol != this.permillSymbol ==>
        (r.Success? <==> IsSymbol(cc, permillSymbol) && this.(permillSymbol := permillSymbol).Distinct())
      ensures r.Success? ==> r.value == this.(permillSymbol := permillSymbol) && r.value.Valid(cc)
      ensures r.Failure? && !IsSymbol(cc, permillSymbol) ==>
        r.error == InvalidCharacter(InvalidCharacterException(PermillSymbolLabel, permillSymbol))
      ensures r.Failure? && IsSymbol(cc, permillSymbol) ==>
        exists k :: this.(permillSymbol := permillSymbol).IsFirstClash(k)
                    && r.error == this.(permillSymbol := permillSymbol).ClashError(k)
    {
      if this.permillSymbol == permillSymbol then Success(this)
      else
        var c :- CheckCharacter(cc, PermillSymbolLabel, permillSymbol);
        Construct(this.(permillSymbol := c))
    }

    /** setPermillSymbol checking the new value with PERMILL_SYMBOL, the rule with() applies to the same property. */
    function SetPermillSymbol(cc: CharClasses, permillSymbol: char): (r: Result<DecimalNumberSymbols, Error>)
      requires Valid(cc)
      ensures permillSymbol == this.permillSymbol ==> r == Success(this)
      ensures permillSymbol != this.permillSymbol ==>
        (r.Success? <==> IsPermillSymbol(cc, permillSymbol) && this.(permillSymbol := permillSymbol).Distinct())
      ensures r.Success? ==> r.value == this.(permillSymbol := permillSymbol) && r.value.Valid(cc)
      ensures r.Failure? && !IsPermillSymbol(cc, permillSymbol) ==>
        r.error == InvalidCharacter(InvalidCharacterException(PermillSymbolLabel, permillSymbol))
      ensures r.Failure? && IsPermillSymbol(cc, permillSymbol) ==>
        exists k :: this.(permillSymbol := permillSymbol).IsFirstClash(k)
                    && r.error == this.(permillSymbol := permillSymbol).ClashError(k)
    {
      if this.permillSymbol == permillSymbol then Success(this)
      else
        var c :- CheckPermillSymbol(cc, permillSymbol);
        Construct(this.(permillSymbol := c))
    }

    // Text form .......................................................................................

    /** The twelve tokens of the text form, in declaration order; a character is a one-character token. */
    function Tokens(): (ts: seq<string>)
      ensures |ts| == |Fields|
    {
      [[negativeSign], [positiveSign], [zeroDigit], currencySymbol, [decimalSeparator], exponentSymbol,
       [groupSeparator], infinitySymbol, [monetaryDecimalSeparator], nanSymbol, [percentSymbol], [permillSymbol]]
    }

    /** text(): the tokens as a comma-separated list; reading it back gives the same tokens. */
    function Text(): (r: string)
      ensures Csv.Decode(r) == Some(Tokens())
    {
      Csv.DecodeEncode(Tokens());
      Csv.Encode(Tokens())
    }
  }

  // Construction ..........................................................................................

  /** The private constructor: the distinctness checks in their fixed order; the first failing one is reported. */
  function Construct(candidate: DecimalNumberSymbols): (r: Result<DecimalNumberSymbols, Error>)
    ensures r.Success? <==> candidate.Distinct()
    ensures r.Success? ==> r.value == candidate
    ensures r.Failure? ==> exists k :: candidate.IsFirstClash(k) && r.error == candidate.ClashError(k)
  {
    DistinctIffNoClash(candidate);
    match candidate.FirstClash(0)
    case None => Success(candidate)
    case Some(k) => Failure(candidate.ClashError(k))
  }

  /** with(): every argument is checked in argument order, then the constructor checks distinctness. */
  function With(
    cc: CharClasses,
    negativeSign: char,
    positiveSign: char,
    zeroDigit: char,
    currencySymbol: Option<string>,
    decimalSeparator: char,
    exponentSymbol: Option<string>,
    groupSeparator: char,
    infinitySymbol: Option<string>,
    monetaryDecimalSeparator: char,
    nanSymbol: Option<string>,
    percentSymbol: char,
    permillSymbol: char): (r: Result<DecimalNumberSymbols, Error>)
    ensures r.Success? ==> r.value.Valid(cc)
    ensures r.Success? ==>
      && currencySymbol.Some? && exponentSymbol.Some? && infinitySymbol.Some? && nanSymbol.Some?
      && r.value == DecimalNumberSymbols(negativeSign, positiveSign, zeroDigit, currencySymbol.value, decimalSeparator,
                                      exponentSymbol.value, groupSeparator, infinitySymbol.value, monetaryDecimalSeparator,
                                      nanSymbol.value, percentSymbol, permillSymbol)
  {
    var n :- CheckCharacter(cc, NegativeSignLabel, negativeSign);
    var p :- CheckCharacter(cc, PositiveSignLabel, positiveSign);
    var z :- CheckZeroDigit(cc, zeroDigit);
    var c :- CheckString(CurrencySymbolLabel, currencySymbol);
    var d :- CheckCharacter(cc, DecimalSeparatorLabel, decimalSeparator);
    var e :- CheckString(ExponentSymbolLabel, exponentSymbol);
    var g :- CheckCharacter(cc, GroupSeparatorLabel, groupSeparator);
    var i :- CheckString(InfinitySymbolLabel, infinitySymbol);
    var m :- CheckCharacter(cc, MonetaryDecimalSeparatorLabel, monetaryDecimalSeparator);
    var nan :- CheckString(NanSymbolLabel, nanSymbol);
    var pc :- CheckCharacter(cc, PercentSymbolLabel, percentSymbol);
    var pm :- CheckPermillSymbol(cc, permillSymbol);
    Construct(DecimalNumberSymbols(n, p, z, c, d, e, g, i, m, nan, pc, pm))
  }

  // Parsing ...............................................................................................

  /** stringToChar: a token for a character property must hold exactly one character. */
  function StringToChar(property: string, s: string): (r: Result<char, Error>)
    ensures r.Success? <==> |s| == 1
    ensures r.Success? ==> r.value == s[0]
    ensures |s| == 0 ==> r == Failure(EmptyText(property))
    ensures |s| > 1 ==> r == Failure(WrongLength(property, |s|))
  {
    if |s| == 0 then Failure(EmptyText(property))
    else if |s| == 1 then Success(s[0])
    else Failure(WrongLength(property, |s|))
  }

  /** parse(): splits the text into 12 tokens, converts the character tokens in order, then calls with(). */
  function Parse(cc: CharClasses, text: string): (r: Result<DecimalNumberSymbols, Error>)
    ensures Csv.Decode(text).None? ==> r == Failure(MalformedCsv)
    ensures Csv.Decode(text).Some? && |Csv.Decode(text).value| != 12 ==>
      r == Failure(WrongTokenCount(|Csv.Decode(text).value|))
    ensures Csv.Decode(text).Some? && |Csv.Decode(text).value| == 12 ==> r == ParseTokens(cc, Csv.Decode(text).value)
    ensures r.Success? ==> r.value.Valid(cc) && Csv.Decode(text) == Some(r.value.Tokens())
  {
    match Csv.Decode(text)
    case None => Failure(MalformedCsv)
    case Some(tokens) =>
      if |tokens| != 12 then Failure(WrongTokenCount(|tokens|)) else ParseTokens(cc, tokens)
  }

  /** The part of parse() after the split: the character tokens in order, then with(). */
  function ParseTokens(cc: CharClasses, tokens: seq<string>): (r: Result<DecimalNumberSymbols, Error>)
    requires |tokens| == 12
    ensures r.Success? ==> r.value.Valid(cc) && r.value.Tokens() == tokens
  {
    var n :- StringToChar(NegativeSignLabel, tokens[0]);
    var p :- StringToChar(PositiveSignLabel, tokens[1]);
    var z :- StringToChar(ZeroDigitLabel, tokens[2]);
    var d :- StringToChar(DecimalSeparatorLabel, tokens[4]);
    var g :- StringToChar(GroupSeparatorLabel, tokens[6]);
    var m :- StringToChar(MonetaryDecimalSeparatorLabel, tokens[8]);
    var pc :- StringToChar(PercentSymbolLabel, tokens[10]);
    var pm :- StringToChar(PermillSymbolLabel, tokens[11]);
    var r := With(cc, n, p, z, Some(tokens[3]), d, Some(tokens[5]), g, Some(tokens[7]), m, Some(tokens[9]), pc, pm);
    if r.Success? then TokensOfFields(r.value, tokens); r else r
  }

  /** A record whose characters are the one-character tokens and whose texts are the other tokens has those tokens. */
  lemma TokensOfFields(s: DecimalNumberSymbols, tokens: seq<string>)
    requires |tokens| == 12
    requires |tokens[0]| == 1 && s.negativeSign == tokens[0][0]
    requires |tokens[1]| == 1 && s.positiveSign == tokens[1][0]
    requires |tokens[2]| == 1 && s.zeroDigit == tokens[2][0]
    requires s.currencySymbol == tokens[3]
    requires |tokens[4]| == 1 && s.decimalSeparator == tokens[4][0]
    requires s.exponentSymbol == tokens[5]
    requires |tokens[6]| == 1 && s.groupSeparator == tokens[6][0]
    requires s.infinitySymbol == tokens[7]
    requires |tokens[8]| == 1 && s.monetaryDecimalSeparator == tokens[8][0]
    requires s.nanSymbol == tokens[9]
    requires |tokens[10]| == 1 && s.percentSymbol == tokens[10][0]
    requires |tokens[11]| == 1 && s.permillSymbol == tokens[11][0]
    ensures s.Tokens() == tokens
  {
    forall i | 0 <= i < 12 && |tokens[i]| == 1 ensures [tokens[i][0]] == tokens[i] { }
  }

  // Lemmas ................................................................................................

  /** Every check compares two different compared fields that are not the exempt pair. */
  lemma ChecksAreComparisons(k: nat)
    requires k < |Checks|
    ensures IsCompared(Checks[k].0) && IsCompared(Checks[k].1) && Checks[k].0 != Checks[k].1
            && !IsExempt(Checks[k].0, Checks[k].1)
  {
  }

  /** Every pair of compared fields, the exempt pair aside, is checked in one order or the other. */
  lemma ChecksCoverPairs(f: Field, g: Field)
    requires IsCompared(f) && IsCompared(g) && f != g && !IsExempt(f, g)
    ensures exists k | 0 <= k < |Checks| :: Checks[k] == (f, g) || Checks[k] == (g, f)
  {
    var k := IndexOfCheck(f, g);
  }

  function IndexOfCheck(f: Field, g: Field): (k: nat)
    requires IsCompared(f) && IsCompared(g) && f != g && !IsExempt(f, g)
    ensures k < |Checks| && (Checks[k] == (f, g) || Checks[k] == (g, f))
  {
    if (f, g) in Checks then IndexIn((f, g), Checks) else IndexIn((g, f), Checks)
  }

  function IndexIn<T(==)>(x: T, s: seq<T>): (k: nat)
    requires x in s
    ensures k < |s| && s[k] == x
  {
    if s[0] == x then 0 else 1 + IndexIn(x, s[1..])
  }

  /** The constructor's checks all pass exactly when the compared characters are distinct. */
  lemma DistinctIffNoClash(s: DecimalNumberSymbols)
    ensures s.Distinct() <==> s.FirstClash(0).None?
  {
    if s.Distinct() {
      forall k | 0 <= k < |Checks| ensures !s.Clash(k) {
        ChecksAreComparisons(k);
      }
    }
    if s.FirstClash(0).None? {
      forall f: Field, g: Field | IsCompared(f) && IsCompared(g) && f != g && !IsExempt(f, g)
        ensures s.Get(f) != s.Get(g)
      {
        var k := IndexOfCheck(f, g);
        assert !s.Clash(k);
      }
    }
  }

  /** The arguments of with() as a sequence, in argument order. */
  function WithArgs(
    negativeSign: char, positiveSign: char, zeroDigit: char, currencySymbol: Option<string>,
    decimalSeparator: char, exponentSymbol: Option<string>, groupSeparator: char, infinitySymbol: Option<string>,
    monetaryDecimalSeparator: char, nanSymbol: Option<string>, percentSymbol: char, permillSymbol: char): (args: seq<Arg>)
    ensures |args| == |Fields|
  {
    [CharArg(negativeSign), CharArg(positiveSign), CharArg(zeroDigit), TextArg(currencySymbol),
     CharArg(decimalSeparator), TextArg(exponentSymbol), CharArg(groupSeparator), TextArg(infinitySymbol),
     CharArg(monetaryDecimalSeparator), TextArg(nanSymbol), CharArg(percentSymbol), CharArg(permillSymbol)]
  }

  /** Position i of with()'s arguments holds the argument of the i-th property. */
  lemma ArgumentPositions(
    negativeSign: char, positiveSign: char, zeroDigit: char, currencySymbol: Option<string>,
    decimalSeparator: char, exponentSymbol: Option<string>, groupSeparator: char, infinitySymbol: Option<string>,
    monetaryDecimalSeparator: char, nanSymbol: Option<string>, percentSymbol: char, permillSymbol: char,
    args: seq<Arg>)
    requires args == WithArgs(negativeSign, positiveSign, zeroDigit, currencySymbol, decimalSeparator, exponentSymbol, groupSeparator, infinitySymbol, monetaryDecimalSeparator, nanSymbol, percentSymbol, permillSymbol)
    ensures Fields[0] == NegativeSign && args[0] == CharArg(negativeSign)
    ensures Fields[1] == PositiveSign && args[1] == CharArg(positiveSign)
    ensures Fields[2] == ZeroDigit && args[2] == CharArg(zeroDigit)
    ensures Fields[3] == CurrencySymbol && args[3] == TextArg(currencySymbol)
    ensures Fields[4] == DecimalSeparator && args[4] == CharArg(decimalSeparator)
    ensures Fields[5] == ExponentSymbol && args[5] == TextArg(exponentSymbol)
    ensures Fields[6] == GroupSeparator && args[6] == CharArg(groupSeparator)
    ensures Fields[7] == InfinitySymbol && args[7] == TextArg(infinitySymbol)
    ensures Fields[8] == MonetaryDecimalSeparator && args[8] == CharArg(monetaryDecimalSeparator)
    ensures Fields[9] == NanSymbol && args[9] == TextArg(nanSymbol)
    ensures Fields[10] == PercentSymbol && args[10] == CharArg(percentSymbol)
    ensures Fields[11] == PermillSymbol && args[11] == CharArg(permillSymbol)
  {
    FieldOrder();
  }

  /** Each argument is checked by its own property's rule. */
  lemma ArgumentChecksOneToFour(cc: CharClasses, negativeSign: char, positiveSign: char, zeroDigit: char, currencySymbol: Option<string>)
    ensures WithCheck(cc, NegativeSign, CharArg(negativeSign)).Failure? <==> CheckCharacter(cc, NegativeSignLabel, negativeSign).Failure?
    ensures WithCheck(cc, NegativeSign, CharArg(negativeSign)).Failure? ==> WithCheck(cc, NegativeSign, CharArg(negativeSign)).error == CheckCharacter(cc, NegativeSignLabel, negativeSign).error
    ensures WithCheck(cc, PositiveSign, CharArg(positiveSign)).Failure? <==> CheckCharacter(cc, PositiveSignLabel, positiveSign).Failure?
    ensures WithCheck(cc, PositiveSign, CharArg(positiveSign)).Failure? ==> WithCheck(cc, PositiveSign, CharArg(positiveSign)).error == CheckCharacter(cc, PositiveSignLabel, positiveSign).error
    ensures WithCheck(cc, ZeroDigit, CharArg(zeroDigit)).Failure? <==> CheckZeroDigit(cc, zeroDigit).Failure?
    ensures WithCheck(cc, ZeroDigit, CharArg(zeroDigit)).Failure? ==> WithCheck(cc, ZeroDigit, CharArg(zeroDigit)).error == CheckZeroDigit(cc, zeroDigit).error
    ensures WithCheck(cc, CurrencySymbol, TextArg(currencySymbol)).Failure? <==> CheckString(CurrencySymbolLabel, currencySymbol).Failure?
    ensures WithCheck(cc, CurrencySymbol, TextArg(currencySymbol)).Failure? ==> WithCheck(cc, CurrencySymbol, TextArg(currencySymbol)).error == CheckString(CurrencySymbolLabel, currencySymbol).error
  {
  }

  lemma ArgumentChecksFiveToEight(cc: CharClasses, decimalSeparator: char, exponentSymbol: Option<string>, groupSeparator: char, infinitySymbol: Option<string>)
    ensures WithCheck(cc, DecimalSeparator, CharArg(decimalSeparator)).Failure? <==> CheckCharacter(cc, DecimalSeparatorLabel, decimalSeparator).Failure?
    ensures WithCheck(cc, DecimalSeparator, CharArg(decimalSeparator)).Failure? ==> WithCheck(cc, DecimalSeparator, CharArg(decimalSeparator)).error == CheckCharacter(cc, DecimalSeparatorLabel, decimalSeparator).error
    ensures WithCheck(cc, ExponentSymbol, TextArg(exponentSymbol)).Failure? <==> CheckString(ExponentSymbolLabel, exponentSymbol).Failure?
    ensures WithCheck(cc, ExponentSymbol, TextArg(exponentSymbol)).Failure? ==> WithCheck(cc, ExponentSymbol, TextArg(exponentSymbol)).error == CheckString(ExponentSymbolLabel, exponentSymbol).error
    ensures WithCheck(cc, GroupSeparator, CharArg(groupSeparator)).Failure? <==> CheckCharacter(cc, GroupSeparatorLabel, groupSeparator).Failure?
    ensures WithCheck(cc, GroupSeparator, CharArg(groupSeparator)).Failure? ==> WithCheck(cc, GroupSeparator, CharArg(groupSeparator)).error == CheckCharacter(cc, GroupSeparatorLabel, groupSeparator).error
    ensures WithCheck(cc, InfinitySymbol, TextArg(infinitySymbol)).Failure? <==> CheckString(InfinitySymbolLabel, infinitySymbol).Failure?
    ensures WithCheck(cc, InfinitySymbol, TextArg(infinitySymbol)).Failure? ==> WithCheck(cc, InfinitySymbol, TextArg(infinitySymbol)).error == CheckString(InfinitySymbolLabel, infinitySymbol).error
  {
  }

  lemma ArgumentChecksNineToTwelve(cc: CharClasses, monetaryDecimalSeparator: char, nanSymbol: Option<string>, percentSymbol: char, permillSymbol: char)
    ensures WithCheck(cc, MonetaryDecimalSeparator, CharArg(monetaryDecimalSeparator)).Failure? <==> CheckCharacter(cc, MonetaryDecimalSeparatorLabel, monetaryDecimalSeparator).Failure?
    ensures WithCheck(cc, MonetaryDecimalSeparator, CharArg(monetaryDecimalSeparator)).Failure? ==> WithCheck(cc, MonetaryDecimalSeparator, CharArg(monetaryDecimalSeparator)).error == CheckCharacter(cc, MonetaryDecimalSeparatorLabel, monetaryDecimalSeparator).error
    ensures WithCheck(cc, NanSymbol, TextArg(nanSymbol)).Failure? <==> CheckString(NanSymbolLabel, nanSymbol).Failure?
    ensures WithCheck(cc, NanSymbol, TextArg(nanSymbol)).Failure? ==> WithCheck(cc, NanSymbol, TextArg(nanSymbol)).error == CheckString(NanSymbolLabel, nanSymbol).error
    ensures WithCheck(cc, PercentSymbol, CharArg(percentSymbol)).Failure? <==> CheckCharacter(cc, PercentSymbolLabel, percentSymbol).Failure?
    ensures WithCheck(cc, PercentSymbol, CharArg(percentSymbol)).Failure? ==> WithCheck(cc, PercentSymbol, CharArg(percentSymbol)).error == CheckCharacter(cc, PercentSymbolLabel, percentSymbol).error
    ensures WithCheck(cc, PermillSymbol, CharArg(permillSymbol)).Failure? <==> CheckPermillSymbol(cc, permillSymbol).Failure?
    ensures WithCheck(cc, PermillSymbol, CharArg(permillSymbol)).Failure? ==> WithCheck(cc, PermillSymbol, CharArg(permillSymbol)).error == CheckPermillSymbol(cc, permillSymbol).error
  {
  }

  /** with() reports the first argument, in argument order, that fails its property's rule. */
  lemma WithReportsFirstInvalid(
    cc: CharClasses,
    negativeSign: char, positiveSign: char, zeroDigit: char, currencySymbol: Option<string>,
    decimalSeparator: char, exponentSymbol: Option<string>, groupSeparator: char, infinitySymbol: Option<string>,
    monetaryDecimalSeparator: char, nanSymbol: Option<string>, percentSymbol: char, permillSymbol: char,
    j: nat)
    requires FirstInvalidArgument(cc, WithArgs(negativeSign, positiveSign, zeroDigit, currencySymbol, decimalSeparator, exponentSymbol,
                        groupSeparator, infinitySymbol, monetaryDecimalSeparator, nanSymbol, percentSymbol, permillSymbol), 0) == Some(j)
    ensures With(cc, negativeSign, positiveSign, zeroDigit, currencySymbol, decimalSeparator, exponentSymbol,
                 groupSeparator, infinitySymbol, monetaryDecimalSeparator, nanSymbol, percentSymbol, permillSymbol) ==
            Failure(WithCheck(cc, Fields[j], WithArgs(negativeSign, positiveSign, zeroDigit, currencySymbol, decimalSeparator, exponentSymbol,
                        groupSeparator, infinitySymbol, monetaryDecimalSeparator, nanSymbol, percentSymbol, permillSymbol)[j]).error)
  {
    if j < 4 {
      WithFailsInFirstFour(cc, negativeSign, positiveSign, zeroDigit, currencySymbol, decimalSeparator, exponentSymbol, groupSeparator, infinitySymbol, monetaryDecimalSeparator, nanSymbol, percentSymbol, permillSymbol, j);
    } else if j < 8 {
      WithFailsInSecondFour(cc, negativeSign, positiveSign, zeroDigit, currencySymbol, decimalSeparator, exponentSymbol, groupSeparator, infinitySymbol, monetaryDecimalSeparator, nanSymbol, percentSymbol, permillSymbol, j);
    } else {
      WithFailsInLastFour(cc, negativeSign, positiveSign, zeroDigit, currencySymbol, decimalSeparator, exponentSymbol, groupSeparator, infinitySymbol, monetaryDecimalSeparator, nanSymbol, percentSymbol, permillSymbol, j);
    }
  }

  // with() stops at the first check that fails, one lemma per argument.

  lemma WithStopsAtNegativeSign(
    cc: CharClasses,
    negativeSign: char, positiveSign: char, zeroDigit: char, currencySymbol: Option<string>,
    decimalSeparator: char, exponentSymbol: Option<string>, groupSeparator: char, infinitySymbol: Option<string>,
    monetaryDecimalSeparator: char, nanSymbol: Option<string>, percentSymbol: char, permillSymbol: char)
    requires CheckCharacter(cc, NegativeSignLabel, negativeSign).Failure?
    ensures With(cc, negativeSign, positiveSign, zeroDigit, currencySymbol, decimalSeparator, exponentSymbol, groupSeparator, infinitySymbol, monetaryDecimalSeparator, nanSymbol, percentSymbol, permillSymbol) == Failure(CheckCharacter(cc, NegativeSignLabel, negativeSign).error)
  {
  }

  lemma WithStopsAtPositiveSign(
    cc: CharClasses,
    negativeSign: char, positiveSign: char, zeroDigit: char, currencySymbol: Option<string>,
    decimalSeparator: char, exponentSymbol: Option<string>, groupSeparator: char, infinitySymbol: Option<string>,
    monetaryDecimalSeparator: char, nanSymbol: Option<string>, percentSymbol: char, permillSymbol: char)
    requires CheckCharacter(cc, NegativeSignLabel, negativeSign).Success?
    requires CheckCharacter(cc, PositiveSignLabel, positiveSign).Failure?
    ensures With(cc, negativeSign, positiveSign, zeroDigit, currencySymbol, decimalSeparator, exponentSymbol, groupSeparator, infinitySymbol, monetaryDecimalSeparator, nanSymbol, percentSymbol, permillSymbol) == Failure(CheckCharacter(cc, PositiveSignLabel, positiveSign).error)
  {
  }

  lemma WithStopsAtZeroDigit(
    cc: CharClasses,
    negativeSign: char, positiveSign: char, zeroDigit: char, currencySymbol: Option<string>,
    decimalSeparator: char, exponentSymbol: Option<string>, groupSeparator: char, infinitySymbol: Option<string>,
    monetaryDecimalSeparator: char, nanSymbol: Option<string>, percentSymbol: char, permillSymbol: char)
    requires CheckCharacter(cc, NegativeSignLabel, negativeSign).Success?
    requires CheckCharacter(cc, PositiveSignLabel, positiveSign).Success?
    requires CheckZeroDigit(cc, zeroDigit).Failure?
    ensures With(cc, negativeSign, positiveSign, zeroDigit, currencySymbol, decimalSeparator, exponentSymbol, groupSeparator, infinitySymbol, monetaryDecimalSeparator, nanSymbol, percentSymbol, permillSymbol) == Failure(CheckZeroDigit(cc, zeroDigit).error)
  {
  }

  lemma WithStopsAtCurrencySymbol(
    cc: CharClasses,
    negativeSign: char, positiveSign: char, zeroDigit: char, currencySymbol: Option<string>,
    decimalSeparator: char, exponentSymbol: Option<string>, groupSeparator: char, infinitySymbol: Option<string>,
    monetaryDecimalSeparator: char, nanSymbol: Option<string>, percentSymbol: char, permillSymbol: char)
    requires CheckCharacter(cc, NegativeSignLabel, negativeSign).Success?
    requires CheckCharacter(cc, PositiveSignLabel, positiveSign).Success?
    requires CheckZeroDigit(cc, zeroDigit).Success?
    requires CheckString(CurrencySymbolLabel, currencySymbol).Failure?
    ensures With(cc, negativeSign, positiveSign, zeroDigit, currencySymbol, decimalSeparator, exponentSymbol, groupSeparator, infinitySymbol, monetaryDecimalSeparator, nanSymbol, percentSymbol, permillSymbol) == Failure(CheckString(CurrencySymbolLabel, currencySymbol).error)
  {
  }

  lemma WithStopsAtDecimalSeparator(
    cc: CharClasses,
    negativeSign: char, positiveSign: char, zeroDigit: char, currencySymbol: Option<string>,
    decimalSeparator: char, exponentSymbol: Option<string>, groupSeparator: char, infinitySymbol: Option<string>,
    monetaryDecimalSeparator: char, nanSymbol: Option<string>, percentSymbol: char, permillSymbol: char)
    requires CheckCharacter(cc, NegativeSignLabel, negativeSign).Success?
    requires CheckCharacter(cc, PositiveSignLabel, positiveSign).Success?
    requires CheckZeroDigit(cc, zeroDigit).Success?
    requires CheckString(CurrencySymbolLabel, currencySymbol).Success?
    requires CheckCharacter(cc, DecimalSeparatorLabel, decimalSeparator).Failure?
    ensures With(cc, negativeSign, positiveSign, zeroDigit, currencySymbol, decimalSeparator, exponentSymbol, groupSeparator, infinitySymbol, monetaryDecimalSeparator, nanSymbol, percentSymbol, permillSymbol) == Failure(CheckCharacter(cc, DecimalSeparatorLabel, decimalSeparator).error)
  {
  }

  lemma WithStopsAtExponentSymbol(
    cc: CharClasses,
    negativeSign: char, positiveSign: char, zeroDigit: char, currencySymbol: Option<string>,
    decimalSeparator: char, exponentSymbol: Option<string>, groupSeparator: char, infinitySymbol: Option<string>,
    monetaryDecimalSeparator: char, nanSymbol: Option<string>, percentSymbol: char, permillSymbol: char)
    requires CheckCharacter(cc, NegativeSignLabel, negativeSign).Success?
    requires CheckCharacter(cc, PositiveSignLabel, positiveSign).Success?
    requires CheckZeroDigit(cc, zeroDigit).Success?
    requires CheckString(CurrencySymbolLabel, currencySymbol).Success?
    requires CheckCharacter(cc, DecimalSeparatorLabel, decimalSeparator).Success?
    requires CheckString(ExponentSymbolLabel, exponentSymbol).Failure?
    ensures With(cc, negativeSign, positiveSign, zeroDigit, currencySymbol, decimalSeparator, exponentSymbol, groupSeparator, infinitySymbol, monetaryDecimalSeparator, nanSymbol, percentSymbol, permillSymbol) == Failure(CheckString(ExponentSymbolLabel, exponentSymbol).error)
  {
  }

  lemma WithStopsAtGroupSeparator(
    cc: CharClasses,
    negativeSign: char, positiveSign: char, zeroDigit: char, currencySymbol: Option<string>,
    decimalSeparator: char, exponentSymbol: Option<string>, groupSeparator: char, infinitySymbol: Option<string>,
    monetaryDecimalSeparator: char, nanSymbol: Option<string>, percentSymbol: char, permillSymbol: char)
    requires CheckCharacter(cc, NegativeSignLabel, negativeSign).Success?
    requires CheckCharacter(cc, PositiveSignLabel, positiveSign).Success?
    requires CheckZeroDigit(cc, zeroDigit).Success?
    requires CheckString(CurrencySymbolLabel, currencySymbol).Success?
    requires CheckCharacter(cc, DecimalSeparatorLabel, decimalSeparator).Success?
    requires CheckString(ExponentSymbolLabel, exponentSymbol).Success?
    requires CheckCharacter(cc, GroupSeparatorLabel, groupSeparator).Failure?
    ensures With(cc, negativeSign, positiveSign, zeroDigit, currencySymbol, decimalSeparator, exponentSymbol, groupSeparator, infinitySymbol, monetaryDecimalSeparator, nanSymbol, percentSymbol, permillSymbol) == Failure(CheckCharacter(cc, GroupSeparatorLabel, groupSeparator).error)
  {
  }

  lemma WithStopsAtInfinitySymbol(
    cc: CharClasses,
    negativeSign: char, positiveSign: char, zeroDigit: char, currencySymbol: Option<string>,
    decimalSeparator: char, exponentSymbol: Option<string>, groupSeparator: char, infinitySymbol: Option<string>,
    monetaryDecimalSeparator: char, nanSymbol: Option<string>, percentSymbol: char, permillSymbol: char)
    requires CheckCharacter(cc, NegativeSignLabel, negativeSign).Success?
    requires CheckCharacter(cc, PositiveSignLabel, positiveSign).Success?
    requires CheckZeroDigit(cc, zeroDigit).Success?
    requires CheckString(CurrencySymbolLabel, currencySymbol).Success?
    requires CheckCharacter(cc, DecimalSeparatorLabel, decimalSeparator).Success?
    requires CheckString(ExponentSymbolLabel, exponentSymbol).Success?
    requires CheckCharacter(cc, GroupSeparatorLabel, groupSeparator).Success?
    requires CheckString(InfinitySymbolLabel, infinitySymbol).Failure?
    ensures With(cc, negativeSign, positiveSign, zeroDigit, currencySymbol, decimalSeparator, exponentSymbol, groupSeparator, infinitySymbol, monetaryDecimalSeparator, nanSymbol, percentSymbol, permillSymbol) == Failure(CheckString(InfinitySymbolLabel, infinitySymbol).error)
  {
  }

  lemma WithStopsAtMonetaryDecimalSeparator(
    cc: CharClasses,
    negativeSign: char, positiveSign: char, zeroDigit: char, currencySymbol: Option<string>,
    decimalSeparator: char, exponentSymbol: Option<string>, groupSeparator: char, infinitySymbol: Option<string>,
    monetaryDecimalSeparator: char, nanSymbol: Option<string>, percentSymbol: char, permillSymbol: char)
    requires CheckCharacter(cc, NegativeSignLabel, negativeSign).Success?
    requires CheckCharacter(cc, PositiveSignLabel, positiveSign).Success?
    requires CheckZeroDigit(cc, zeroDigit).Success?
    requires CheckString(CurrencySymbolLabel, currencySymbol).Success?
    requires CheckCharacter(cc, DecimalSeparatorLabel, decimalSeparator).Success?
    requires CheckString(ExponentSymbolLabel, exponentSymbol).Success?
    requires CheckCharacter(cc, GroupSeparatorLabel, groupSeparator).Success?
    requires CheckString(InfinitySymbolLabel, infinitySymbol).Success?
    requires CheckCharacter(cc, MonetaryDecimalSeparatorLabel, monetaryDecimalSeparator).Failure?
    ensures With(cc, negativeSign, positiveSign, zeroDigit, currencySymbol, decimalSeparator, exponentSymbol, groupSeparator, infinitySymbol, monetaryDecimalSeparator, nanSymbol, percentSymbol, permillSymbol) == Failure(CheckCharacter(cc, MonetaryDecimalSeparatorLabel, monetaryDecimalSeparator).error)
  {
  }

  lemma WithStopsAtNanSymbol(
    cc: CharClasses,
    negativeSign: char, positiveSign: char, zeroDigit: char, currencySymbol: Option<string>,
    decimalSeparator: char, exponentSymbol: Option<string>, groupSeparator: char, infinitySymbol: Option<string>,
    monetaryDecimalSeparator: char, nanSymbol: Option<string>, percentSymbol: char, permillSymbol: char)
    requires CheckCharacter(cc, NegativeSignLabel, negativeSign).Success?
    requires CheckCharacter(cc, PositiveSignLabel, positiveSign).Success?
    requires CheckZeroDigit(cc, zeroDigit).Success?
    requires CheckString(CurrencySymbolLabel, currencySymbol).Success?
    requires CheckCharacter(cc, DecimalSeparatorLabel, decimalSeparator).Success?
    requires CheckString(ExponentSymbolLabel, exponentSymbol).Success?
    requires CheckCharacter(cc, GroupSeparatorLabel, groupSeparator).Success?
    requires CheckString(InfinitySymbolLabel, infinitySymbol).Success?
    requires CheckCharacter(cc, MonetaryDecimalSeparatorLabel, monetaryDecimalSeparator).Success?
    requires CheckString(NanSymbolLabel, nanSymbol).Failure?
    ensures With(cc, negativeSign, positiveSign, zeroDigit, currencySymbol, decimalSeparator, exponentSymbol, groupSeparator, infinitySymbol, monetaryDecimalSeparator, nanSymbol, percentSymbol, permillSymbol) == Failure(CheckString(NanSymbolLabel, nanSymbol).error)
  {
  }

  lemma WithStopsAtPercentSymbol(
    cc: CharClasses,
    negativeSign: char, positiveSign: char, zeroDigit: char, currencySymbol: Option<string>,
    decimalSeparator: char, exponentSymbol: Option<string>, groupSeparator: char, infinitySymbol: Option<string>,
    monetaryDecimalSeparator: char, nanSymbol: Option<string>, percentSymbol: char, permillSymbol: char)
    requires CheckCharacter(cc, NegativeSignLabel, negativeSign).Success?
    requires CheckCharacter(cc, PositiveSignLabel, positiveSign).Success?
    requires CheckZeroDigit(cc, zeroDigit).Success?
    requires CheckString(CurrencySymbolLabel, currencySymbol).Success?
    requires CheckCharacter(cc, DecimalSeparatorLabel, decimalSeparator).Success?
    requires CheckString(ExponentSymbolLabel, exponentSymbol).Success?
    requires CheckCharacter(cc, GroupSeparatorLabel, groupSeparator).Success?
    requires CheckString(InfinitySymbolLabel, infinitySymbol).Success?
    requires CheckCharacter(cc, MonetaryDecimalSeparatorLabel, monetaryDecimalSeparator).Success?
    requires CheckString(NanSymbolLabel, nanSymbol).Success?
    requires CheckCharacter(cc, PercentSymbolLabel, percentSymbol).Failure?
    ensures With(cc, negativeSign, positiveSign, zeroDigit, currencySymbol, decimalSeparator, exponentSymbol, groupSeparator, infinitySymbol, monetaryDecimalSeparator, nanSymbol, percentSymbol, permillSymbol) == Failure(CheckCharacter(cc, PercentSymbolLabel, percentSymbol).error)
  {
  }

  lemma WithStopsAtPermillSymbol(
    cc: CharClasses,
    negativeSign: char, positiveSign: char, zeroDigit: char, currencySymbol: Option<string>,
    decimalSeparator: char, exponentSymbol: Option<string>, groupSeparator: char, infinitySymbol: Option<string>,
    monetaryDecimalSeparator: char, nanSymbol: Option<string>, percentSymbol: char, permillSymbol: char)
    requires CheckCharacter(cc, NegativeSignLabel, negativeSign).Success?
    requires CheckCharacter(cc, PositiveSignLabel, positiveSign).Success?
    requires CheckZeroDigit(cc, zeroDigit).Success?
    requires CheckString(CurrencySymbolLabel, currencySymbol).Success?
    requires CheckCharacter(cc, DecimalSeparatorLabel, decimalSeparator).Success?
    requires CheckString(ExponentSymbolLabel, exponentSymbol).Success?
    requires CheckCharacter(cc, GroupSeparatorLabel, groupSeparator).Success?
    requires CheckString(InfinitySymbolLabel, infinitySymbol).Success?
    requires CheckCharacter(cc, MonetaryDecimalSeparatorLabel, monetaryDecimalSeparator).Success?
    requires CheckString(NanSymbolLabel, nanSymbol).Success?
    requires CheckCharacter(cc, PercentSymbolLabel, percentSymbol).Success?
    requires CheckPermillSymbol(cc, permillSymbol).Failure?
    ensures With(cc, negativeSign, positiveSign, zeroDigit, currencySymbol, decimalSeparator, exponentSymbol, groupSeparator, infinitySymbol, monetaryDecimalSeparator, nanSymbol, percentSymbol, permillSymbol) == Failure(CheckPermillSymbol(cc, permillSymbol).error)
  {
  }

  /** with() failing at one of its first four arguments. */
  lemma WithFailsInFirstFour(
    cc: CharClasses,
    negativeSign: char, positiveSign: char, zeroDigit: char, currencySymbol: Option<string>,
    decimalSeparator: char, exponentSymbol: Option<string>, groupSeparator: char, infinitySymbol: Option<string>,
    monetaryDecimalSeparator: char, nanSymbol: Option<string>, percentSymbol: char, permillSymbol: char,
    j: nat)
    requires FirstInvalidArgument(cc, WithArgs(negativeSign, positiveSign, zeroDigit, currencySymbol, decimalSeparator, exponentSymbol,
                        groupSeparator, infinitySymbol, monetaryDecimalSeparator, nanSymbol, percentSymbol, permillSymbol), 0) == Some(j)
    requires j < 4
    ensures With(cc, negativeSign, positiveSign, zeroDigit, currencySymbol, decimalSeparator, exponentSymbol,
                 groupSeparator, infinitySymbol, monetaryDecimalSeparator, nanSymbol, percentSymbol, permillSymbol) ==
            Failure(WithCheck(cc, Fields[j], WithArgs(negativeSign, positiveSign, zeroDigit, currencySymbol, decimalSeparator, exponentSymbol,
                        groupSeparator, infinitySymbol, monetaryDecimalSeparator, nanSymbol, percentSymbol, permillSymbol)[j]).error)
  {
    var args := WithArgs(negativeSign, positiveSign, zeroDigit, currencySymbol, decimalSeparator, exponentSymbol,
                        groupSeparator, infinitySymbol, monetaryDecimalSeparator, nanSymbol, percentSymbol, permillSymbol);
    ArgumentPositions(negativeSign, positiveSign, zeroDigit, currencySymbol, decimalSeparator, exponentSymbol, groupSeparator, infinitySymbol, monetaryDecimalSeparator, nanSymbol, percentSymbol, permillSymbol, args);
    ArgumentChecksOneToFour(cc, negativeSign, positiveSign, zeroDigit, currencySymbol);
    if j == 0 {
      WithStopsAtNegativeSign(cc, negativeSign, positiveSign, zeroDigit, currencySymbol, decimalSeparator, exponentSymbol, groupSeparator, infinitySymbol, monetaryDecimalSeparator, nanSymbol, percentSymbol, permillSymbol);
    } else if j == 1 {
      WithStopsAtPositiveSign(cc, negativeSign, positiveSign, zeroDigit, currencySymbol, decimalSeparator, exponentSymbol, groupSeparator, infinitySymbol, monetaryDecimalSeparator, nanSymbol, percentSymbol, permillSymbol);
    } else if j == 2 {
      WithStopsAtZeroDigit(cc, negativeSign, positiveSign, zeroDigit, currencySymbol, decimalSeparator, exponentSymbol, groupSeparator, infinitySymbol, monetaryDecimalSeparator, nanSymbol, percentSymbol, permillSymbol);
    } else {
      WithStopsAtCurrencySymbol(cc, negativeSign, positiveSign, zeroDigit, currencySymbol, decimalSeparator, exponentSymbol, groupSeparator, infinitySymbol, monetaryDecimalSeparator, nanSymbol, percentSymbol, permillSymbol);
    }
  }

  /** with() failing at one of its second four arguments. */
  lemma WithFailsInSecondFour(
    cc: CharClasses,
    negativeSign: char, positiveSign: char, zeroDigit: char, currencySymbol: Option<string>,
    decimalSeparator: char, exponentSymbol: Option<string>, groupSeparator: char, infinitySymbol: Option<string>,
    monetaryDecimalSeparator: char, nanSymbol: Option<string>, percentSymbol: char, permillSymbol: char,
    j: nat)
    requires FirstInvalidArgument(cc, WithArgs(negativeSign, positiveSign, zeroDigit, currencySymbol, decimalSeparator, exponentSymbol,
                        groupSeparator, infinitySymbol, monetaryDecimalSeparator, nanSymbol, percentSymbol, permillSymbol), 0) == Some(j)
    requires 4 <= j < 8
    ensures With(cc, negativeSign, positiveSign, zeroDigit, currencySymbol, decimalSeparator, exponentSymbol,
                 groupSeparator, infinitySymbol, monetaryDecimalSeparator, nanSymbol, percentSymbol, permillSymbol) ==
            Failure(WithCheck(cc, Fields[j], WithArgs(negativeSign, positiveSign, zeroDigit, currencySymbol, decimalSeparator, exponentSymbol,
                        groupSeparator, infinitySymbol, monetaryDecimalSeparator, nanSymbol, percentSymbol, permillSymbol)[j]).error)
  {
    var args := WithArgs(negativeSign, positiveSign, zeroDigit, currencySymbol, decimalSeparator, exponentSymbol,
                        groupSeparator, infinitySymbol, monetaryDecimalSeparator, nanSymbol, percentSymbol, permillSymbol);
    ArgumentPositions(negativeSign, positiveSign, zeroDigit, currencySymbol, decimalSeparator, exponentSymbol, groupSeparator, infinitySymbol, monetaryDecimalSeparator, nanSymbol, percentSymbol, permillSymbol, args);
    ArgumentChecksOneToFour(cc, negativeSign, positiveSign, zeroDigit, currencySymbol);
    ArgumentChecksFiveToEight(cc, decimalSeparator, exponentSymbol, groupSeparator, infinitySymbol);
    if j == 4 {
      WithStopsAtDecimalSeparator(cc, negativeSign, positiveSign, zeroDigit, currencySymbol, decimalSeparator, exponentSymbol, groupSeparator, infinitySymbol, monetaryDecimalSeparator, nanSymbol, percentSymbol, permillSymbol);
    } else if j == 5 {
      WithStopsAtExponentSymbol(cc, negativeSign, positiveSign, zeroDigit, currencySymbol, decimalSeparator, exponentSymbol, groupSeparator, infinitySymbol, monetaryDecimalSeparator, nanSymbol, percentSymbol, permillSymbol);
    } else if j == 6 {
      WithStopsAtGroupSeparator(cc, negativeSign, positiveSign, zeroDigit, currencySymbol, decimalSeparator, exponentSymbol, groupSeparator, infinitySymbol, monetaryDecimalSeparator, nanSymbol, percentSymbol, permillSymbol);
    } else {
      WithStopsAtInfinitySymbol(cc, negativeSign, positiveSign, zeroDigit, currencySymbol, decimalSeparator, exponentSymbol, groupSeparator, infinitySymbol, monetaryDecimalSeparator, nanSymbol, percentSymbol, permillSymbol);
    }
  }

  /** with() failing at one of its last four arguments. */
  lemma WithFailsInLastFour(
    cc: CharClasses,
    negativeSign: char, positiveSign: char, zeroDigit: char, currencySymbol: Option<string>,
    decimalSeparator: char, exponentSymbol: Option<string>, groupSeparator: char, infinitySymbol: Option<string>,
    monetaryDecimalSeparator: char, nanSymbol: Option<string>, percentSymbol: char, permillSymbol: char,
    j: nat)
    requires FirstInvalidArgument(cc, WithArgs(negativeSign, positiveSign, zeroDigit, currencySymbol, decimalSeparator, exponentSymbol,
                        groupSeparator, infinitySymbol, monetaryDecimalSeparator, nanSymbol, percentSymbol, permillSymbol), 0) == Some(j)
    requires 8 <= j
    ensures With(cc, negativeSign, positiveSign, zeroDigit, currencySymbol, decimalSeparator, exponentSymbol,
                 groupSeparator, infinitySymbol, monetaryDecimalSeparator, nanSymbol, percentSymbol, permillSymbol) ==
            Failure(WithCheck(cc, Fields[j], WithArgs(negativeSign, positiveSign, zeroDigit, currencySymbol, decimalSeparator, exponentSymbol,
                        groupSeparator, infinitySymbol, monetaryDecimalSeparator, nanSymbol, percentSymbol, permillSymbol)[j]).error)
  {
    var args := WithArgs(negativeSign, positiveSign, zeroDigit, currencySymbol, decimalSeparator, exponentSymbol,
                        groupSeparator, infinitySymbol, monetaryDecimalSeparator, nanSymbol, percentSymbol, permillSymbol);
    ArgumentPositions(negativeSign, positiveSign, zeroDigit, currencySymbol, decimalSeparator, exponentSymbol, groupSeparator, infinitySymbol, monetaryDecimalSeparator, nanSymbol, percentSymbol, permillSymbol, args);
    ArgumentChecksOneToFour(cc, negativeSign, positiveSign, zeroDigit, currencySymbol);
    ArgumentChecksFiveToEight(cc, decimalSeparator, exponentSymbol, groupSeparator, infinitySymbol);
    ArgumentChecksNineToTwelve(cc, monetaryDecimalSeparator, nanSymbol, percentSymbol, permillSymbol);
    if j == 8 {
      WithStopsAtMonetaryDecimalSeparator(cc, negativeSign, positiveSign, zeroDigit, currencySymbol, decimalSeparator, exponentSymbol, groupSeparator, infinitySymbol, monetaryDecimalSeparator, nanSymbol, percentSymbol, permillSymbol);
    } else if j == 9 {
      WithStopsAtNanSymbol(cc, negativeSign, positiveSign, zeroDigit, currencySymbol, decimalSeparator, exponentSymbol, groupSeparator, infinitySymbol, monetaryDecimalSeparator, nanSymbol, percentSymbol, permillSymbol);
    } else if j == 10 {
      WithStopsAtPercentSymbol(cc, negativeSign, positiveSign, zeroDigit, currencySymbol, decimalSeparator, exponentSymbol, groupSeparator, infinitySymbol, monetaryDecimalSeparator, nanSymbol, percentSymbol, permillSymbol);
    } else {
      WithStopsAtPermillSymbol(cc, negativeSign, positiveSign, zeroDigit, currencySymbol, decimalSeparator, exponentSymbol, groupSeparator, infinitySymbol, monetaryDecimalSeparator, nanSymbol, percentSymbol, permillSymbol);
    }
  }

  /** When every argument meets its property's rule, with() answers what the constructor answers. */
  lemma WithOfValidArguments(
    cc: CharClasses,
    negativeSign: char, positiveSign: char, zeroDigit: char, currencySymbol: Option<string>,
    decimalSeparator: char, exponentSymbol: Option<string>, groupSeparator: char, infinitySymbol: Option<string>,
    monetaryDecimalSeparator: char, nanSymbol: Option<string>, percentSymbol: char, permillSymbol: char)
    requires FirstInvalidArgument(cc, WithArgs(negativeSign, positiveSign, zeroDigit, currencySymbol, decimalSeparator, exponentSymbol,
                        groupSeparator, infinitySymbol, monetaryDecimalSeparator, nanSymbol, percentSymbol, permillSymbol), 0).None?
    ensures currencySymbol.Some? && exponentSymbol.Some? && infinitySymbol.Some? && nanSymbol.Some?
    ensures With(cc, negativeSign, positiveSign, zeroDigit, currencySymbol, decimalSeparator, exponentSymbol,
                 groupSeparator, infinitySymbol, monetaryDecimalSeparator, nanSymbol, percentSymbol, permillSymbol) ==
            Construct(DecimalNumberSymbols(negativeSign, positiveSign, zeroDigit, currencySymbol.value,
                                           decimalSeparator, exponentSymbol.value, groupSeparator, infinitySymbol.value,
                                           monetaryDecimalSeparator, nanSymbol.value, percentSymbol, permillSymbol))
  {
    var args := WithArgs(negativeSign, positiveSign, zeroDigit, currencySymbol, decimalSeparator, exponentSymbol,
                        groupSeparator, infinitySymbol, monetaryDecimalSeparator, nanSymbol, percentSymbol, permillSymbol);
    ArgumentPositions(negativeSign, positiveSign, zeroDigit, currencySymbol, decimalSeparator, exponentSymbol, groupSeparator, infinitySymbol, monetaryDecimalSeparator, nanSymbol, percentSymbol, permillSymbol, args);
    ArgumentChecksOneToFour(cc, negativeSign, positiveSign, zeroDigit, currencySymbol);
    ArgumentChecksFiveToEight(cc, decimalSeparator, exponentSymbol, groupSeparator, infinitySymbol);
    ArgumentChecksNineToTwelve(cc, monetaryDecimalSeparator, nanSymbol, percentSymbol, permillSymbol);
    forall i | 0 <= i < 12 ensures WithCheck(cc, Fields[i], args[i]).Success? { }
    assert WithCheck(cc, Fields[3], args[3]).Success?;
    assert WithCheck(cc, Fields[5], args[5]).Success?;
    assert WithCheck(cc, Fields[7], args[7]).Success?;
    assert WithCheck(cc, Fields[9], args[9]).Success?;
  }

  /** with() succeeds exactly when all texts are present and the record it describes is valid. */
  lemma WithSucceedsIffValid(
    cc: CharClasses,
    negativeSign: char, positiveSign: char, zeroDigit: char, currencySymbol: Option<string>,
    decimalSeparator: char, exponentSymbol: Option<string>, groupSeparator: char, infinitySymbol: Option<string>,
    monetaryDecimalSeparator: char, nanSymbol: Option<string>, percentSymbol: char, permillSymbol: char)
    ensures
      With(cc, negativeSign, positiveSign, zeroDigit, currencySymbol, decimalSeparator, exponentSymbol,
           groupSeparator, infinitySymbol, monetaryDecimalSeparator, nanSymbol, percentSymbol, permillSymbol).Success?
      <==>
      && currencySymbol.Some? && exponentSymbol.Some? && infinitySymbol.Some? && nanSymbol.Some?
      && DecimalNumberSymbols(negativeSign, positiveSign, zeroDigit, currencySymbol.value,
                              decimalSeparator, exponentSymbol.value, groupSeparator, infinitySymbol.value,
                              monetaryDecimalSeparator, nanSymbol.value, percentSymbol, permillSymbol).Valid(cc)
  {
  }

  /** with() applied to the properties of a valid record rebuilds that record. */
  lemma WithOfValid(cc: CharClasses, s: DecimalNumberSymbols)
    requires s.Valid(cc)
    ensures With(cc, s.negativeSign, s.positiveSign, s.zeroDigit, Some(s.currencySymbol), s.decimalSeparator,
                 Some(s.exponentSymbol), s.groupSeparator, Some(s.infinitySymbol), s.monetaryDecimalSeparator,
                 Some(s.nanSymbol), s.percentSymbol, s.permillSymbol) == Success(s)
  {
  }

  /** The sign and zero-digit setters, given a new value, answer what with() answers for the record with that property replaced. */
  lemma SignSettersAgreeWithWith(cc: CharClasses, s: DecimalNumberSymbols, c: char)
    requires s.Valid(cc)
    ensures c != s.negativeSign ==> (s.SetNegativeSign(cc, c) ==
      With(cc, c, s.positiveSign, s.zeroDigit, Some(s.currencySymbol), s.decimalSeparator, Some(s.exponentSymbol),
           s.groupSeparator, Some(s.infinitySymbol), s.monetaryDecimalSeparator, Some(s.nanSymbol), s.percentSymbol, s.permillSymbol))
    ensures c != s.positiveSign ==> (s.SetPositiveSign(cc, c) ==
      With(cc, s.negativeSign, c, s.zeroDigit, Some(s.currencySymbol), s.decimalSeparator, Some(s.exponentSymbol),
           s.groupSeparator, Some(s.infinitySymbol), s.monetaryDecimalSeparator, Some(s.nanSymbol), s.percentSymbol, s.permillSymbol))
    ensures c != s.zeroDigit ==> (s.SetZeroDigit(cc, c) ==
      With(cc, s.negativeSign, s.positiveSign, c, Some(s.currencySymbol), s.decimalSeparator, Some(s.exponentSymbol),
           s.groupSeparator, Some(s.infinitySymbol), s.monetaryDecimalSeparator, Some(s.nanSymbol), s.percentSymbol, s.permillSymbol))
  {
  }

  /** The separator setters, given a new value, answer what with() answers for the record with that property replaced. */
  lemma SeparatorSettersAgreeWithWith(cc: CharClasses, s: DecimalNumberSymbols, c: char)
    requires s.Valid(cc)
    ensures c != s.decimalSeparator ==> (s.SetDecimalSeparator(cc, c) ==
      With(cc, s.negativeSign, s.positiveSign, s.zeroDigit, Some(s.currencySymbol), c, Some(s.exponentSymbol),
           s.groupSeparator, Some(s.infinitySymbol), s.monetaryDecimalSeparator, Some(s.nanSymbol), s.percentSymbol, s.permillSymbol))
    ensures c != s.groupSeparator ==> (s.SetGroupSeparator(cc, c) ==
      With(cc, s.negativeSign, s.positiveSign, s.zeroDigit, Some(s.currencySymbol), s.decimalSeparator, Some(s.exponentSymbol),
           c, Some(s.infinitySymbol), s.monetaryDecimalSeparator, Some(s.nanSymbol), s.percentSymbol, s.permillSymbol))
    ensures c != s.monetaryDecimalSeparator ==> (s.SetMonetaryDecimalSeparator(cc, c) ==
      With(cc, s.negativeSign, s.positiveSign, s.zeroDigit, Some(s.currencySymbol), s.decimalSeparator, Some(s.exponentSymbol),
           s.groupSeparator, Some(s.infinitySymbol), c, Some(s.nanSymbol), s.percentSymbol, s.permillSymbol))
  {
  }

  /** The percent and permill setters, given a new value, answer what with() answers for the record with that property replaced. */
  lemma PercentSettersAgreeWithWith(cc: CharClasses, s: DecimalNumberSymbols, c: char)
    requires s.Valid(cc)
    ensures c != s.percentSymbol ==> (s.SetPercentSymbol(cc, c) ==
      With(cc, s.negativeSign, s.positiveSign, s.zeroDigit, Some(s.currencySymbol), s.decimalSeparator, Some(s.exponentSymbol),
           s.groupSeparator, Some(s.infinitySymbol), s.monetaryDecimalSeparator, Some(s.nanSymbol), c, s.permillSymbol))
    ensures c != s.permillSymbol ==> (s.SetPermillSymbol(cc, c) ==
      With(cc, s.negativeSign, s.positiveSign, s.zeroDigit, Some(s.currencySymbol), s.decimalSeparator, Some(s.exponentSymbol),
           s.groupSeparator, Some(s.infinitySymbol), s.monetaryDecimalSeparator, Some(s.nanSymbol), s.percentSymbol, c))
  {
  }

  /** Each text setter, given a new value, answers what with() answers for the record with that property replaced. */
  lemma TextSettersAgreeWithWith(cc: CharClasses, s: DecimalNumberSymbols, t: Option<string>)
    requires s.Valid(cc)
    ensures t != Some(s.currencySymbol) ==> (s.SetCurrencySymbol(cc, t) ==
      With(cc, s.negativeSign, s.positiveSign, s.zeroDigit, t, s.decimalSeparator, Some(s.exponentSymbol),
           s.groupSeparator, Some(s.infinitySymbol), s.monetaryDecimalSeparator, Some(s.nanSymbol), s.percentSymbol, s.permillSymbol))
    ensures t != Some(s.exponentSymbol) ==> (s.SetExponentSymbol(cc, t) ==
      With(cc, s.negativeSign, s.positiveSign, s.zeroDigit, Some(s.currencySymbol), s.decimalSeparator, t,
           s.groupSeparator, Some(s.infinitySymbol), s.monetaryDecimalSeparator, Some(s.nanSymbol), s.percentSymbol, s.permillSymbol))
    ensures t != Some(s.infinitySymbol) ==> (s.SetInfinitySymbol(cc, t) ==
      With(cc, s.negativeSign, s.positiveSign, s.zeroDigit, Some(s.currencySymbol), s.decimalSeparator, Some(s.exponentSymbol),
           s.groupSeparator, t, s.monetaryDecimalSeparator, Some(s.nanSymbol), s.percentSymbol, s.permillSymbol))
    ensures t != Some(s.nanSymbol) ==> (s.SetNanSymbol(cc, t) ==
      With(cc, s.negativeSign, s.positiveSign, s.zeroDigit, Some(s.currencySymbol), s.decimalSeparator, Some(s.exponentSymbol),
           s.groupSeparator, Some(s.infinitySymbol), s.monetaryDecimalSeparator, t, s.percentSymbol, s.permillSymbol))
  {
  }

  /** The positions of the character tokens, in the order parse() converts them. */
  const CharTokens: seq<nat> := [0, 1, 2, 4, 6, 8, 10, 11]

  /** The first character token, at or after position `from` of CharTokens, that is not exactly one character long. */
  function FirstBadToken(tokens: seq<string>, from: nat): (r: Option<nat>)
    requires |tokens| == 12 && from <= |CharTokens|
    ensures r.Some? ==> from <= r.value < |CharTokens| && |tokens[CharTokens[r.value]]| != 1
                        && forall j | from <= j < r.value :: |tokens[CharTokens[j]]| == 1
    ensures r.None? ==> forall j | from <= j < |CharTokens| :: |tokens[CharTokens[j]]| == 1
    decreases |CharTokens| - from
  {
    if from == |CharTokens| then None
    else if |tokens[CharTokens[from]]| != 1 then Some(from)
    else FirstBadToken(tokens, from + 1)
  }

  /** Position j of CharTokens is converted under the label of its property. */
  lemma TokenLabels(tokens: seq<string>)
    requires |tokens| == 12
    ensures StringToChar(Label(Fields[CharTokens[0]]), tokens[CharTokens[0]]) == StringToChar(NegativeSignLabel, tokens[0])
    ensures StringToChar(Label(Fields[CharTokens[1]]), tokens[CharTokens[1]]) == StringToChar(PositiveSignLabel, tokens[1])
    ensures StringToChar(Label(Fields[CharTokens[2]]), tokens[CharTokens[2]]) == StringToChar(ZeroDigitLabel, tokens[2])
    ensures StringToChar(Label(Fields[CharTokens[3]]), tokens[CharTokens[3]]) == StringToChar(DecimalSeparatorLabel, tokens[4])
    ensures StringToChar(Label(Fields[CharTokens[4]]), tokens[CharTokens[4]]) == StringToChar(GroupSeparatorLabel, tokens[6])
    ensures StringToChar(Label(Fields[CharTokens[5]]), tokens[CharTokens[5]]) == StringToChar(MonetaryDecimalSeparatorLabel, tokens[8])
    ensures StringToChar(Label(Fields[CharTokens[6]]), tokens[CharTokens[6]]) == StringToChar(PercentSymbolLabel, tokens[10])
    ensures StringToChar(Label(Fields[CharTokens[7]]), tokens[CharTokens[7]]) == StringToChar(PermillSymbolLabel, tokens[11])
  {
    FieldOrder();
    CharTokenOrder();
  }

  lemma FieldOrder()
    ensures Fields[0] == NegativeSign && Fields[1] == PositiveSign && Fields[2] == ZeroDigit && Fields[3] == CurrencySymbol
    ensures Fields[4] == DecimalSeparator && Fields[5] == ExponentSymbol && Fields[6] == GroupSeparator && Fields[7] == InfinitySymbol
    ensures Fields[8] == MonetaryDecimalSeparator && Fields[9] == NanSymbol && Fields[10] == PercentSymbol && Fields[11] == PermillSymbol
  {
  }

  lemma CharTokenOrder()
    ensures CharTokens[0] == 0 && CharTokens[1] == 1 && CharTokens[2] == 2 && CharTokens[3] == 4
    ensures CharTokens[4] == 6 && CharTokens[5] == 8 && CharTokens[6] == 10 && CharTokens[7] == 11
  {
  }

  /** Of twelve tokens, the first character token that is not one character long decides parse()'s error. */
  lemma ParseReportsFirstBadToken(cc: CharClasses, tokens: seq<string>, j: nat)
    requires |tokens| == 12 && FirstBadToken(tokens, 0) == Some(j)
    ensures ParseTokens(cc, tokens) == Failure(StringToChar(Label(Fields[CharTokens[j]]), tokens[CharTokens[j]]).error)
  {
    TokenLabels(tokens);
    if |tokens[CharTokens[0]]| != 1 {
      assert j == 0;
    } else {
      assert FirstBadToken(tokens, 0) == FirstBadToken(tokens, 1);
      if |tokens[CharTokens[1]]| != 1 {
        assert j == 1;
      } else {
        assert FirstBadToken(tokens, 1) == FirstBadToken(tokens, 2);
        if |tokens[CharTokens[2]]| != 1 {
          assert j == 2;
        } else {
          assert FirstBadToken(tokens, 2) == FirstBadToken(tokens, 3);
          if |tokens[CharTokens[3]]| != 1 {
            assert j == 3;
          } else {
            assert FirstBadToken(tokens, 3) == FirstBadToken(tokens, 4);
            if |tokens[CharTokens[4]]| != 1 {
              assert j == 4;
            } else {
              assert FirstBadToken(tokens, 4) == FirstBadToken(tokens, 5);
              if |tokens[CharTokens[5]]| != 1 {
                assert j == 5;
              } else {
                assert FirstBadToken(tokens, 5) == FirstBadToken(tokens, 6);
                if |tokens[CharTokens[6]]| != 1 {
                  assert j == 6;
                } else {
                  assert FirstBadToken(tokens, 6) == FirstBadToken(tokens, 7);
                  if |tokens[CharTokens[7]]| != 1 {
                    assert j == 7;
                  } else {
                    assert false;
                  }
                }
              }
            }
          }
        }
      }
    }
  }

  /** When every character token is one character long, parse() answers what with() answers. */
  lemma ParseOfCharTokens(cc: CharClasses, tokens: seq<string>)
    requires |tokens| == 12 && FirstBadToken(tokens, 0).None?
    ensures ParseTokens(cc, tokens) ==
      With(cc, tokens[0][0], tokens[1][0], tokens[2][0], Some(tokens[3]), tokens[4][0], Some(tokens[5]),
           tokens[6][0], Some(tokens[7]), tokens[8][0], Some(tokens[9]), tokens[10][0], tokens[11][0])
  {
    assert |tokens[CharTokens[0]]| == 1;
    assert |tokens[CharTokens[1]]| == 1;
    assert |tokens[CharTokens[2]]| == 1;
    assert |tokens[CharTokens[3]]| == 1;
    assert |tokens[CharTokens[4]]| == 1;
    assert |tokens[CharTokens[5]]| == 1;
    assert |tokens[CharTokens[6]]| == 1;
    assert |tokens[CharTokens[7]]| == 1;
  }

  /** Reading the text form of a valid record gives back the same record. */
  lemma ParseText(cc: CharClasses, s: DecimalNumberSymbols)
    requires s.Valid(cc)
    ensures Parse(cc, s.Text()) == Success(s)
  {
    var tokens := s.Tokens();
    assert Csv.Decode(s.Text()) == Some(tokens);
    WithOfValid(cc, s);
    assert ParseTokens(cc, tokens) == Success(s);
  }

  /** Reading a text and writing the result gives a text that reads as the same tokens. */
  lemma TextOfParse(cc: CharClasses, text: string)
    requires Parse(cc, text).Success?
    ensures Csv.Decode(Parse(cc, text).value.Text()) == Csv.Decode(text)
  {
  }

  // Examples ..............................................................................................

  /** ASCII letters, digits and whitespace, enough to classify the examples' characters. */
  const AsciiClasses: CharClasses := CharClasses(
    c => ('a' <= c <= 'z') || ('A' <= c <= 'Z'),
    c => '0' <= c <= '9',
    c => c == ' ' || c == '\t' || c == '\n' || c == '\r')

  const Sample: DecimalNumberSymbols := DecimalNumberSymbols('-', '+', '0', "AUD", '.', "E", ',', "INFINITY", '*', "NAN", '%', '^')

  lemma SampleIsValid()
    ensures Sample.Valid(AsciiClasses)
  {
  }

  /** The tokens of the sample, of which only the comma group separator needs quoting. */
  lemma SampleTokens()
    ensures Sample.Tokens() == ["-", "+", "0", "AUD", ".", "E", ",", "INFINITY", "*", "NAN", "%", "^"]
    ensures Csv.EncodeToken(",") == "\",\""
  {
    assert Csv.NeedsQuotes(",");
  }

  lemma ParseWrongTokenCount(cc: CharClasses)
    ensures Parse(cc, "-,+,0") == Failure(WrongTokenCount(3))
  {
    var tokens := ["-", "+", "0"];
    assert Csv.Encode(tokens) == "-,+,0" by {
      Csv.EncodeStep("+", "+", ["0"], "0");
      assert ["+"] + ["0"] == ["+", "0"];
      Csv.EncodeStep("-", "-", ["+", "0"], "+,0");
      assert ["-"] + ["+", "0"] == tokens;
    }
    Csv.DecodeEncode(tokens);
    assert Csv.Decode("-,+,0") == Some(tokens) && |tokens| == 3;
  }

  lemma WrongTokenCountMessage()
    ensures Message(WrongTokenCount(3)) == "Expected 12 tokens but got 3"
  {
  }

  /** Two equal compared characters: the message failIfEqual composes names both properties and the character. */
  lemma SameAsMessage()
    ensures Message(SameAs(NegativeSignLabel, PositiveSignLabel, '+'))
            == "Invalid character \"negativeSign\" is same as \"positiveSign\" '+'"
  {
    var m := "Invalid character \"" + NegativeSignLabel;
    assert m == "Invalid character \"negativeSign";
    m := m + "\" is same as \"";
    assert m == "Invalid character \"negativeSign\" is same as \"";
    m := m + PositiveSignLabel;
    assert m == "Invalid character \"negativeSign\" is same as \"positiveSign";
    m := m + "\" ";
    assert m == "Invalid character \"negativeSign\" is same as \"positiveSign\" ";
    assert m + ['\'', '+', '\''] == "Invalid character \"negativeSign\" is same as \"positiveSign\" '+'";
  }

  /** A negativeSign token of two characters is refused with its length. */
  lemma ParseLongNegativeSign(cc: CharClasses)
    ensures ParseTokens(cc, ["--", "+", "0", "$", ".", "E", ",", "INFINITY", "*", "NAN", "%", "^"])
            == Failure(WrongLength(NegativeSignLabel, 2))
  {
    var ts := ["--", "+", "0", "$", ".", "E", ",", "INFINITY", "*", "NAN", "%", "^"];
    assert |ts[0]| == 2;
    assert StringToChar(NegativeSignLabel, ts[0]) == Failure(WrongLength(NegativeSignLabel, 2));
  }

  lemma WrongLengthMessage()
    ensures Message(WrongLength(NegativeSignLabel, 2)) == "Invalid negativeSign expected 1 character but got 2"
  {
    assert ('0' as int + 2) as char == '2';
    assert DigitsOf(2) == "2";
    var m := "Invalid " + NegativeSignLabel;
    assert m == "Invalid negativeSign";
    m := m + " expected 1 character but got ";
    assert m == "Invalid negativeSign expected 1 character but got ";
  }

  /** with() accepts a digit as the permill symbol, since its permill rule does not refuse digits. */
  lemma WithAcceptsDigitPermill()
    ensures With(AsciiClasses, '-', '+', '0', Some("AUD"), '.', Some("E"), ',', Some("INFINITY"), '*', Some("NAN"), '%', '5')
            == Success(Sample.(permillSymbol := '5'))
  {
    var t := Sample.(permillSymbol := '5');
    SampleIsValid();
    assert t.Distinct();
    assert t.Valid(AsciiClasses);
    WithOfValid(AsciiClasses, t);
  }

  /** setPermillSymbol as written refuses the digit that with() accepts; the corrected setter accepts it. */
  lemma PermillSetterRejectsDigit()
    ensures Sample.Valid(AsciiClasses) && Sample.SetPermillSymbolAsWritten(AsciiClasses, '5') ==
      Failure(InvalidCharacter(InvalidCharacterException(PermillSymbolLabel, '5')))
    ensures Sample.SetPermillSymbol(AsciiClasses, '5') == Success(Sample.(permillSymbol := '5'))
  {
    SampleIsValid();
    var t := Sample.(permillSymbol := '5');
    DistinctIffNoClash(t);
    assert t.FirstClash(0).None?;
  }

  /** An empty negativeSign token is refused before any property rule is applied. */
  lemma ParseEmptyNegativeSign(cc: CharClasses)
    ensures ParseTokens(cc, ["", "+", "0", "$", ".", "E", ",", "INFINITY", "*", "NAN", "%", "^"])
            == Failure(EmptyText(NegativeSignLabel))
    ensures Message(EmptyText(NegativeSignLabel)) == "Empty \"negativeSign\""
  {
  }

  /** A letter negativeSign passes the token-length check and is then refused by with(). */
  lemma ParseInvalidNegativeSign(cc: CharClasses)
    requires cc.isLetter('A')
    ensures ParseTokens(cc, ["A", "+", "0", "$", ".", "E", ",", "INFINITY", "*", "NAN", "%", "^"])
            == Failure(InvalidCharacter(InvalidCharacterException(NegativeSignLabel, 'A')))
    ensures Message(InvalidCharacter(InvalidCharacterException(NegativeSignLabel, 'A')))
            == "Invalid negativeSign character 'A'"
  {
    ExampleMessage();
  }
}
