/** The error raised when one symbol-set property is given a character its rule refuses. */
module InvalidCharacterExceptions {

  import opened Wrappers

  /** The name of the refused property and the refused character; Java's class is an IllegalArgumentException. */
  datatype InvalidCharacterException = InvalidCharacterException(property: string, value: char) {

    /** "Invalid " + property + " character " + the character in single quotes. */
    function GetMessage(): (m: string)
      ensures |m| == |property| + 22
      ensures m[..8] == "Invalid " && m[8..|m| - 14] == property
      ensures m[|m| - 14..] == [' ', 'c', 'h', 'a', 'r', 'a', 'c', 't', 'e', 'r', ' ', '\'', value, '\'']
    {
      "Invalid " + property + " character " + ['\'', value, '\'']
    }
  }

  /** Recovers the property and the character from a message; the inverse of GetMessage. */
  function FromMessage(m: string): Option<InvalidCharacterException>
  {
    if |m| >= 22 && m[..8] == "Invalid " && m[|m| - 14..|m| - 2] == " character '" && m[|m| - 1] == '\''
    then Some(InvalidCharacterException(m[8..|m| - 14], m[|m| - 2]))
    else None
  }

  /** The message names exactly the property and the character the error was made with. */
  lemma MessageRoundTrip(e: InvalidCharacterException)
    ensures FromMessage(e.GetMessage()) == Some(e)
  {
    var m := e.GetMessage();
    assert m[|m| - 14..|m| - 2] == m[|m| - 14..][..12];
  }

  lemma ExampleMessage()
    ensures InvalidCharacterException("negativeSign", 'A').GetMessage() == "Invalid negativeSign character 'A'"
  {
  }
}
