/**
 * A minimal comma-separated token list, standing in for the CSV string list the
 * symbol set's text form is written with. A token is quoted when it contains a
 * comma or a quote, and a quote inside a quoted token is doubled. Reading
 * accepts both quoted and plain tokens.
 */
module Csv {

  import opened Wrappers

  const Comma: char := ','
  const Quote: char := '"'

  predicate NeedsQuotes(token: string) {
    Comma in token || Quote in token
  }

  /** The token with every quote doubled. */
  function DoubleQuotes(token: string): string
  {
    if token == [] then []
    else (if token[0] == Quote then [Quote, Quote] else [token[0]]) + DoubleQuotes(token[1..])
  }

  function EncodeToken(token: string): string {
    if NeedsQuotes(token) then [Quote] + DoubleQuotes(token) + [Quote] else token
  }

  /** The tokens, each encoded, joined by commas. */
  function Encode(tokens: seq<string>): string
  {
    if |tokens| <= 1 then (if tokens == [] then [] else EncodeToken(tokens[0]))
    else EncodeToken(tokens[0]) + [Comma] + Encode(tokens[1..])
  }

  /** A token's reading ends at the end of the text or just before a comma. */
  predicate AtTokenEnd(rest: string) {
    rest == [] || rest[0] == Comma
  }

  /** Reads a plain token: everything up to the next comma. */
  function ReadPlain(text: string): (r: (string, string))
    ensures r.0 + r.1 == text && AtTokenEnd(r.1) && Comma !in r.0
  {
    if text == [] || text[0] == Comma then ([], text)
    else
      var tail := ReadPlain(text[1..]);
      assert [text[0]] + tail.0 + tail.1 == [text[0]] + (tail.0 + tail.1) == text;
      ([text[0]] + tail.0, tail.1)
  }

  /** Reads the body of a quoted token, after its opening quote, up to and including its closing quote. */
  function ReadQuoted(text: string): (r: Option<(string, string)>)
    ensures r.Some? ==> |r.value.1| < |text|
  {
    if text == [] then None
    else if text[0] != Quote then
      match ReadQuoted(text[1..])
      case None => None
      case Some((token, rest)) => Some(([text[0]] + token, rest))
    else if |text| > 1 && text[1] == Quote then
      match ReadQuoted(text[2..])
      case None => None
      case Some((token, rest)) => Some(([Quote] + token, rest))
    else Some(([], text[1..]))
  }

  /** Reads one token; None when a quoted token is not closed or is followed by something other than a comma. */
  function ReadToken(text: string): (r: Option<(string, string)>)
    ensures r.Some? ==> |r.value.1| <= |text| && AtTokenEnd(r.value.1)
  {
    if text != [] && text[0] == Quote then
      match ReadQuoted(text[1..])
      case None => None
      case Some((token, rest)) => if AtTokenEnd(rest) then Some((token, rest)) else None
    else Some(ReadPlain(text))
  }

  /** The tokens of a text; None when it is malformed. Every text holds at least one token. */
  function Decode(text: string): (r: Option<seq<string>>)
    ensures r.Some? ==> |r.value| >= 1
    decreases |text|
  {
    match ReadToken(text)
    case None => None
    case Some((token, rest)) =>
      if rest == [] then Some([token])
      else
        match Decode(rest[1..])
        case None => None
        case Some(more) => Some([token] + more)
  }

  lemma {:induction false} ReadPlainOfToken(token: string, rest: string)
    requires Comma !in token && AtTokenEnd(rest)
    ensures ReadPlain(token + rest) == (token, rest)
  {
    if token != [] {
      assert token[0] in token;
      assert (token + rest)[0] == token[0];
      assert (token + rest)[1..] == token[1..] + rest;
      assert Comma !in token[1..] by {
        forall i | 0 <= i < |token[1..]| ensures token[1..][i] != Comma {
          assert token[1..][i] == token[i + 1];
        }
      }
      ReadPlainOfToken(token[1..], rest);
      assert [token[0]] + token[1..] == token;
      var text := token + rest;
      assert ReadPlain(text) == ([text[0]] + ReadPlain(text[1..]).0, ReadPlain(text[1..]).1);
    } else {
      assert token + rest == rest;
    }
  }

  lemma {:induction false} ReadQuotedOfToken(token: string, rest: string)
    requires rest == [] || rest[0] != Quote
    ensures ReadQuoted(DoubleQuotes(token) + [Quote] + rest) == Some((token, rest))
  {
    var text := DoubleQuotes(token) + [Quote] + rest;
    if token == [] {
      assert text == [Quote] + rest;
      assert text[1..] == rest;
    } else if token[0] == Quote {
      assert text == [Quote, Quote] + (DoubleQuotes(token[1..]) + [Quote] + rest);
      assert text[2..] == DoubleQuotes(token[1..]) + [Quote] + rest;
      ReadQuotedOfToken(token[1..], rest);
      assert [Quote] + token[1..] == token;
    } else {
      assert text == [token[0]] + (DoubleQuotes(token[1..]) + [Quote] + rest);
      assert text[1..] == DoubleQuotes(token[1..]) + [Quote] + rest;
      ReadQuotedOfToken(token[1..], rest);
      assert [token[0]] + token[1..] == token;
    }
  }

  lemma ReadTokenOfEncoded(token: string, rest: string)
    requires AtTokenEnd(rest)
    ensures ReadToken(EncodeToken(token) + rest) == Some((token, rest))
  {
    var text := EncodeToken(token) + rest;
    if NeedsQuotes(token) {
      assert text == [Quote] + (DoubleQuotes(token) + [Quote] + rest);
      assert text[0] == Quote;
      assert text[1..] == DoubleQuotes(token) + [Quote] + rest;
      ReadQuotedOfToken(token, rest);
      assert ReadQuoted(text[1..]) == Some((token, rest));
    } else {
      assert text == token + rest;
      assert token != [] ==> token[0] in token && text[0] == token[0];
      assert token == [] ==> text == rest;
      assert !(text != [] && text[0] == Quote);
      ReadPlainOfToken(token, rest);
    }
  }

  lemma EncodeStep(token: string, encoded: string, tokens: seq<string>, text: string)
    requires tokens != [] && EncodeToken(token) == encoded && Encode(tokens) == text
    ensures Encode([token] + tokens) == encoded + [Comma] + text
  {
    assert ([token] + tokens)[1..] == tokens;
  }

  /** Reading an encoded list of tokens gives back the same tokens. */
  lemma {:induction false} DecodeEncode(tokens: seq<string>)
    requires tokens != []
    ensures Decode(Encode(tokens)) == Some(tokens)
  {
    if |tokens| == 1 {
      ReadTokenOfEncoded(tokens[0], []);
      assert EncodeToken(tokens[0]) + [] == Encode(tokens);
      assert ReadToken(Encode(tokens)) == Some((tokens[0], []));
      assert [tokens[0]] == tokens;
    } else {
      var rest := [Comma] + Encode(tokens[1..]);
      ReadTokenOfEncoded(tokens[0], rest);
      assert Encode(tokens) == EncodeToken(tokens[0]) + rest;
      assert rest[1..] == Encode(tokens[1..]);
      DecodeEncode(tokens[1..]);
      assert [tokens[0]] + tokens[1..] == tokens;
    }
  }
}
