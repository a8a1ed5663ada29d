/**
 * The self-decoding integer type of the decoder tests: a Go `int` whose
 * DecodeString method reads the word "unlimited" as -1 and any other text
 * with strconv.Atoi, writing the result through its pointer receiver.
 */
module SelfDecoding {
  import opened Wrappers
  import opened Decimal

  /** The word that stands for "no limit". */
  const Unlimited: string := "unlimited"

  /**
   * What DecodeString stores for a text, or the Atoi error it returns.
   * Every stored value is a 64-bit int; the only negative value that does
   * not come from a '-' sign is the -1 of "unlimited".
   */
  function DecodeText(text: string): (r: Result<int, NumError>)
    ensures r.Ok? ==> MinInt64 <= r.value <= MaxInt64
    ensures r.Ok? && r.value < 0 && text != Unlimited ==> |text| > 0 && text[0] == '-'
  {
    if text == Unlimited then Ok(-1) else Atoi(text)
  }

  /** The error text DecodeString returns: the strconv.NumError of Atoi. */
  function ErrorText(text: string): (m: Option<string>)
    ensures m.Some? <==> DecodeText(text).Err?
  {
    match DecodeText(text)
    case Ok(_) => None
    case Err(e) => Some(AtoiMessage(text, e))
  }

  /** A variable of the self-decoding type; DecodeString writes it in place. */
  class Cell {
    var value: int

    constructor()
      ensures value == 0
    {
      value := 0;
    }

    /**
     * Decoded.DecodeString: on success the receiver holds the decoded
     * integer and no error is returned; on failure the receiver keeps its
     * old value and the Atoi error is returned.
     */
    method DecodeString(text: string) returns (err: Option<string>)
      modifies this
      ensures err == ErrorText(text)
      ensures DecodeText(text).Ok? ==> value == DecodeText(text).value
      ensures DecodeText(text).Err? ==> value == old(value)
    {
      if text == Unlimited {
        value := -1;
        return None;
      }
      var parsed := Atoi(text);
      if parsed.Err? {
        return Some(AtoiMessage(text, parsed.error));
      }
      value := parsed.value;
      return None;
    }
  }

  // ---------------------------------------------------------------- lemmas

  /** "unlimited" decodes to -1 without error. */
  lemma DecodeUnlimited()
    ensures DecodeText(Unlimited) == Ok(-1)
    ensures ErrorText(Unlimited) == None
  {
  }

  /** The decimal text of every 64-bit int decodes back to that int. */
  lemma DecodeItoa(n: int)
    requires MinInt64 <= n <= MaxInt64
    ensures DecodeText(Itoa(n)) == Ok(n)
  {
    AtoiItoa(n);
    NatDigitsParse(if n < 0 then -n else n);
    assert Itoa(n) != Unlimited by {
      assert Itoa(n)[0] == '-' || IsDigit(Itoa(n)[0]);
    }
  }

  /** Apart from "unlimited", the decoder accepts exactly what Atoi accepts, with the same value. */
  lemma DecodeIsAtoi(text: string)
    requires text != Unlimited
    ensures DecodeText(text).Ok? <==> ParseInt(text, MinInt64, MaxInt64).Some?
    ensures DecodeText(text).Ok? ==> DecodeText(text).value == ParseInt(text, MinInt64, MaxInt64).value
  {
    AtoiIsParseInt64(text);
  }

  /**
   * Text that does not start with a digit after its sign, other than
   * "unlimited", is a syntax error; "badval" gives the exact message of the
   * decoder's error line.
   */
  lemma DecodeRejectsWord(text: string)
    requires text != Unlimited
    requires var b := SplitSign(text).body; b == [] || !IsDigit(b[0])
    ensures DecodeText(text) == Err(Syntax)
    ensures ErrorText(text) == Some("strconv.Atoi: parsing " + Quote(text) + ": invalid syntax")
  {
    AtoiRejectsNonDigit(text);
    var head := "strconv.Atoi: parsing " + Quote(text);
    assert head + ": " + "invalid syntax" == head + ": invalid syntax";
  }

  /** The message for "badval": the word, quoted, inside Atoi's syntax error. */
  lemma BadvalMessage(text: string)
    requires text == "badval"
    ensures ErrorText(text) == Some("strconv.Atoi: parsing " + ("\"" + text + "\"") + ": " + "invalid syntax")
  {
    assert text != Unlimited by { assert |text| != |Unlimited|; }
    assert !IsDigit(SplitSign(text).body[0]);
    DecodeRejectsWord(text);
    QuotePlain(text);
  }
}
