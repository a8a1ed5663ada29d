/**
 * Base-10 text as Go's strconv package reads and writes it: Itoa, Atoi,
 * ParseInt/ParseUint with base 10 and an explicit range, and Quote (the
 * form %q gives a string inside an error message).
 */
module Decimal {
  import opened Wrappers

  const MinInt64: int := -0x8000_0000_0000_0000
  const MaxInt64: int := 0x7fff_ffff_ffff_ffff
  const MaxUint64: int := 0xffff_ffff_ffff_ffff

  predicate IsDigit(c: char) { '0' <= c <= '9' }

  predicate AllDigits(s: string) { forall i | 0 <= i < |s| :: IsDigit(s[i]) }

  function DigitValue(c: char): (d: nat)
    requires IsDigit(c)
    ensures d < 10
  {
    c as int - '0' as int
  }

  function DigitChar(d: nat): (c: char)
    requires d < 10
    ensures IsDigit(c) && DigitValue(c) == d
  {
    (d + '0' as int) as char
  }

  /** The number a run of decimal digits denotes, most significant digit first. */
  function Value(s: string): nat
    requires AllDigits(s)
    decreases |s|
  {
    if s == [] then 0 else 10 * Value(s[..|s| - 1]) + DigitValue(s[|s| - 1])
  }

  /** The canonical digits of n: no leading zero except for n == 0 itself. */
  function NatDigits(n: nat): (s: string)
    ensures |s| >= 1 && AllDigits(s) && Value(s) == n
    ensures s[0] == '0' ==> n == 0
    decreases n
  {
    if n < 10 then [DigitChar(n)]
    else
      var s := NatDigits(n / 10) + [DigitChar(n % 10)];
      assert s[..|s| - 1] == NatDigits(n / 10);
      s
  }

  /** strconv.Itoa: the decimal text of i, with a leading '-' when negative. */
  function Itoa(i: int): (s: string)
  {
    if i < 0 then "-" + NatDigits(-i) else NatDigits(i)
  }

  /** The length of the run of digits at the start of s. */
  function DigitRun(s: string): (k: nat)
    ensures k <= |s| && AllDigits(s[..k])
    ensures k < |s| ==> !IsDigit(s[k])
  {
    if s == [] || !IsDigit(s[0]) then 0
    else
      var k := 1 + DigitRun(s[1..]);
      assert forall i | 1 <= i < k :: s[..k][i] == s[1..][..k - 1][i - 1];
      k
  }

  /** Text split into an optional leading sign and the rest. */
  datatype Signed = Signed(negative: bool, body: string)

  function SplitSign(s: string): (p: Signed)
  {
    if |s| > 0 && (s[0] == '+' || s[0] == '-') then Signed(s[0] == '-', s[1..]) else Signed(false, s)
  }

  /**
   * strconv.ParseInt(s, 10, bits) for a width whose range is lo..hi:
   * an optional sign, at least one digit, nothing else, and the value in range.
   */
  function ParseInt(s: string, lo: int, hi: int): Option<int>
  {
    var p := SplitSign(s);
    if p.body == [] || !AllDigits(p.body) then None
    else
      var v: int := if p.negative then -(Value(p.body) as int) else Value(p.body);
      if lo <= v <= hi then Some(v) else None
  }

  /** strconv.ParseUint(s, 10, bits) for a width whose largest value is hi: digits only, no sign at all. */
  function ParseUint(s: string, hi: nat): Option<nat>
  {
    if s == [] || !AllDigits(s) then None
    else if Value(s) <= hi then Some(Value(s)) else None
  }

  /** The two kinds of strconv.NumError. */
  datatype NumError = Syntax | Range

  /**
   * strconv.Atoi on a 64-bit platform. The digits after the sign are scanned
   * left to right; a run of digits whose value passes the largest uint64 is a
   * range error even when a bad character follows it, a bad or missing digit
   * is a syntax error, and a value outside int64 is a range error.
   */
  function Atoi(s: string): Result<int, NumError>
  {
    var p := SplitSign(s);
    var k := DigitRun(p.body);
    if Value(p.body[..k]) > MaxUint64 then Err(Range)
    else if p.body == [] || k < |p.body| then Err(Syntax)
    else
      var v: int := if p.negative then -(Value(p.body) as int) else Value(p.body);
      if MinInt64 <= v <= MaxInt64 then Ok(v) else Err(Range)
  }

  /** The text of a strconv.NumError raised by Atoi. */
  function AtoiMessage(s: string, e: NumError): string
  {
    "strconv.Atoi: parsing " + Quote(s) + ": " + (if e == Syntax then "invalid syntax" else "value out of range")
  }

  function HexDigit(d: nat): (c: char)
    requires d < 16
  {
    "0123456789abcdef"[d]
  }

  /** How strconv.Quote writes one character. */
  function Escape(c: char): (e: string)
    ensures |e| >= 1
  {
    if c == '"' then ['\\', '"']
    else if c == '\\' then ['\\', '\\']
    else if c as int == 7 then "\\a"
    else if c as int == 8 then "\\b"
    else if c as int == 12 then "\\f"
    else if c == '\n' then "\\n"
    else if c == '\r' then "\\r"
    else if c == '\t' then "\\t"
    else if c as int == 11 then "\\v"
    else if c as int < 0x20 || c as int == 0x7f then ['\\', 'x', HexDigit(c as int / 16), HexDigit(c as int % 16)]
    else [c]
  }

  function EscapeAll(s: string): string
  {
    if s == [] then [] else Escape(s[0]) + EscapeAll(s[1..])
  }

  /** strconv.Quote: s between double quotes, with quotes, backslashes and control characters escaped. */
  function Quote(s: string): string
  {
    "\"" + EscapeAll(s) + "\""
  }

  function HexValue(c: char): Option<nat>
  {
    if '0' <= c <= '9' then Some(c as int - '0' as int)
    else if 'a' <= c <= 'f' then Some(c as int - 'a' as int + 10)
    else None
  }

  /** Reads back the escapes Escape writes; None on anything else. */
  function UnescapeAll(e: string): Option<string>
    decreases |e|
  {
    if e == [] then Some([])
    else if e[0] != '\\' then
      match UnescapeAll(e[1..])
      case Some(rest) => Some([e[0]] + rest)
      case None => None
    else if |e| >= 4 && e[1] == 'x' && HexValue(e[2]).Some? && HexValue(e[3]).Some? then
      match UnescapeAll(e[4..])
      case Some(rest) => Some([(HexValue(e[2]).value * 16 + HexValue(e[3]).value) as char] + rest)
      case None => None
    else if |e| >= 2 then
      var c := e[1];
      var d: Option<char> :=
        if c == '"' then Some('"') else if c == '\\' then Some('\\')
        else if c == 'a' then Some(7 as char) else if c == 'b' then Some(8 as char)
        else if c == 'f' then Some(12 as char) else if c == 'n' then Some('\n')
        else if c == 'r' then Some('\r') else if c == 't' then Some('\t')
        else if c == 'v' then Some(11 as char) else None;
      match (d, UnescapeAll(e[2..]))
      case (Some(x), Some(rest)) => Some([x] + rest)
      case _ => None
    else None
  }

  /** strconv.Unquote restricted to the escapes Quote writes. */
  function Unquote(q: string): Option<string>
  {
    if |q| >= 2 && q[0] == '"' && q[|q| - 1] == '"' then UnescapeAll(q[1..|q| - 1]) else None
  }

  // ---------------------------------------------------------------- lemmas

  /** Extending a run of digits never lowers its value. */
  lemma {:induction false} ValuePrefixMonotone(s: string, j: nat)
    requires AllDigits(s) && j <= |s|
    ensures AllDigits(s[..j]) && Value(s[..j]) <= Value(s)
    decreases |s|
  {
    assert forall i | 0 <= i < j :: s[..j][i] == s[i];
    if j < |s| {
      assert s[..|s| - 1][..j] == s[..j];
      ValuePrefixMonotone(s[..|s| - 1], j);
    } else {
      assert s[..j] == s;
    }
  }

  /** A run of digits followed by a non-digit (or by nothing) is exactly what DigitRun measures. */
  lemma {:induction false} DigitRunOfDigits(d: string, z: string)
    requires AllDigits(d)
    requires z == [] || !IsDigit(z[0])
    ensures DigitRun(d + z) == |d|
    decreases |d|
  {
    if d == [] {
      assert d + z == z;
    } else {
      assert (d + z)[1..] == d[1..] + z;
      DigitRunOfDigits(d[1..], z);
    }
  }

  /** Atoi accepts exactly what ParseInt(s, 10, 64) accepts, with the same value. */
  lemma AtoiIsParseInt64(s: string)
    ensures Atoi(s).Ok? <==> ParseInt(s, MinInt64, MaxInt64).Some?
    ensures Atoi(s).Ok? ==> Atoi(s).value == ParseInt(s, MinInt64, MaxInt64).value
  {
    var p := SplitSign(s);
    assert p.body[..|p.body|] == p.body;
  }

  /** Any text whose first character after the optional sign is not a digit is an Atoi syntax error. */
  lemma AtoiRejectsNonDigit(s: string)
    requires var b := SplitSign(s).body; b == [] || !IsDigit(b[0])
    ensures Atoi(s) == Err(Syntax)
  {
  }

  lemma {:induction false} NatDigitsParse(n: nat)
    ensures AllDigits(NatDigits(n)) && NatDigits(n)[0] != '+' && NatDigits(n)[0] != '-'
  {
  }

  /** ParseInt reads back the text Itoa writes, and fails exactly when the value is out of range. */
  lemma ParseIntItoa(i: int, lo: int, hi: int)
    ensures ParseInt(Itoa(i), lo, hi) == if lo <= i <= hi then Some(i) else None
  {
    var s := Itoa(i);
    NatDigitsParse(if i < 0 then -i else i);
    if i < 0 {
      assert SplitSign(s).body == NatDigits(-i);
    } else {
      assert SplitSign(s).body == NatDigits(i);
    }
  }

  /** ParseUint reads back Itoa of a natural number, and rejects Itoa of every negative number. */
  lemma ParseUintItoa(i: int, hi: nat)
    ensures ParseUint(Itoa(i), hi) == if 0 <= i <= hi then Some(i) else None
  {
    if i < 0 {
      assert Itoa(i)[0] == '-';
    }
  }

  /** Atoi reads back Itoa of every int64. */
  lemma AtoiItoa(i: int)
    requires MinInt64 <= i <= MaxInt64
    ensures Atoi(Itoa(i)) == Ok(i)
  {
    AtoiIsParseInt64(Itoa(i));
    ParseIntItoa(i, MinInt64, MaxInt64);
  }

  /** Text starting with '-' is never an unsigned number. */
  lemma ParseUintRejectsMinus(s: string, hi: nat)
    requires |s| > 0 && s[0] == '-'
    ensures ParseUint(s, hi) == None
  {
    assert !IsDigit(s[0]);
  }

  lemma {:induction false} EscapeAllAppend(a: string, b: string)
    ensures EscapeAll(a + b) == EscapeAll(a) + EscapeAll(b)
    decreases |a|
  {
    if a != [] {
      assert (a + b)[0] == a[0];
      assert (a + b)[1..] == a[1..] + b;
      EscapeAllAppend(a[1..], b);
    } else {
      assert a + b == b;
    }
  }

  /** No character Quote writes is a newline, so a quoted value never breaks a line of text. */
  lemma {:induction false} EscapeAllHasNoNewline(s: string)
    ensures '\n' !in EscapeAll(s)
    decreases |s|
  {
    if s != [] {
      EscapeAllHasNoNewline(s[1..]);
    }
  }

  lemma QuoteHasNoNewline(s: string)
    ensures '\n' !in Quote(s)
  {
    EscapeAllHasNoNewline(s);
  }

  lemma UnescapeEscape(c: char, rest: string)
    ensures UnescapeAll(Escape(c) + rest) ==
      match UnescapeAll(rest) case Some(r) => Some([c] + r) case None => None
  {
    var e := Escape(c) + rest;
    if c as int < 0x20 || c as int == 0x7f {
      if c as int !in {7, 8, 9, 10, 11, 12, 13} {
        UnescapeHex(c, rest);
      } else {
        assert e[2..] == rest;
      }
    } else if c == '"' || c == '\\' {
      assert e[2..] == rest;
    } else {
      assert e[1..] == rest;
    }
  }

  /** A control character without a named escape reads back from its two hex digits. */
  lemma UnescapeHex(c: char, rest: string)
    requires (c as int < 0x20 || c as int == 0x7f) && c as int !in {7, 8, 9, 10, 11, 12, 13}
    ensures UnescapeAll(Escape(c) + rest) ==
      match UnescapeAll(rest) case Some(r) => Some([c] + r) case None => None
  {
    var n := c as int;
    var e := Escape(c) + rest;
    assert Escape(c) == ['\\', 'x', HexDigit(n / 16), HexDigit(n % 16)];
    assert HexValue(e[2]) == Some(n / 16) && HexValue(e[3]) == Some(n % 16);
    assert e[4..] == rest;
  }

  lemma {:induction false} UnescapeEscapeAll(s: string)
    ensures UnescapeAll(EscapeAll(s)) == Some(s)
    decreases |s|
  {
    if s != [] {
      UnescapeEscapeAll(s[1..]);
      UnescapeEscape(s[0], EscapeAll(s[1..]));
      assert [s[0]] + s[1..] == s;
    }
  }

  /** Quote loses nothing: Unquote gives back the original text. */
  lemma UnquoteQuote(s: string)
    ensures Unquote(Quote(s)) == Some(s)
  {
    var q := Quote(s);
    assert q[1..|q| - 1] == EscapeAll(s);
    UnescapeEscapeAll(s);
  }

  /** Text made only of printable ASCII other than quote and backslash is quoted as it stands. */
  lemma {:induction false} QuotePlain(s: string)
    requires forall i | 0 <= i < |s| :: 0x20 <= s[i] as int < 0x7f && s[i] != '"' && s[i] != '\\'
    ensures Quote(s) == "\"" + s + "\""
  {
    EscapeAllPlain(s);
  }

  lemma {:induction false} EscapeAllPlain(s: string)
    requires forall i | 0 <= i < |s| :: 0x20 <= s[i] as int < 0x7f && s[i] != '"' && s[i] != '\\'
    ensures EscapeAll(s) == s
    decreases |s|
  {
    if s != [] {
      EscapeAllPlain(s[1..]);
    }
  }
}
