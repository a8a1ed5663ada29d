/**
 * Duration text as the configuration decoder reads it: a bare decimal
 * integer is a count of milliseconds; anything else goes through Go's
 * time.ParseDuration grammar, here its integer components "<digits><unit>".
 * Durations are signed 64-bit counts of nanoseconds.
 */
module Durations {
  import opened Wrappers
  import opened Decimal

  const Nanosecond: nat := 1
  const Microsecond: nat := 1000 * Nanosecond
  const Millisecond: nat := 1000 * Microsecond
  const Second: nat := 1000 * Millisecond
  const Minute: nat := 60 * Second
  const Hour: nat := 60 * Minute

  /** time.ParseDuration's unit table: "ns", "us", "µs" (U+00B5), "μs" (U+03BC), "ms", "s", "m", "h". */
  function UnitNanos(u: string): (r: Option<nat>)
    ensures r.Some? ==> r.value >= 1
  {
    if u == "ns" then Some(Nanosecond)
    else if u == "us" || u == "\U{B5}s" || u == "\U{3BC}s" then Some(Microsecond)
    else if u == "ms" then Some(Millisecond)
    else if u == "s" then Some(Second)
    else if u == "m" then Some(Minute)
    else if u == "h" then Some(Hour)
    else None
  }

  /** A unit is the run of characters up to the next digit or '.'. */
  function UnitRun(s: string): (k: nat)
    ensures k <= |s|
  {
    if s == [] || IsDigit(s[0]) || s[0] == '.' then 0 else 1 + UnitRun(s[1..])
  }

  function Times(n: nat, unit: nat): nat
  {
    n * unit
  }

  /**
   * The leading component "<digits><unit>" of s: its value in nanoseconds
   * and the number of characters it covers; None when s does not start
   * with one.
   */
  function Component(s: string): (r: Option<(nat, nat)>)
    ensures r.Some? ==> 0 < r.value.1 <= |s|
  {
    var k := DigitRun(s);
    if k == 0 then None
    else
      var rest := s[k..];
      var u := UnitRun(rest);
      if u == 0 then None
      else
        match UnitNanos(rest[..u])
        case None => None
        case Some(unit) => Some((Times(Value(s[..k]), unit), k + u))
  }

  /**
   * The total, in nanoseconds, of a non-empty sequence of components
   * that covers all of s; None when s is not such a sequence.
   */
  function Components(s: string): (r: Option<nat>)
    decreases |s|
  {
    match Component(s)
    case None => None
    case Some(c) =>
      if c.1 == |s| then Some(c.0)
      else
        match Components(s[c.1..])
        case None => None
        case Some(more) => Some(c.0 + more)
  }

  /**
   * time.ParseDuration on text without fractional components: an optional
   * sign, then "0" alone or one or more components, the total at most 2^63
   * nanoseconds when negative and below it otherwise.
   */
  function ParseDuration(s: string): (r: Option<int>)
    ensures r.Some? ==> MinInt64 <= r.value <= MaxInt64
  {
    var p := SplitSign(s);
    if p.body == "0" then Some(0)
    else if p.body == [] then None
    else
      match Components(p.body)
      case None => None
      case Some(d) =>
        if p.negative then (if d <= -MinInt64 then Some(-(d as int)) else None)
        else if d <= MaxInt64 then Some(d) else None
  }

  /**
   * A duration field's text: a bare integer (as Atoi reads it) counts
   * milliseconds and must fit in 64 bits once scaled; any other text must
   * satisfy ParseDuration.
   */
  function DurationText(s: string): (r: Option<int>)
    ensures r.Some? ==> MinInt64 <= r.value <= MaxInt64
  {
    match Atoi(s)
    case Ok(ms) =>
      var d := ms * Millisecond;
      if MinInt64 <= d <= MaxInt64 then Some(d) else None
    case Err(_) => ParseDuration(s)
  }

  // ---------------------------------------------------------------- lemmas

  /** The decimal text of a millisecond count decodes to that many milliseconds. */
  lemma MillisecondsText(ms: int)
    requires MinInt64 <= ms * Millisecond <= MaxInt64
    ensures DurationText(Itoa(ms)) == Some(ms * Millisecond)
  {
    AtoiItoa(ms);
  }

  lemma UnitRunOfUnit(u: string)
    requires UnitNanos(u).Some?
    ensures UnitRun(u) == |u|
  {
  }

  /** A component "<n><unit>" in front of anything that is not part of a unit is read as n units. */
  lemma ComponentOf(n: nat, u: string, tail: string)
    requires UnitNanos(u).Some?
    requires tail == [] || IsDigit(tail[0])
    ensures Component(NatDigits(n) + u + tail) == Some((Times(n, UnitNanos(u).value), |NatDigits(n)| + |u|))
  {
    var s := NatDigits(n) + u + tail;
    ComponentRuns(NatDigits(n), u, tail);
    ComponentParts(s, |NatDigits(n)|, |u|, UnitNanos(u).value);
  }

  /** Where the digit run and the unit run of "<digits><unit><tail>" end. */
  lemma ComponentRuns(d: string, u: string, tail: string)
    requires d != [] && AllDigits(d) && UnitNanos(u).Some?
    requires tail == [] || IsDigit(tail[0])
    ensures var s := d + u + tail;
      DigitRun(s) == |d| && s[..|d|] == d && UnitRun(s[|d|..]) == |u| && s[|d|..][..|u|] == u
  {
    var rest := u + tail;
    var s := d + rest;
    assert d + u + tail == s;
    DigitRunOfDigits(d, rest);
    assert s[..|d|] == d && s[|d|..] == rest;
    if tail == [] {
      UnitRunOfUnit(u);
      assert rest == u;
    } else {
      UnitRunPrefix(u, tail);
    }
    assert rest[..|u|] == u;
  }

  /** Component read off from its digit run, its unit run and the unit's value. */
  lemma ComponentParts(s: string, k: nat, u: nat, unit: nat)
    requires 0 < k == DigitRun(s) && 0 < u == UnitRun(s[k..])
    requires UnitNanos(s[k..][..u]) == Some(unit)
    ensures Component(s) == Some((Times(Value(s[..k]), unit), k + u))
  {
  }

  /** One component "<n><unit>" is n times the unit. */
  lemma OneComponent(n: nat, u: string)
    requires UnitNanos(u).Some?
    ensures Components(NatDigits(n) + u) == Some(Times(n, UnitNanos(u).value))
  {
    ComponentOf(n, u, []);
    assert NatDigits(n) + u + [] == NatDigits(n) + u;
  }

  /** "<n><unit>" parses to n units whenever the total fits in a duration. */
  lemma UnitText(n: nat, u: string)
    requires UnitNanos(u).Some? && n * UnitNanos(u).value <= MaxInt64
    ensures DurationText(NatDigits(n) + u) == Some(n * UnitNanos(u).value)
  {
    var s := NatDigits(n) + u;
    assert !IsDigit(s[|s| - 1]);
    assert Atoi(s).Err? by {
      AtoiIsParseInt64(s);
      assert !AllDigits(SplitSign(s).body) by {
        assert SplitSign(s).body == s;
        assert !IsDigit(s[|s| - 1]);
      }
    }
    assert SplitSign(s).body == s;
    assert s != "0";
    OneComponent(n, u);
  }

  lemma UnitRunPrefix(u: string, tail: string)
    requires UnitNanos(u).Some? && tail != [] && IsDigit(tail[0])
    ensures UnitRun(u + tail) == |u|
  {
    var s := u + tail;
    if u == "ns" || u == "us" || u == "ms" || u == "\U{B5}s" || u == "\U{3BC}s" {
      assert s[1..] == u[1..] + tail;
      assert s[2..] == tail;
    } else {
      assert s[1..] == tail;
    }
  }

  /** Any text whose first character after the sign is not a digit is rejected (the model reads no fractions, so this includes ".5s"). */
  lemma RejectsLetters(s: string)
    requires var b := SplitSign(s).body; b != [] && !IsDigit(b[0])
    ensures DurationText(s) == None
  {
    AtoiRejectsNonDigit(s);
  }

  /** Five seconds written as a bare number of milliseconds, "5000". */
  lemma FiveThousandMillis(ms: string)
    requires ms == "5000"
    ensures DurationText(ms) == Some(5 * Second)
  {
    assert NatDigits(5000) == ms by {
      assert NatDigits(5) == "5";
      assert NatDigits(50) == "50";
      assert NatDigits(500) == "500";
    }
    MillisecondsText(5000);
  }

  /** Five seconds written with a unit, "5s". */
  lemma FiveSecondUnits(units: string)
    requires units == "5s"
    ensures DurationText(units) == Some(5 * Second)
  {
    assert NatDigits(5) + "s" == units;
    UnitText(5, "s");
  }

  /** The two spellings of five seconds the decoder tests use, "5000" (milliseconds) and "5s". */
  lemma FiveSeconds(ms: string, units: string)
    requires ms == "5000" && units == "5s"
    ensures DurationText(ms) == Some(5 * Second)
    ensures DurationText(units) == Some(5 * Second)
  {
    FiveThousandMillis(ms);
    FiveSecondUnits(units);
  }
}
