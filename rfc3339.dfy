/**
 * RFC 3339 timestamps: the date-time production of section 5.6 of RFC 3339,
 * read strictly (a four-digit year, two-digit fields, an upper-case 'T' and
 * 'Z', seconds below 60, a day that exists in its month, an optional '.'
 * fraction truncated to nine digits, and a numeric offset below 24 hours).
 * This is the subset of what time.Parse accepts with the RFC 3339 layout
 * that the decoder's time fields are given.
 */
module Rfc3339 {
  import opened Wrappers
  import opened Decimal

  /** The zone of a timestamp: 'Z', or a numeric offset in minutes east of UTC. */
  datatype Zone = Utc | Offset(minutes: int)

  datatype Timestamp = Timestamp(
    year: nat, month: nat, day: nat,
    hour: nat, minute: nat, second: nat, nanos: nat,
    zone: Zone)

  predicate IsLeap(year: nat)
  {
    year % 4 == 0 && (year % 100 != 0 || year % 400 == 0)
  }

  function DaysIn(month: nat, year: nat): nat
  {
    if month == 2 then (if IsLeap(year) then 29 else 28)
    else if month == 4 || month == 6 || month == 9 || month == 11 then 30
    else 31
  }

  const MaxOffset: int := 23 * 60 + 59

  /** The timestamps the parser can produce. */
  predicate Valid(t: Timestamp)
  {
    && t.year <= 9999 && 1 <= t.month <= 12 && 1 <= t.day <= DaysIn(t.month, t.year)
    && t.hour <= 23 && t.minute <= 59 && t.second <= 59 && t.nanos < 1_000_000_000
    && (t.zone.Offset? ==> -MaxOffset <= t.zone.minutes <= MaxOffset)
  }

  function Pow10(n: nat): (r: nat)
    ensures r >= 1
  {
    if n == 0 then 1 else 10 * Pow10(n - 1)
  }

  /** A fixed-width run of digits whose value lies in lo..hi. */
  function Field(s: string, lo: nat, hi: nat): (r: Option<nat>)
    ensures r.Some? ==> lo <= r.value <= hi
  {
    if AllDigits(s) && lo <= Value(s) <= hi then Some(Value(s)) else None
  }

  /** The length of a fraction ".ddd" at the start of s, or 0 when there is none. */
  function FractionLength(s: string): (n: nat)
    ensures n <= |s|
    ensures n > 0 ==> n >= 2 && AllDigits(s[1..n])
  {
    if |s| >= 2 && s[0] == '.' && IsDigit(s[1]) then
      var k := DigitRun(s[1..]);
      assert s[1..][..k] == s[1..1 + k];
      1 + k
    else 0
  }

  /** Nanoseconds from the digits of a fraction; digits past the ninth are dropped. */
  function Nanos(digits: string): (n: nat)
    requires AllDigits(digits)
    ensures n < 1_000_000_000
  {
    assert Pow10(9) == 1_000_000_000;
    if |digits| >= 9 then
      var d := digits[..9];
      assert AllDigits(d) by { assert forall i | 0 <= i < 9 :: d[i] == digits[i]; }
      ValueBound(d);
      Value(d)
    else
      ValueBound(digits);
      Pow10Split(|digits|, 9 - |digits|);
      MulStrict(Value(digits), Pow10(|digits|), Pow10(9 - |digits|));
      Value(digits) * Pow10(9 - |digits|)
  }

  function ParseZone(s: string): (r: Option<Zone>)
    ensures r.Some? && r.value.Offset? ==> -MaxOffset <= r.value.minutes <= MaxOffset
  {
    if s == "Z" then Some(Utc)
    else if |s| != 6 then None
    else
      var hr := Field(s[1..3], 0, 23);
      var mm := Field(s[4..6], 0, 59);
      if hr.None? || mm.None? || !(s[0] == '-' || s[0] == '+') || s[3] != ':' then None
      else
        var m := hr.value * 60 + mm.value;
        Some(Offset(if s[0] == '-' then -m else m))
  }

  /** The date, 'T' and time of day that open every RFC 3339 timestamp, read as a UTC timestamp without fraction. */
  function ParseDateTime(h: string): (r: Option<Timestamp>)
    requires |h| == 19
    ensures r.Some? ==> Valid(r.value) && r.value.nanos == 0 && r.value.zone == Utc
  {
    var year := Field(h[0..4], 0, 9999);
    var month := Field(h[5..7], 1, 12);
    var day := if year.Some? && month.Some? then Field(h[8..10], 1, DaysIn(month.value, year.value)) else None;
    var hour := Field(h[11..13], 0, 23);
    var minute := Field(h[14..16], 0, 59);
    var second := Field(h[17..19], 0, 59);
    if year.None? || month.None? || day.None? || hour.None? || minute.None? || second.None? then None
    else if !(h[4] == '-' && h[7] == '-' && h[10] == 'T' && h[13] == ':' && h[16] == ':') then None
    else Some(Timestamp(year.value, month.value, day.value, hour.value, minute.value, second.value, 0, Utc))
  }

  /** What follows the seconds: an optional fraction, then the zone and nothing else. */
  function ParseTail(dt: Timestamp, rest: string): (r: Option<Timestamp>)
    requires Valid(dt)
    ensures r.Some? ==> Valid(r.value)
  {
    var f := FractionLength(rest);
    var nanos := if f == 0 then 0 else Nanos(rest[1..f]);
    match ParseZone(rest[f..])
    case None => None
    case Some(z) => Some(dt.(nanos := nanos, zone := z))
  }

  /** A strict RFC 3339 date-time, reduced to the fields time.Parse reads from it; what it accepts is a real date and time of day. */
  function Parse(s: string): (r: Option<Timestamp>)
    ensures r.Some? ==> Valid(r.value)
  {
    if |s| < 19 then None
    else
      match ParseDateTime(s[..19])
      case None => None
      case Some(dt) => ParseTail(dt, s[19..])
  }

  /** n written with exactly w digits, padded with leading zeros. */
  function Pad(n: nat, w: nat): (s: string)
    requires n < Pow10(w)
    ensures |s| == w && AllDigits(s) && Value(s) == n
  {
    if w == 0 then []
    else
      var s := Pad(n / 10, w - 1) + [DigitChar(n % 10)];
      assert s[..|s| - 1] == Pad(n / 10, w - 1);
      s
  }

  function ZoneText(z: Zone): string
    requires z.Offset? ==> -MaxOffset <= z.minutes <= MaxOffset
  {
    match z
    case Utc => "Z"
    case Offset(m) =>
      var a := if m < 0 then -m else m;
      [if m < 0 then '-' else '+'] + Pad(a / 60, 2) + ":" + Pad(a % 60, 2)
  }

  /** The first 19 characters: date, 'T', time of day. */
  function DateTimeText(t: Timestamp): (s: string)
    requires Valid(t)
    ensures |s| == 19
  {
    Pad(t.year, 4) + "-" + Pad(t.month, 2) + "-" + Pad(t.day, 2) + "T"
      + Pad(t.hour, 2) + ":" + Pad(t.minute, 2) + ":" + Pad(t.second, 2)
  }

  /** A timestamp written in the RFC 3339 layout, with a nine-digit fraction when it has one. */
  function Format(t: Timestamp): string
    requires Valid(t)
  {
    DateTimeText(t) + (if t.nanos == 0 then "" else "." + Pad(t.nanos, 9)) + ZoneText(t.zone)
  }

  // ---------------------------------------------------------------- lemmas

  lemma MulStrict(x: nat, y: nat, z: nat)
    requires x < y && z >= 1
    ensures x * z < y * z
  {
  }

  lemma {:induction false} ValueBound(s: string)
    requires AllDigits(s)
    ensures Value(s) < Pow10(|s|)
    decreases |s|
  {
    if s != [] {
      ValueBound(s[..|s| - 1]);
    }
  }

  lemma {:induction false} Pow10Split(a: nat, b: nat)
    ensures Pow10(a) * Pow10(b) == Pow10(a + b)
    decreases a
  {
    if a > 0 {
      Pow10Split(a - 1, b);
    }
  }

  lemma ZoneRoundTrip(z: Zone)
    requires z.Offset? ==> -MaxOffset <= z.minutes <= MaxOffset
    ensures ParseZone(ZoneText(z)) == Some(z)
  {
    if z.Offset? {
      var m := z.minutes;
      var a := if m < 0 then -m else m;
      HoursMinutes(a);
      var s := ZoneText(z);
      assert s[1..3] == Pad(a / 60, 2);
      assert s[4..6] == Pad(a % 60, 2);
    }
  }

  /** An offset of at most 23:59 splits into hours 0..23 and minutes 0..59. */
  lemma HoursMinutes(a: nat)
    requires a <= MaxOffset
    ensures a / 60 <= 23 && a % 60 <= 59 && a / 60 * 60 + a % 60 == a
  {
  }

  lemma DateTimeSlices(t: Timestamp)
    requires Valid(t)
    ensures var s := DateTimeText(t);
      && s[0..4] == Pad(t.year, 4) && s[5..7] == Pad(t.month, 2) && s[8..10] == Pad(t.day, 2)
      && s[11..13] == Pad(t.hour, 2) && s[14..16] == Pad(t.minute, 2) && s[17..19] == Pad(t.second, 2)
      && s[4] == '-' && s[7] == '-' && s[10] == 'T' && s[13] == ':' && s[16] == ':'
  {
    DateSlices(t);
    ClockSlices(t);
  }

  lemma DateSlices(t: Timestamp)
    requires Valid(t)
    ensures var s := DateTimeText(t);
      && s[0..4] == Pad(t.year, 4) && s[5..7] == Pad(t.month, 2) && s[8..10] == Pad(t.day, 2)
      && s[4] == '-' && s[7] == '-' && s[10] == 'T'
  {
    var date := Pad(t.year, 4) + "-" + Pad(t.month, 2) + "-" + Pad(t.day, 2);
    var s := DateTimeText(t);
    assert s[..10] == date;
    assert date[..4] == Pad(t.year, 4) && date[5..7] == Pad(t.month, 2) && date[8..10] == Pad(t.day, 2);
  }

  lemma ClockSlices(t: Timestamp)
    requires Valid(t)
    ensures var s := DateTimeText(t);
      && s[11..13] == Pad(t.hour, 2) && s[14..16] == Pad(t.minute, 2) && s[17..19] == Pad(t.second, 2)
      && s[13] == ':' && s[16] == ':'
  {
  }

  lemma ParseDateTimeText(t: Timestamp)
    requires Valid(t)
    ensures ParseDateTime(DateTimeText(t)) == Some(t.(nanos := 0, zone := Utc))
  {
    DateTimeSlices(t);
    FieldOfPad(t.year, 4, 0, 9999);
    FieldOfPad(t.month, 2, 1, 12);
    FieldOfPad(t.day, 2, 1, DaysIn(t.month, t.year));
    FieldOfPad(t.hour, 2, 0, 23);
    FieldOfPad(t.minute, 2, 0, 59);
    FieldOfPad(t.second, 2, 0, 59);
  }

  function FractionText(nanos: nat): string
    requires nanos < 1_000_000_000
  {
    assert Pow10(9) == 1_000_000_000;
    if nanos == 0 then "" else "." + Pad(nanos, 9)
  }

  lemma ZoneTextStart(z: Zone)
    requires z.Offset? ==> -MaxOffset <= z.minutes <= MaxOffset
    ensures |ZoneText(z)| >= 1 && !IsDigit(ZoneText(z)[0]) && ZoneText(z)[0] != '.'
  {
  }

  lemma TailWithFraction(dt: Timestamp, nanos: nat, z: Zone)
    requires Valid(dt) && 0 < nanos < 1_000_000_000
    requires z.Offset? ==> -MaxOffset <= z.minutes <= MaxOffset
    ensures ParseTail(dt, FractionText(nanos) + ZoneText(z)) == Some(dt.(nanos := nanos, zone := z))
  {
    var zt := ZoneText(z);
    ZoneTextStart(z);
    ZoneRoundTrip(z);
    assert Pow10(9) == 1_000_000_000;
    var p := Pad(nanos, 9);
    var rest := "." + p + zt;
    assert FractionText(nanos) + zt == rest;
    assert rest[1..] == p + zt;
    DigitRunOfDigits(p, zt);
    assert FractionLength(rest) == 10;
    assert rest[1..10] == p;
    assert rest[10..] == zt;
    assert p[..9] == p;
  }

  lemma TailRoundTrip(dt: Timestamp, nanos: nat, z: Zone)
    requires Valid(dt) && nanos < 1_000_000_000
    requires z.Offset? ==> -MaxOffset <= z.minutes <= MaxOffset
    ensures ParseTail(dt, FractionText(nanos) + ZoneText(z)) == Some(dt.(nanos := nanos, zone := z))
  {
    if nanos == 0 {
      var zt := ZoneText(z);
      ZoneTextStart(z);
      ZoneRoundTrip(z);
      assert FractionText(nanos) + zt == zt;
      assert FractionLength(zt) == 0;
      assert zt[0..] == zt;
    } else {
      TailWithFraction(dt, nanos, z);
    }
  }

  /** Parse reads back every valid timestamp Format writes. */
  lemma ParseFormat(t: Timestamp)
    requires Valid(t)
    ensures Parse(Format(t)) == Some(t)
  {
    var head := DateTimeText(t);
    var tail := FractionText(t.nanos) + ZoneText(t.zone);
    var s := Format(t);
    assert s == head + tail;
    assert s[..19] == head && s[19..] == tail;
    ParseDateTimeText(t);
    TailRoundTrip(t.(nanos := 0, zone := Utc), t.nanos, t.zone);
  }

  lemma FieldOfPad(n: nat, w: nat, lo: nat, hi: nat)
    requires n < Pow10(w)
    ensures Field(Pad(n, w), lo, hi) == if lo <= n <= hi then Some(n) else None
  {
  }

  /** One more digit on the right: ten times the value, plus the digit. */
  lemma ValueSnoc(p: string, d: nat)
    requires AllDigits(p) && d < 10
    ensures AllDigits(p + [DigitChar(d)]) && Value(p + [DigitChar(d)]) == 10 * Value(p) + d
  {
    var q := p + [DigitChar(d)];
    assert q[..|q| - 1] == p;
  }

  /** Two digit characters at `i` make a field worth 10a + b. */
  lemma TwoDigitField(s: string, i: nat, a: nat, b: nat, lo: nat, hi: nat)
    requires i + 2 <= |s| && a < 10 && b < 10 && s[i] == DigitChar(a) && s[i + 1] == DigitChar(b)
    ensures Field(s[i..i + 2], lo, hi) == if lo <= 10 * a + b <= hi then Some(10 * a + b) else None
  {
    ValueSnoc([], a);
    assert [] + [DigitChar(a)] == [DigitChar(a)];
    ValueSnoc([DigitChar(a)], b);
    assert s[i..i + 2] == [DigitChar(a)] + [DigitChar(b)];
  }

  /** Four digit characters at `i` make a field worth their decimal value. */
  lemma FourDigitField(s: string, i: nat, a: nat, b: nat, c: nat, d: nat, lo: nat, hi: nat)
    requires i + 4 <= |s| && a < 10 && b < 10 && c < 10 && d < 10
    requires s[i] == DigitChar(a) && s[i + 1] == DigitChar(b) && s[i + 2] == DigitChar(c) && s[i + 3] == DigitChar(d)
    ensures var v := 1000 * a + 100 * b + 10 * c + d;
      Field(s[i..i + 4], lo, hi) == if lo <= v <= hi then Some(v) else None
  {
    TwoDigitField(s, i, a, b, 0, 99);
    var two := s[i..i + 2];
    ValueSnoc(two, c);
    ValueSnoc(two + [DigitChar(c)], d);
    assert s[i..i + 4] == two + [DigitChar(c)] + [DigitChar(d)];
  }

  lemma ReferenceDate(s: string)
    requires s == "2021-01-02T15:04:05"
    ensures Field(s[0..4], 0, 9999) == Some(2021)
    ensures Field(s[5..7], 1, 12) == Some(1)
    ensures Field(s[8..10], 1, 31) == Some(2)
  {
    FourDigitField(s, 0, 2, 0, 2, 1, 0, 9999);
    TwoDigitField(s, 5, 0, 1, 1, 12);
    TwoDigitField(s, 8, 0, 2, 1, 31);
  }

  lemma ReferenceClock(s: string)
    requires s == "2021-01-02T15:04:05"
    ensures Field(s[11..13], 0, 23) == Some(15)
    ensures Field(s[14..16], 0, 59) == Some(4)
    ensures Field(s[17..19], 0, 59) == Some(5)
  {
    TwoDigitField(s, 11, 1, 5, 0, 23);
    TwoDigitField(s, 14, 0, 4, 0, 59);
    TwoDigitField(s, 17, 0, 5, 0, 59);
  }

  lemma ReferenceDateTime(s: string)
    requires s == "2021-01-02T15:04:05"
    ensures ParseDateTime(s) == Some(Timestamp(2021, 1, 2, 15, 4, 5, 0, Utc))
  {
    ReferenceDate(s);
    ReferenceClock(s);
    assert DaysIn(1, 2021) == 31;
    assert s[4] == '-' && s[7] == '-' && s[10] == 'T' && s[13] == ':' && s[16] == ':';
  }

  lemma ReferenceZone(s: string)
    requires s == "-07:00"
    ensures ParseZone(s) == Some(Offset(-420))
  {
    TwoDigitField(s, 1, 0, 7, 0, 23);
    TwoDigitField(s, 4, 0, 0, 0, 59);
  }

  /** The instant the decoder tests use, 2021-01-02T15:04:05-07:00, is accepted with its offset of -7 hours. */
  lemma ParseReferenceTime(s: string)
    requires s == "2021-01-02T15:04:05-07:00"
    ensures Parse(s) == Some(Timestamp(2021, 1, 2, 15, 4, 5, 0, Offset(-420)))
  {
    ReferenceDateTime(s[..19]);
    var rest := s[19..];
    assert rest == "-07:00";
    assert FractionLength(rest) == 0;
    assert rest[0..] == rest;
    ReferenceZone(rest);
  }
}
