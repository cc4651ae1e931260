/** The clock's ISO 8601 texts, a restricted profile of section 5.6 of RFC 3339. */
module ClockText {
  import opened Bytes
  import opened Calendar

  const UNIX_MIN: nat := 1704067200
  const UNIX_MAX: nat := 4102444800
  const TEXT_BUFFER_BYTES: nat := 30

  const DASH: byte := 45
  const LETTER_T: byte := 84
  const COLON: byte := 58
  const DOT: byte := 46
  const LETTER_Z: byte := 90
  const PLUS: byte := 43

  datatype Error = InvalidIso8601 | OutOfRange | InvalidArgument
  datatype Instant = Instant(unix: nat, millisecond: nat, offset: int)
  datatype Result<T> = Ok(value: T) | Failed(error: Error)

  /** `validInstant`. */
  predicate ValidInstant(unix: nat, millisecond: nat) {
    UNIX_MIN <= unix <= UNIX_MAX && millisecond <= 999 && (unix == UNIX_MAX ==> millisecond == 0)
  }

  // ----- cursors over a terminated text -----

  /** The character at `i`, the terminator behind the last one. */
  function At(t: seq<byte>, i: nat): byte { if i < |t| then t[i] else 0 }

  predicate Digit(c: byte) { 48 <= c <= 57 }

  /** Value of the next `n` digits. */
  function Number(t: seq<byte>, i: nat, n: nat): nat
    requires forall k :: i <= k < i + n ==> Digit(At(t, k))
  {
    if n == 0 then 0 else Number(t, i, n - 1) * 10 + DigitAt(t, i + n - 1)
  }

  function DigitAt(t: seq<byte>, i: nat): (d: nat)
    requires Digit(At(t, i))
    ensures d < 10
  {
    At(t, i) - 48
  }

  predicate DigitsAt(t: seq<byte>, i: nat, n: nat) {
    forall k :: i <= k < i + n ==> Digit(At(t, k))
  }

  // ----- printing -----

  /** `%0nu`. */
  function Padded(value: nat, n: nat): (t: seq<byte>)
    ensures |t| == n && forall k :: 0 <= k < n ==> Digit(t[k])
  {
    if n == 0 then [] else Padded(value / 10, n - 1) + [48 + value % 10]
  }

  function Fraction(millisecond: nat): seq<byte> {
    if millisecond == 0 then [] else [DOT] + Padded(millisecond, 3)
  }

  function Zone(offset: int): seq<byte> {
    if offset == 0 then [LETTER_Z]
    else
      var magnitude := if offset < 0 then -offset else offset;
      [if offset < 0 then DASH else PLUS] + Padded(magnitude / 60, 2) + [COLON] + Padded(magnitude % 60, 2)
  }

  function Clock(t: Time): seq<byte>
    requires t.date.year >= 0 && ValidTime(t)
  {
    Padded(t.date.year, 4) + [DASH] + Padded(t.date.month, 2) + [DASH] + Padded(t.date.day, 2) + [LETTER_T]
    + Padded(t.hour, 2) + [COLON] + Padded(t.minute, 2) + [COLON] + Padded(t.second, 2)
  }

  /** Local years of representable instants have four digits, so no field is cut when it is stored. */
  lemma YearsFit(unix: nat, offset: int)
    requires UNIX_MIN <= unix <= UNIX_MAX && ValidOffset(offset)
    ensures 2023 <= UnixToCivil(unix, offset).date.year <= 2100 && ValidTime(UnixToCivil(unix, offset))
  {
    hide CivilFromDays, DaysFromCivil, Truncated, Valid;
    UnixRoundTrip(unix, offset);
    var local := unix + offset * 60;
    LocalDay(local);
    var day := local / 86400;
    assert 19722 <= day <= 47482;
    DaysOfCivil(day);
    YearBounds(CivilFromDays(day));
  }

  lemma YearBounds(d: Date)
    requires Valid(d) && 19722 <= DaysFromCivil(d) <= 47482
    ensures 2023 <= d.year <= 2100
  {
    hide DaysFromCivil;
    DaysFormula(d);
  }

  /** `formatIso8601`, for an output buffer of `capacity` octets including the terminator. */
  function Format(i: Instant, capacity: nat): Result<seq<byte>> {
    hide Clock, UnixToCivil, ValidTime;
    if capacity == 0 then Failed(InvalidArgument)
    else if !ValidOffset(i.offset) || !ValidInstant(i.unix, i.millisecond) then Failed(OutOfRange)
    else
      YearsFit(i.unix, i.offset);
      var text := Clock(UnixToCivil(i.unix, i.offset)) + Fraction(i.millisecond) + Zone(i.offset);
      if |text| >= capacity then Failed(InvalidArgument) else Ok(text)
  }

  /** The documented buffer is large enough for every instant and offset. */
  lemma TextFits(i: Instant, capacity: nat)
    requires ValidOffset(i.offset) && ValidInstant(i.unix, i.millisecond) && capacity >= TEXT_BUFFER_BYTES
    ensures Format(i, capacity).Ok? && |Format(i, capacity).value| < TEXT_BUFFER_BYTES
  {
    hide UnixToCivil, ValidTime, Padded;
    YearsFit(i.unix, i.offset);
  }

  // ----- parsing -----

  /** A parsed part and the cursor behind it. */
  datatype Part = Part(value: int, next: nat)

  /** Digits of the fraction, at most three, from `i` on, with `k` read so far. */
  function FractionDigits(t: seq<byte>, i: nat, k: nat): (n: Option<nat>)
    requires k <= 3
    ensures n.Some? ==> k <= n.value <= 3
    decreases 4 - k
  {
    if !Digit(At(t, i + k)) then Some(k) else if k >= 3 then None else FractionDigits(t, i, k + 1)
  }

  lemma {:induction false} FractionIsDigits(t: seq<byte>, i: nat, k: nat)
    requires k <= 3 && FractionDigits(t, i, k).Some?
    ensures DigitsAt(t, i + k, FractionDigits(t, i, k).value - k)
    decreases 4 - k
  {
    if Digit(At(t, i + k)) { FractionIsDigits(t, i, k + 1); }
  }

  function Scale(value: nat, digits: nat): nat
    requires digits <= 3
  {
    if digits == 1 then value * 100 else if digits == 2 then value * 10 else value
  }

  /** Milliseconds: an optional fraction of one to three digits. */
  function ReadFraction(t: seq<byte>, i: nat): (p: Option<Part>)
    ensures p.Some? ==> p.value.value >= 0
  {
    if At(t, i) != DOT then Some(Part(0, i))
    else
      var n := FractionDigits(t, i + 1, 0);
      if n == None || n.value == 0 then None
      else
        FractionIsDigits(t, i + 1, 0);
        Some(Part(Scale(Number(t, i + 1, n.value), n.value), i + 1 + n.value))
  }

  /** Zone: `Z`, or a sign, hours up to 14 and minutes. */
  function ReadZone(t: seq<byte>, i: nat): Option<Part> {
    if At(t, i) == LETTER_Z then Some(Part(0, i + 1))
    else if At(t, i) != PLUS && At(t, i) != DASH then None
    else if !DigitsAt(t, i + 1, 2) || At(t, i + 3) != COLON || !DigitsAt(t, i + 4, 2) then None
    else
      var hour, minute := Number(t, i + 1, 2), Number(t, i + 4, 2);
      if hour > 14 || minute > 59 || (hour == 14 && minute != 0) then None
      else Some(Part(if At(t, i) == DASH then -(hour * 60 + minute) else hour * 60 + minute, i + 6))
  }

  /** The fixed-width part: date and time of day. */
  predicate ClockAt(t: seq<byte>) {
    && DigitsAt(t, 0, 4) && At(t, 4) == DASH && DigitsAt(t, 5, 2) && At(t, 7) == DASH && DigitsAt(t, 8, 2)
    && At(t, 10) == LETTER_T && DigitsAt(t, 11, 2) && At(t, 13) == COLON && DigitsAt(t, 14, 2) && At(t, 16) == COLON
    && DigitsAt(t, 17, 2)
  }

  function ReadClock(t: seq<byte>): Time
    requires ClockAt(t)
  {
    Time(Date(Number(t, 0, 4), Number(t, 5, 2), Number(t, 8, 2)), Number(t, 11, 2), Number(t, 14, 2), Number(t, 17, 2))
  }

  /** `parseIso8601`. */
  function Parse(t: seq<byte>): Result<Instant> {
    hide ClockAt, ReadFraction, ReadZone, CivilToUnix;
    if !ClockAt(t) then Failed(InvalidIso8601)
    else
      var fraction := ReadFraction(t, 19);
      if fraction == None then Failed(InvalidIso8601)
      else
        var zone := ReadZone(t, fraction.value.next);
        if zone == None || At(t, zone.value.next) != 0 then Failed(InvalidIso8601)
        else
          var unix := CivilToUnix(ReadClock(t), zone.value.value);
          if unix == None then Failed(InvalidIso8601)
          else if !ValidInstant(unix.value, fraction.value.value) then Failed(OutOfRange)
          else Ok(Instant(unix.value, fraction.value.value, zone.value.value))
  }

  // ----- round trip -----

  function Pow10(n: nat): nat { if n == 0 then 1 else 10 * Pow10(n - 1) }

  /** Padded digits read back. */
  lemma {:induction false} PaddedBack(t: seq<byte>, i: nat, value: nat, n: nat)
    requires i + n <= |t| && t[i..i + n] == Padded(value, n) && value < Pow10(n)
    ensures DigitsAt(t, i, n) && Number(t, i, n) == value
  {
    if n > 0 {
      var u := t[i..i + n];
      assert t[i..i + n - 1] == u[..n - 1] == Padded(value / 10, n - 1);
      assert t[i + n - 1] == u[n - 1];
      PaddedBack(t, i, value / 10, n - 1);
    }
  }

  lemma Take(t: seq<byte>, i: nat, a: seq<byte>, b: seq<byte>)
    requires i <= |t| && t[i..] == a + b
    ensures i + |a| <= |t| && t[i..i + |a|] == a && t[i + |a|..] == b
  {
    assert t[i..i + |a|] == t[i..][..|a|];
    assert t[i + |a|..] == t[i..][|a|..];
  }

  lemma TakeOne(t: seq<byte>, i: nat, c: byte, b: seq<byte>)
    requires i <= |t| && t[i..] == [c] + b
    ensures i + 1 <= |t| && At(t, i) == c && t[i + 1..] == b
  {
    assert t[i] == t[i..][0];
    assert t[i + 1..] == t[i..][1..];
  }

  /** A number and what follows it. */
  lemma NumberBack(t: seq<byte>, i: nat, value: nat, n: nat, rest: seq<byte>)
    requires i <= |t| && t[i..] == Padded(value, n) + rest && value < Pow10(n)
    ensures i + n <= |t| && t[i + n..] == rest && DigitsAt(t, i, n) && Number(t, i, n) == value
  {
    hide Padded, Number, DigitsAt;
    Take(t, i, Padded(value, n), rest);
    PaddedBack(t, i, value, n);
  }

  /** Date and time of day read back. */
  lemma ClockBack(c: Time, rest: seq<byte>)
    requires ValidTime(c) && 0 <= c.date.year < 10000
    ensures var t := Clock(c) + rest; ClockAt(t) && ReadClock(t) == c && |t| >= 19 && t[19..] == rest
  {
    hide Padded, Number, DigitsAt, At, Valid;
    assert Pow10(2) == 100 && Pow10(4) == 10000;
    FieldsSmall(c);
    var t := Clock(c) + rest;
    var r17 := Padded(c.second, 2) + rest;
    var r14 := Padded(c.minute, 2) + ([COLON] + r17);
    var r11 := Padded(c.hour, 2) + ([COLON] + r14);
    var r8 := Padded(c.date.day, 2) + ([LETTER_T] + r11);
    var r5 := Padded(c.date.month, 2) + ([DASH] + r8);
    assert t[0..] == Padded(c.date.year, 4) + ([DASH] + r5) by { ClockNested(c, rest); }
    NumberBack(t, 0, c.date.year, 4, [DASH] + r5);
    TakeOne(t, 4, DASH, r5);
    NumberBack(t, 5, c.date.month, 2, [DASH] + r8);
    TakeOne(t, 7, DASH, r8);
    NumberBack(t, 8, c.date.day, 2, [LETTER_T] + r11);
    TakeOne(t, 10, LETTER_T, r11);
    NumberBack(t, 11, c.hour, 2, [COLON] + r14);
    TakeOne(t, 13, COLON, r14);
    NumberBack(t, 14, c.minute, 2, [COLON] + r17);
    TakeOne(t, 16, COLON, r17);
    NumberBack(t, 17, c.second, 2, rest);
  }

  lemma FieldsSmall(c: Time)
    requires ValidTime(c)
    ensures 1 <= c.date.month < 100 && 1 <= c.date.day < 100 && 0 <= c.hour < 100 && 0 <= c.minute < 100 && 0 <= c.second < 100
  {
  }

  lemma ClockNested(c: Time, rest: seq<byte>)
    requires ValidTime(c) && 0 <= c.date.year < 10000
    ensures Clock(c) + rest
         == Padded(c.date.year, 4) + ([DASH] + (Padded(c.date.month, 2) + ([DASH] + (Padded(c.date.day, 2) + ([LETTER_T]
            + (Padded(c.hour, 2) + ([COLON] + (Padded(c.minute, 2) + ([COLON] + (Padded(c.second, 2) + rest))))))))))
  {
    hide Padded, Valid;
  }

  /** The fraction reads back in front of a zone. */
  lemma FractionBack(t: seq<byte>, i: nat, millisecond: nat, rest: seq<byte>)
    requires millisecond <= 999 && i <= |t| && t[i..] == Fraction(millisecond) + rest
    requires rest != [] && !Digit(rest[0]) && rest[0] != DOT
    ensures ReadFraction(t, i) == Some(Part(millisecond, i + |Fraction(millisecond)|))
    ensures i + |Fraction(millisecond)| <= |t| && t[i + |Fraction(millisecond)|..] == rest
  {
    hide Padded, Number;
    if millisecond == 0 {
      assert t[i..] == rest;
      assert t[i] == t[i..][0];
    } else {
      assert Pow10(3) == 1000;
      TakeOne(t, i, DOT, Padded(millisecond, 3) + rest) by { assert t[i..] == [DOT] + (Padded(millisecond, 3) + rest); }
      NumberBack(t, i + 1, millisecond, 3, rest);
      assert t[i + 4] == t[i + 4..][0];
      assert FractionDigits(t, i + 1, 3) == Some(3);
      assert FractionDigits(t, i + 1, 2) == Some(3);
      assert FractionDigits(t, i + 1, 1) == Some(3);
    }
  }

  lemma ZoneBack(t: seq<byte>, i: nat, offset: int)
    requires ValidOffset(offset) && i <= |t| && t[i..] == Zone(offset)
    ensures ReadZone(t, i) == Some(Part(offset, |t|))
  {
    hide Padded, Number, DigitsAt, At;
    if offset == 0 {
      TakeOne(t, i, LETTER_Z, []);
    } else {
      assert Pow10(2) == 100;
      var magnitude := if offset < 0 then -offset else offset;
      var sign := if offset < 0 then DASH else PLUS;
      var m := Padded(magnitude % 60, 2);
      assert t[i..] == [sign] + (Padded(magnitude / 60, 2) + ([COLON] + (m + [])));
      TakeOne(t, i, sign, Padded(magnitude / 60, 2) + ([COLON] + (m + [])));
      NumberBack(t, i + 1, magnitude / 60, 2, [COLON] + (m + []));
      TakeOne(t, i + 3, COLON, m + []);
      NumberBack(t, i + 4, magnitude % 60, 2, []);
    }
  }

  /** A printed instant parses to itself, offset included. */
  lemma ParseFormat(i: Instant, capacity: nat)
    requires Format(i, capacity).Ok?
    ensures Parse(Format(i, capacity).value) == Ok(i)
  {
    hide Clock, UnixToCivil, CivilToUnix, ClockAt, ReadClock, ReadFraction, ReadZone, ValidTime, Fraction, Zone;
    YearsFit(i.unix, i.offset);
    UnixRoundTrip(i.unix, i.offset);
    var c := UnixToCivil(i.unix, i.offset);
    var zone := Zone(i.offset);
    var t := Clock(c) + Fraction(i.millisecond) + zone;
    assert t == Clock(c) + (Fraction(i.millisecond) + zone);
    ClockBack(c, Fraction(i.millisecond) + zone);
    ZoneStarts(i.offset);
    FractionBack(t, 19, i.millisecond, zone);
    ZoneBack(t, 19 + |Fraction(i.millisecond)|, i.offset);
  }

  lemma ZoneStarts(offset: int)
    ensures Zone(offset) != [] && !Digit(Zone(offset)[0]) && Zone(offset)[0] != DOT
  {
  }

  /** Whatever parses is a representable instant, and names it in a valid offset. */
  lemma ParsedIsValid(t: seq<byte>)
    requires Parse(t).Ok?
    ensures var i := Parse(t).value;
      && ValidInstant(i.unix, i.millisecond) && ValidOffset(i.offset)
      && ClockAt(t) && UnixToCivil(i.unix, i.offset) == ReadClock(t)
  {
    hide ClockAt, ReadFraction, ReadZone, UnixToCivil, ReadClock, ValidTime;
    var fraction := ReadFraction(t, 19).value;
    var zone := ReadZone(t, fraction.next).value;
    CivilRoundTrip(ReadClock(t), zone.value);
  }
}
