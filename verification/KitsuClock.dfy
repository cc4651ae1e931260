/** The running clock: an anchor advanced by samples of a wrapping millisecond counter, and its text parser in its own
    form. */
module KitsuClock {
  import opened Bytes
  import opened Calendar
  import opened ClockText

  datatype Source = NoSource | ManualSerial | ManualDevice | NetworkTime | AuthenticatedApp
  datatype Trust = Unset | RestoredStale | Trusted

  datatype Outcome = Done | NotSet | InvalidSource | Rejected(error: Error) | NotSynchronized | MonotonicDiscontinuity

  datatype State = State(unix: nat, millisecond: nat, offset: int, lastMillis: u32, source: Source, trust: Trust, healthy: bool)

  const RESET: State := State(0, 0, 0, 0, NoSource, Unset, false)

  /** A set clock shows a representable instant; an unset one shows nothing. */
  predicate Sound(s: State) {
    ValidOffset(s.offset) && (s.trust != Unset ==> ValidInstant(s.unix, s.millisecond) && s.source != NoSource)
  }

  predicate Direct(source: Source) {
    source == ManualSerial || source == ManualDevice || source == AuthenticatedApp
  }

  /** `setAnchor`. */
  function Anchor(s: State, i: Instant, source: Source, now: u32): (State, Outcome) {
    if !Direct(source) then (s, InvalidSource)
    else if !ValidOffset(i.offset) || !ValidInstant(i.unix, i.millisecond) then (s, Rejected(OutOfRange))
    else (State(i.unix, i.millisecond, i.offset, now, source, Trusted, true), Done)
  }

  /** `acceptNtp`: keeps the offset. */
  function Synchronize(s: State, unix: nat, millisecond: nat, synchronized: bool, now: u32): (State, Outcome) {
    if !synchronized then (s, NotSynchronized)
    else if !ValidInstant(unix, millisecond) then (s, Rejected(OutOfRange))
    else (State(unix, millisecond, s.offset, now, NetworkTime, Trusted, true), Done)
  }

  /** `setUtcOffsetMinutes`. */
  function SetOffset(s: State, offset: int): (State, Outcome) {
    if !ValidOffset(offset) then (s, Rejected(OutOfRange)) else (s.(offset := offset), Done)
  }

  /** `advance`. */
  function Advance(s: State, now: u32): (State, Outcome) {
    if s.trust == Unset then (s, NotSet)
    else
      var delta := Sub32(now, s.lastMillis);
      if delta > 0x7FFF_FFFF then
        (s.(lastMillis := now, trust := RestoredStale, healthy := false), MonotonicDiscontinuity)
      else
        var total := s.millisecond + delta;
        var unix, millisecond := s.unix + total / 1000, total % 1000;
        if unix > UNIX_MAX || (unix == UNIX_MAX && millisecond != 0) then
          (s.(unix := UNIX_MAX, millisecond := 0, lastMillis := now, trust := RestoredStale, healthy := false), Rejected(OutOfRange))
        else (s.(unix := unix, millisecond := millisecond, lastMillis := now), Done)
  }

  /** `restore` of a snapshot that has already been validated, or refused. */
  function Restore(s: State, i: Instant, source: Source, intact: bool, now: u32): (State, Outcome) {
    if !intact || source == NoSource || !ValidInstant(i.unix, i.millisecond) || !ValidOffset(i.offset)
    then (s, Rejected(InvalidArgument))
    else (State(i.unix, i.millisecond, i.offset, now, source, RestoredStale, true), Done)
  }

  datatype Event =
    | SetTime(instant: Instant, source: Source, now: u32)
    | Network(unix: nat, millisecond: nat, synchronized: bool, now: u32)
    | Offset(offset: int)
    | Sample(now: u32)
    | Reload(instant: Instant, source: Source, intact: bool, now: u32)

  function Step(s: State, e: Event): State {
    match e
    case SetTime(i, source, now) => Anchor(s, i, source, now).0
    case Network(unix, millisecond, synchronized, now) => Synchronize(s, unix, millisecond, synchronized, now).0
    case Offset(offset) => SetOffset(s, offset).0
    case Sample(now) => Advance(s, now).0
    case Reload(i, source, intact, now) => Restore(s, i, source, intact, now).0
  }

  function Run(s: State, events: seq<Event>): State
    decreases |events|
  {
    if events == [] then s else Step(Run(s, events[..|events| - 1]), events[|events| - 1])
  }

  /** In every run the clock shows a representable instant or nothing. */
  lemma {:induction false} RunIsSound(s: State, events: seq<Event>)
    requires Sound(s)
    ensures Sound(Run(s, events))
  {
    if events != [] { RunIsSound(s, events[..|events| - 1]); }
  }

  /** Milliseconds since 1970. */
  function Milliseconds(s: State): nat { s.unix * 1000 + s.millisecond }

  /** Time between consecutive samples, each across at most one wrap. */
  function Elapsed(last: u32, samples: seq<u32>): nat
    decreases |samples|
  {
    if samples == [] then 0 else Sub32(samples[0], last) + Elapsed(samples[0], samples[1..])
  }

  predicate Close(last: u32, samples: seq<u32>)
    decreases |samples|
  {
    samples == [] || (Sub32(samples[0], last) <= 0x7FFF_FFFF && Close(samples[0], samples[1..]))
  }

  function Sampled(s: State, samples: seq<u32>): State
    decreases |samples|
  {
    if samples == [] then s else Sampled(Advance(s, samples[0]).0, samples[1..])
  }

  /** A sample adds exactly the time since the last one. */
  lemma SampleIsExact(s: State, now: u32)
    requires Sound(s) && s.trust != Unset && Sub32(now, s.lastMillis) <= 0x7FFF_FFFF
    requires Milliseconds(s) + Sub32(now, s.lastMillis) <= UNIX_MAX * 1000
    ensures var (t, outcome) := Advance(s, now);
      && outcome == Done && Milliseconds(t) == Milliseconds(s) + Sub32(now, s.lastMillis)
      && t == s.(unix := t.unix, millisecond := t.millisecond, lastMillis := now) && Sound(t)
  {
    var delta := Sub32(now, s.lastMillis);
    var total := s.millisecond + delta;
    assert total == 1000 * (total / 1000) + total % 1000;
  }

  /** However often the clock is read, and however often the counter wraps, no millisecond is lost or gained and trust
      stays. */
  lemma {:induction false} SamplesAddUp(s: State, samples: seq<u32>)
    requires Sound(s) && s.trust != Unset && Close(s.lastMillis, samples)
    requires Milliseconds(s) + Elapsed(s.lastMillis, samples) <= UNIX_MAX * 1000
    ensures var t := Sampled(s, samples);
      Milliseconds(t) == Milliseconds(s) + Elapsed(s.lastMillis, samples) && t.trust == s.trust && t.healthy == s.healthy
    decreases |samples|
  {
    hide Sound, Advance, Milliseconds;
    if samples != [] {
      SampleIsExact(s, samples[0]);
      SamplesAddUp(Advance(s, samples[0]).0, samples[1..]);
    }
  }

  /** Trust is lost exactly by a jump of the counter or by running past the last representable instant. */
  lemma TrustLost(s: State, now: u32)
    requires Sound(s) && s.trust == Trusted
    ensures Advance(s, now).0.trust == Trusted <==>
      Sub32(now, s.lastMillis) <= 0x7FFF_FFFF && Milliseconds(s) + Sub32(now, s.lastMillis) <= UNIX_MAX * 1000
  {
    var total := s.millisecond + Sub32(now, s.lastMillis);
    assert total == 1000 * (total / 1000) + total % 1000;
  }

  /** What was saved is not trusted until the time is set again: reading and offsets do not restore trust. */
  lemma {:induction false} StaleStaysStale(s: State, events: seq<Event>)
    requires s.trust != Trusted && forall k :: 0 <= k < |events| ==> events[k].Offset? || events[k].Sample? || events[k].Reload?
    ensures Run(s, events).trust != Trusted
  {
    if events != [] { StaleStaysStale(s, events[..|events| - 1]); }
  }

  // ----- the clock and its parser, in their own form -----

  /** A cursor over a text. */
  class Cursor {
    const text: seq<byte>
    var at: nat

    constructor (text: seq<byte>)
      ensures this.text == text && at == 0
    {
      this.text, at := text, 0;
    }

    /** `parseDigits`. */
    method ParseDigits(count: nat) returns (value: Option<nat>)
      modifies this
      ensures value.Some? <==> DigitsAt(text, old(at), count)
      ensures value.Some? ==> value.value == Number(text, old(at), count) && at == old(at) + count
    {
      var sum: nat, index: nat := 0, 0;
      while index < count
        invariant 0 <= index <= count && at == old(at) && DigitsAt(text, at, index)
        invariant sum == Number(text, at, index)
      {
        if !Digit(At(text, at + index)) { return None; }
        sum := sum * 10 + DigitAt(text, at + index);
        index := index + 1;
      }
      at := at + count;
      value := Some(sum);
    }

    /** `consume`. */
    method Consume(expected: byte) returns (ok: bool)
      modifies this
      ensures ok <==> At(text, old(at)) == expected
      ensures at == old(at) + if ok then 1 else 0
    {
      ok := At(text, at) == expected;
      if ok { at := at + 1; }
    }

    /** The fraction loop of `parseIso8601`: digits are collected and then scaled to milliseconds. */
    method ParseFraction() returns (millisecond: Option<nat>)
      modifies this
      ensures millisecond.Some? <==> ReadFraction(text, old(at)).Some?
      ensures millisecond.Some? ==> ReadFraction(text, old(at)).value == Part(millisecond.value, at)
    {
      hide Number;
      if At(text, at) != DOT { return Some(0); }
      at := at + 1;
      ghost var start := at;
      var sum: nat, digits: nat := 0, 0;
      assert Number(text, start, 0) == 0 by { NoDigits(text, start); }
      while Digit(At(text, at))
        invariant digits <= 3 && at == start + digits && DigitsAt(text, start, digits) && sum == Number(text, start, digits)
        invariant FractionDigits(text, start, 0) == FractionDigits(text, start, digits)
        decreases 3 - digits
      {
        if digits >= 3 { return None; }
        NextDigit(text, start, digits);
        sum, digits, at := sum * 10 + DigitAt(text, at), digits + 1, at + 1;
      }
      if digits == 0 { return None; }
      ghost var read := digits;
      while digits < 3
        invariant read <= digits <= 3 && Scale(sum, digits) == Scale(Number(text, start, read), read)
      {
        sum, digits := sum * 10, digits + 1;
      }
      millisecond := Some(sum);
    }

    /** The zone of `parseIso8601`. */
    method ParseZone() returns (offset: Option<int>)
      modifies this
      ensures offset.Some? <==> ReadZone(text, old(at)).Some?
      ensures offset.Some? ==> ReadZone(text, old(at)).value == Part(offset.value, at)
    {
      hide Number, DigitsAt, At;
      var utc := Consume(LETTER_Z);
      if utc { return Some(0); }
      if At(text, at) != PLUS && At(text, at) != DASH { return None; }
      var negative := At(text, at) == DASH;
      at := at + 1;
      var hour := ParseDigits(2);
      if hour == None { return None; }
      var separated := Consume(COLON);
      if !separated { return None; }
      var minute := ParseDigits(2);
      if minute == None || hour.value > 14 || minute.value > 59 || (hour.value == 14 && minute.value != 0) { return None; }
      var magnitude: int := hour.value * 60 + minute.value;
      offset := Some(if negative then -magnitude else magnitude);
    }

    /** Date: four, two and two digits with dashes, then `T`. */
    method ParseDate() returns (date: Option<Date>)
      requires at == 0
      modifies this
      ensures date.Some? <==> DigitsAt(text, 0, 4) && At(text, 4) == DASH && DigitsAt(text, 5, 2) && At(text, 7) == DASH
                              && DigitsAt(text, 8, 2) && At(text, 10) == LETTER_T
      ensures date.Some? ==> at == 11 && date.value == Date(Number(text, 0, 4), Number(text, 5, 2), Number(text, 8, 2))
    {
      hide Number, DigitsAt, At;
      var year := ParseDigits(4);
      if year == None { return None; }
      var ok := Consume(DASH);
      if !ok { return None; }
      var month := ParseDigits(2);
      if month == None { return None; }
      ok := Consume(DASH);
      if !ok { return None; }
      var day := ParseDigits(2);
      if day == None { return None; }
      ok := Consume(LETTER_T);
      if !ok { return None; }
      date := Some(Date(year.value, month.value, day.value));
    }

    /** Time of day: three pairs of digits with colons. */
    method ParseTime(date: Date) returns (time: Option<Time>)
      requires at == 11
      modifies this
      ensures time.Some? <==> DigitsAt(text, 11, 2) && At(text, 13) == COLON && DigitsAt(text, 14, 2) && At(text, 16) == COLON
                              && DigitsAt(text, 17, 2)
      ensures time.Some? ==> at == 19 && time.value == Time(date, Number(text, 11, 2), Number(text, 14, 2), Number(text, 17, 2))
    {
      hide Number, DigitsAt, At;
      var hour := ParseDigits(2);
      if hour == None { return None; }
      var ok := Consume(COLON);
      if !ok { return None; }
      var minute := ParseDigits(2);
      if minute == None { return None; }
      ok := Consume(COLON);
      if !ok { return None; }
      var second := ParseDigits(2);
      if second == None { return None; }
      time := Some(Time(date, hour.value, minute.value, second.value));
    }
  }

  lemma NoDigits(t: seq<byte>, i: nat)
    ensures DigitsAt(t, i, 0) && Number(t, i, 0) == 0
  {
  }

  lemma NextDigit(t: seq<byte>, i: nat, n: nat)
    requires DigitsAt(t, i, n) && Digit(At(t, i + n))
    ensures DigitsAt(t, i, n + 1) && Number(t, i, n + 1) == Number(t, i, n) * 10 + DigitAt(t, i + n)
  {
  }

  /** `parseIso8601`. */
  method ParseIso8601(input: seq<byte>) returns (result: Result<Instant>)
    ensures result == Parse(input)
  {
    hide ReadFraction, ReadZone, CivilToUnix, Number, DigitsAt;
    var cursor := new Cursor(input);
    var date := cursor.ParseDate();
    if date == None { return Failed(InvalidIso8601); }
    var time := cursor.ParseTime(date.value);
    if time == None { return Failed(InvalidIso8601); }
    var millisecond := cursor.ParseFraction();
    if millisecond == None { return Failed(InvalidIso8601); }
    var offset := cursor.ParseZone();
    if offset == None || At(input, cursor.at) != 0 { return Failed(InvalidIso8601); }
    var unix := CivilToUnix(time.value, offset.value);
    if unix == None { return Failed(InvalidIso8601); }
    if !ValidInstant(unix.value, millisecond.value) { return Failed(OutOfRange); }
    result := Ok(Instant(unix.value, millisecond.value, offset.value));
  }

  class WallClock {
    var unixSeconds: nat
    var millisecond: nat
    var utcOffsetMinutes: int
    var lastMillis: u32
    var source: Source
    var trust: Trust
    var monotonicHealthy: bool

    ghost function Now(): State
      reads this
    {
      State(unixSeconds, millisecond, utcOffsetMinutes, lastMillis, source, trust, monotonicHealthy)
    }

    constructor ()
      ensures Now() == RESET && Sound(Now())
    {
      unixSeconds, millisecond, utcOffsetMinutes, lastMillis := 0, 0, 0, 0;
      source, trust, monotonicHealthy := NoSource, Unset, false;
    }

    /** `setAnchor`. */
    method SetAnchor(i: Instant, from: Source, now: u32) returns (outcome: Outcome)
      requires Sound(Now())
      modifies this
      ensures Sound(Now()) && (Now(), outcome) == Anchor(old(Now()), i, from, now)
    {
      if !Direct(from) { return InvalidSource; }
      if !ValidOffset(i.offset) || !ValidInstant(i.unix, i.millisecond) { return Rejected(OutOfRange); }
      unixSeconds, millisecond, utcOffsetMinutes, lastMillis := i.unix, i.millisecond, i.offset, now;
      source, trust, monotonicHealthy := from, Trusted, true;
      outcome := Done;
    }

    /** `advance`. */
    method AdvanceTo(now: u32) returns (outcome: Outcome)
      requires Sound(Now())
      modifies this
      ensures Sound(Now()) && (Now(), outcome) == Advance(old(Now()), now)
    {
      if trust == Unset { return NotSet; }
      var delta := Sub32(now, lastMillis);
      if delta > 0x7FFF_FFFF {
        lastMillis, trust, monotonicHealthy := now, RestoredStale, false;
        return MonotonicDiscontinuity;
      }
      var total := millisecond + delta;
      var addedSeconds, nextMillisecond := total / 1000, total % 1000;
      if addedSeconds > UNIX_MAX - unixSeconds || (unixSeconds + addedSeconds == UNIX_MAX && nextMillisecond != 0) {
        unixSeconds, millisecond, lastMillis, trust, monotonicHealthy := UNIX_MAX, 0, now, RestoredStale, false;
        return Rejected(OutOfRange);
      }
      unixSeconds, millisecond, lastMillis := unixSeconds + addedSeconds, nextMillisecond, now;
      outcome := Done;
    }

    /** `setFromIso8601`. */
    method SetFromText(input: seq<byte>, from: Source, now: u32) returns (outcome: Outcome)
      requires Sound(Now())
      modifies this
      ensures Sound(Now())
      ensures (Now(), outcome) ==
        if !Direct(from) then (old(Now()), InvalidSource)
        else if Parse(input).Failed? then (old(Now()), Rejected(Parse(input).error))
        else Anchor(old(Now()), Parse(input).value, from, now)
    {
      hide Parse;
      if !Direct(from) { return InvalidSource; }
      var parsed := ParseIso8601(input);
      if parsed.Failed? { return Rejected(parsed.error); }
      outcome := SetAnchor(parsed.value, from, now);
    }
  }
}
