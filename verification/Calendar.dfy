/** Calendar arithmetic without a time zone library: the closed formulas, against counting day by day. */
module Calendar {
  import opened Bytes

  const OFFSET_MAX: int := 840

  datatype Date = Date(year: int, month: int, day: int)
  datatype Time = Time(date: Date, hour: int, minute: int, second: int)

  predicate LeapYear(year: int) {
    year % 4 == 0 && (year % 100 != 0 || year % 400 == 0)
  }

  function MonthDays(year: int, month: int): int {
    if month == 2 then (if LeapYear(year) then 29 else 28)
    else if month == 4 || month == 6 || month == 9 || month == 11 then 30
    else if 1 <= month <= 12 then 31 else 0
  }

  predicate Valid(d: Date) {
    1 <= d.month <= 12 && 1 <= d.day <= MonthDays(d.year, d.month)
  }

  /** The day after. */
  function Next(d: Date): Date {
    if d.day < MonthDays(d.year, d.month) then Date(d.year, d.month, d.day + 1)
    else if d.month < 12 then Date(d.year, d.month + 1, 1) else Date(d.year + 1, 1, 1)
  }

  const EPOCH: Date := Date(1970, 1, 1)

  /** The date `n` days after the epoch, counted day by day. */
  function Counted(n: nat): Date {
    if n == 0 then EPOCH else Next(Counted(n - 1))
  }

  /** Division as the hardware does it, towards zero. */
  function Truncated(x: int, n: int): int
    requires n > 0
  {
    if x >= 0 then x / n else -(-x / n)
  }

  /** `daysFromCivil`. */
  function DaysFromCivil(d: Date): int {
    var year := if d.month <= 2 then d.year - 1 else d.year;
    var era := Truncated(if year >= 0 then year else year - 399, 400);
    var yearOfEra := year - era * 400;
    var adjustedMonth := if d.month > 2 then d.month - 3 else d.month + 9;
    var dayOfYear := (153 * adjustedMonth + 2) / 5 + d.day - 1;
    var dayOfEra := yearOfEra * 365 + yearOfEra / 4 - yearOfEra / 100 + dayOfYear;
    era * 146097 + dayOfEra - 719468
  }

  /** A year that starts in March and a day in it. */
  datatype Shifted = Shifted(year: int, day: int)

  /** The first half of `civilFromDays`: era, year of the era, day of that year. */
  function ShiftedFromDays(n: int): Shifted {
    var days := n + 719468;
    var era := Truncated(if days >= 0 then days else days - 146096, 146097);
    var dayOfEra := days - era * 146097;
    var yearOfEra := (dayOfEra - dayOfEra / 1460 + dayOfEra / 36524 - dayOfEra / 146096) / 365;
    Shifted(yearOfEra + era * 400, dayOfEra - (365 * yearOfEra + yearOfEra / 4 - yearOfEra / 100))
  }

  /** The second half: month and day. */
  function FromShifted(s: Shifted): Date {
    var monthPrime := (5 * s.day + 2) / 153;
    var month := if monthPrime < 10 then monthPrime + 3 else monthPrime - 9;
    Date(s.year + if month <= 2 then 1 else 0, month, s.day - (153 * monthPrime + 2) / 5 + 1)
  }

  /** The date before its year is stored. */
  function WholeCivil(n: int): Date {
    FromShifted(ShiftedFromDays(n))
  }

  /** `civilFromDays`: the year is stored in 16 bits. */
  function CivilFromDays(n: int): Date {
    var d := WholeCivil(n);
    d.(year := d.year % YEARS)
  }

  /** A year that 16 bits can store. */
  const YEARS: int := 0x1_0000

  /** 0000-01-01 and 65535-12-31. */
  const FIRST_DAY: int := -719_528
  const LAST_DAY: int := 23_217_003

  // ----- the shifted year: March first, leap day last -----

  lemma TruncatedIsFloor(x: int, n: int)
    requires n > 0
    ensures Truncated(if x >= 0 then x else x - (n - 1), n) == x / n
  {
    if x < 0 {
      var q, r := x / n, x % n;
      assert x == n * q + r;
      var y := (n - 1) - x;
      assert y == n * (-q) + (n - 1 - r) && 0 <= n - 1 - r < n;
      DivisionIs(y, n, -q, n - 1 - r);
    }
  }

  lemma MultipleOrder(a: int, b: int, n: int)
    requires a <= b && n > 0
    ensures n * a <= n * b
  {
  }

  lemma DivisionIs(x: int, n: int, q: int, r: int)
    requires n > 0 && x == n * q + r && 0 <= r < n
    ensures x / n == q && x % n == r
  {
    var p := x / n;
    if p < q { MultipleOrder(p + 1, q, n); } else if q < p { MultipleOrder(q + 1, p, n); }
  }

  /** First day of each month in a year that starts in March. */
  function MonthStart(m: int): int
    requires 0 <= m <= 12
  {
    if m == 0 then 0 else if m == 1 then 31 else if m == 2 then 61 else if m == 3 then 92 else if m == 4 then 122
    else if m == 5 then 153 else if m == 6 then 184 else if m == 7 then 214 else if m == 8 then 245 else if m == 9 then 275
    else if m == 10 then 306 else if m == 11 then 337 else 366
  }

  /** The linear formulas find month starts and months. */
  lemma MonthFormulas(m: int, day: int)
    requires 0 <= m < 12 && MonthStart(m) <= day < MonthStart(m + 1)
    ensures (153 * m + 2) / 5 == MonthStart(m) && (5 * day + 2) / 153 == m
  {
  }

  /** Days in the year from March of `year`: the leap day belongs to the next calendar year. */
  function ShiftedLength(year: int): int {
    if LeapYear(year + 1) then 366 else 365
  }

  function ShiftedYear(d: Date): int { if d.month <= 2 then d.year - 1 else d.year }
  function ShiftedMonth(d: Date): int { if d.month > 2 then d.month - 3 else d.month + 9 }

  function Shift(d: Date): Shifted
    requires 1 <= d.month <= 12
  {
    Shifted(ShiftedYear(d), MonthStart(ShiftedMonth(d)) + d.day - 1)
  }

  /** Days before March of `year`, from the formula for leap days. */
  function Before(year: int): int {
    365 * year + year / 4 - year / 100 + year / 400
  }

  lemma OneYear(year: int)
    ensures Before(year + 1) == Before(year) + ShiftedLength(year)
  {
    OneMore(year, 4);
    OneMore(year, 100);
    OneMore(year, 400);
    assert (year + 1) % 400 == 0 ==> (year + 1) % 100 == 0;
    assert (year + 1) % 100 == 0 ==> (year + 1) % 4 == 0;
  }

  lemma OneMore(x: int, n: int)
    requires n > 1
    ensures (x + 1) / n == x / n + if (x + 1) % n == 0 then 1 else 0
  {
    var q, r := x / n, x % n;
    assert x == n * q + r;
    if r == n - 1 {
      assert x + 1 == n * (q + 1);
      DivisionIs(x + 1, n, q + 1, 0);
    } else {
      DivisionIs(x + 1, n, q, r + 1);
    }
  }

  /** The era form of the formula is the plain one. */
  lemma EraForm(year: int)
    ensures var era := year / 400; var y := year - era * 400;
      0 <= y < 400 && era * 146097 + (y * 365 + y / 4 - y / 100) == Before(year)
  {
    var era := year / 400;
    var y := year - era * 400;
    assert year == 400 * era + y && 0 <= y < 400;
    DivisionIs(year, 4, 100 * era + y / 4, y % 4);
    DivisionIs(year, 100, 4 * era + y / 100, y % 100);
  }

  /** What `daysFromCivil` computes. */
  lemma DaysFormula(d: Date)
    requires Valid(d)
    ensures DaysFromCivil(d) == Before(ShiftedYear(d)) + Shift(d).day - 719468
    ensures 0 <= Shift(d).day < ShiftedLength(ShiftedYear(d))
  {
    hide Truncated, Before;
    var year := ShiftedYear(d);
    TruncatedIsFloor(year, 400);
    EraForm(year);
    MonthFormulas(ShiftedMonth(d), MonthStart(ShiftedMonth(d)));
  }

  /** The next day has the next number. */
  lemma NextDay(d: Date)
    requires Valid(d)
    ensures Valid(Next(d)) && DaysFromCivil(Next(d)) == DaysFromCivil(d) + 1
  {
    hide DaysFromCivil, Before;
    DaysFormula(d);
    DaysFormula(Next(d));
    OneYear(ShiftedYear(d));
  }

  /** `daysFromCivil` counts days. */
  lemma {:induction false} DaysCount(n: nat)
    ensures Valid(Counted(n)) && DaysFromCivil(Counted(n)) == n
  {
    hide DaysFromCivil;
    if n == 0 {
      DaysFormula(EPOCH);
    } else {
      DaysCount(n - 1);
      NextDay(Counted(n - 1));
    }
  }

  // ----- back from days -----

  /** The corrections of the year formula. */
  lemma Corrections(b: int, q: int, r: int, day: int)
    requires 0 <= b <= 3 && 0 <= q <= 24 && 0 <= r <= 3 && 0 <= day
    requires day < (if r == 3 && (q < 24 || b == 3) then 366 else 365) && !(b == 3 && q == 24 && r == 3 && day == 365)
    ensures var e := 36524 * b + 1461 * q + 365 * r + day; var k := if 24 * b + q + 365 * r + day >= 1460 then 1 else 0;
      0 <= e < 146096 && e / 36524 == b && e / 146096 == 0 && e / 1460 == 25 * b + q + k
  {
    var e := 36524 * b + 1461 * q + 365 * r + day;
    DivisionIs(e, 36524, b, 1461 * q + 365 * r + day);
    DivisionIs(e, 146096, 0, e);
    var s := 24 * b + q + 365 * r + day;
    var k := if s >= 1460 then 1 else 0;
    DivisionIs(e, 1460, 25 * b + q + k, s - 1460 * k);
  }

  /** Position in an era: century, group of four years, year, day. */
  lemma YearOfEra(b: int, q: int, r: int, day: int)
    requires 0 <= b <= 3 && 0 <= q <= 24 && 0 <= r <= 3 && 0 <= day
    requires day < (if r == 3 && (q < 24 || b == 3) then 366 else 365)
    ensures var e := 36524 * b + 1461 * q + 365 * r + day;
      && (e - e / 1460 + e / 36524 - e / 146096) / 365 == 100 * b + 4 * q + r
      && 0 <= e < 146097
  {
    if b == 3 && q == 24 && r == 3 && day == 365 {
      assert (146096 - 146096 / 1460 + 146096 / 36524 - 146096 / 146096) / 365 == 399;
    } else {
      Corrections(b, q, r, day);
      var k := if 24 * b + q + 365 * r + day >= 1460 then 1 else 0;
      DivisionIs(365 * (100 * b + 4 * q + r) + (day - k), 365, 100 * b + 4 * q + r, day - k);
    }
  }

  /** Any year of an era in those terms. */
  lemma YearParts(y: int) returns (b: int, q: int, r: int)
    requires 0 <= y < 400
    ensures y == 100 * b + 4 * q + r && 0 <= b <= 3 && 0 <= q <= 24 && 0 <= r <= 3
    ensures y * 365 + y / 4 - y / 100 == 36524 * b + 1461 * q + 365 * r
    ensures LeapYear(y + 1) <==> r == 3 && (q < 24 || b == 3)
  {
    b := y / 100;
    var c := y % 100;
    q, r := c / 4, c % 4;
    assert y / 4 == 25 * b + q by { DivisionIs(y, 4, 25 * b + q, r); }
    if r == 3 {
      DivisionIs(y + 1, 4, 25 * b + q + 1, 0);
      if q == 24 { DivisionIs(y + 1, 100, b + 1, 0); } else { DivisionIs(y + 1, 100, b, c + 1); }
      if q == 24 && b == 3 { assert y + 1 == 400; }
    } else {
      DivisionIs(y + 1, 4, 25 * b + q, r + 1);
    }
  }

  /** A leap year stays one 400 years on. */
  lemma LeapPeriod(year: int, era: int)
    ensures LeapYear(year + 400 * era) == LeapYear(year)
  {
    DivisionIs(year + 400 * era, 400, year / 400 + era, year % 400);
    DivisionIs(year + 400 * era, 100, year / 100 + 4 * era, year % 100);
    DivisionIs(year + 400 * era, 4, year / 4 + 100 * era, year % 4);
  }

  /** The first half of `civilFromDays` finds year and day of year. */
  lemma ShiftedBack(s: Shifted)
    requires 0 <= s.day < ShiftedLength(s.year)
    ensures ShiftedFromDays(Before(s.year) + s.day - 719468) == s
  {
    hide Truncated, Before, LeapYear;
    var era := s.year / 400;
    var y := s.year - era * 400;
    EraForm(s.year);
    LeapPeriod(y + 1, era);
    var b, q, r := YearParts(y);
    YearOfEra(b, q, r, s.day);
    var e := 36524 * b + 1461 * q + 365 * r + s.day;
    var days := Before(s.year) + s.day;
    assert days == 146097 * era + e;
    DivisionIs(days, 146097, era, e);
    TruncatedIsFloor(days, 146097);
  }

  /** The month a day of the shifted year falls into. */
  function MonthOf(day: int): (m: int)
    requires 0 <= day < 366
    ensures 0 <= m < 12 && MonthStart(m) <= day < MonthStart(m + 1)
  {
    if day < 31 then 0 else if day < 61 then 1 else if day < 92 then 2 else if day < 122 then 3 else if day < 153 then 4
    else if day < 184 then 5 else if day < 214 then 6 else if day < 245 then 7 else if day < 275 then 8
    else if day < 306 then 9 else if day < 337 then 10 else 11
  }

  lemma MonthLengths(d: Date)
    requires Valid(d)
    ensures MonthOf(MonthStart(ShiftedMonth(d)) + d.day - 1) == ShiftedMonth(d)
  {
  }

  lemma WholeOfDays(d: Date)
    requires Valid(d)
    ensures WholeCivil(DaysFromCivil(d)) == d
  {
    hide ShiftedFromDays, DaysFromCivil, Before, MonthOf;
    DaysFormula(d);
    MonthLengths(d);
    ShiftedBack(Shift(d));
    MonthFormulas(ShiftedMonth(d), Shift(d).day);
  }

  /** `civilFromDays` undoes `daysFromCivil` on a valid date exactly when its year can be stored … */
  lemma CivilOfDays(d: Date)
    requires Valid(d)
    ensures CivilFromDays(DaysFromCivil(d)) == d <==> 0 <= d.year < YEARS
  {
    hide WholeCivil, DaysFromCivil;
    WholeOfDays(d);
  }

  /** Every day number lies in some shifted year. */
  lemma SomeYear(n: int) returns (s: Shifted)
    ensures 0 <= s.day < ShiftedLength(s.year) && Before(s.year) + s.day == n
  {
    var y := if n >= 0 then n / 366 else n / 365 - 1;
    EarlyEnough(n, y);
    s := FindYear(n, y);
  }

  lemma EarlyEnough(n: int, y: int)
    requires y == if n >= 0 then n / 366 else n / 365 - 1
    ensures Before(y) <= n
  {
    var leaps := y / 4 - y / 100 + y / 400;
    if n >= 0 {
      assert n == 366 * y + n % 366 && leaps <= y;
    } else {
      assert n == 365 * (y + 1) + n % 365 && leaps <= 2;
    }
  }

  lemma {:induction false} FindYear(n: int, y: int) returns (s: Shifted)
    requires Before(y) <= n
    ensures 0 <= s.day < ShiftedLength(s.year) && Before(s.year) + s.day == n
    decreases n - Before(y)
  {
    hide Before;
    OneYear(y);
    if n < Before(y + 1) {
      s := Shifted(y, n - Before(y));
    } else {
      s := FindYear(n, y + 1);
    }
  }

  lemma DaysOfWhole(n: int)
    ensures Valid(WholeCivil(n)) && DaysFromCivil(WholeCivil(n)) == n
  {
    hide ShiftedFromDays, DaysFromCivil, Before;
    var s := SomeYear(n + 719468);
    ShiftedBack(s);
    MonthFormulas(MonthOf(s.day), s.day);
    DateInMonth(s);
    DaysFormula(WholeCivil(n));
  }

  /** The years of a day number. */
  lemma YearInRange(d: Date)
    requires Valid(d) && FIRST_DAY <= DaysFromCivil(d) <= LAST_DAY
    ensures 0 <= d.year < YEARS
  {
    hide DaysFromCivil;
    DaysFormula(d);
  }

  /** … and `daysFromCivil` undoes it on every day number from year 0 to year 65535. */
  lemma DaysOfCivil(n: int)
    requires FIRST_DAY <= n <= LAST_DAY
    ensures Valid(CivilFromDays(n)) && 0 <= CivilFromDays(n).year < YEARS && DaysFromCivil(CivilFromDays(n)) == n
  {
    hide WholeCivil, DaysFromCivil;
    DaysOfWhole(n);
    YearInRange(WholeCivil(n));
  }

  /** The date of a shifted day exists and shifts back. */
  lemma DateInMonth(s: Shifted)
    requires 0 <= s.day < ShiftedLength(s.year)
    ensures var d := FromShifted(s); Valid(d) && Shift(d) == s
  {
    MonthFormulas(MonthOf(s.day), s.day);
  }

  /** Counting days and the closed formula agree. */
  lemma CountedIsCivil(n: nat)
    requires n <= LAST_DAY
    ensures CivilFromDays(n) == Counted(n)
  {
    hide CivilFromDays, DaysFromCivil;
    DaysCount(n);
    YearInRange(Counted(n));
    CivilOfDays(Counted(n));
  }

  // ----- seconds -----

  predicate ValidTime(t: Time) {
    Valid(t.date) && 0 <= t.date.year < YEARS && 0 <= t.hour <= 23 && 0 <= t.minute <= 59 && 0 <= t.second <= 59
  }

  predicate ValidOffset(minutes: int) {
    -OFFSET_MAX <= minutes <= OFFSET_MAX
  }

  /** `civilToUnix`. */
  function CivilToUnix(t: Time, offset: int): Option<nat> {
    if !ValidTime(t) || !ValidOffset(offset) then None
    else
      var utc := DaysFromCivil(t.date) * 86400 + t.hour * 3600 + t.minute * 60 + t.second - offset * 60;
      if utc < 0 then None else Some(utc)
  }

  /** `unixToCivil`, with its correction of the truncated division before the epoch. */
  function UnixToCivil(unix: nat, offset: int): Time {
    var local := unix + offset * 60;
    var days := Truncated(local, 86400);
    var rest := local - days * 86400;
    var day := if rest < 0 then days - 1 else days;
    var second := if rest < 0 then rest + 86400 else rest;
    Time(CivilFromDays(day), second / 3600, second % 3600 / 60, second % 60)
  }

  lemma LocalDay(local: int)
    ensures var days := Truncated(local, 86400); var rest := local - days * 86400;
      && (if rest < 0 then days - 1 else days) == local / 86400
      && (if rest < 0 then rest + 86400 else rest) == local % 86400
  {
    if local < 0 {
      var q, r := -local / 86400, -local % 86400;
      assert -local == 86400 * q + r;
      if r == 0 { DivisionIs(local, 86400, -q, 0); } else { DivisionIs(local, 86400, -q - 1, 86400 - r); }
    }
  }

  lemma ClockParts(second: int)
    requires 0 <= second < 86400
    ensures var h, m, s := second / 3600, second % 3600 / 60, second % 60;
      0 <= h <= 23 && 0 <= m <= 59 && 0 <= s <= 59 && h * 3600 + m * 60 + s == second
  {
    assert second % 3600 % 60 == second % 60;
  }

  /** Converting an instant to local fields and back. */
  lemma UnixRoundTrip(unix: nat, offset: int)
    requires ValidOffset(offset) && unix + offset * 60 < 86400 * (LAST_DAY + 1)
    ensures ValidTime(UnixToCivil(unix, offset)) && CivilToUnix(UnixToCivil(unix, offset), offset) == Some(unix)
  {
    hide CivilFromDays, DaysFromCivil, Truncated, Valid;
    var local := unix + offset * 60;
    LocalDay(local);
    assert FIRST_DAY <= local / 86400 <= LAST_DAY;
    DaysOfCivil(local / 86400);
    ClockParts(local % 86400);
    assert local == 86400 * (local / 86400) + local % 86400;
  }

  /** And local fields to an instant and back. */
  lemma CivilRoundTrip(t: Time, offset: int)
    requires CivilToUnix(t, offset).Some?
    ensures UnixToCivil(CivilToUnix(t, offset).value, offset) == t
  {
    hide CivilFromDays, DaysFromCivil, Truncated, Valid;
    CivilOfDays(t.date);
    var second := t.hour * 3600 + t.minute * 60 + t.second;
    var local := DaysFromCivil(t.date) * 86400 + second;
    DivisionIs(local, 86400, DaysFromCivil(t.date), second);
    LocalDay(local);
    DivisionIs(second, 3600, t.hour, t.minute * 60 + t.second);
    DivisionIs(t.minute * 60 + t.second, 60, t.minute, t.second);
    DivisionIs(second, 60, t.hour * 60 + t.minute, t.second);
  }
}
