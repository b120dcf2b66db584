/**
 * `parseUtcDate`, `daysBetween` and the ageing rule of scripts/verify-governance-audits.ts.
 *
 * Date arithmetic follows ECMA-262: day numbers and years (section 21.4.1), `MakeDay`,
 * `TimeClip`, and `Date.UTC` with its remapping of the years 0 to 99 (section 21.4.3.4).
 */
module Calendar {
  import opened Common

  const MS_PER_DAY: int := 86400000
  const MAX_TIME: int := 8640000000000000

  // ----- Gregorian dates, independently of day numbers -----

  datatype Date = Date(year: int, month: int, day: int) // month and day count from 1

  predicate Leap(y: int) {
    y % 4 == 0 && (y % 100 != 0 || y % 400 == 0)
  }

  function DaysInMonth(y: int, m: int): int
    requires 1 <= m <= 12
  {
    if m == 2 then (if Leap(y) then 29 else 28)
    else if m == 4 || m == 6 || m == 9 || m == 11 then 30
    else 31
  }

  predicate IsDate(d: Date) {
    1 <= d.month <= 12 && 1 <= d.day <= DaysInMonth(d.year, d.month)
  }

  /** The day after. */
  function Next(d: Date): Date
    requires IsDate(d)
  {
    if d.day < DaysInMonth(d.year, d.month) then d.(day := d.day + 1)
    else if d.month < 12 then Date(d.year, d.month + 1, 1)
    else Date(d.year + 1, 1, 1)
  }

  // ----- ECMA-262 day arithmetic -----

  function DaysInYear(y: int): int { if Leap(y) then 366 else 365 }

  /** Day number of January 1st; `/` floors here because the divisors are positive. */
  function DayFromYear(y: int): int {
    365 * (y - 1970) + (y - 1969) / 4 - (y - 1901) / 100 + (y - 1601) / 400
  }

  /** Days of the year before month `m`, counted from 0; 12 stands for the whole year. */
  function MonthStart(leap: bool, m: int): int
    requires 0 <= m <= 12
  {
    (if leap && m >= 2 then 1 else 0)
    + [0, 31, 59, 90, 120, 151, 181, 212, 243, 273, 304, 334, 365][m]
  }

  /** `MakeDay`: the month counts from 0 and carries into the year, the day carries freely. */
  function MakeDay(year: int, month: int, day: int): int {
    var y := year + month / 12;
    DayFromYear(y) + MonthStart(Leap(y), month % 12) + day - 1
  }

  lemma LeapStep4(y: int)
    ensures (y - 1968) / 4 - (y - 1969) / 4 == if y % 4 == 0 then 1 else 0
  {
  }

  lemma LeapStep100(y: int)
    ensures (y - 1900) / 100 - (y - 1901) / 100 == if y % 100 == 0 then 1 else 0
    ensures y % 100 == 0 ==> y % 4 == 0
  {
  }

  lemma LeapStep400(y: int)
    ensures (y - 1600) / 400 - (y - 1601) / 400 == if y % 400 == 0 then 1 else 0
    ensures y % 400 == 0 ==> y % 100 == 0
  {
  }

  lemma YearLength(y: int)
    ensures DayFromYear(y + 1) - DayFromYear(y) == DaysInYear(y)
  {
    LeapStep4(y);
    LeapStep100(y);
    LeapStep400(y);
    assert y + 1 - 1969 == y - 1968 && y + 1 - 1901 == y - 1900 && y + 1 - 1601 == y - 1600;
  }

  lemma NoCarry(y: int, m: int, d: int)
    requires 0 <= m <= 11
    ensures MakeDay(y, m, d) == DayFromYear(y) + MonthStart(Leap(y), m) + d - 1
  {
    assert m / 12 == 0 && m % 12 == m;
  }

  /** The year whose days include day number `n`, found from a guess. */
  function FindYear(n: int, guess: int): (y: int)
    ensures DayFromYear(y) <= n < DayFromYear(y + 1)
    decreases if DayFromYear(guess) > n then 1 else 0,
              if DayFromYear(guess) > n then DayFromYear(guess) - n else n - DayFromYear(guess)
  {
    YearLength(guess - 1);
    YearLength(guess);
    if DayFromYear(guess) > n then FindYear(n, guess - 1)
    else if DayFromYear(guess + 1) <= n then FindYear(n, guess + 1)
    else guess
  }

  function YearFromDay(n: int): (y: int)
    ensures DayFromYear(y) <= n < DayFromYear(y + 1)
  {
    FindYear(n, 1970)
  }

  /** The month, counted from 0, that a day of the year falls in. */
  function MonthOf(leap: bool, d: int): (m: int)
    requires 0 <= d < (if leap then 366 else 365)
    ensures 0 <= m < 12 && MonthStart(leap, m) <= d < MonthStart(leap, m + 1)
  {
    var b := if leap then 1 else 0;
    if d < 31 then 0
    else if d < 59 + b then 1
    else if d < 90 + b then 2
    else if d < 120 + b then 3
    else if d < 151 + b then 4
    else if d < 181 + b then 5
    else if d < 212 + b then 6
    else if d < 243 + b then 7
    else if d < 273 + b then 8
    else if d < 304 + b then 9
    else if d < 334 + b then 10
    else 11
  }

  /** `getUTCFullYear`, `getUTCMonth() + 1` and `getUTCDate` of a day. */
  function DateOfDay(n: int): Date {
    var y := YearFromDay(n);
    YearLength(y);
    var d := n - DayFromYear(y);
    var m := MonthOf(Leap(y), d);
    Date(y, m + 1, d - MonthStart(Leap(y), m) + 1)
  }

  /** The day number of a date. */
  function DayOfDate(d: Date): int {
    MakeDay(d.year, d.month - 1, d.day)
  }

  // ----- day numbers and Gregorian dates correspond one to one -----

  lemma MonthLength(y: int, m: int)
    requires 1 <= m <= 12
    ensures MonthStart(Leap(y), m) - MonthStart(Leap(y), m - 1) == DaysInMonth(y, m)
  {
  }

  lemma {:induction false} YearsIncrease(y: int, y': int)
    requires y <= y'
    ensures DayFromYear(y) + (y' - y) <= DayFromYear(y')
    decreases y' - y
  {
    if y < y' {
      YearsIncrease(y, y' - 1);
      YearLength(y' - 1);
    }
  }

  lemma YearUnique(n: int, y: int)
    requires DayFromYear(y) <= n < DayFromYear(y + 1)
    ensures YearFromDay(n) == y
  {
    var z := YearFromDay(n);
    if z < y { YearsIncrease(z + 1, y); }
    if y < z { YearsIncrease(y + 1, z); }
  }

  lemma MonthUnique(leap: bool, d: int, m: int)
    requires 0 <= m < 12 && MonthStart(leap, m) <= d < MonthStart(leap, m + 1)
    ensures 0 <= d < (if leap then 366 else 365) && MonthOf(leap, d) == m
  {
  }

  lemma MonthWithinYear(y: int, m: int)
    requires 1 <= m <= 12
    ensures 0 <= MonthStart(Leap(y), m - 1) && MonthStart(Leap(y), m) <= DaysInYear(y)
  {
  }

  lemma DayOfDateIsRight(d: Date)
    requires IsDate(d)
    ensures DateOfDay(DayOfDate(d)) == d
  {
    var n := DayOfDate(d);
    NoCarry(d.year, d.month - 1, d.day);
    MonthLength(d.year, d.month);
    MonthWithinYear(d.year, d.month);
    YearLength(d.year);
    YearUnique(n, d.year);
    MonthUnique(Leap(d.year), n - DayFromYear(d.year), d.month - 1);
  }

  lemma DateOfDayIsRight(n: int)
    ensures IsDate(DateOfDay(n)) && DayOfDate(DateOfDay(n)) == n
  {
    hide DayFromYear, Leap, YearFromDay, MonthOf, MonthStart;
    var y := YearFromDay(n);
    YearLength(y);
    var m := MonthOf(Leap(y), n - DayFromYear(y));
    MonthLength(y, m + 1);
    NoCarry(y, m, DateOfDay(n).day);
  }

  lemma NextIsDate(d: Date)
    requires IsDate(d)
    ensures IsDate(Next(d))
  {
  }

  lemma NextInMonth(d: Date)
    requires IsDate(d) && d.day < DaysInMonth(d.year, d.month)
    ensures DayOfDate(Next(d)) == DayOfDate(d) + 1
  {
    SameMonth(d.year, d.month - 1, d.day);
  }

  lemma SameMonth(y: int, m: int, d: int)
    ensures MakeDay(y, m, d + 1) == MakeDay(y, m, d) + 1
  {
  }

  lemma NextInYear(d: Date)
    requires IsDate(d) && d.day == DaysInMonth(d.year, d.month) && d.month < 12
    ensures DayOfDate(Next(d)) == DayOfDate(d) + 1
  {
    NoCarry(d.year, d.month - 1, d.day);
    NoCarry(d.year, d.month, 1);
    MonthLength(d.year, d.month);
  }

  lemma NextInNewYear(d: Date)
    requires IsDate(d) && d.day == DaysInMonth(d.year, d.month) && d.month == 12
    ensures DayOfDate(Next(d)) == DayOfDate(d) + 1
  {
    NoCarry(d.year, 11, 31);
    NoCarry(d.year + 1, 0, 1);
    YearLength(d.year);
  }

  /** Day numbers count days: 1970-01-01 is day 0 and the day after a date has the next number. */
  lemma DayNumbersCountDays(d: Date)
    requires IsDate(d)
    ensures IsDate(Next(d)) && DayOfDate(Next(d)) == DayOfDate(d) + 1
    ensures DayOfDate(Date(1970, 1, 1)) == 0
  {
    Epoch();
    NextIsDate(d);
    NextDayNumber(d);
  }

  lemma NextDayNumber(d: Date)
    requires IsDate(d)
    ensures DayOfDate(Next(d)) == DayOfDate(d) + 1
  {
    if d.day < DaysInMonth(d.year, d.month) {
      NextInMonth(d);
    } else if d.month < 12 {
      NextInYear(d);
    } else {
      NextInNewYear(d);
    }
  }

  lemma Epoch()
    ensures DayOfDate(Date(1970, 1, 1)) == 0
  {
    NoCarry(1970, 0, 1);
    assert DayFromYear(1970) == 0 && MonthStart(Leap(1970), 0) == 0;
  }

  // ----- parseUtcDate -----

  function TimeClip(t: int): Option<int> {
    if -MAX_TIME <= t <= MAX_TIME then Some(t) else None
  }

  /** `Date.UTC(y, month, d)`: the years 0 to 99 mean 1900 to 1999. */
  function DateUTC(y: int, month: int, d: int): Option<int> {
    var year := if 0 <= y <= 99 then 1900 + y else y;
    TimeClip(MakeDay(year, month, d) * MS_PER_DAY)
  }

  /** The time value of the date, or None when the fields read back are not the ones given. */
  function ParseUtcDate(y: int, mo: int, d: int): Option<int> {
    ReadBack(DateUTC(y, mo - 1, d), y, mo, d)
  }

  /** The comparison of the three UTC fields with the arguments (line 78). */
  function ReadBack(ts: Option<int>, y: int, mo: int, d: int): Option<int> {
    if ts.None? then None
    else
      var back := DateOfDay(ts.value / MS_PER_DAY);
      if back.year != y || back.month - 1 != mo - 1 || back.day != d then None else ts
  }

  lemma ReadBackOfDay(n: int, y: int, mo: int, d: int)
    ensures ReadBack(TimeClip(n * MS_PER_DAY), y, mo, d) ==
      if -MAX_TIME <= n * MS_PER_DAY <= MAX_TIME && DateOfDay(n) == Date(y, mo, d) then Some(n * MS_PER_DAY) else None
  {
    Midnight(n);
  }

  /** Dates of which a JavaScript `Date` can hold the first instant. */
  predicate InRange(d: Date) {
    -MAX_TIME <= DayOfDate(d) * MS_PER_DAY <= MAX_TIME
  }

  /** Reading the fields back succeeds exactly for real dates outside the remapped years. */
  lemma FieldsReadBack(y: int, mo: int, d: int)
    ensures var year := if 0 <= y <= 99 then 1900 + y else y;
      DateOfDay(MakeDay(year, mo - 1, d)) == Date(y, mo, d) <==> IsDate(Date(y, mo, d)) && !(0 <= y <= 99)
  {
    var year := if 0 <= y <= 99 then 1900 + y else y;
    BackIsDate(MakeDay(year, mo - 1, d));
    if IsDate(Date(y, mo, d)) {
      if 0 <= y <= 99 { RemappedIsRejected(y, mo, d); } else { RealIsReadBack(y, mo, d); }
    }
  }

  lemma BackIsDate(n: int)
    ensures IsDate(DateOfDay(n))
  {
    DateOfDayIsRight(n);
  }

  lemma RealIsReadBack(y: int, mo: int, d: int)
    requires IsDate(Date(y, mo, d))
    ensures DateOfDay(MakeDay(y, mo - 1, d)) == Date(y, mo, d)
  {
    DayOfDateIsRight(Date(y, mo, d));
  }

  lemma ParseUnfolds(y: int, mo: int, d: int)
    ensures var n := MakeDay(if 0 <= y <= 99 then 1900 + y else y, mo - 1, d);
      ParseUtcDate(y, mo, d) ==
      if -MAX_TIME <= n * MS_PER_DAY <= MAX_TIME && DateOfDay(n) == Date(y, mo, d) then Some(n * MS_PER_DAY) else None
  {
    ReadBackOfDay(MakeDay(if 0 <= y <= 99 then 1900 + y else y, mo - 1, d), y, mo, d);
  }

  /**
   * For all integers: a triple is accepted exactly when it is a real Gregorian date, not in the
   * years 0 to 99, within the range of `Date`; and then the result is that date's midnight.
   */
  lemma ParseAcceptsRealDates(y: int, mo: int, d: int)
    ensures ParseUtcDate(y, mo, d).Some? <==>
      IsDate(Date(y, mo, d)) && !(0 <= y <= 99) && InRange(Date(y, mo, d))
    ensures ParseUtcDate(y, mo, d).Some? ==>
      ParseUtcDate(y, mo, d).value == DayOfDate(Date(y, mo, d)) * MS_PER_DAY
  {
    ParseUnfolds(y, mo, d);
    FieldsReadBack(y, mo, d);
    hide ParseUtcDate, DateOfDay, IsDate;
  }

  lemma Midnight(n: int)
    ensures n * MS_PER_DAY / MS_PER_DAY == n
  {
  }

  /** The years 0 to 99 are stored as other years, so the fields cannot read back as given. */
  lemma RemappedIsRejected(y: int, mo: int, d: int)
    requires IsDate(Date(y, mo, d)) && 0 <= y <= 99
    ensures DateOfDay(MakeDay(1900 + y, mo - 1, d)).year > 99
  {
    var n := MakeDay(1900 + y, mo - 1, d);
    NoCarry(1900 + y, mo - 1, d);
    MonthWithinYear(1900 + y, mo);
    var z := YearFromDay(n);
    if z <= 99 { YearsIncrease(z + 1, 1900 + y); }
  }

  lemma YearBounds(y: int)
    requires 0 <= y <= 10000
    ensures -719528 <= DayFromYear(y) <= 2932897
  {
    YearsIncrease(0, y);
    YearsIncrease(y, 10000);
  }

  /** The marker holds four year digits, and for those the range of `Date` is no restriction. */
  lemma FourDigitYears(y: int, mo: int, d: int)
    requires 0 <= y <= 9999
    ensures ParseUtcDate(y, mo, d).Some? <==> IsDate(Date(y, mo, d)) && y >= 100
  {
    ParseAcceptsRealDates(y, mo, d);
    if IsDate(Date(y, mo, d)) {
      DayBounds(Date(y, mo, d));
    }
  }

  lemma DayBounds(d: Date)
    requires IsDate(d) && 0 <= d.year <= 9999
    ensures -719528 <= DayOfDate(d) <= 2932897
  {
    NoCarry(d.year, d.month - 1, d.day);
    MonthLength(d.year, d.month);
    MonthWithinYear(d.year, d.month);
    YearLength(d.year);
    YearBounds(d.year);
    YearBounds(d.year + 1);
  }

  // ----- ageing -----

  const WARN_DAYS := 90
  const FAIL_DAYS := 180

  /** `Math.floor(ms / day)`. */
  function DaysBetween(later: int, earlier: int): int {
    (later - earlier) / MS_PER_DAY
  }

  /** The UTC date on which an instant falls. */
  function Today(now: int): Date { DateOfDay(now / MS_PER_DAY) }

  /** The instant of a date and a time of day, in milliseconds. */
  function Instant(d: Date, hour: nat, minute: nat, second: nat, milli: nat): int {
    (((DayOfDate(d) * 24 + hour) * 60 + minute) * 60 + second) * 1000 + milli
  }

  /** At every time of day today is that date, and midnight is what the marker's date parses to. */
  lemma TodayAt(d: Date, hour: nat, minute: nat, second: nat, milli: nat)
    requires IsDate(d) && hour < 24 && minute < 60 && second < 60 && milli < 1000
    ensures Today(Instant(d, hour, minute, second, milli)) == d
    ensures Accepted(d) ==> ParseUtcDate(d.year, d.month, d.day) == Some(Instant(d, 0, 0, 0, 0))
  {
    hide DayOfDate, DateOfDay, ParseUtcDate, IsDate, InRange, Instant;
    DayOfDateIsRight(d);
    ParseAcceptsRealDates(d.year, d.month, d.day);
    DayOfInstant(d, hour, minute, second, milli);
  }

  lemma DayOfInstant(d: Date, hour: nat, minute: nat, second: nat, milli: nat)
    requires hour < 24 && minute < 60 && second < 60 && milli < 1000
    ensures Instant(d, hour, minute, second, milli) / MS_PER_DAY == DayOfDate(d)
    ensures Instant(d, 0, 0, 0, 0) == DayOfDate(d) * MS_PER_DAY
  {
    hide DayOfDate;
    var n, t := DayOfDate(d), ((hour * 60 + minute) * 60 + second) * 1000 + milli;
    assert Instant(d, hour, minute, second, milli) == n * 86400000 + t && 0 <= t < 86400000;
    WithinDay(n, t);
  }

  lemma WithinDay(n: int, t: int)
    requires 0 <= t < 86400000
    ensures (n * 86400000 + t) / MS_PER_DAY == n
  {
  }

  /** The dates a JavaScript `Date` can hold: from April 20th, -271821 to September 13th, 275760. */
  lemma RangeOfDates(d: Date)
    requires IsDate(d)
    ensures InRange(d) <==> !Earlier(d, Date(-271821, 4, 20)) && !Earlier(Date(275760, 9, 13), d)
  {
    var first, last := Date(-271821, 4, 20), Date(275760, 9, 13);
    NoCarry(-271821, 3, 20);
    NoCarry(275760, 8, 13);
    assert DayOfDate(first) == -100000000 && DayOfDate(last) == 100000000;
    hide DayOfDate, Earlier;
    DayNumbersKeepOrder(d, first);
    DayNumbersKeepOrder(last, d);
  }

  /** `d` moved forward by `n` days. */
  function After(d: Date, n: nat): (r: Date)
    requires IsDate(d)
    ensures IsDate(r)
  {
    if n == 0 then d else (DayNumbersCountDays(After(d, n - 1)); Next(After(d, n - 1)))
  }

  /** `a` comes before `b` in the calendar. */
  predicate Earlier(a: Date, b: Date) {
    a.year < b.year || (a.year == b.year && (a.month < b.month || (a.month == b.month && a.day < b.day)))
  }

  lemma {:induction false} AfterMovesDayNumber(d: Date, n: nat)
    requires IsDate(d)
    ensures DayOfDate(After(d, n)) == DayOfDate(d) + n
  {
    hide DayOfDate;
    if n > 0 {
      AfterMovesDayNumber(d, n - 1);
      NextDayNumber(After(d, n - 1));
    }
  }

  lemma MonthsIncrease(leap: bool, m: int, m': int)
    requires 0 <= m < m' <= 12
    ensures MonthStart(leap, m) < MonthStart(leap, m')
  {
  }

  /** The day number of a date lies in its year and in its month. */
  lemma DayInMonth(d: Date)
    requires IsDate(d)
    ensures DayOfDate(d) == DayFromYear(d.year) + MonthStart(Leap(d.year), d.month - 1) + d.day - 1
    ensures 1 <= d.day && MonthStart(Leap(d.year), d.month - 1) + d.day <= MonthStart(Leap(d.year), d.month)
    ensures DayFromYear(d.year) <= DayOfDate(d) < DayFromYear(d.year + 1)
  {
    hide DayFromYear, Leap;
    NoCarry(d.year, d.month - 1, d.day);
    MonthLength(d.year, d.month);
    MonthWithinYear(d.year, d.month);
    YearLength(d.year);
  }

  lemma EarlierIsSmaller(a: Date, b: Date)
    requires IsDate(a) && IsDate(b) && Earlier(a, b)
    ensures DayOfDate(a) < DayOfDate(b)
  {
    hide DayFromYear, Leap, MonthStart, DayOfDate, IsDate;
    DayInMonth(a);
    DayInMonth(b);
    if a.year < b.year {
      YearsIncrease(a.year + 1, b.year);
    } else if a.month < b.month - 1 {
      MonthsOfDates(a, b);
    }
  }

  lemma MonthsOfDates(a: Date, b: Date)
    requires IsDate(a) && IsDate(b) && a.month < b.month - 1
    ensures MonthStart(Leap(a.year), a.month) < MonthStart(Leap(a.year), b.month - 1)
  {
    MonthsIncrease(Leap(a.year), a.month, b.month - 1);
  }

  /** Day numbers order dates as the calendar does. */
  lemma DayNumbersKeepOrder(a: Date, b: Date)
    requires IsDate(a) && IsDate(b)
    ensures DayOfDate(a) < DayOfDate(b) <==> Earlier(a, b)
  {
    hide DayOfDate, IsDate;
    if Earlier(a, b) {
      EarlierIsSmaller(a, b);
    } else if Earlier(b, a) {
      EarlierIsSmaller(b, a);
    }
  }

  lemma FloorOfDifference(now: int, day: int)
    ensures DaysBetween(now, day * MS_PER_DAY) == now / MS_PER_DAY - day
  {
  }

  /** The age of an accepted marker is the number of days from its date to today. */
  lemma AgeIsDifference(date: Date, now: int)
    requires Accepted(date)
    ensures ParseUtcDate(date.year, date.month, date.day).Some?
    ensures DaysBetween(now, ParseUtcDate(date.year, date.month, date.day).value)
         == DayOfDate(Today(now)) - DayOfDate(date)
    ensures IsDate(Today(now))
  {
    hide ParseUtcDate, DayOfDate, IsDate, DateOfDay, DaysBetween;
    ParseAcceptsRealDates(date.year, date.month, date.day);
    FloorOfDifference(now, DayOfDate(date));
    DateOfDayIsRight(now / MS_PER_DAY);
  }

  /** What `parseUtcDate` accepts, by `ParseAcceptsRealDates`. */
  predicate Accepted(date: Date) {
    IsDate(date) && !(0 <= date.year <= 99) && InRange(date)
  }

  /**
   * The age is a signed count of calendar days: whatever the time of day, an exercise has age `n`
   * exactly on the n-th calendar day after its date, and age `-n` on the n-th day before it.
   */
  lemma AgeCountsCalendarDays(date: Date, now: int, n: int)
    requires Accepted(date)
    ensures ParseUtcDate(date.year, date.month, date.day).Some? && IsDate(Today(now))
    ensures DaysBetween(now, ParseUtcDate(date.year, date.month, date.day).value) == n <==>
      if n >= 0 then Today(now) == After(date, n) else After(Today(now), -n) == date
  {
    hide ParseUtcDate, DayOfDate, IsDate, DateOfDay, DaysBetween, After;
    AgeIsDifference(date, now);
    if n >= 0 {
      SameDay(Today(now), date, n);
    } else {
      SameDay(date, Today(now), -n);
    }
  }

  lemma SameDay(a: Date, b: Date, n: nat)
    requires IsDate(a) && IsDate(b)
    ensures DayOfDate(a) == DayOfDate(b) + n <==> a == After(b, n)
  {
    hide DayOfDate, IsDate, DateOfDay;
    AfterMovesDayNumber(b, n);
    DayOfDateIsRight(a);
    DayOfDateIsRight(After(b, n));
  }

  /** Comparing the age with `n` compares dates. */
  lemma OlderThan(date: Date, now: int, n: nat)
    requires Accepted(date)
    ensures ParseUtcDate(date.year, date.month, date.day).Some?
    ensures DaysBetween(now, ParseUtcDate(date.year, date.month, date.day).value) > n <==>
      Earlier(After(date, n), Today(now))
    ensures DaysBetween(now, ParseUtcDate(date.year, date.month, date.day).value) < 0 <==>
      Earlier(Today(now), date)
  {
    hide ParseUtcDate, DayOfDate, IsDate, DateOfDay, DaysBetween, Earlier;
    AgeIsDifference(date, now);
    AfterMovesDayNumber(date, n);
    DayNumbersKeepOrder(After(date, n), Today(now));
    DayNumbersKeepOrder(Today(now), date);
  }

  datatype Level = Missing | Future | Error | Warning

  /**
   * The `last-exercise` findings of `auditSecurityContactsText`, in order; `marker` holds the three
   * numbers of the marker, if the text has one. At any time of day: an error from the 181st calendar
   * day after the exercise, a warning from the 91st to the 180th.
   */
  method AuditLastExercise(marker: Option<Date>, now: int) returns (out: seq<Level>)
    ensures |out| <= 1
    ensures Missing in out <==> (marker.None? || !Accepted(marker.value))
    ensures marker.Some? && Accepted(marker.value) ==>
      && (Future in out <==> Earlier(Today(now), marker.value))
      && (Error in out <==> Earlier(After(marker.value, 180), Today(now)))
      && (Warning in out <==>
          (Earlier(After(marker.value, 90), Today(now)) && !Earlier(After(marker.value, 180), Today(now))))
  {
    hide ParseUtcDate, DayOfDate, IsDate, DateOfDay, DaysBetween, Earlier, After, Today, InRange;
    out := [];
    var lastExercise := None;
    if marker.Some? {
      var date := marker.value;
      lastExercise := ParseUtcDate(date.year, date.month, date.day);
      ParseAcceptsRealDates(date.year, date.month, date.day);
      if Accepted(date) {
        OlderThan(date, now, WARN_DAYS);
        OlderThan(date, now, FAIL_DAYS);
      }
    }
    if lastExercise.None? {
      out := out + [Missing];
    } else {
      var age := DaysBetween(now, lastExercise.value);
      if age < 0 {
        out := out + [Future];
      } else if age > FAIL_DAYS {
        out := out + [Error];
      } else if age > WARN_DAYS {
        out := out + [Warning];
      }
    }
  }
}
