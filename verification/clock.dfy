/**
 `System.DateTime` as the client uses it: a count of 100-nanosecond ticks and a
 kind, the accessors that decompose it, and the construction of a UTC
 timestamp from the fields a device reports in `GetSystemDateAndTime`.
 */
module Clock {
  import opened Outcomes

  const TicksPerMillisecond: int := 10_000
  const TicksPerSecond: int := 10_000_000
  const TicksPerMinute: int := 600_000_000
  const TicksPerHour: int := 36_000_000_000
  const TicksPerDay: int := 864_000_000_000

  datatype Kind = Unspecified | Utc | Local

  datatype DateTime = DateTime(ticks: int, kind: Kind)

  /** `DateTime.AddMinutes`; the upper bound of the tick range is not modelled. */
  function AddMinutes(t: DateTime, minutes: int): (r: DateTime)
    ensures r.kind == t.kind
    ensures r.ticks - t.ticks == minutes * 60 * TicksPerSecond
  {
    DateTime(t.ticks + minutes * TicksPerMinute, t.kind)
  }

  // The component accessors, defined as `System.DateTime` defines them.
  function Millisecond(t: DateTime): int { (t.ticks / TicksPerMillisecond) % 1000 }
  function Second(t: DateTime): int { (t.ticks / TicksPerSecond) % 60 }
  function Minute(t: DateTime): int { (t.ticks / TicksPerMinute) % 60 }
  function Hour(t: DateTime): int { (t.ticks / TicksPerHour) % 24 }
  function DayNumber(t: DateTime): int { t.ticks / TicksPerDay }

  /** The date and time-of-day fields of an ONVIF `DateTime` element. */
  datatype Date = Date(year: int, month: int, day: int)
  datatype TimeOfDay = TimeOfDay(hour: int, minute: int, second: int)
  datatype DeviceUtc = DeviceUtc(date: Date, time: TimeOfDay)

  predicate IsLeapYear(year: int)
  {
    year % 4 == 0 && (year % 100 != 0 || year % 400 == 0)
  }

  function DaysInMonth(year: int, month: int): (n: int)
    requires 1 <= month <= 12
    ensures 28 <= n <= 31
  {
    if month == 2 then (if IsLeapYear(year) then 29 else 28)
    else if month == 4 || month == 6 || month == 9 || month == 11 then 30
    else 31
  }

  /** The fields `new DateTime(year, month, day, hour, minute, second, ...)` accepts
      without throwing `ArgumentOutOfRangeException`. */
  predicate ValidFields(u: DeviceUtc)
  {
    && 1 <= u.date.year <= 9999
    && 1 <= u.date.month <= 12
    && 1 <= u.date.day <= DaysInMonth(u.date.year, u.date.month)
    && 0 <= u.time.hour < 24
    && 0 <= u.time.minute < 60
    && 0 <= u.time.second < 60
  }

  function DaysBeforeYear(year: int): (n: int)
    requires year >= 1
    ensures n >= 0
  {
    var y := year - 1;
    y * 365 + y / 4 - y / 100 + y / 400
  }

  /** The days of the year's months before `month`: between 28 and 31 per month. */
  function DaysBeforeMonth(year: int, month: int): (n: int)
    requires 1 <= month <= 12
    ensures 28 * (month - 1) <= n <= 31 * (month - 1)
  {
    if month == 1 then 0 else DaysBeforeMonth(year, month - 1) + DaysInMonth(year, month - 1)
  }

  /** The twelve months make up a whole year: 366 days in a leap year, 365 otherwise. */
  lemma MonthsFillTheYear(year: int)
    ensures DaysBeforeMonth(year, 12) + DaysInMonth(year, 12) == if IsLeapYear(year) then 366 else 365
  {
    var feb := if IsLeapYear(year) then 29 else 28;
    assert DaysBeforeMonth(year, 2) == 31;
    assert DaysBeforeMonth(year, 3) == 31 + feb;
    assert DaysBeforeMonth(year, 4) == 62 + feb;
    assert DaysBeforeMonth(year, 5) == 92 + feb;
    assert DaysBeforeMonth(year, 6) == 123 + feb;
    assert DaysBeforeMonth(year, 7) == 153 + feb;
    assert DaysBeforeMonth(year, 8) == 184 + feb;
    assert DaysBeforeMonth(year, 9) == 215 + feb;
    assert DaysBeforeMonth(year, 10) == 245 + feb;
    assert DaysBeforeMonth(year, 11) == 276 + feb;
    assert DaysBeforeMonth(year, 12) == 306 + feb;
  }

  /** The proleptic Gregorian day number of a valid date, day 0 being 0001-01-01. */
  function DayOf(d: Date): nat
    requires 1 <= d.year && 1 <= d.month <= 12 && 1 <= d.day
  {
    DaysBeforeYear(d.year) + DaysBeforeMonth(d.year, d.month) + d.day - 1
  }

  /** `new DateTime(Y, M, D, h, m, s, 0, DateTimeKind.Utc)` built from what the device reported. */
  function FromDeviceUtc(u: DeviceUtc): (r: Outcome<DateTime>)
    ensures r.Ok? <==> ValidFields(u)
    ensures r.Err? ==> r.fault == ArgumentOutOfRange
    ensures r.Ok? ==> r.value.kind == Utc
    ensures r.Ok? ==> r.value.ticks % TicksPerSecond == 0 && Millisecond(r.value) == 0
    ensures r.Ok? ==> Second(r.value) == u.time.second
    ensures r.Ok? ==> Minute(r.value) == u.time.minute
    ensures r.Ok? ==> Hour(r.value) == u.time.hour
    ensures r.Ok? ==> DayNumber(r.value) == DayOf(u.date)
  {
    if !ValidFields(u) then Err(ArgumentOutOfRange)
    else
      var seconds := ((DayOf(u.date) * 24 + u.time.hour) * 60 + u.time.minute) * 60 + u.time.second;
      var t := DateTime(seconds * TicksPerSecond, Utc);
      WholeSecondFields(DayOf(u.date), u.time.hour, u.time.minute, u.time.second);
      Ok(t)
  }

  /** The accessors of a whole-second tick count recover the fields it was built from. */
  lemma WholeSecondFields(day: nat, hour: int, minute: int, second: int)
    requires 0 <= hour < 24 && 0 <= minute < 60 && 0 <= second < 60
    ensures var t := DateTime((((day * 24 + hour) * 60 + minute) * 60 + second) * TicksPerSecond, Utc);
      && t.ticks % TicksPerSecond == 0 && Millisecond(t) == 0
      && Second(t) == second && Minute(t) == minute && Hour(t) == hour && DayNumber(t) == day
  {
    var h := day * 24 + hour;
    var m := h * 60 + minute;
    var s := m * 60 + second;
    var ticks := s * TicksPerSecond;
    assert ticks / TicksPerSecond == s;
    assert ticks / TicksPerMillisecond == s * 1000;
    assert ticks / TicksPerMinute == s / 60 == m;
    assert ticks / TicksPerHour == m / 60 == h;
    assert ticks / TicksPerDay == h / 24 == day;
  }
}
