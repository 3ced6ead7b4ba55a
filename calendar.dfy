/**
  An abstract local calendar standing in for JavaScript's `Date` in local time.

  Instants are integers counting milliseconds of local wall-clock time; there is
  no time zone and no daylight-saving shift, so every day is exactly
  `MsPerDay` long. Day number 0 is 1970-01-01, a Thursday. Months are counted
  by a month index (0 is January 1970, 12 is January 1971, -1 is December 1969);
  month lengths follow the proleptic Gregorian calendar.
 */
module Calendar {

  const MsPerMinute: int := 60000
  const MsPerHour: int := 3600000
  const MsPerDay: int := 86400000

  type Hour = h: int | 0 <= h < 24
  type Minute = m: int | 0 <= m < 60
  /** `Date.getDay()`: 0 is Sunday. */
  type Weekday = d: int | 0 <= d < 7
  /** `Date.getMonth()`: 0 is January. */
  type MonthOfYear = m: int | 0 <= m < 12

  /** The number of the day containing instant `t`. */
  function DayOf(t: int): int {
    t / 86400000
  }

  /** Milliseconds elapsed since the start of the day containing `t`. */
  function TimeInDay(t: int): int {
    t % 86400000
  }

  /** The offset of `hour:minute` from midnight (`setHours(hour, minute, 0, 0)`). */
  function ClockOffset(h: Hour, m: Minute): (r: int)
    ensures 0 <= r < MsPerDay
  {
    h * 3600000 + m * 60000
  }

  /** A day number and a time of day together give back the instant. */
  lemma DayAndTime(t: int)
    ensures t == DayOf(t) * MsPerDay + TimeInDay(t)
    ensures 0 <= TimeInDay(t) < MsPerDay
  {
  }

  /** The instant at `offset` milliseconds into day `day` (0 <= offset < MsPerDay)
      lies in that day. */
  lemma DayOfInstant(day: int, offset: int)
    requires 0 <= offset < MsPerDay
    ensures DayOf(day * MsPerDay + offset) == day
    ensures TimeInDay(day * MsPerDay + offset) == offset
  {
  }

  /** Later instants never lie on earlier days. */
  lemma DayOfMonotone(t: int, u: int)
    requires t <= u
    ensures DayOf(t) <= DayOf(u)
  {
  }

  /** The weekday of a day number; day 0 (1970-01-01) is a Thursday. */
  function WeekdayOf(day: int): Weekday {
    (day + 4) % 7
  }

  predicate IsLeapYear(y: int) {
    y % 4 == 0 && (y % 100 != 0 || y % 400 == 0)
  }

  /** `new Date(y, m + 1, 0).getDate()`: the last day of month `m` of year `y`. */
  function DaysInMonth(y: int, m: MonthOfYear): (n: int)
    ensures 28 <= n <= 31
    ensures m == 1 ==> (n == 29 <==> IsLeapYear(y))
  {
    if m == 1 then (if IsLeapYear(y) then 29 else 28)
    else if m == 3 || m == 5 || m == 8 || m == 10 then 30
    else 31
  }

  /** `getFullYear()` of the month with index `mi`. */
  function YearOf(mi: int): int {
    1970 + mi / 12
  }

  /** `getMonth()` of the month with index `mi`. */
  function MonthOf(mi: int): MonthOfYear {
    mi % 12
  }

  function MonthLength(mi: int): (n: int)
    ensures 28 <= n <= 31
  {
    DaysInMonth(YearOf(mi), MonthOf(mi))
  }

  /** The day number of the first day of the month with index `mi`. */
  function MonthStart(mi: int): int
    decreases if mi < 0 then -mi else mi
  {
    if mi == 0 then 0
    else if mi > 0 then MonthStart(mi - 1) + MonthLength(mi - 1)
    else MonthStart(mi + 1) - MonthLength(mi)
  }

  /** Consecutive months abut: month `mi + 1` starts where month `mi` ends. */
  lemma MonthStartNext(mi: int)
    ensures MonthStart(mi + 1) == MonthStart(mi) + MonthLength(mi)
  {
  }

  /** Month starts strictly increase with the month index. */
  lemma {:induction false} MonthStartMonotone(a: int, b: int)
    requires a < b
    ensures MonthStart(a + 1) <= MonthStart(b)
    decreases b - a
  {
    MonthStartNext(a);
    if a + 1 < b {
      MonthStartMonotone(a + 1, b);
      MonthStartNext(a + 1);
    }
  }

  /** The index of the month containing day `day`, searching forward from
      month `mi`. */
  function SearchUp(day: int, mi: int): (r: int)
    requires MonthStart(mi) <= day
    ensures MonthStart(r) <= day < MonthStart(r + 1)
    decreases day - MonthStart(mi)
  {
    MonthStartNext(mi);
    if day < MonthStart(mi + 1) then mi else SearchUp(day, mi + 1)
  }

  /** The index of the month containing day `day`, searching backward from
      month `mi`. */
  function SearchDown(day: int, mi: int): (r: int)
    requires day < MonthStart(mi + 1)
    ensures MonthStart(r) <= day < MonthStart(r + 1)
    decreases MonthStart(mi + 1) - day
  {
    MonthStartNext(mi);
    MonthStartNext(mi - 1);
    if MonthStart(mi) <= day then mi else SearchDown(day, mi - 1)
  }

  /** The index of the month containing day `day`. */
  function MonthOfDay(day: int): (mi: int)
    ensures MonthStart(mi) <= day < MonthStart(mi + 1)
  {
    if day >= 0 then SearchUp(day, 0) else SearchDown(day, -1)
  }

  /** A day belongs to exactly one month. */
  lemma MonthOfDayUnique(day: int, mi: int)
    requires MonthStart(mi) <= day < MonthStart(mi + 1)
    ensures MonthOfDay(day) == mi
  {
    var r := MonthOfDay(day);
    if r < mi {
      MonthStartMonotone(r, mi);
    } else if mi < r {
      MonthStartMonotone(mi, r);
    }
  }

  /** Later days never lie in earlier months. */
  lemma MonthOfDayMonotone(d: int, e: int)
    requires d <= e
    ensures MonthOfDay(d) <= MonthOfDay(e)
  {
    var a, b := MonthOfDay(d), MonthOfDay(e);
    if b < a {
      MonthStartMonotone(b, a);
    }
  }

  /** `getDate()` of day `day`: 1 for the first day of its month. */
  function DayOfMonth(day: int): (r: int)
    ensures 1 <= r <= MonthLength(MonthOfDay(day))
  {
    MonthStartNext(MonthOfDay(day));
    day - MonthStart(MonthOfDay(day)) + 1
  }
}
