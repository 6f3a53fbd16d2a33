/** Instants are integer milliseconds of local wall-clock time counted from
    1970-01-01 00:00, so a calendar day is a block of DAY_MS milliseconds. */
module Time {

  const DAY_MS: int := 86_400_000

  /** The calendar day number of an instant (floor division: Dafny's `/` by a
      positive divisor rounds towards minus infinity). */
  function DayOf(t: int): int
  {
    t / DAY_MS
  }

  /** Midnight at the start of the day of `t`. */
  function StartOfDay(t: int): (r: int)
    ensures r <= t < r + DAY_MS
    ensures DayOf(r) == DayOf(t)
  {
    DayOf(t) * DAY_MS
  }

  /** `d.setDate(d.getDate() - n)` / `minusDays(n)`, as n whole days of 24 hours. */
  function DaysBefore(t: int, n: int): int
  {
    t - n * DAY_MS
  }

  /** Going back `n` days moves the calendar day back by exactly `n`. */
  lemma DayOfDaysBefore(t: int, n: int)
    ensures DayOf(DaysBefore(t, n)) == DayOf(t) - n
  {
    var q := DayOf(t);
    assert q * DAY_MS <= t < q * DAY_MS + DAY_MS;
    assert (q - n) * DAY_MS <= DaysBefore(t, n) < (q - n) * DAY_MS + DAY_MS;
  }

  /** Later instants never start an earlier day. */
  lemma StartOfDayMonotone(a: int, b: int)
    requires a <= b
    ensures DayOf(a) <= DayOf(b)
    ensures StartOfDay(a) <= StartOfDay(b)
  {
    assert DayOf(a) * DAY_MS <= a <= b < (DayOf(b) + 1) * DAY_MS;
  }

  /** Proleptic Gregorian (year, month 1..12, day 1..31) of a day number
      (days_from_civil / civil_from_days by H. Hinnant). */
  function CivilFromDays(z: int): (int, int, int)
  {
    var z' := z + 719468;
    var era := z' / 146097;
    var doe := z' - era * 146097;
    var yoe := (doe - doe / 1460 + doe / 36524 - doe / 146096) / 365;
    var y := yoe + era * 400;
    var doy := doe - (365 * yoe + yoe / 4 - yoe / 100);
    var mp := (5 * doy + 2) / 153;
    var d := doy - (153 * mp + 2) / 5 + 1;
    var m := if mp < 10 then mp + 3 else mp - 9;
    (if m <= 2 then y + 1 else y, m, d)
  }

  /** The day number of a proleptic Gregorian date. */
  function DaysFromCivil(year: int, month: int, day: int): int
  {
    var y := if month <= 2 then year - 1 else year;
    var era := y / 400;
    var yoe := y - era * 400;
    var mp := if month > 2 then month - 3 else month + 9;
    var doy := (153 * mp + 2) / 5 + day - 1;
    var doe := yoe * 365 + yoe / 4 - yoe / 100 + doy;
    era * 146097 + doe - 719468
  }

  /** `(getFullYear(), getMonth() + 1)` of an instant. */
  function YearMonthOf(t: int): (int, int)
  {
    var (y, m, _) := CivilFromDays(DayOf(t));
    (y, m)
  }

  /** `now.withDayOfMonth(1)` at 00:00:00.000. */
  function StartOfMonth(t: int): int
  {
    var (y, m) := YearMonthOf(t);
    DaysFromCivil(y, m, 1) * DAY_MS
  }

  /** `startOfMonth.plusMonths(1)`. */
  function StartOfNextMonth(t: int): int
  {
    var (y, m) := YearMonthOf(t);
    if m == 12 then DaysFromCivil(y + 1, 1, 1) * DAY_MS else DaysFromCivil(y, m + 1, 1) * DAY_MS
  }

  /** `getDayOfWeek().getValue()`: Monday is 1, Sunday is 7; day 0 was a Thursday. */
  function DayOfWeek(t: int): (r: int)
    ensures 1 <= r <= 7
  {
    (DayOf(t) + 3) % 7 + 1
  }

  /** Weekdays follow each other and wrap from Sunday (7) to Monday (1); the
      epoch day 1970-01-01 was a Thursday and 2024-01-01 a Monday. */
  lemma DayOfWeekProperties(t: int)
    ensures DayOfWeek(t + DAY_MS) == DayOfWeek(t) % 7 + 1
    ensures DayOfWeek(0) == 4
    ensures DaysFromCivil(2024, 1, 1) == 19723 && DayOfWeek(19723 * DAY_MS) == 1
  {
    assert DayOf(t + DAY_MS) == DayOf(t) + 1 by {
      DayOfDaysBefore(t, -1);
    }
    assert DayOf(19723 * DAY_MS) == 19723;
  }
}
