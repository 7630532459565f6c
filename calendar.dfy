/**
 * The calendar checks `datetime(...)` and `datetime.strptime(...)` perform:
 * a date or time that matches the digit pattern but names no real instant
 * raises `ValueError`.
 */
module Calendar {

  predicate IsLeapYear(y: int)
  {
    y % 4 == 0 && (y % 100 != 0 || y % 400 == 0)
  }

  function DaysInMonth(y: int, m: int): (n: int)
    requires 1 <= m <= 12
    ensures 28 <= n <= 31
  {
    if m == 2 then (if IsLeapYear(y) then 29 else 28)
    else if m == 4 || m == 6 || m == 9 || m == 11 then 30
    else 31
  }

  /** `datetime(y, m, d)` succeeds exactly for these values (years 1 to 9999). */
  predicate ValidDate(y: int, m: int, d: int)
  {
    1 <= y <= 9999 && 1 <= m <= 12 && 1 <= d <= DaysInMonth(y, m)
  }

  /** Hours, minutes and seconds that `datetime` accepts. */
  predicate ValidTime(h: int, mi: int, s: int)
  {
    0 <= h < 24 && 0 <= mi < 60 && 0 <= s < 60
  }
}
