/** Calendar dates at day granularity, as .NET's DateTime.Date gives them,
    with DateTime.AddYears and the ordering of DateTime values. */
module Dates {
  import opened Wrappers

  datatype Date = Date(year: int, month: int, day: int) {

    /** A date DateTime can represent: years 1 to 9999, a real month, a real day of that month. */
    predicate IsValid() {
      1 <= year <= 9999 && 1 <= month <= 12 && 1 <= day <= DaysInMonth(year, month)
    }

    /** DateTime's `<=`: chronological order, which on (year, month, day) is lexicographic. */
    predicate OnOrBefore(other: Date) {
      year < other.year ||
      (year == other.year && (month < other.month || (month == other.month && day <= other.day)))
    }
  }

  /** Gregorian leap years, as DateTime.IsLeapYear. */
  predicate IsLeapYear(y: int) {
    y % 4 == 0 && (y % 100 != 0 || y % 400 == 0)
  }

  /** DateTime.DaysInMonth. */
  function DaysInMonth(y: int, m: int): (n: int)
    ensures 28 <= n <= 31
    ensures m == 2 ==> (n == 29 <==> IsLeapYear(y))
  {
    if m == 2 then (if IsLeapYear(y) then 29 else 28)
    else if m == 4 || m == 6 || m == 9 || m == 11 then 30
    else 31
  }

  /** DateTime.AddYears(n): the same month and day `n` years away, with the day
      clamped to the length of the month (February 29 becomes February 28 in a
      common year). DateTime throws ArgumentOutOfRangeException when `n` lies
      outside -10000..10000 or the resulting year outside 1..9999; that is `None`. */
  function AddYears(d: Date, n: int): (r: Option<Date>)
    requires d.IsValid()
    ensures r.Some? <==> -10000 <= n <= 10000 && 1 <= d.year + n <= 9999
    ensures r.Some? ==> r.value.IsValid()
    ensures r.Some? ==> r.value.year == d.year + n && r.value.month == d.month
    ensures r.Some? ==>
      (r.value.day == d.day ||
       (d.month == 2 && d.day == 29 && !IsLeapYear(d.year + n) && r.value.day == 28))
  {
    if n < -10000 || n > 10000 then None
    else
      var y := d.year + n;
      if y < 1 || y > 9999 then None
      else
        var last := DaysInMonth(y, d.month);
        Some(Date(y, d.month, if d.day > last then last else d.day))
  }

  /** The calendar day after `d` (DateTime.AddDays(1) on a date before 9999-12-31). */
  function NextDay(d: Date): (r: Date)
    requires d.IsValid() && d != Date(9999, 12, 31)
    ensures r.IsValid()
    ensures d.OnOrBefore(r) && r != d
    ensures forall x: Date :: d.OnOrBefore(x) && x != d && x.IsValid() ==> r.OnOrBefore(x)
  {
    if d.day < DaysInMonth(d.year, d.month) then Date(d.year, d.month, d.day + 1)
    else if d.month < 12 then Date(d.year, d.month + 1, 1)
    else Date(d.year + 1, 1, 1)
  }

  /** Age in completed years on `today` of someone born on `birth`: the year
      difference, less one when the birthday has not yet come round this year. */
  function AgeInYears(birth: Date, today: Date): int {
    today.year - birth.year -
      (if today.month < birth.month || (today.month == birth.month && today.day < birth.day) then 1 else 0)
  }

  /** Being born on or before `today.AddYears(-t)` means being at least `t`
      years old on `today`, leap-day birthdays included (someone born on
      February 29 turns a year older on March 1 of a common year). */
  lemma OnOrBeforeCutoffIffAgeAtLeast(birth: Date, today: Date, t: int)
    requires birth.IsValid() && today.IsValid()
    requires AddYears(today, -t).Some?
    ensures birth.OnOrBefore(AddYears(today, -t).value) <==> AgeInYears(birth, today) >= t
  {
    var c := AddYears(today, -t).value;
    if c.day != today.day {
      // only a February 29 clamped into a common year; nobody is born on February 29 of that year
      assert birth.year == c.year ==> !(birth.month == 2 && birth.day == 29);
    }
  }

  /** Ordering facts the dependent count relies on. */
  lemma OnOrBeforeTransitive(a: Date, b: Date, c: Date)
    requires a.OnOrBefore(b) && b.OnOrBefore(c)
    ensures a.OnOrBefore(c)
  {
  }
}
