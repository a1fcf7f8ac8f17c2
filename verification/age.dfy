/**
 * `calculateAge` (src/utils/calculateAge.ts) with "today" passed in. A
 * JavaScript `Date` is read through its local calendar components:
 * `getFullYear()`, `getMonth()` (0-based) and `getDate()`.
 */
module Age {

  datatype CalendarDate = CalendarDate(year: int, month: int, day: int)

  /** `date1.getFullYear() - date2.getFullYear()`. */
  function YearDifference(date1: CalendarDate, date2: CalendarDate): (d: int)
    ensures date2.year + d == date1.year
  {
    date1.year - date2.year
  }

  /** Today's (month, day) is strictly before the birthday's, compared
      month first. */
  predicate BirthdayNotReachedThisYear(today: CalendarDate, birthDate: CalendarDate)
    ensures BirthdayNotReachedThisYear(today, birthDate) <==>
      OnOrBefore(today, Anniversary(birthDate, today.year - birthDate.year)) && today != Anniversary(birthDate, today.year - birthDate.year)
  {
    var monthDifference := today.month - birthDate.month;
    var dayDifference := today.day - birthDate.day;
    monthDifference < 0 || (monthDifference == 0 && dayDifference < 0)
  }

  /** The calendar order on (month, day) within a year. */
  predicate MonthDayBefore(a: CalendarDate, b: CalendarDate) {
    a.month < b.month || (a.month == b.month && a.day < b.day)
  }

  /** Completed years between the birth date and today. */
  function CalculateAge(birthDate: CalendarDate, today: CalendarDate): (age: int)
    ensures age == YearDifference(today, birthDate) || age == YearDifference(today, birthDate) - 1
    ensures age == YearDifference(today, birthDate) - 1 <==>
      MonthDayBefore(today, birthDate)
  {
    var age := YearDifference(today, birthDate);
    if BirthdayNotReachedThisYear(today, birthDate) then age - 1 else age
  }

  /** Lexicographic order on (year, month, day). */
  predicate OnOrBefore(a: CalendarDate, b: CalendarDate) {
    a.year < b.year || (a.year == b.year && (a.month < b.month || (a.month == b.month && a.day <= b.day)))
  }

  /** The date `k` years after the birth date, on the same month and day. */
  function Anniversary(birthDate: CalendarDate, k: int): CalendarDate {
    CalendarDate(birthDate.year + k, birthDate.month, birthDate.day)
  }

  /** The age is the number of anniversaries reached: the `age`-th has been
      reached and the next has not. */
  lemma AgeCountsAnniversaries(birthDate: CalendarDate, today: CalendarDate)
    ensures var age := CalculateAge(birthDate, today);
      OnOrBefore(Anniversary(birthDate, age), today) && !OnOrBefore(Anniversary(birthDate, age + 1), today)
  {
  }

  /** Only one number of years has that property. */
  lemma AgeIsUnique(birthDate: CalendarDate, today: CalendarDate, k: int)
    requires OnOrBefore(Anniversary(birthDate, k), today)
    requires !OnOrBefore(Anniversary(birthDate, k + 1), today)
    ensures k == CalculateAge(birthDate, today)
  {
  }

  /** On the birthday itself the full year difference counts. */
  lemma BirthdayCounts(birthDate: CalendarDate, today: CalendarDate)
    requires today.month == birthDate.month && today.day == birthDate.day
    ensures CalculateAge(birthDate, today) == today.year - birthDate.year
  {
  }

  /** In a later month the full year difference counts, whatever the day. */
  lemma LaterMonthCounts(birthDate: CalendarDate, today: CalendarDate)
    requires today.month > birthDate.month
    ensures CalculateAge(birthDate, today) == today.year - birthDate.year
  {
  }
}
