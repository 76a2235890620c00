/** `java.time.LocalDate` as far as the film and user code uses it: a
    year-month-day triple compared chronologically. "Today" is never read
    from a clock; callers pass it in. */
module Dates {

  datatype Date = Date(year: int, month: int, day: int)

  /** The earliest accepted release date, 28 December 1895. */
  const CinemaBirthday: Date := Date(1895, 12, 28)

  /** `LocalDate.compareTo`: the year difference, else the month
      difference, else the day difference. */
  function CompareTo(a: Date, b: Date): (r: int)
    ensures r == 0 <==> a == b
    ensures a.year < b.year ==> r < 0
    ensures a.year > b.year ==> r > 0
  {
    if a.year != b.year then a.year - b.year
    else if a.month != b.month then a.month - b.month
    else a.day - b.day
  }

  /** `a.isBefore(b)`. */
  function IsBefore(a: Date, b: Date): (r: bool)
    ensures r ==> a != b
    ensures a.year == b.year && a.month == b.month ==> (r <==> a.day < b.day)
  {
    CompareTo(a, b) < 0
  }

  /** `a.isAfter(b)`. */
  function IsAfter(a: Date, b: Date): (r: bool)
    ensures r <==> IsBefore(b, a)
  {
    CompareTo(a, b) > 0
  }

  /** Two dates neither before nor after each other are the same date, and
      no date is both before and after another. */
  lemma Trichotomy(a: Date, b: Date)
    ensures !IsBefore(a, b) && !IsAfter(a, b) <==> a == b
    ensures !(IsBefore(a, b) && IsAfter(a, b))
  {
  }

  /** `isBefore` is the chronological order: by year, then month, then day. */
  lemma BeforeIsChronological(a: Date, b: Date)
    ensures IsBefore(a, b) <==>
      || a.year < b.year
      || (a.year == b.year && a.month < b.month)
      || (a.year == b.year && a.month == b.month && a.day < b.day)
  {
  }
}
