// `formatTimestamp` (app `utils/Tool.kt`): which of four formats a call's
// date is shown in. Dates are day numbers counted from 1970-01-01 in the
// system time zone; the day of the year of today is a parameter (the
// calendar itself, the clock and the format patterns are not modelled).
module TimeBuckets {

  /** The four branches of the `when`. */
  datatype Bucket = TimeOfDay | Weekday | ThisYear | OtherYears

  /** ISO day of the week of a day number: Monday is 1, Sunday 7
    * (1970-01-01 was a Thursday). */
  function DayOfWeek(day: int): (d: int)
    ensures 1 <= d <= 7
  {
    (day + 3) % 7 + 1
  }

  /** `today.with(DayOfWeek.MONDAY)`: the Monday of today's week. */
  function StartOfWeek(today: int): (m: int)
    ensures today - 6 <= m <= today
    ensures DayOfWeek(m) == 1
  {
    today - (DayOfWeek(today) - 1)
  }

  /** `today.withDayOfYear(1)`, from today's day of the year. */
  function StartOfYear(today: int, dayOfYear: int): int
    requires 1 <= dayOfYear <= 366
  {
    today - (dayOfYear - 1)
  }

  /** The branch `formatTimestamp` takes for a date. */
  function BucketOf(date: int, today: int, dayOfYear: int): Bucket
    requires 1 <= dayOfYear <= 366
  {
    if date == today then TimeOfDay
    else if date > StartOfWeek(today) then Weekday
    else if date > StartOfYear(today, dayOfYear) then ThisYear
    else OtherYears
  }

  /** Today shows its time of day, whatever else holds. */
  lemma TodayShowsTime(today: int, dayOfYear: int)
    requires 1 <= dayOfYear <= 366
    ensures BucketOf(today, today, dayOfYear) == TimeOfDay
  {
  }

  /** A past date shows its weekday exactly when it lies fewer days back than
    * today is past Monday: the Monday itself does not. */
  lemma PastWeekday(date: int, today: int, dayOfYear: int)
    requires 1 <= dayOfYear <= 366
    requires date < today
    ensures BucketOf(date, today, dayOfYear) == Weekday <==> today - date < DayOfWeek(today) - 1
  {
  }

  /** This week's Monday, when it is not today, falls through to the year
    * branches. */
  lemma MondayNotWeekday(today: int, dayOfYear: int)
    requires 1 <= dayOfYear <= 366
    requires StartOfWeek(today) != today
    ensures BucketOf(StartOfWeek(today), today, dayOfYear) in {ThisYear, OtherYears}
  {
  }

  /** A date after today takes the weekday branch. */
  lemma FutureWeekday(date: int, today: int, dayOfYear: int)
    requires 1 <= dayOfYear <= 366
    requires date > today
    ensures BucketOf(date, today, dayOfYear) == Weekday
  {
  }

  /** Before this week, a date shows as this year's exactly when it comes
    * after 1 January; 1 January itself shows as another year's. */
  lemma BeforeThisWeek(date: int, today: int, dayOfYear: int)
    requires 1 <= dayOfYear <= 366
    requires date <= StartOfWeek(today) && date != today
    ensures BucketOf(date, today, dayOfYear) == ThisYear <==> date > StartOfYear(today, dayOfYear)
    ensures date == StartOfYear(today, dayOfYear) ==> BucketOf(date, today, dayOfYear) == OtherYears
  {
  }
}
