/**
  The status text of one row of the group image (`_generate_schedule_image`):
  the label and the minute count. The image itself (fonts, avatars,
  geometry) is not modelled. `now` here is the renderer's own clock reading,
  taken after the group view was computed.
*/
module Display {
  import opened CivilTime
  import opened Calendar
  import opened Resolver

  /** "进行中", "下一节", "已结束" */
  datatype Label = InClass | NextClass | Finished

  function LabelOf(start: int, end: int, now: int): (l: Label)
    ensures l == InClass <==> start <= now < end
    ensures l == NextClass <==> now < start
    ensures l == Finished <==> start <= now && end <= now
  {
    if start <= now < end then InClass
    else if now < start then NextClass
    else Finished
  }

  /**
    `timedelta.seconds` of a difference of `delta` seconds: Python keeps the
    whole days (rounded down) apart, so this is what is left beyond them.
  */
  function TimedeltaSeconds(delta: int): (s: int)
    ensures 0 <= s < SecondsPerDay
    ensures (delta - s) % SecondsPerDay == 0
  {
    delta % SecondsPerDay
  }

  /** The whole minutes in the within-a-day part of a difference (main.py:403, 410). */
  function WholeMinutes(delta: int): (m: int)
    ensures 0 <= m < 24 * 60
    ensures m * SecondsPerMinute <= TimedeltaSeconds(delta) < (m + 1) * SecondsPerMinute
  {
    TimedeltaSeconds(delta) / SecondsPerMinute
  }

  /** "N 分钟" or "H 小时 M 分钟" */
  datatype Duration = Minutes(minutes: int) | HoursMinutes(hours: int, minutes: int)

  /** Over 60 minutes is shown as hours and minutes; exactly 60 is still "60 分钟". */
  function Shown(m: int): (d: Duration)
    requires m >= 0
    ensures d.HoursMinutes? <==> m > 60
    ensures d.HoursMinutes? ==> d.hours >= 1 && 0 <= d.minutes < 60
    ensures d.Minutes? ==> 0 <= d.minutes <= 60
  {
    if m > 60 then HoursMinutes(m / 60, m % 60) else Minutes(m)
  }

  /** The minutes a shown duration stands for. */
  function TotalMinutes(d: Duration): int
  {
    match d
    case Minutes(m) => m
    case HoursMinutes(h, m) => h * 60 + m
  }

  /** Splitting into hours and minutes loses nothing. */
  lemma ShownRoundTrip(m: int)
    requires m >= 0
    ensures TotalMinutes(Shown(m)) == m
  {
  }

  /** "剩余 ...", "... 后", "今日课程已上完" */
  datatype Detail = Remaining(left: Duration) | StartsIn(wait: Duration) | DoneForToday

  /** The label and detail text of a row for course `c` at the renderer's `now`. */
  function RowStatus(c: Course, now: int): (r: (Label, Detail))
    ensures r.0 == LabelOf(c.start, c.end, now)
    ensures r.0 == InClass ==> r.1 == Remaining(Shown(WholeMinutes(c.end - now)))
    ensures r.0 == NextClass ==> r.1 == StartsIn(Shown(WholeMinutes(c.start - now)))
    ensures r.0 == Finished ==> r.1 == DoneForToday
  {
    if c.start <= now < c.end then
      (InClass, Remaining(Shown((c.end - now) % SecondsPerDay / SecondsPerMinute)))
    else if now < c.start then
      (NextClass, StartsIn(Shown((c.start - now) % SecondsPerDay / SecondsPerMinute)))
    else
      (Finished, DoneForToday)
  }

  /** Under a day, the minute count is the whole minutes of the difference. */
  lemma WholeMinutesWithinADay(delta: int)
    requires 0 <= delta < SecondsPerDay
    ensures WholeMinutes(delta) == delta / SecondsPerMinute
  {
  }

  /** An upcoming course starts on now's date, so its wait is never cut at a day. */
  lemma UpcomingWaitExact(c: Course, now: int)
    requires OnDateOf(c, now) && Ahead(c, now)
    ensures WholeMinutes(c.start - now) == (c.start - now) / SecondsPerMinute
  {
    SameDateWithinADay(c.start, now);
    WholeMinutesWithinADay(c.start - now);
  }

  /** A course in progress that ends a day and ten minutes later shows 10 minutes left: `.seconds` drops the day. */
  lemma RemainingDropsWholeDays()
    ensures WholeMinutes(SecondsPerDay + 10 * SecondsPerMinute) == 10
  {
  }

  /** Rendered at the clock reading the status was resolved at, a row's label agrees with the status. */
  lemma LabelAgreesWithStatus(courses: seq<Course>, now: int)
    ensures var s := StatusOf(courses, now);
      && (s.Ongoing? ==> RowStatus(s.course, now).0 == InClass)
      && (s.Upcoming? ==> RowStatus(s.course, now).0 == NextClass)
  {
    StatusCourseIsLive(courses, now);
  }
}
