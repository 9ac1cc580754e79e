/**
  Schedule resolution for one user, given the user's course records and the
  current UTC+8 wall-clock reading `now` (`datetime.now(shanghai_tz)`):
  what is left today (`show_today_schedule`) and the one course that
  represents the user in the group view (`show_group_schedule`).
*/
module Resolver {
  import opened Wrappers
  import opened CivilTime
  import opened Calendar
  import opened Seqs

  /** The sort key of both views: a course's normalised start (main.py:218, 287). */
  function StartOf(c: Course): int
  {
    c.start
  }

  /** The course starts on the same UTC+8 civil date as `now` (main.py:209, 250). */
  predicate OnDateOf(c: Course, now: int)
  {
    CivilDate(c.start) == CivilDate(now)
  }

  /** Starts today and strictly after now. */
  predicate RemainsToday(c: Course, now: int)
  {
    OnDateOf(c, now) && c.start > now
  }

  function RemainingFilter(now: int): Course -> bool
  {
    c => RemainsToday(c, now)
  }

  /** The answer of the today view: the remaining courses of today, stable-sorted by start. */
  function RemainingToday(courses: seq<Course>, now: int): seq<Course>
  {
    SortBy(Filter(courses, RemainingFilter(now)), StartOf)
  }

  /** The loop and the sort of `show_today_schedule`. */
  method TodaySchedule(courses: seq<Course>, now: int) returns (today: seq<Course>)
    ensures today == RemainingToday(courses, now)
  {
    today := [];
    var i := 0;
    while i < |courses|
      invariant 0 <= i <= |courses|
      invariant today == Filter(courses[..i], RemainingFilter(now))
    {
      var course := courses[i];
      assert courses[..i + 1] == courses[..i] + [course];
      FilterAppend(courses[..i], [course], RemainingFilter(now));
      if OnDateOf(course, now) && course.start > now {
        today := today + [course];
      }
      i := i + 1;
    }
    assert courses[..i] == courses;
    today := SortBy(today, StartOf);
  }

  /**
    What the today view returns: every course returned starts on now's date
    and strictly after now, and every input course that does so is returned,
    as often as it occurs in the input.
  */
  lemma RemainingTodayContents(courses: seq<Course>, now: int)
    ensures forall c :: c in RemainingToday(courses, now) ==> OnDateOf(c, now) && c.start > now
    ensures forall i :: 0 <= i < |courses| && RemainsToday(courses[i], now) ==> courses[i] in RemainingToday(courses, now)
    ensures multiset(RemainingToday(courses, now)) == multiset(Filter(courses, RemainingFilter(now)))
  {
    var kept := Filter(courses, RemainingFilter(now));
    var r := RemainingToday(courses, now);
    SortByOrdered(kept, StartOf);
    forall c | c in r ensures OnDateOf(c, now) && c.start > now {
      assert c in multiset(r);
      assert c in kept;
    }
    forall i | 0 <= i < |courses| && RemainsToday(courses[i], now) ensures courses[i] in r {
      FilterComplete(courses, RemainingFilter(now), i);
      assert courses[i] in multiset(kept);
    }
  }

  /**
    In what order the today view returns them: ascending by start, and the
    courses with one same start `k` in input order.
  */
  lemma RemainingTodayOrder(courses: seq<Course>, now: int, k: int)
    ensures SortedBy(RemainingToday(courses, now), StartOf)
    ensures KeyClass(RemainingToday(courses, now), StartOf, k) == Filter(courses, Both(RemainingFilter(now), HasKey(StartOf, k)))
  {
    var kept := Filter(courses, RemainingFilter(now));
    SortByOrdered(kept, StartOf);
    SortByStable(kept, StartOf, k);
    FilterFilter(courses, RemainingFilter(now), HasKey(StartOf, k));
  }

  // ---- The one status of a user in the group view ----

  /** The course that stands for a user: in progress now, next today, or none. */
  datatype Status = Ongoing(course: Course) | Upcoming(course: Course) | NoCourse

  /** The course has started at or before `now` and has not yet ended (main.py:258). */
  predicate InProgress(c: Course, now: int)
  {
    c.start <= now < c.end
  }

  /** The course starts strictly after `now` (main.py:263). */
  predicate Ahead(c: Course, now: int)
  {
    now < c.start
  }

  function SameDateFilter(now: int): Course -> bool
  {
    c => OnDateOf(c, now)
  }

  /** The courses whose start falls on now's civil date, in input order (main.py:250). */
  function TodayOf(courses: seq<Course>, now: int): (t: seq<Course>)
    ensures forall c :: c in t ==> c in courses && OnDateOf(c, now)
  {
    Filter(courses, SameDateFilter(now))
  }

  /** Position `i` holds the first course of `t` in progress at `now`. */
  ghost predicate IsFirstInProgress(t: seq<Course>, now: int, i: int)
  {
    0 <= i < |t| && InProgress(t[i], now) && forall j :: 0 <= j < i ==> !InProgress(t[j], now)
  }

  /**
    Position `i` holds a course of `t` starting after `now` whose start is
    the smallest such start, and no earlier position holds one with that start.
  */
  ghost predicate IsEarliestAhead(t: seq<Course>, now: int, i: int)
  {
    && 0 <= i < |t|
    && Ahead(t[i], now)
    && (forall j :: 0 <= j < |t| && Ahead(t[j], now) ==> t[i].start <= t[j].start)
    && (forall j :: 0 <= j < i && Ahead(t[j], now) ==> t[i].start < t[j].start)
  }

  /**
    What the status of a user with today's courses `t` must be: the first
    course in progress; if none is, the earliest course still ahead, the
    first in order on ties; and none when every course has finished.
  */
  ghost predicate Resolves(t: seq<Course>, now: int, s: Status)
  {
    match s
    case Ongoing(c) => exists i :: IsFirstInProgress(t, now, i) && t[i] == c
    case Upcoming(c) =>
      && (forall j :: 0 <= j < |t| ==> !InProgress(t[j], now))
      && exists i :: IsEarliestAhead(t, now, i) && t[i] == c
    case NoCourse => forall j :: 0 <= j < |t| ==> !InProgress(t[j], now) && !Ahead(t[j], now)
  }

  /** The first position of `t` in progress at `now`, if any. */
  function FirstInProgress(t: seq<Course>, now: int): (r: Option<nat>)
    ensures r.Some? ==> IsFirstInProgress(t, now, r.value)
    ensures r.None? ==> forall j :: 0 <= j < |t| ==> !InProgress(t[j], now)
  {
    if t == [] then None
    else if InProgress(t[0], now) then Some(0)
    else
      match FirstInProgress(t[1..], now)
      case None => None
      case Some(i) => Some(i + 1)
  }

  /** The position of the earliest-starting course of `t` that is still ahead, the first on ties. */
  function EarliestAhead(t: seq<Course>, now: int): (r: Option<nat>)
    ensures r.Some? ==> IsEarliestAhead(t, now, r.value)
    ensures r.None? ==> forall j :: 0 <= j < |t| ==> !Ahead(t[j], now)
  {
    if t == [] then None
    else
      var rest := EarliestAhead(t[1..], now);
      if !Ahead(t[0], now) then
        (match rest case None => None case Some(i) => Some(i + 1))
      else if rest.None? || t[0].start <= t[rest.value + 1].start then
        Some(0)
      else
        Some(rest.value + 1)
  }

  /** The status of a user: a reference definition, independent of the scan below. */
  function StatusOf(courses: seq<Course>, now: int): (s: Status)
    ensures Resolves(TodayOf(courses, now), now, s)
  {
    var t := TodayOf(courses, now);
    match FirstInProgress(t, now)
    case Some(i) => Ongoing(t[i])
    case None =>
      match EarliestAhead(t, now)
      case Some(i) => Upcoming(t[i])
      case None => NoCourse
  }

  /** Resolves allows one status only. */
  lemma ResolvesUnique(t: seq<Course>, now: int, s1: Status, s2: Status)
    requires Resolves(t, now, s1) && Resolves(t, now, s2)
    ensures s1 == s2
  {
    if s1.Ongoing? && s2.Ongoing? {
      var i1 :| IsFirstInProgress(t, now, i1) && t[i1] == s1.course;
      var i2 :| IsFirstInProgress(t, now, i2) && t[i2] == s2.course;
      assert !(i1 < i2) && !(i2 < i1);
    } else if s1.Upcoming? && s2.Upcoming? {
      var i1 :| IsEarliestAhead(t, now, i1) && t[i1] == s1.course;
      var i2 :| IsEarliestAhead(t, now, i2) && t[i2] == s2.course;
      assert !(i1 < i2) && !(i2 < i1);
    }
  }

  /**
    The scan of `show_group_schedule`: the first course in progress stops the
    scan; otherwise a course ahead replaces the candidate only when it starts
    strictly earlier.
  */
  method ScanStatus(courses: seq<Course>, now: int) returns (s: Status)
    ensures s == StatusOf(courses, now)
  {
    var today := TodayOf(courses, now);
    var current: Option<Course> := None;
    var next: Option<Course> := None;
    ghost var n := 0;
    var i := 0;
    while i < |today|
      invariant 0 <= i <= |today|
      invariant forall j :: 0 <= j < i ==> !InProgress(today[j], now)
      invariant next.None? <==> forall j :: 0 <= j < i ==> !Ahead(today[j], now)
      invariant next.Some? ==> IsEarliestAhead(today[..i], now, n) && today[n] == next.value
    {
      var course := today[i];
      if course.start <= now < course.end {
        current := Some(course);
        assert IsFirstInProgress(today, now, i);
        break;
      } else if course.start > now {
        if next.None? || course.start < next.value.start {
          next := Some(course);
          n := i;
        }
      }
      i := i + 1;
    }
    if current.Some? {
      s := Ongoing(current.value);
    } else if next.Some? {
      assert today[..i] == today;
      s := Upcoming(next.value);
    } else {
      s := NoCourse;
    }
    ResolvesUnique(today, now, s, StatusOf(courses, now));
  }

  /**
    The course a status names comes from the input, starts on now's date, and
    is in progress (Ongoing) or starts after now (Upcoming): a course that has
    already finished never stands for the user.
  */
  lemma StatusCourseIsLive(courses: seq<Course>, now: int)
    ensures var s := StatusOf(courses, now);
      && (!s.NoCourse? ==> s.course in courses && OnDateOf(s.course, now))
      && (s.Ongoing? ==> InProgress(s.course, now))
      && (s.Upcoming? ==> Ahead(s.course, now))
  {
    var t := TodayOf(courses, now);
    var s := StatusOf(courses, now);
    match s
    case Ongoing(c) =>
      var i :| IsFirstInProgress(t, now, i) && t[i] == c;
      assert c in t;
    case Upcoming(c) =>
      var i :| IsEarliestAhead(t, now, i) && t[i] == c;
      assert c in t;
    case NoCourse =>
  }

  /** In progress beats ahead: if some course of today is in progress, the status is Ongoing. */
  lemma OngoingPrecedes(courses: seq<Course>, now: int, i: nat)
    requires i < |courses| && OnDateOf(courses[i], now) && InProgress(courses[i], now)
    ensures StatusOf(courses, now).Ongoing?
  {
    var t := TodayOf(courses, now);
    FilterComplete(courses, SameDateFilter(now), i);
    var j :| 0 <= j < |t| && t[j] == courses[i];
  }

  /** A user has no status exactly when every course of today started at or before now and has ended. */
  lemma NoCourseIff(courses: seq<Course>, now: int)
    ensures StatusOf(courses, now).NoCourse? <==>
      forall i :: 0 <= i < |courses| && OnDateOf(courses[i], now) ==> courses[i].start <= now && courses[i].end <= now
  {
    var t := TodayOf(courses, now);
    var s := StatusOf(courses, now);
    if s.NoCourse? {
      forall i | 0 <= i < |courses| && OnDateOf(courses[i], now)
        ensures courses[i].start <= now && courses[i].end <= now
      {
        FilterComplete(courses, SameDateFilter(now), i);
        var j :| 0 <= j < |t| && t[j] == courses[i];
      }
    } else {
      StatusCourseIsLive(courses, now);
      var c := s.course;
      var i :| 0 <= i < |courses| && courses[i] == c;
    }
  }
}
