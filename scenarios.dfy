/**
  Worked examples of the resolution rules on one small feed: Math from 09:00
  to 10:00 and Physics from 10:15 to 11:15 on 2024-09-02 (day 19968 since
  1970-01-01), given as naive DTSTART/DTEND values.
*/
module Scenarios {
  import opened Wrappers
  import Seqs
  import opened CivilTime
  import opened Calendar
  import opened Resolver
  import opened Display
  import opened Bindings
  import opened Queries

  const Day: int := 19968

  function At(hour: int, minute: int): int
  {
    Day * SecondsPerDay + hour * SecondsPerHour + minute * SecondsPerMinute
  }

  function Event(title: string, start: int, end: int): Component
  {
    Component("VEVENT", Some(title), None, None, Some(DateTime(start, None)), Some(DateTime(end, None)))
  }

  function SampleFeed(): Feed
  {
    Walkable([Component("VCALENDAR", None, None, None, None, None),
              Event("Math", At(9, 0), At(10, 0)),
              Event("Physics", At(10, 15), At(11, 15))])
  }

  function Math(): Course
  {
    Course(Some("Math"), None, None, At(9, 0), At(10, 0))
  }

  function Physics(): Course
  {
    Course(Some("Physics"), None, None, At(10, 15), At(11, 15))
  }

  /** The feed reads as the two courses, in feed order; the calendar component itself is skipped. */
  lemma SampleParses()
    ensures Parsed(SampleFeed()) == Ok([Math(), Physics()])
  {
    var cs := SampleFeed().components;
    assert cs[1..][1..][1..] == [];
    var ev := Events(cs);
    assert ev == [cs[1], cs[2]];
    assert ToCourse(ev[0]) == Math() && ToCourse(ev[1]) == Physics();
    var r := Parsed(SampleFeed());
    assert r.Ok? && |r.value| == 2;
    assert r.value == [Math(), Physics()];
  }

  /** At 09:30 Math is in progress, with 30 minutes left. */
  lemma DuringMath()
    ensures StatusOf([Math(), Physics()], At(9, 30)) == Ongoing(Math())
    ensures RowStatus(Math(), At(9, 30)) == (InClass, Remaining(Minutes(30)))
  {
    var t := TodayOf([Math(), Physics()], At(9, 30));
    assert [Math(), Physics()][1..][1..] == [];
    assert t == [Math(), Physics()];
    assert IsFirstInProgress(t, At(9, 30), 0);
    ResolvesUnique(t, At(9, 30), StatusOf([Math(), Physics()], At(9, 30)), Ongoing(Math()));
  }

  /** At 10:05 nothing is in progress and Physics is next, in 10 minutes. */
  lemma BetweenClasses()
    ensures StatusOf([Math(), Physics()], At(10, 5)) == Upcoming(Physics())
    ensures RowStatus(Physics(), At(10, 5)) == (NextClass, StartsIn(Minutes(10)))
  {
    var t := TodayOf([Math(), Physics()], At(10, 5));
    assert [Math(), Physics()][1..][1..] == [];
    assert t == [Math(), Physics()];
    assert IsEarliestAhead(t, At(10, 5), 1);
    ResolvesUnique(t, At(10, 5), StatusOf([Math(), Physics()], At(10, 5)), Upcoming(Physics()));
  }

  /** At 12:00 both have finished: no status, and nothing is left for the today view. */
  lemma AfterClasses()
    ensures StatusOf([Math(), Physics()], At(12, 0)) == NoCourse
    ensures RemainingToday([Math(), Physics()], At(12, 0)) == []
  {
    NoCourseIff([Math(), Physics()], At(12, 0));
    assert [Math(), Physics()][1..][1..] == [];
  }

  /** At 08:00 the today view lists both courses, Math first. */
  lemma BeforeClasses()
    ensures RemainingToday([Math(), Physics()], At(8, 0)) == [Math(), Physics()]
  {
    assert [Math(), Physics()][1..][1..] == [];
  }

  function OneCourse(title: string, start: int, end: int): Feed
  {
    Walkable([Event(title, start, end)])
  }

  /** The stored files of the group "9": A's and B's, not C's. */
  function GroupFiles(): map<string, Feed>
  {
    map[FeedKey("1", "A", "9") := OneCourse("Math", At(9, 0), At(10, 0)),
        FeedKey("2", "B", "9") := OneCourse("Physics", At(10, 15), At(11, 15))]
  }

  /** At 09:30, A is in Math. */
  lemma MemberA()
    ensures RecordFor(Binding("1", "A"), GroupFiles(), "9", At(9, 30)) == Ok(Some(Record("1", "A", Math())))
  {
    var files, now := GroupFiles(), At(9, 30);
    assert FeedKey("1", "A", "9")[0] == '1' && FeedKey("2", "B", "9")[0] == '2';
    OneCourseParses("Math", At(9, 0), At(10, 0));
    assert Parsed(files[FeedKey("1", "A", "9")]) == Ok([Math()]);
    var t := TodayOf([Math()], now);
    assert t == [Math()];
    assert IsFirstInProgress(t, now, 0);
    ResolvesUnique(t, now, StatusOf([Math()], now), Ongoing(Math()));
  }

  /** At 09:30, B has Physics next. */
  lemma MemberB()
    ensures RecordFor(Binding("2", "B"), GroupFiles(), "9", At(9, 30)) == Ok(Some(Record("2", "B", Physics())))
  {
    var files, now := GroupFiles(), At(9, 30);
    assert FeedKey("1", "A", "9")[0] == '1' && FeedKey("2", "B", "9")[0] == '2';
    OneCourseParses("Physics", At(10, 15), At(11, 15));
    assert Parsed(files[FeedKey("2", "B", "9")]) == Ok([Physics()]);
    var t := TodayOf([Physics()], now);
    assert t == [Physics()];
    assert IsEarliestAhead(t, now, 0);
    ResolvesUnique(t, now, StatusOf([Physics()], now), Upcoming(Physics()));
  }

  /** C has no stored file. */
  lemma MemberC()
    ensures RecordFor(Binding("3", "C"), GroupFiles(), "9", At(9, 30)) == Ok(None)
  {
    assert FeedKey("1", "A", "9")[0] == '1' && FeedKey("2", "B", "9")[0] == '2' && FeedKey("3", "C", "9")[0] == '3';
    assert FeedKey("3", "C", "9") !in GroupFiles();
  }

  /** The group table of "9", in binding order. */
  function GroupTable(): UserTable
  {
    [Binding("1", "A"), Binding("2", "B"), Binding("3", "C")]
  }

  /** A's record alone, from A's entry alone. */
  lemma CollectedA()
    ensures Collected([Binding("1", "A")], GroupFiles(), "9", At(9, 30)) == Ok([Record("1", "A", Math())])
  {
    MemberA();
    assert Collected([], GroupFiles(), "9", At(9, 30)) == Ok([]);
    CollectedSnoc([], Binding("1", "A"), GroupFiles(), "9", At(9, 30));
    assert [] + [Binding("1", "A")] == [Binding("1", "A")];
    assert [] + [Record("1", "A", Math())] == [Record("1", "A", Math())];
  }

  /** A's record, then B's, from the first two entries. */
  lemma CollectedAB()
    ensures Collected([Binding("1", "A"), Binding("2", "B")], GroupFiles(), "9", At(9, 30))
      == Ok([Record("1", "A", Math()), Record("2", "B", Physics())])
  {
    MemberB();
    CollectedA();
    CollectedSnoc([Binding("1", "A")], Binding("2", "B"), GroupFiles(), "9", At(9, 30));
    assert [Binding("1", "A")] + [Binding("2", "B")] == [Binding("1", "A"), Binding("2", "B")];
    assert [Record("1", "A", Math())] + [Record("2", "B", Physics())] == [Record("1", "A", Math()), Record("2", "B", Physics())];
  }

  /** At 09:30 the collection holds A's record, then B's; C adds nothing. */
  lemma GroupCollected()
    ensures Collected(GroupTable(), GroupFiles(), "9", At(9, 30))
      == Ok([Record("1", "A", Math()), Record("2", "B", Physics())])
  {
    var rs := [Record("1", "A", Math()), Record("2", "B", Physics())];
    MemberC();
    CollectedAB();
    CollectedSnoc([Binding("1", "A"), Binding("2", "B")], Binding("3", "C"), GroupFiles(), "9", At(9, 30));
    assert [Binding("1", "A"), Binding("2", "B")] + [Binding("3", "C")] == GroupTable();
    assert rs + [] == rs;
  }

  /**
    A group of three at 09:30: A is in Math, B has Physics next, C's file is
    missing. The board shows A then B, and C is left out.
  */
  lemma GroupOfThree()
    ensures GroupView(map["9" := GroupTable()], GroupFiles(), "9", At(9, 30))
      == Board([Record("1", "A", Math()), Record("2", "B", Physics())])
  {
    GroupCollected();
    var rA, rB := Record("1", "A", Math()), Record("2", "B", Physics());
    assert RecordStart(rA) <= RecordStart(rB);
    assert [rA, rB][1..] == [rB];
    assert Seqs.SortBy([rA, rB], RecordStart) == [rA, rB];
  }

  /** A single naive VEVENT reads as its course. */
  lemma OneCourseParses(title: string, start: int, end: int)
    ensures Parsed(OneCourse(title, start, end)) == Ok([Course(Some(title), None, None, start, end)])
  {
    var cs := OneCourse(title, start, end).components;
    assert cs[1..] == [];
    assert Events(cs) == cs;
    var r := Parsed(OneCourse(title, start, end));
    assert r.Ok? && |r.value| == 1;
    assert r.value[0] == ToCourse(cs[0]) == Course(Some(title), None, None, start, end);
    assert r.value == [Course(Some(title), None, None, start, end)];
  }

  /**
    Overlapping courses: Seminar (09:10-10:30) comes first in the feed, Math
    (09:00-10:00) started earlier; at 09:30 the status is Seminar.
  */
  lemma OverlapFirstInFeedWins()
    ensures var seminar := Course(Some("Seminar"), None, None, At(9, 10), At(10, 30));
      StatusOf([seminar, Math()], At(9, 30)) == Ongoing(seminar)
  {
    var seminar := Course(Some("Seminar"), None, None, At(9, 10), At(10, 30));
    var t := TodayOf([seminar, Math()], At(9, 30));
    assert [seminar, Math()][1..][1..] == [];
    assert OnDateOf(seminar, At(9, 30)) && OnDateOf(Math(), At(9, 30));
    assert Seqs.Filter([seminar, Math()][1..], SameDateFilter(At(9, 30))) == [Math()];
    assert t == [seminar, Math()];
    assert IsFirstInProgress(t, At(9, 30), 0);
    ResolvesUnique(t, At(9, 30), StatusOf([seminar, Math()], At(9, 30)), Ongoing(seminar));
  }

  /**
    The binding handshake: a request answered exactly 60 seconds later still
    binds, and the group table then maps the user to the request's nickname;
    a request answered 61 seconds later has expired. A later re-bind whose
    fetch raises after truncating the file leaves the old binding in the
    table but its stored file unreadable.
  */
  method BindingWalkthrough(feed: Feed) returns (onTime: FileReply, late: FileReply, rebind: FileReply,
                                                 table: UserTable, stored: Feed)
    ensures onTime == BindSucceeded && late == TimedOut && rebind == FetchFailed
    ensures table == [Binding("1", "A")]
    ensures stored == Unreadable
  {
    var plugin := new SchedulePlugin(map[], map[]);
    var r1 := plugin.BindSchedule("9", "1", "A", 1000);
    assert r1 == SendFileWithin60s;
    onTime := plugin.HandleFileMessage("9", "1", 1060, Some(Written(feed)));
    assert plugin.userData["9"] == [Binding("1", "A")];
    assert RequestKey("9", "1") !in plugin.requests;
    var r3 := plugin.BindSchedule("9", "2", "B", 2000);
    late := plugin.HandleFileMessage("9", "2", 2061, Some(Written(feed)));
    var r5 := plugin.BindSchedule("9", "1", "A", 3000);
    rebind := plugin.HandleFileMessage("9", "1", 3010, Some(FetchRaised(Some(Unreadable))));
    table := plugin.userData["9"];
    stored := plugin.icsDir[FeedKey("1", "A", "9")];
  }
}
