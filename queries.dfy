/**
  The two query handlers, `show_today_schedule` and `show_group_schedule`,
  over the plugin's state: `userData` is `self.user_data` and `icsDir` the
  stored .ics files by name.
*/
module Queries {
  import opened Wrappers
  import opened Seqs
  import opened Calendar
  import opened Resolver
  import opened Bindings

  // ---- show_today_schedule ----

  datatype TodayReply =
    | NotBound                                        // "你还没有在这个群绑定课表哦..."
    | FileMissing                                     // "课表文件不存在，可能已被删除。请重新绑定。"
    | TodayParseFailed(error: ParseError)             // `_parse_ics_file` raised
    | NoCoursesLeft                                   // "你今天没有课啦！"
    | Schedule(nickname: string, courses: seq<Course>)  // the image of today's remaining courses

  /** `show_today_schedule` for the sender `user` in `group`, at `now`. */
  method ShowToday(userData: map<string, UserTable>, icsDir: map<string, Feed>, group: string, user: string, now: int)
    returns (reply: TodayReply)
    ensures FeedKeyFor(userData, group, user).None? <==> reply == NotBound
    ensures FeedKeyFor(userData, group, user).Some? ==>
      var key := FeedKeyFor(userData, group, user).value;
      && (key !in icsDir <==> reply == FileMissing)
      && (key in icsDir ==>
            match Parsed(icsDir[key])
            case Err(e) => reply == TodayParseFailed(e)
            case Ok(cs) =>
              if RemainingToday(cs, now) == [] then reply == NoCoursesLeft
              else reply == Schedule(Lookup(userData[group], user).value, RemainingToday(cs, now)))
  {
    if group == "" || group !in userData || Lookup(userData[group], user).None? {
      return NotBound;
    }
    var nickname := Lookup(userData[group], user).value;
    var path := FeedKey(user, nickname, group);
    if path !in icsDir {
      return FileMissing;
    }
    var parsed := ParseIcs(icsDir[path]);
    if parsed.Err? {
      return TodayParseFailed(parsed.error);
    }
    var today := TodaySchedule(parsed.value, now);
    if today == [] {
      return NoCoursesLeft;
    }
    reply := Schedule(nickname, today);
  }

  // ---- show_group_schedule ----

  /** One row of the group view: `user_course_copy`. */
  datatype Record = Record(userId: string, nickname: string, course: Course)

  function RecordStart(r: Record): int
  {
    r.course.start
  }

  datatype GroupReply =
    | NoBindings                    // "本群还没有人绑定课表哦。"
    | GroupParseFailed(error: ParseError)  // some member's `_parse_ics_file` raised
    | NobodyHasClass                // "群友们接下来都没有课啦！"
    | Board(records: seq<Record>)   // the image, one row per record

  /**
    What one group member contributes: nothing when the member's file is
    missing or the member has no status, the member's record otherwise; the
    read of the member's file can raise.
  */
  function RecordFor(b: Binding, icsDir: map<string, Feed>, group: string, now: int): (r: Result<Option<Record>, ParseError>)
    ensures var key := FeedKey(b.userId, b.nickname, group);
      && (r.Err? <==> key in icsDir && Parsed(icsDir[key]).Err?)
      && (r.Err? ==> r.error == Parsed(icsDir[key]).error)
      && (r == Ok(None) <==> key !in icsDir || (Parsed(icsDir[key]).Ok? && StatusOf(Parsed(icsDir[key]).value, now).NoCourse?))
      && (r.Ok? && r.value.Some? ==>
            && key in icsDir && Parsed(icsDir[key]).Ok?
            && r.value.value == Record(b.userId, b.nickname, StatusOf(Parsed(icsDir[key]).value, now).course))
  {
    var key := FeedKey(b.userId, b.nickname, group);
    if key !in icsDir then Ok(None)
    else
      match Parsed(icsDir[key])
      case Err(e) => Err(e)
      case Ok(cs) =>
        var s := StatusOf(cs, now);
        if s.NoCourse? then Ok(None) else Ok(Some(Record(b.userId, b.nickname, s.course)))
  }

  /** The records of a group table, in table order; the first member whose file raises aborts the whole view. */
  function Collected(t: UserTable, icsDir: map<string, Feed>, group: string, now: int): Result<seq<Record>, ParseError>
  {
    if t == [] then Ok([])
    else
      match Collected(t[..|t| - 1], icsDir, group, now)
      case Err(e) => Err(e)
      case Ok(rs) =>
        match RecordFor(t[|t| - 1], icsDir, group, now)
        case Err(e) => Err(e)
        case Ok(None) => Ok(rs)
        case Ok(Some(r)) => Ok(rs + [r])
  }

  /** The answer of the group view. */
  function GroupView(userData: map<string, UserTable>, icsDir: map<string, Feed>, group: string, now: int): GroupReply
  {
    if group == "" || group !in userData then NoBindings
    else
      match Collected(userData[group], icsDir, group, now)
      case Err(e) => GroupParseFailed(e)
      case Ok(rs) => if rs == [] then NobodyHasClass else Board(SortBy(rs, RecordStart))
  }

  /** `show_group_schedule`: one scan per member with a stored file, then the stable sort by start. */
  method ShowGroup(userData: map<string, UserTable>, icsDir: map<string, Feed>, group: string, now: int)
    returns (reply: GroupReply)
    ensures reply == GroupView(userData, icsDir, group, now)
  {
    if group == "" || group !in userData {
      return NoBindings;
    }
    var table := userData[group];
    var nextCourses: seq<Record> := [];
    var i := 0;
    while i < |table|
      invariant 0 <= i <= |table|
      invariant Collected(table[..i], icsDir, group, now) == Ok(nextCourses)
    {
      var b := table[i];
      assert table[..i + 1][..i] == table[..i];
      var path := FeedKey(b.userId, b.nickname, group);
      if path !in icsDir {
        i := i + 1;
        continue;
      }
      var courses := ParseIcs(icsDir[path]);
      if courses.Err? {
        CollectedAborts(table, icsDir, group, now, i + 1);
        assert table[..i + 1][i] == b;
        return GroupParseFailed(courses.error);
      }
      var status := ScanStatus(courses.value, now);
      if !status.NoCourse? {
        nextCourses := nextCourses + [Record(b.userId, b.nickname, status.course)];
      }
      i := i + 1;
    }
    assert table[..i] == table;
    if nextCourses == [] {
      return NobodyHasClass;
    }
    reply := Board(SortBy(nextCourses, RecordStart));
  }

  /** Once a prefix of the table aborts, the whole table aborts with the same error. */
  lemma {:induction false} CollectedAborts(t: UserTable, icsDir: map<string, Feed>, group: string, now: int, n: nat)
    requires n <= |t| && Collected(t[..n], icsDir, group, now).Err?
    ensures Collected(t, icsDir, group, now) == Collected(t[..n], icsDir, group, now)
    decreases |t| - n
  {
    if n < |t| {
      assert t[..n + 1][..n] == t[..n];
      CollectedAborts(t, icsDir, group, now, n + 1);
    } else {
      assert t[..n] == t;
    }
  }

  /** A member appended to the table appends its record, if any, to the collection. */
  lemma CollectedSnoc(t: UserTable, b: Binding, icsDir: map<string, Feed>, group: string, now: int)
    requires Collected(t, icsDir, group, now).Ok? && RecordFor(b, icsDir, group, now).Ok?
    ensures var r := RecordFor(b, icsDir, group, now).value;
      Collected(t + [b], icsDir, group, now)
        == Ok(Collected(t, icsDir, group, now).value + (if r.Some? then [r.value] else []))
  {
    assert (t + [b])[..|t|] == t;
    assert (t + [b])[|t|] == b;
    assert Collected(t, icsDir, group, now).value + [] == Collected(t, icsDir, group, now).value;
  }

  /** The group view fails exactly when some member's stored file raises. */
  /**
    A failed collection fails with the error of the first member whose read
    raises: every member before it reads without raising.
  */
  lemma {:induction false} CollectedFirstError(t: UserTable, icsDir: map<string, Feed>, group: string, now: int)
    requires Collected(t, icsDir, group, now).Err?
    ensures exists i ::
      && 0 <= i < |t|
      && RecordFor(t[i], icsDir, group, now) == Err(Collected(t, icsDir, group, now).error)
      && forall j :: 0 <= j < i ==> RecordFor(t[j], icsDir, group, now).Ok?
  {
    var init := t[..|t| - 1];
    assert forall j :: 0 <= j < |init| ==> init[j] == t[j];
    if Collected(init, icsDir, group, now).Err? {
      CollectedFirstError(init, icsDir, group, now);
      var i :| 0 <= i < |init| && RecordFor(init[i], icsDir, group, now) == Err(Collected(init, icsDir, group, now).error)
        && forall j :: 0 <= j < i ==> RecordFor(init[j], icsDir, group, now).Ok?;
      assert RecordFor(t[i], icsDir, group, now) == Err(Collected(t, icsDir, group, now).error);
    } else {
      CollectedOkIff(init, icsDir, group, now);
      assert RecordFor(t[|t| - 1], icsDir, group, now) == Err(Collected(t, icsDir, group, now).error);
    }
  }

  lemma {:induction false} CollectedOkIff(t: UserTable, icsDir: map<string, Feed>, group: string, now: int)
    ensures Collected(t, icsDir, group, now).Ok? <==> forall i :: 0 <= i < |t| ==> RecordFor(t[i], icsDir, group, now).Ok?
  {
    if t != [] {
      var init := t[..|t| - 1];
      CollectedOkIff(init, icsDir, group, now);
      assert forall i :: 0 <= i < |init| ==> init[i] == t[i];
    }
  }

  /**
    When the group view succeeds, its records are exactly the members'
    contributions: a record is present iff some member of the table
    produces it.
  */
  lemma {:induction false} CollectedMembers(t: UserTable, icsDir: map<string, Feed>, group: string, now: int, rec: Record)
    requires Collected(t, icsDir, group, now).Ok?
    ensures rec in Collected(t, icsDir, group, now).value <==>
      exists i :: 0 <= i < |t| && RecordFor(t[i], icsDir, group, now) == Ok(Some(rec))
  {
    if t != [] {
      var init, last := t[..|t| - 1], t[|t| - 1];
      CollectedMembers(init, icsDir, group, now, rec);
      var before := Collected(init, icsDir, group, now).value;
      var rs := Collected(t, icsDir, group, now).value;
      var tail := RecordFor(last, icsDir, group, now);
      assert rs == before + (if tail.value.Some? then [tail.value.value] else []);
      if rec in rs {
        if rec in before {
          var i :| 0 <= i < |init| && RecordFor(init[i], icsDir, group, now) == Ok(Some(rec));
          assert init[i] == t[i];
        } else {
          assert RecordFor(t[|t| - 1], icsDir, group, now) == Ok(Some(rec));
        }
      }
      if exists i :: 0 <= i < |t| && RecordFor(t[i], icsDir, group, now) == Ok(Some(rec)) {
        var i :| 0 <= i < |t| && RecordFor(t[i], icsDir, group, now) == Ok(Some(rec));
        if i < |init| {
          assert init[i] == t[i];
          assert rec in before;
        }
        assert rec in rs;
      }
    }
  }

  /** Every record carries the user id and nickname of a table entry, and each table entry gives at most one record. */
  lemma {:induction false} CollectedUsers(t: UserTable, icsDir: map<string, Feed>, group: string, now: int)
    requires Collected(t, icsDir, group, now).Ok?
    ensures var rs := Collected(t, icsDir, group, now).value;
      && |rs| <= |t|
      && (forall k :: 0 <= k < |rs| ==> Binding(rs[k].userId, rs[k].nickname) in t)
      && (UniqueUsers(t) ==> forall k, l :: 0 <= k < l < |rs| ==> rs[k].userId != rs[l].userId)
  {
    if t != [] {
      var init := t[..|t| - 1];
      var last := t[|t| - 1];
      assert t == init + [last];
      CollectedUsers(init, icsDir, group, now);
      var before := Collected(init, icsDir, group, now).value;
      var rs := Collected(t, icsDir, group, now).value;
      forall k | 0 <= k < |rs| ensures Binding(rs[k].userId, rs[k].nickname) in t {
        if k < |before| {
          assert rs[k] == before[k];
        }
      }
      if UniqueUsers(t) {
        assert UniqueUsers(init);
        forall k, l | 0 <= k < l < |rs| ensures rs[k].userId != rs[l].userId {
          if l >= |before| {
            assert rs[l].userId == last.userId;
            assert rs[k] == before[k];
            var j :| 0 <= j < |init| && init[j] == Binding(before[k].userId, before[k].nickname);
            assert t[j].userId != t[|t| - 1].userId;
          } else {
            assert rs[k] == before[k] && rs[l] == before[l];
          }
        }
      }
    }
  }

  /**
    Contract of the group view: nothing is shown for a group without a
    table; a member's raising file fails the whole view; an empty collection
    is the "nobody has class" answer; otherwise the rows are the collected
    records ascending by start, as many of each as collected, and rows with
    one same start stay in table order.
  */
  lemma GroupViewSpec(userData: map<string, UserTable>, icsDir: map<string, Feed>, group: string, now: int, k: int)
    ensures var v := GroupView(userData, icsDir, group, now);
      && (v == NoBindings <==> group == "" || group !in userData)
      && (group != "" && group in userData ==>
            var c := Collected(userData[group], icsDir, group, now);
            && (v.GroupParseFailed? <==> c.Err?)
            && (v.GroupParseFailed? ==> v.error == c.error)
            && (v == NobodyHasClass <==> c == Ok([]))
            && (v.Board? ==>
                  && SortedBy(v.records, RecordStart)
                  && multiset(v.records) == multiset(c.value)
                  && KeyClass(v.records, RecordStart, k) == KeyClass(c.value, RecordStart, k)))
  {
    if group != "" && group in userData {
      var c := Collected(userData[group], icsDir, group, now);
      if c.Ok? {
        SortByOrdered(c.value, RecordStart);
        SortByStable(c.value, RecordStart, k);
      }
    }
  }
}
