/**
  The calendar feed reader (`_parse_ics_file`). Decoding the iCalendar text
  belongs to the icalendar library and is not modelled: a feed arrives as the
  sequence of components that `cal.walk()` yields, with their fields already
  decoded, or as Unreadable when `Calendar.from_ical` (or UTF-8 decoding) fails.
*/
module Calendar {
  import opened Wrappers
  import opened CivilTime
  import opened Seqs

  /** One component of the walked calendar, with the fields the plugin reads. */
  datatype Component = Component(
    name: string,
    summary: Option<string>,
    description: Option<string>,
    location: Option<string>,
    dtstart: Option<DateTime>,
    dtend: Option<DateTime>)

  /** The content of one stored .ics file. */
  datatype Feed = Walkable(components: seq<Component>) | Unreadable

  /** Why reading a feed raised. */
  datatype ParseError =
    | NotCalendar   // Calendar.from_ical or the UTF-8 read raised
    | MissingTime   // a VEVENT without DTSTART or DTEND: `.get(...)` is None and `.dt` raises

  /**
    One course record. `start` and `end` are the wall-clock readings of the
    normalised UTC+8 values; the offset every record carries is Utc8Offset.
  */
  datatype Course = Course(
    summary: Option<string>,
    description: Option<string>,
    location: Option<string>,
    start: int,
    end: int)

  predicate IsEvent(c: Component)
  {
    c.name == "VEVENT"
  }

  function EventFilter(): Component -> bool
  {
    c => IsEvent(c)
  }

  /** The VEVENT entries of a walked calendar, in feed order. */
  function Events(cs: seq<Component>): seq<Component>
  {
    Filter(cs, EventFilter())
  }

  predicate HasTimes(c: Component)
  {
    c.dtstart.Some? && c.dtend.Some?
  }

  /**
    The record built from one VEVENT: the three text fields copied through,
    start and end normalised to UTC+8 each on its own.
  */
  function ToCourse(e: Component): (c: Course)
    requires HasTimes(e)
    ensures c.summary == e.summary && c.description == e.description && c.location == e.location
    ensures e.dtstart.value.offset.Some? ==> c.start - Utc8Offset == Instant(e.dtstart.value)
    ensures e.dtstart.value.offset.None? ==> c.start == e.dtstart.value.wall
    ensures e.dtend.value.offset.Some? ==> c.end - Utc8Offset == Instant(e.dtend.value)
    ensures e.dtend.value.offset.None? ==> c.end == e.dtend.value.wall
  {
    Course(e.summary, e.description, e.location, ToUtc8(e.dtstart.value).wall, ToUtc8(e.dtend.value).wall)
  }

  /**
    What reading a feed yields: an unreadable feed raises, a VEVENT without a
    start or an end raises, and otherwise there is one record per VEVENT in
    feed order.
  */
  function Parsed(feed: Feed): Result<seq<Course>, ParseError>
  {
    match feed
    case Unreadable => Err(NotCalendar)
    case Walkable(cs) =>
      var ev := Events(cs);
      if forall k :: 0 <= k < |ev| ==> HasTimes(ev[k]) then
        Ok(seq(|ev|, k requires 0 <= k < |ev| && HasTimes(ev[k]) => ToCourse(ev[k])))
      else
        Err(MissingTime)
  }

  /** `_parse_ics_file`: walks the components and appends one record per VEVENT. */
  method ParseIcs(feed: Feed) returns (r: Result<seq<Course>, ParseError>)
    ensures r == Parsed(feed)
  {
    if feed.Unreadable? {
      return Err(NotCalendar);
    }
    var cs := feed.components;
    assert feed == Walkable(cs);
    var courses: seq<Course> := [];
    var i := 0;
    while i < |cs|
      invariant 0 <= i <= |cs|
      invariant forall k :: 0 <= k < |Events(cs[..i])| ==> HasTimes(Events(cs[..i])[k])
      invariant |courses| == |Events(cs[..i])|
      invariant forall k :: 0 <= k < |courses| ==> courses[k] == ToCourse(Events(cs[..i])[k])
    {
      var c := cs[i];
      EventsStep(cs, i);
      if IsEvent(c) {
        if c.dtstart.None? || c.dtend.None? {
          NoTimesRaises(cs, i);
          return Err(MissingTime);
        }
        courses := courses + [ToCourse(c)];
      }
      i := i + 1;
    }
    assert cs[..i] == cs;
    ParsedAll(cs, courses);
    r := Ok(courses);
  }

  /** One more component adds itself to the events when it is a VEVENT, and nothing otherwise. */
  lemma EventsStep(cs: seq<Component>, i: nat)
    requires i < |cs|
    ensures Events(cs[..i + 1]) == Events(cs[..i]) + (if IsEvent(cs[i]) then [cs[i]] else [])
  {
    assert cs[..i + 1] == cs[..i] + [cs[i]];
    FilterAppend(cs[..i], [cs[i]], EventFilter());
  }

  /** Records built from every VEVENT of a feed whose VEVENTs all have times are its reading. */
  lemma ParsedAll(cs: seq<Component>, courses: seq<Course>)
    requires forall k :: 0 <= k < |Events(cs)| ==> HasTimes(Events(cs)[k])
    requires |courses| == |Events(cs)|
    requires forall k :: 0 <= k < |courses| ==> courses[k] == ToCourse(Events(cs)[k])
    ensures Parsed(Walkable(cs)) == Ok(courses)
  {
    var ev := Events(cs);
    assert Parsed(Walkable(cs)).Ok?;
    assert |Parsed(Walkable(cs)).value| == |ev| == |courses|;
    assert forall k :: 0 <= k < |ev| ==> Parsed(Walkable(cs)).value[k] == courses[k];
    assert Parsed(Walkable(cs)).value == courses;
  }

  /** A VEVENT without start or end anywhere in the feed makes the whole read raise. */
  lemma NoTimesRaises(cs: seq<Component>, i: nat)
    requires i < |cs| && IsEvent(cs[i]) && !HasTimes(cs[i])
    ensures Parsed(Walkable(cs)) == Err(MissingTime)
  {
    FilterComplete(cs, EventFilter(), i);
  }

  /**
    An unreadable feed raises; a readable feed reads successfully exactly
    when every VEVENT in it has a start and an end.
  */
  lemma ParsedOkIff(cs: seq<Component>)
    ensures Parsed(Unreadable) == Err(NotCalendar)
    ensures Parsed(Walkable(cs)).Ok? <==> forall i :: 0 <= i < |cs| && IsEvent(cs[i]) ==> HasTimes(cs[i])
  {
    var ev := Events(cs);
    if forall i :: 0 <= i < |cs| && IsEvent(cs[i]) ==> HasTimes(cs[i]) {
      forall k | 0 <= k < |ev| ensures HasTimes(ev[k]) {
        assert ev[k] in ev;
      }
    } else {
      var i :| 0 <= i < |cs| && IsEvent(cs[i]) && !HasTimes(cs[i]);
      NoTimesRaises(cs, i);
    }
  }

  /**
    The records of a successful read are one per VEVENT, in feed order: the
    k-th record is built from the VEVENT at the k-th position of
    FilterIndices, these positions increase, and every VEVENT's position is
    one of them.
  */
  lemma ParsedInFeedOrder(cs: seq<Component>)
    requires Parsed(Walkable(cs)).Ok?
    ensures var courses := Parsed(Walkable(cs)).value;
      var idx := FilterIndices(cs, EventFilter());
      && |courses| == |idx|
      && (forall k :: 0 <= k < |idx| ==> idx[k] < |cs| && IsEvent(cs[idx[k]]) && HasTimes(cs[idx[k]])
                                         && courses[k] == ToCourse(cs[idx[k]]))
      && (forall k, l :: 0 <= k < l < |idx| ==> idx[k] < idx[l])
      && (forall i :: 0 <= i < |cs| && IsEvent(cs[i]) ==> i in idx)
  {
    var ev := Events(cs);
    var idx := FilterIndices(cs, EventFilter());
    FilterIndicesAt(cs, EventFilter());
    FilterIndicesIncrease(cs, EventFilter());
    forall i | 0 <= i < |cs| && IsEvent(cs[i]) ensures i in idx {
      FilterIndicesComplete(cs, EventFilter(), i);
    }
    forall k | 0 <= k < |idx| ensures IsEvent(cs[idx[k]]) {
      assert cs[idx[k]] == ev[k];
      assert ev[k] in ev;
    }
  }
}
