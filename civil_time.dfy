/**
  Date-times as the plugin handles them. Every value is counted in whole
  seconds. `wall` is the wall-clock reading, as seconds since 1970-01-01 00:00
  on that same clock. `offset` is the UTC offset the value carries, or None for
  a naive value.
*/
module CivilTime {
  import opened Wrappers

  const SecondsPerMinute: int := 60
  const SecondsPerHour: int := 3600
  const SecondsPerDay: int := 86400

  /** The UTC+8 offset in seconds, the one civil frame the plugin compares in (main.py:161, 205). */
  const Utc8Offset: int := 8 * SecondsPerHour

  datatype DateTime = DateTime(wall: int, offset: Option<int>)

  /** The absolute instant of an aware value, as seconds since the UTC epoch. */
  function Instant(d: DateTime): int
    requires d.offset.Some?
  {
    d.wall - d.offset.value
  }

  /**
    Normalisation of one DTSTART or DTEND value. An aware value is converted
    with `astimezone` to UTC+8, which keeps its instant. A naive value gets
    UTC+8 attached with `replace(tzinfo=...)`, which keeps its wall clock.
  */
  function ToUtc8(d: DateTime): (r: DateTime)
    ensures r.offset == Some(Utc8Offset)
    ensures d.offset.Some? ==> Instant(r) == Instant(d)
    ensures d.offset.None? ==> r.wall == d.wall
  {
    match d.offset
    case Some(o) => DateTime(d.wall - o + Utc8Offset, Some(Utc8Offset))
    case None => DateTime(d.wall, Some(Utc8Offset))
  }

  /** The day number of a wall-clock reading: what `.date()` keeps of it. */
  function CivilDate(wall: int): (d: int)
    ensures d * SecondsPerDay <= wall < (d + 1) * SecondsPerDay
  {
    wall / SecondsPerDay
  }

  /** The seconds since midnight of a wall-clock reading. */
  function TimeOfDay(wall: int): (t: int)
    ensures 0 <= t < SecondsPerDay
    ensures CivilDate(wall) * SecondsPerDay + t == wall
  {
    wall % SecondsPerDay
  }

  /** Normalising a second time changes nothing. */
  lemma ToUtc8Idempotent(d: DateTime)
    ensures ToUtc8(ToUtc8(d)) == ToUtc8(d)
  {
  }

  /**
    Two aware values that denote the same instant normalise to the same value,
    whatever offsets they carried. This is why comparing normalised values by
    their wall clock is comparing instants.
  */
  lemma ToUtc8SameInstant(d: DateTime, e: DateTime)
    requires d.offset.Some? && e.offset.Some?
    ensures ToUtc8(d) == ToUtc8(e) <==> Instant(d) == Instant(e)
  {
  }

  /** Two wall-clock readings on the same civil date are less than a day apart. */
  lemma SameDateWithinADay(a: int, b: int)
    requires CivilDate(a) == CivilDate(b)
    ensures -SecondsPerDay < a - b < SecondsPerDay
  {
    var ta, tb := TimeOfDay(a), TimeOfDay(b);
    assert a - b == ta - tb;
  }
}
