# Course schedule plugin: a verified model of its schedule logic

This project models the logic inside the chat-bot plugin `main.py` (the course-schedule plugin for AstrBot). A group member binds a calendar (.ics) file. Later the bot answers two questions: "what do I still have today" and "what are my group mates in right now". The model covers these parts:

- **Reading a feed** (`_parse_ics_file`). The walked calendar components come in already decoded. Each VEVENT becomes one course record, in feed order. Start and end are normalised to UTC+8, each on its own:
  - a value with an offset is converted to UTC+8 and keeps its instant;
  - a naive value gets UTC+8 attached and keeps its wall clock.
- **The today view** (`show_today_schedule`). It keeps the courses that start on now's UTC+8 date and strictly after now, then stable-sorts them by start.
- **One user's status** (the scan in `show_group_schedule`). The first course of today in progress wins. Otherwise the earliest course still ahead wins, the first in feed order on ties. Otherwise there is no status.
- **The group view**. It collects one record per member who has a stored file and a status, in the group table's insertion order. The records are then stable-sorted by start.
- **A row's status text** (`_generate_schedule_image`). The label is "in class", "next" or "finished". The minute count is `timedelta.seconds // 60`, shown as hours and minutes when it is over 60.
- **The plugin's state** (`bind_schedule`, `handle_file_message`). The pending-request table is keyed by `group-user`, and a request expires after more than 60 seconds. `user_data` is the group -> user -> nickname table. The stored files are keyed by `user_nickname_group.ics`.

Representation:
- Instants are integer seconds.
- A `DateTime` is a wall-clock reading plus an optional offset in seconds.
- A course's start and end are the wall-clock readings of the normalised UTC+8 values.
- `now` is the UTC+8 wall-clock reading of `datetime.now(shanghai_tz)`.
- A civil date is the wall reading divided by 86400, rounded down.
- A Python dict whose iteration order matters (`user_data[group]`) is an ordered sequence of entries. Assignment overwrites an existing key in place and appends a new one.
- `list.sort(key=...)` is a stable sort, `Seqs.SortBy`.
- Both handlers that change state are methods of the class `Bindings.SchedulePlugin`.
- The query handlers are methods over the plugin's state, passed in as values.

Modules:
- `Wrappers`: Option and Result.
- `Seqs`: the filter and the stable sort, with their lemmas.
- `CivilTime`: instants, offsets and civil dates.
- `Calendar`: reading a feed.
- `Resolver`: the today view and the status of one user.
- `Bindings`: the user tables, the keys and the plugin state.
- `Queries`: the two query handlers.
- `Display`: a row's label and duration.
- `Scenarios`: concrete days worked through the model.

Two behaviours of the code that the model keeps as they are:
- A feed that cannot be read, or a VEVENT without DTSTART or DTEND, makes `_parse_ics_file` raise. Nothing in the handlers catches it. So the today view fails, and the whole group view fails too, at the first member whose stored file raises (`Queries.GroupView`, `GroupParseFailed`). It does not skip that one member or that one event.
- Members without a status are left out of the group view (main.py:270). They do not appear as trailing "no course" rows.

## Model

| member | source | states |
|---|---|---|
| CivilTime.ToUtc8 | main.py:160-172 | the result carries the +8 h offset; a value with an offset keeps its instant; a naive value keeps its wall clock |
| CivilTime.ToUtc8Idempotent | main.py:160-172 | normalising a normalised value changes nothing |
| CivilTime.ToUtc8SameInstant | main.py:160-162 | two offset-bearing values normalise to the same value exactly when they denote the same instant |
| CivilTime.CivilDate | main.py:209 | `.date()` is the day whose 86400 seconds contain the reading: the floor of the reading over a day, also for readings before 1970 |
| CivilTime.TimeOfDay | main.py:209 | the time of day is in [0, 86400) and, with the civil date, rebuilds the wall reading |
| CivilTime.SameDateWithinADay | main.py:209 | two readings on one civil date are less than a day apart |
| Calendar.ToCourse | main.py:153-180 | summary, description and location are copied through unchanged; start and end are normalised independently: an aware start (end) keeps its instant at offset +8 h, a naive one keeps its wall reading |
| Calendar.Parsed | main.py:146-181 | the reference reading of a feed, with one-line tests `IsEvent` (main.py:152) and `HasTimes` (main.py:156-157): NotCalendar for an unreadable feed, MissingTime when some VEVENT lacks a start or an end, otherwise one record per VEVENT in feed order (proved by ParsedOkIff, ParsedInFeedOrder and NoTimesRaises) |
| Calendar.ParseIcs | main.py:146-181 | the loop over the walked components yields exactly the reference reading `Parsed`: an error for an unreadable feed or for a VEVENT without start or end, else the records of the VEVENTs |
| Calendar.EventsStep | main.py:151-152 | one more walked component adds itself to the events exactly when it is a VEVENT |
| Calendar.ParsedAll | main.py:174-181 | records built, in order, from every VEVENT of a feed whose VEVENTs all have times are its reading |
| Calendar.NoTimesRaises | main.py:156-157 | a VEVENT without DTSTART or DTEND anywhere in the feed makes the whole read fail with MissingTime |
| Calendar.ParsedOkIff | main.py:149-157 | a feed `Calendar.from_ical` rejects fails with NotCalendar; a readable feed reads successfully exactly when every VEVENT has a start and an end |
| Calendar.ParsedInFeedOrder | main.py:151-180 | one record per VEVENT: the k-th record is built from the k-th VEVENT, those positions increase, every VEVENT position is used, and no non-VEVENT component gives a record |
| Seqs.Filter | main.py:208-211 | a filtered list is no longer than its input and holds only input elements that pass the test |
| Seqs.FilterAppend | main.py:208-211 | filtering a concatenation filters each part, in order |
| Seqs.FilterComplete | main.py:208-211 | every element that passes the test is kept |
| Seqs.FilterFilter | main.py:208-211 | filtering twice is filtering once by both tests |
| Seqs.FilterIndicesAt | main.py:151-152 | the positions of the kept elements index exactly the kept elements |
| Seqs.FilterIndicesIncrease | main.py:151-152 | the positions of the kept elements increase strictly |
| Seqs.FilterIndicesComplete | main.py:151-152 | the position of every element that passes the test is among them |
| Seqs.Insert | main.py:218 | inserting adds exactly one element (contents and order: InsertPermutes, InsertOrdered, InsertKeyClass) |
| Seqs.SortBy | main.py:218 | the stable sort of `list.sort(key=...)` keeps the length; its order and permutation are SortByOrdered, its stability SortByStable |
| Seqs.InsertPermutes | main.py:218 | inserting adds exactly that element |
| Seqs.InsertOrdered | main.py:218 | inserting into a sorted list keeps it sorted |
| Seqs.SortByOrdered | main.py:218 | the sort result is ascending by key and a permutation of its input: every element kept as often as it occurs |
| Seqs.InsertKeyClass | main.py:218 | inserting puts the new element before every element with its key |
| Seqs.SortByStable | main.py:218 | for every key, the elements with that key come out in input order (stability) |
| Resolver.TodaySchedule | main.py:203-218 | the loop and the sort yield the today reference `RemainingToday` |
| Resolver.RemainingToday | main.py:208-218 | the answer of the today view, with the test `OnDateOf` (main.py:209): the courses starting on now's date strictly after now, stable-sorted by start (proved by RemainingTodayContents and RemainingTodayOrder) |
| Resolver.RemainingTodayContents | main.py:208-211 | each returned course starts on now's date and strictly after now; each such input course is returned, as often as it occurs |
| Resolver.RemainingTodayOrder | main.py:217-218 | the result ascends by start; courses with one start keep input order |
| Resolver.TodayOf | main.py:250 | today's courses are input courses on now's civil date |
| Resolver.FirstInProgress | main.py:252-260 | the first position in progress, or none when no course is in progress |
| Resolver.EarliestAhead | main.py:262-265 | the position of a course ahead with the least start and no earlier one with that start, or none when nothing is ahead |
| Resolver.Resolves | main.py:250-268 | the rule a status must meet, with the tests `InProgress` (main.py:258) and `Ahead` (main.py:263): Ongoing for the first course in progress; if none, Upcoming for an earliest course ahead with no earlier position holding its start; if neither, NoCourse (that the rule admits one status only: ResolvesUnique) |
| Resolver.StatusOf | main.py:250-268 | the status is the first course in progress; if none, the earliest course ahead, first on ties; if none, no status |
| Resolver.ResolvesUnique | main.py:250-268 | these rules allow one status only |
| Resolver.ScanStatus | main.py:246-268 | the scan with `break` and strict `<` yields exactly the reference status `StatusOf` |
| Resolver.StatusCourseIsLive | main.py:250-268 | the status course comes from the input, on now's date; it is in progress (Ongoing) or ahead (Upcoming), never a finished course |
| Resolver.OngoingPrecedes | main.py:258-260 | a course of today in progress makes the status Ongoing, whatever is ahead |
| Resolver.NoCourseIff | main.py:250-268 | no status exactly when every course of today started at or before now and has ended |
| Bindings.Lookup | main.py:189-196 | a found nickname is an entry of the table; not found means no entry has the user |
| Bindings.Put | main.py:136-138 | assignment to a present user keeps every position's user; to a new user appends the entry |
| Bindings.PutLookup | main.py:138 | after the assignment the user maps to the new nickname |
| Bindings.PutLookupOther | main.py:138 | after the assignment every other user maps to what it did before |
| Bindings.PutUnique | main.py:138 | assignment keeps the table's users unique |
| Bindings.LookupEntry | main.py:196 | in a table with unique users, looking an entry's user up gives that entry's nickname |
| Bindings.RequestKeyInjective | main.py:49 | with group ids free of '-', the request key determines group and user |
| Bindings.RequestKey | main.py:49 | the key `f"{group_id}-{user_id}"` is one character longer than group and user id together (the layout: RequestKeyParts) |
| Bindings.RequestKeyParts | main.py:49 | the request key is the group id, a '-' and the user id, in that order |
| Bindings.RequestKeyCollision | main.py:49 | without that, two different users share one key |
| Bindings.FeedKey | main.py:95 | the file name `f"{user_id}_{nickname}_{group_id}.ics"` has the three parts' lengths plus six and ends in ".ics" |
| Bindings.FeedKeyParts | main.py:95 | the file name is the user id, '_', the nickname, '_', the group id and ".ics", in that order |
| Bindings.FeedKeyInjective | main.py:95 | with user and group ids free of '_', the file key determines user, nickname and group |
| Bindings.FeedKeyFor | main.py:189-197 | no key exactly when there is no group, no table for it, or no entry for the user; otherwise the file name built from the user's entry in the group table |
| Bindings.Expired | main.py:77 | expired exactly when more than 60 seconds passed since the request (see ExpiryWindow) |
| Bindings.ExpiryWindow | main.py:77 | in whole seconds: a request is valid from its timestamp through exactly 60 seconds later, expired from 61 seconds on, and never valid again once expired |
| Bindings.SameKeyEverywhere | main.py:196-197 | the group view derives for each entry the same file key the today view derives and a bind stores under |
| Bindings.SchedulePlugin.constructor | main.py:33-35 | the loaded tables and stored files, no pending request, state valid |
| Bindings.SchedulePlugin.BindSchedule | main.py:38-57 | outside a group nothing changes; in a group the request of this group and user is recorded or replaced, stamped with now; nothing else changes |
| Bindings.SchedulePlugin.HandleFileMessage | main.py:60-144 | no group, no pending request, or no file: ignored and no change; expired (more than 60 s): request dropped, nothing else; a fetch that raises: request dropped, user table unchanged, the file key holds whatever the fetch left there before raising (possibly a truncated, unreadable file); no file after the fetch: request dropped, user table unchanged; success: the table maps the user to the request's nickname, the file sits under the key later queries derive, the request is gone, validity kept |
| Queries.ShowToday | main.py:184-225 | not bound, file missing, read failed, nothing left today, or the nickname with `RemainingToday` of the parsed feed, each exactly in its case |
| Queries.RecordFor | main.py:241-281 | a member with no stored file or no status gives nothing; a raising read gives exactly the error the read raised; otherwise one record with the member's id, nickname and status course |
| Queries.ShowGroup | main.py:228-299 | the loop with `continue`, the scans and the sort yield exactly the reference `GroupView` |
| Queries.CollectedSnoc | main.py:240-281 | a member appended to the table appends its record, if it has one, to the collection |
| Queries.CollectedAborts | main.py:245 | once a member's read raises, the whole view fails with that error |
| Queries.CollectedFirstError | main.py:240-281 | a failed collection fails with the error of some member's read, and every member before that one reads without raising: the first raising member decides the error |
| Queries.CollectedOkIff | main.py:240-281 | the collection succeeds exactly when no member's read raises |
| Queries.CollectedMembers | main.py:240-281 | a record is collected exactly when some member of the table produces it |
| Queries.CollectedUsers | main.py:240-281 | every record carries a table entry's user id and nickname; no more records than members; with unique users, at most one record per user |
| Queries.Collected | main.py:240-281 | the records of the members in table order, the first raising read failing all (its contract: CollectedAborts, CollectedFirstError, CollectedOkIff, CollectedMembers, CollectedUsers) |
| Queries.GroupView | main.py:230-287 | the group answer: no bindings, a failed read, nobody has class, or the collected records stable-sorted by start (its contract: GroupViewSpec) |
| Queries.GroupViewSpec | main.py:230-287 | no table gives NoBindings; a raising read fails the view, with the collection's error (the first raising member's: CollectedFirstError); an empty collection is "nobody has class"; otherwise the rows are the collected records, ascending by start, a permutation, in table order among equal starts |
| Display.LabelOf | main.py:400-417 | in class exactly when start <= now < end; next exactly when now < start; finished otherwise |
| Display.TimedeltaSeconds | main.py:403 | `timedelta.seconds` lies in [0, 86400) and differs from the difference by whole days |
| Display.WholeMinutes | main.py:410 | the minute count lies in [0, 1440) and is the whole minutes of `timedelta.seconds` |
| Display.Shown | main.py:404-414 | hours and minutes exactly when the count is over 60, with minutes below 60; otherwise the plain count |
| Display.ShownRoundTrip | main.py:404-414 | hours times 60 plus minutes gives back the count |
| Display.RowStatus | main.py:397-417 | the row's label is LabelOf; in class shows `Shown` of the whole minutes to the end, next shows `Shown` of the whole minutes to the start (hours and minutes above 60); finished shows "done for today" |
| Display.WholeMinutesWithinADay | main.py:403 | under a day, the count is the whole minutes of the difference |
| Display.UpcomingWaitExact | main.py:410 | the wait for a course ahead on now's date is never shortened by the day cut |
| Display.RemainingDropsWholeDays | main.py:403 | a course ending a day and ten minutes later shows ten minutes left |
| Display.LabelAgreesWithStatus | main.py:400-409 | rendered at the clock reading the status was resolved at, an Ongoing row is "in class" and an Upcoming row is "next" |
| Scenarios.SampleParses | main.py:151-180 | a feed with a non-event component and two VEVENTs reads as the two records, in order |
| Scenarios.OneCourseParses | main.py:151-180 | a naive one-event feed reads as one record with the same wall times |
| Scenarios.DuringMath | main.py:401-407 | at 09:30 during 09:00-10:00, the status is that course with 30 minutes left |
| Scenarios.BetweenClasses | main.py:408-414 | at 10:05 between classes, the status is the 10:15 course, starting in 10 minutes |
| Scenarios.AfterClasses | main.py:208-214 | at 12:00 after both classes, there is no status and nothing left today |
| Scenarios.BeforeClasses | main.py:208-218 | at 08:00 both courses remain, in start order |
| Scenarios.MemberA | main.py:252-260 | at 09:30 A's record carries Math, in progress |
| Scenarios.MemberB | main.py:263-265 | at 09:30 B's record carries Physics, the next course |
| Scenarios.MemberC | main.py:241-243 | C, with no stored file, contributes nothing |
| Scenarios.CollectedA | main.py:240-281 | A's entry alone collects A's record |
| Scenarios.CollectedAB | main.py:240-281 | A's and B's entries collect A's record, then B's |
| Scenarios.GroupCollected | main.py:240-281 | the whole table collects A's record, then B's; C adds nothing |
| Scenarios.GroupOfThree | main.py:240-287 | with one member's file missing, the board has the other two, ordered by start |
| Scenarios.BindingWalkthrough | main.py:38-144 | a file sent exactly 60 s after the request binds the user; one sent 61 s after times out and binds nobody; a re-bind whose fetch raises after truncating the file keeps the table entry but leaves the stored file unreadable |
| Scenarios.OverlapFirstInFeedWins | main.py:252-260 | of two overlapping courses in progress, the one listed first is the status, though the other starts first |

## Left out

- Decoding iCalendar text (`Calendar.from_ical`, `cal.walk`) belongs to the icalendar library. A feed is the sequence of already decoded components, or Unreadable when decoding raises.
- All-day (DATE-only) DTSTART/DTEND values are not modelled. `.replace(tzinfo=...)` raises on them, so they are no supported path.
- Sub-second precision of `datetime.now()`, of `time.time()` and of event times is not modelled: instants are whole seconds. With a fractional `now` the source's count is `((D - 1) mod 86400) // 60` where `D = end - floor(now)` (or `start - floor(now)`), one minute less than the model's whenever `D` is a whole number of minutes: at 09:30:00.25 the source shows 29 minutes where Scenarios.DuringMath gives 30.
- Bindings.Expired and Bindings.ExpiryWindow: the 60-second window holds in whole seconds only. `time.time()` and the stored timestamp are floats in the source, so a request at 1000.3 answered at 1060.8 (60.5 s) has expired there, while the model, seeing 1000 and 1060, still accepts it.
- The clocks are parameters: `time.time()` is `now` of the binding methods, `datetime.now()` is `now` of the queries and of the renderer.
- File I/O is modelled by the stored files as a map from file key to content. This covers `open`, `shutil.copy2`, `download_file`, writing a file object and `os.path.exists`. The ways a received file is fetched collapse into three outcomes: raised (after leaving nothing or some content, such as a file truncated by `open(..., "wb")`, under the file key), wrote nothing, or wrote this content.
- The search for the first File component of a message (main.py:82-91) is not modelled: the method receives that component's fetch, or None.
- JSON persistence (`_init_data`, `_load_user_data`, `_save_user_data`) is not modelled: the constructor takes the loaded tables.
- Bindings.SchedulePlugin.HandleFileMessage: each call is modelled as one uninterrupted step. In the source the handler is a coroutine that checks the request (main.py:71-78), reads its nickname (main.py:94), and only then suspends at the awaits of main.py:99 and 107 and at the replies before its deletions (main.py:121, 128), before it writes (main.py:122, 129, 138, 143). Other events handled during those suspensions are not captured. For example, a fresh bind command (main.py:49-55) replacing the request makes the first handler bind the old nickname and then delete the new request. Likewise two file messages that both pass the check at main.py:71 make the second raise `KeyError` at its deletion, after it has already rewritten and saved `user_data`. No contract of the model speaks about such interleavings.
- Fetching avatars (aiohttp, `asyncio.gather`), all PIL drawing, fonts, image geometry and temporary files are presentation and network code. They are not modelled.
- The `result_str` text built in `show_group_schedule` (main.py:289-295) is never sent, so it is not modelled.
- Host dispatch, decorators, the `event` accessors and the reply wording are not modelled. Replies are datatype values.
- `list.sort` sorts in place. The model sorts a value, without the aliasing of the sorted list.
- The "无课程" branch of the renderer (main.py:418-420) and the `if start_time and end_time` guards are not modelled: with datetime values the guards always hold.
- The `.get(user_id, user_id)` and `request.get("nickname", user_id)` defaults (main.py:94, 196, 222) are not modelled: every table entry and every request carries a nickname.
- The nickname attached to each today course (main.py:221-222) is returned once beside the list. It is the same value for every course.
- Bindings.RequestKeyInjective and Bindings.FeedKeyInjective assume ids free of '-' and '_'. The code imposes no such restriction, and Bindings.RequestKeyCollision shows what happens without one.
- Display.RowStatus: takes the renderer's own `now`; the model does not relate that second clock reading to the one the group view resolved at, beyond Display.LabelAgreesWithStatus for equal readings.
