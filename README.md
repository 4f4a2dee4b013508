# Aegis_Shasanam scheduling core, modelled in Dafny

Aegis_Shasanam is a personal day planner. It reads today's busy events from
the user's primary Google calendar and computes the free slots between 07:00
and 23:00. It asks a local language model for a schedule, then writes the
proposed events into a managed calendar named "Aegis_Shasanam". A separate
briefing script finds that calendar and lists today's events on it.

This project models three pieces of that logic and proves what they promise:

- **The free-slot sweep** (`get_free_slots`, which exists in both scheduler
  scripts). A cursor `last_end_time` starts at 07:00 and walks the busy
  events in the order the query returned them. It emits a gap whenever an
  event starts after the cursor, then advances the cursor to
  `max(cursor, event end)`. A final gap runs up to 23:00. `FreeSlots.Sweep`
  states the algorithm as a function, and the lemmas beside it prove:
  - every slot has positive length and starts at or after 07:00;
  - slots ascend and are pairwise disjoint when busy events are well formed;
  - slots avoid every busy event when the events are sorted by start;
  - every instant of the window is covered by a slot or a busy event;
  - the cursor never moves back.

  Each script's `GetFreeSlots` is a loop method proved equal to `Sweep`. So
  the two scripts give the same result, and the older script's early return
  on an empty list agrees with the general sweep.
- **The schedule applier** (`create_events_from_schedule`). It takes the
  model's reply, as decoded JSON or a decode error. `Schedule.Apply` says
  which replies are rejected, and which items become inserted events, in
  what order and with what defaults. It also says where a missing key
  raises `KeyError` and stops the loop. `Scheduler.CreateEventsFromSchedule`
  is the loop over a `CalendarService` store, proved to insert exactly
  `Apply`'s events.
- **Calendar lookup by name.** `Scheduler.FindOrCreateAegisCalendar` is a
  search loop that creates a calendar only on a miss.
  `Briefing.FindAegisCalendarId` is a recursive first-match function. Both
  are tied to the same first-match index. The briefing's query window,
  00:00:00 to 23:59:59 of today's date, is also modelled, along with the
  guard in its `main`.

Instants are integers counting microseconds. A "naive UTC" datetime is such
an integer. `datetime.replace(hour=…, minute=…, second=…, microsecond=0)`
becomes `DayWindow.Replace`, which keeps the date and sets the time of day.

Some behaviours of the code are easy to mistake for something gentler.
The model states what the code does:

- The sweep window is always 07:00–23:00 UTC of the current date. It does
  not start at the current time when that is later than 07:00, and it
  ignores the user's local timezone.
- The sweep does not sort the busy events. It relies on the query's
  `orderBy="startTime"`. Avoidance of busy events is therefore proved under
  a sortedness hypothesis. Coverage is proved for any order.
- A dict item that lacks `start_time` or `end_time` is not skipped on its
  own. It raises `KeyError`, which ends the whole loop. Earlier inserts
  stay, and later items are never inserted.
- A reply whose top level is not a JSON object makes `.get` raise
  `AttributeError`. The model records this as an aborted call that
  inserted nothing.
- The briefing's `main` tests `not aegis_calendar_id`. A calendar whose id is
  the empty string is therefore treated as not found.
- The briefing reads `event['summary']` for every event. An untitled event,
  whose listing has no `summary` key, raises `KeyError` after the earlier
  events' lines have been printed, and the closing rule is never printed.
- No code computes fingerprints, keeps a persisted state record, deletes
  future managed events or updates task completion times. The model has
  none of them.

## Model

| member | source | states |
|---|---|---|
| `Search.FirstWhere` | scheduler.py:49-52 | The result is the index of the first element satisfying the predicate, or the length when none does: every earlier element fails it and the element at the index satisfies it |
| `Search.FirstWhereIgnoresSuffix` | briefing.py:28-30 | Once a sequence has a match, appending anything after it leaves the first-match index unchanged |
| `DayWindow.SweepStart` | scheduler.py:64 | 07:00:00.000000 on now's date, the start of the free-slot window |
| `DayWindow.SweepEnd` | scheduler.py:65 | 23:00:00.000000 on now's date, the end of the free-slot window |
| `DayWindow.BriefingStart` | briefing.py:35 | 00:00:00.000000 on now's date, the start of the briefing query |
| `DayWindow.BriefingEnd` | briefing.py:36 | 23:59:59.000000 on now's date, the end of the briefing query |
| `DayWindow.Replace` | scheduler.py:64-65 | `replace(hour, minute, second, microsecond=0)` keeps the instant's date and sets its time of day to exactly the given hour, minute and second |
| `DayWindow.SweepWindowWellFormed` | scheduler_v0.py:42-44 | 07:00 and 23:00 of now's date are on that same date, the start is strictly before the end, and they are sixteen hours apart |
| `DayWindow.BriefingWindowWellFormed` | briefing.py:34-36 | 00:00:00 and 23:59:59 of now's date are on that date, the start is strictly before the end, and now lies between the start and one second past the end |
| `FreeSlots.Step` | scheduler.py:89-103 | One loop iteration: emits the gap from the cursor to the busy start when that start is strictly after the cursor, then moves the cursor to the larger of the cursor and the busy end |
| `FreeSlots.Walk` | scheduler.py:87-103 | The cursor and the emitted gaps after walking the busy events in the order given, starting from the window start with no gaps |
| `FreeSlots.Sweep` | scheduler.py:87-110 | The free slots: the walk's gaps, then the gap from the final cursor to the window end when the cursor is still before it. The `FreeSlots` lemmas below state its guarantees |
| `FreeSlots.CursorBounds` | scheduler.py:88-103 | The cursor never falls behind the window start, and after the walk it is at or past the end of every busy event walked |
| `FreeSlots.CursorMonotone` | scheduler.py:100-103 | `last_end_time` never decreases: after walking a longer prefix of the busy list the cursor is at least where it was |
| `FreeSlots.WalkGaps` | scheduler.py:89-103 | Gaps emitted in the loop have positive length and start at or after the window start. On well-formed busy events they ascend and end by the cursor. They end by any bound that every busy start respects |
| `FreeSlots.WalkAvoidsBusy` | scheduler.py:89-103 | On start-sorted busy events, no gap emitted in the loop overlaps any busy event walked, and every gap ends by the start of the last busy event |
| `FreeSlots.WalkCovers` | scheduler.py:88-103 | Every instant from the window start up to the cursor lies in an emitted gap or in a busy event, whatever the order of the events |
| `FreeSlots.SweepPositive` | scheduler.py:88-108 | Every free slot has start strictly before end and starts at or after the 07:00 window start |
| `FreeSlots.SweepAscending` | scheduler.py:88-108 | When each busy event has start ≤ end, the free slots come out ascending and pairwise disjoint |
| `FreeSlots.SweepWithinWindow` | scheduler.py:68-108 | When no busy event starts after the window end (as the query's `timeMax` ensures), every free slot lies inside the window |
| `FreeSlots.SweepAvoidsBusy` | scheduler.py:75-108 | When busy events are sorted by start, as `orderBy="startTime"` supplies, no free slot overlaps any busy event |
| `FreeSlots.SweepCovers` | scheduler.py:88-108 | Every instant of [07:00, 23:00) lies in some free slot or in some busy event, whatever the input order |
| `FreeSlots.SweepNoBusy` | scheduler.py:105-108 | With no busy events the result is the single slot [start, end], or nothing when the window is empty |
| `Json.Truthy` | scheduler.py:154 | Python truthiness of a decoded JSON value, as `not schedule_list` tests it: null, false, zero, and empty strings, lists and objects are falsy |
| `Json.Get` | scheduler.py:151 | `dict.get(key, default)`: the value stored under the key, or the default when the key is absent |
| `Calendar.CalendarService.constructor` | scheduler.py:41 | The service built over a backend whose calendar list is given and into which no events have yet been inserted |
| `Calendar.AegisIndex` | scheduler.py:49-52 | The first-match index is below the length exactly when some entry is named "Aegis_Shasanam" |
| `Calendar.CalendarService.InsertCalendar` | scheduler.py:55-56 | Creating a calendar appends one entry with the given summary and the id the backend assigned; events are unchanged |
| `Calendar.CalendarService.InsertEvent` | scheduler.py:174 | Inserting an event appends exactly that body, tagged with its calendar id; the calendar list is unchanged |
| `Schedule.CheckSchedule` | scheduler.py:143-157 | The reply is rejected as invalid JSON exactly when it does not decode. `.get` raises AttributeError exactly when the top level is not an object. The loop is entered exactly when `events` is present and a non-empty list, whose items it then walks |
| `Schedule.MissingKey` | scheduler.py:171-172 | The key a KeyError names: `start_time` when it is absent, since it is read first, otherwise `end_time` |
| `Schedule.BuildBody` | scheduler.py:168-173 | The event body of a dict item: its summary or "Aegis Task", its description or "", and its start and end times each with timeZone "UTC" |
| `Schedule.Inserts` | scheduler.py:162-174 | The events inserted for a list with no item lacking a time: one body per dict item, in list order, with every non-dict item skipped |
| `Schedule.FailIndex` | scheduler.py:168-174 | The index of the first dict item lacking `start_time` or `end_time`, whose lookup raises KeyError, or the length when there is none |
| `Schedule.Apply` | scheduler.py:141-176 | A rejection returns the reason the checks give and inserts nothing. A reply that is not an object ends in AttributeError with nothing inserted. On an accepted list the call completes iff no dict item lacks a time, and then inserts every item's event. Otherwise the first such item raises KeyError naming the missing key, and only the items before it are inserted |
| `Schedule.InsertsAppend` | scheduler.py:162-175 | The inserts for a concatenated list are the inserts for each part in order, so each item's contribution is independent of the others |
| `Schedule.InsertsItem` | scheduler.py:162-175 | A non-dict item adds nothing. A dict item holding both times adds exactly one event to the inserts of the items before it, and that event sits at the same position in the inserts of the whole list. The event carries its summary (default "Aegis Task"), its description (default ""), and its start and end with timeZone "UTC" |
| `Schedule.InsertsTagged` | scheduler.py:168-174 | Every inserted event goes to the given calendar, with both times qualified as UTC |
| `Schedule.InsertsBounded` | scheduler.py:162-174 | A call never inserts more events than the list has items |
| `Scheduler.FindOrCreateAegisCalendar` | scheduler.py:45-58 | Returns the id of the first calendar named "Aegis_Shasanam" and creates nothing. It creates exactly one calendar with that name, and returns its new id, only when no entry matches. It never touches events |
| `Scheduler.GetFreeSlots` | scheduler.py:61-110 | The loop's result equals the sweep over today's 07:00–23:00 window, and every slot it returns starts at or after 07:00 and has positive length |
| `Scheduler.CreateEventsFromSchedule` | scheduler.py:141-176 | The loop ends as `Apply` says and appends exactly `Apply`'s events, in order, to the store. It changes no calendar entry |
| `SchedulerV0.GetFreeSlots` | scheduler_v0.py:40-102 | Early return or loop, the result equals the same sweep `Scheduler.GetFreeSlots` computes. An empty event list gives exactly the one slot [07:00, 23:00] |
| `SchedulerV0.EarlyReturnIsSweep` | scheduler_v0.py:60-68 | The early return's single slot is what the general sweep gives on an empty event list |
| `Briefing.FindAegisCalendarId` | briefing.py:26-31 | Returns None iff no entry is named "Aegis_Shasanam"; otherwise the id of the first entry so named |
| `Briefing.FindIsFirstMatch` | briefing.py:28-31 | The recursive search returns the id at the shared first-match index that the scheduler's loop also uses |
| `Briefing.FirstMatchWins` | briefing.py:29-30 | Entries after the first match never affect the result, so an earlier duplicate always wins |
| `Briefing.EventLines` | briefing.py:52-56 | One line per titled event, in the order listed, carrying its start and summary |
| `Briefing.BriefingLines` | briefing.py:47-57 | An empty event list prints the heading and the "schedule is clear" line and nothing per event. Otherwise it prints the heading and one line per event in order, up to the first untitled event. That event's summary lookup raises KeyError. When no event is untitled, the closing rule follows. The clear line appears iff there are no events |
| `Briefing.Main` | briefing.py:59-65 | No events are queried iff the lookup finds no calendar or one with a falsy (empty) id. Otherwise the query targets that id from exactly 00:00:00 to exactly 23:59:59 of now's date, a non-empty window containing now, and the printout is the briefing of what the query returns |

## Left out

- OAuth setup (`setup_google_calendar_api` in all three scripts) is left out. It handles credential files and a browser flow.
- The language-model request (`query_ollama`) is left out: it does prompt templating and an HTTP call. Its reply enters the model as a `Payload`.
- `json.loads` is left out: the model takes its result, a JSON value or a decode error.
- ISO-8601 parsing (`fromisoformat`) is left out, and busy events enter as already-parsed instants. So is the all-day `date` fallback that builds `busy_slots` (scheduler.py:81-85).
- The mix of naive and offset-aware datetimes is left out. `start_of_day` is naive, while busy times parsed from "Z" strings are aware, so the comparison at scheduler.py:93 would raise TypeError for timed events. The model compares plain integers.
- Failures of the calendar backend (HttpError on list or insert) are left out. The store's inserts always succeed, and the backend's event listing is a parameter.
- Pagination of the calendar list is left out; the model sees one list of entries.
- The `time.sleep(0.2)` between inserts is left out.
- The `main` of scheduler.py is left out. It chains lookup, sweep, task-file read, model query and applier inside a catch-all `try`. Its only logic, turning exceptions into a printed message, is what the `Aborted` outcome stands for.
- The `main` of scheduler_v0.py is left out: it prints slot durations with float minutes and pretty-prints the reply.
- The briefing's conversion of start times to the local timezone and their `%H:%M` formatting are left out. Event lines carry the UTC instant.
- Briefing.BriefingLines: the heading prints `datetime.date.today()`, the local date (briefing.py:47). The query uses the UTC date, and the two can differ near midnight. The model's heading carries no date, because it has no local timezone.
- The briefing reads `event['start'].get('dateTime')`, which is None for an all-day event and would then fail. This is part of the ISO parsing left out above.
- aegis_server.py, ingest.py, feedback.py and default_variables.py are not part of this model. They hold a Flask endpoint, transcription, an input prompt loop and configuration constants.
- Fingerprinting, the state file, deletion of future managed events and task completion bookkeeping are not modelled: none of them is implemented in these scripts.
