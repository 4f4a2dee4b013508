/** The daily briefing script: locate the managed calendar, query it over
    today's date, and list what is on it. */
module Briefing {
  import opened Calendar
  import Search
  import DayWindow

  datatype Option<T> = None | Some(value: T)

  /** Id of the first calendar-list entry named "Aegis_Shasanam", or None. */
  function FindAegisCalendarId(entries: seq<CalendarEntry>): (r: Option<string>)
    ensures r.None? <==> forall i :: 0 <= i < |entries| ==> !IsAegis(entries[i])
    ensures r.Some? ==>
      exists k :: 0 <= k < |entries| && IsAegis(entries[k])
        && (forall j :: 0 <= j < k ==> !IsAegis(entries[j])) && r.value == entries[k].id
  {
    if entries == [] then None
    else if entries[0].summary == AegisCalendarName then Some(entries[0].id)
    else FindAegisCalendarId(entries[1..])
  }

  /** The search agrees with the first-match index: it returns the id at AegisIndex. */
  lemma FindIsFirstMatch(entries: seq<CalendarEntry>)
    ensures FindAegisCalendarId(entries)
      == if AegisIndex(entries) < |entries| then Some(entries[AegisIndex(entries)].id) else None
  {
  }

  /** Entries after the first match never affect the result: an earlier
      duplicate always wins over a later one. */
  lemma FirstMatchWins(entries: seq<CalendarEntry>, rest: seq<CalendarEntry>)
    requires exists i :: 0 <= i < |entries| && IsAegis(entries[i])
    ensures FindAegisCalendarId(entries + rest) == FindAegisCalendarId(entries)
  {
    FindIsFirstMatch(entries);
    FindIsFirstMatch(entries + rest);
    Search.FirstWhereIgnoresSuffix(entries, rest, IsAegis);
  }

  /** An event of the managed calendar as the briefing reads it. The
      listing of an untitled event has no `summary` key. */
  datatype BriefEvent = BriefEvent(start: int, summary: Option<string>)

  predicate Untitled(event: BriefEvent) { event.summary.None? }

  /** The lines the briefing prints. An event's line carries its UTC start
      instant; rendering it in local time is not part of this model. */
  datatype Line = Heading | ScheduleClear | EventLine(start: int, summary: string) | Closing

  /** What `get_todays_briefing` prints, and whether it ended by raising
      KeyError on `event['summary']`. */
  datatype Printout = Printout(lines: seq<Line>, raisedKeyError: bool)

  /** The `events().list` query the briefing issues. */
  datatype Query = Query(calendarId: string, timeMin: int, timeMax: int)

  function EventLines(events: seq<BriefEvent>): (lines: seq<Line>)
    requires forall i :: 0 <= i < |events| ==> events[i].summary.Some?
    ensures |lines| == |events|
    ensures forall i :: 0 <= i < |events| ==> lines[i] == EventLine(events[i].start, events[i].summary.value)
  {
    if events == [] then [] else [EventLine(events[0].start, events[0].summary.value)] + EventLines(events[1..])
  }

  /** `get_todays_briefing` after its query. A clear day prints the heading
      and the "schedule is clear" line and nothing else. Otherwise it prints
      the heading and one line per event in order, up to the first untitled
      event, whose summary lookup raises KeyError; if there is none, the
      closing rule follows. */
  function BriefingLines(events: seq<BriefEvent>): (r: Printout)
    ensures ScheduleClear in r.lines <==> events == []
    ensures events == [] ==> r == Printout([Heading, ScheduleClear], false)
    ensures events != [] ==>
      var k := Search.FirstWhere(events, Untitled);
      && (r.raisedKeyError <==> k < |events|)
      && |r.lines| == (if r.raisedKeyError then k + 1 else k + 2)
      && r.lines[0] == Heading
      && (forall i :: 0 <= i < k ==> r.lines[i + 1] == EventLine(events[i].start, events[i].summary.value))
      && (!r.raisedKeyError ==> r.lines[|r.lines| - 1] == Closing)
  {
    if events == [] then Printout([Heading, ScheduleClear], false)
    else
      var k := Search.FirstWhere(events, Untitled);
      if k < |events| then Printout([Heading] + EventLines(events[..k]), true)
      else
        assert events[..k] == events;
        Printout([Heading] + EventLines(events) + [Closing], false)
  }

  /** What one run of the script does: report the calendar missing, or
      issue today's query and print its briefing. */
  datatype Run = CalendarNotFound | Briefed(query: Query, printout: Printout)

  /** `main`, with the backend's event listing passed in as `listEvents`.
      A missing calendar, or one whose id is the empty string (falsy),
      stops the run before any event query. */
  function Main(entries: seq<CalendarEntry>, now: int, listEvents: Query -> seq<BriefEvent>): (r: Run)
    ensures r.CalendarNotFound? <==> FindAegisCalendarId(entries) in {None, Some("")}
    ensures r.Briefed? ==>
      && Some(r.query.calendarId) == FindAegisCalendarId(entries)
      && r.query.timeMin == DayWindow.BriefingStart(now)
      && r.query.timeMax == DayWindow.BriefingEnd(now)
      && r.query.timeMin < r.query.timeMax
      && DayWindow.Date(r.query.timeMin) == DayWindow.Date(r.query.timeMax) == DayWindow.Date(now)
      && r.query.timeMin <= now < r.query.timeMax + DayWindow.MicrosPerSecond
      && r.printout == BriefingLines(listEvents(r.query))
  {
    match FindAegisCalendarId(entries)
    case None => CalendarNotFound
    case Some(id) =>
      if id == "" then CalendarNotFound
      else
        DayWindow.BriefingWindowWellFormed(now);
        var query := Query(id, DayWindow.BriefingStart(now), DayWindow.BriefingEnd(now));
        Briefed(query, BriefingLines(listEvents(query)))
  }
}
