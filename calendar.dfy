/** The calendar backend as an abstract store: the user's calendar list
    and the events inserted into calendars. */
module Calendar {
  import opened Json
  import Search

  const AegisCalendarName: string := "Aegis_Shasanam"

  /** One entry of the calendar list: its display name and its id. */
  datatype CalendarEntry = CalendarEntry(summary: string, id: string)

  /** A `{"dateTime": ..., "timeZone": ...}` pair of an event body. */
  datatype EventTime = EventTime(dateTime: Json, timeZone: string)

  /** An event body as sent to `events().insert`. */
  datatype EventBody = EventBody(summary: Json, description: Json, start: EventTime, end: EventTime)

  /** An inserted event together with the calendar it went into. */
  datatype StoredEvent = StoredEvent(calendarId: string, body: EventBody)

  predicate IsAegis(entry: CalendarEntry) { entry.summary == AegisCalendarName }

  /** Position of the first entry named "Aegis_Shasanam", or `|entries|` when there is none. */
  function AegisIndex(entries: seq<CalendarEntry>): (k: nat)
    ensures k <= |entries|
    ensures k < |entries| <==> exists i :: 0 <= i < |entries| && IsAegis(entries[i])
  {
    Search.FirstWhere(entries, IsAegis)
  }

  /** The calendar service, holding what the model observes of the backend. */
  class CalendarService {
    var calendars: seq<CalendarEntry>
    var events: seq<StoredEvent>

    constructor (calendars: seq<CalendarEntry>)
      ensures this.calendars == calendars && events == []
    {
      this.calendars := calendars;
      events := [];
    }

    /** `calendars().insert(body={"summary": summary})`, the backend choosing `id`. */
    method InsertCalendar(summary: string, id: string)
      modifies this
      ensures calendars == old(calendars) + [CalendarEntry(summary, id)]
      ensures events == old(events)
    {
      calendars := calendars + [CalendarEntry(summary, id)];
    }

    /** `events().insert(calendarId=calendarId, body=body)`. */
    method InsertEvent(calendarId: string, body: EventBody)
      modifies this
      ensures events == old(events) + [StoredEvent(calendarId, body)]
      ensures calendars == old(calendars)
    {
      events := events + [StoredEvent(calendarId, body)];
    }
  }
}
