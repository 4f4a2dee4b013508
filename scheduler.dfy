/** The scheduling script: calendar lookup-or-create, the free-slot sweep
    over today's busy events, and the loop that inserts the oracle's
    proposed events into the managed calendar. */
module Scheduler {
  import opened Json
  import opened Calendar
  import opened FreeSlots
  import opened Schedule
  import DayWindow

  /** Finds the first calendar named "Aegis_Shasanam" and returns its id;
      only when there is none, creates one (the backend assigning `newId`). */
  method FindOrCreateAegisCalendar(service: CalendarService, newId: string) returns (id: string)
    modifies service
    ensures service.events == old(service.events)
    ensures var entries := old(service.calendars);
      var k := AegisIndex(entries);
      if k < |entries| then
        id == entries[k].id && service.calendars == entries
      else
        id == newId && service.calendars == entries + [CalendarEntry(AegisCalendarName, newId)]
  {
    var entries := service.calendars;
    for i := 0 to |entries|
      invariant forall j :: 0 <= j < i ==> !IsAegis(entries[j])
    {
      if entries[i].summary == AegisCalendarName {
        Search.FirstWhereUnique(entries, IsAegis, i);
        return entries[i].id;
      }
    }
    Search.FirstWhereUnique(entries, IsAegis, |entries|);
    service.InsertCalendar(AegisCalendarName, newId);
    id := newId;
  }

  /** Free slots of today's 07:00-23:00 window around `busy`, the already
      parsed events of the primary calendar in the order the query returned them. */
  method GetFreeSlots(now: int, busy: seq<Interval>) returns (freeSlots: seq<Interval>)
    ensures freeSlots == Sweep(busy, DayWindow.SweepStart(now), DayWindow.SweepEnd(now))
    ensures forall k :: 0 <= k < |freeSlots| ==>
      DayWindow.SweepStart(now) <= freeSlots[k].start < freeSlots[k].end
  {
    var startOfDay := DayWindow.Replace(now, 7, 0, 0);
    var endOfDay := DayWindow.Replace(now, 23, 0, 0);
    freeSlots := [];
    var lastEndTime := startOfDay;
    for i := 0 to |busy|
      invariant Walk(busy[..i], startOfDay) == SweepState(lastEndTime, freeSlots)
    {
      var b := busy[i];
      if b.start > lastEndTime {
        freeSlots := freeSlots + [Interval(lastEndTime, b.start)];
      }
      lastEndTime := Max(lastEndTime, b.end);
      assert busy[..i + 1][..i] == busy[..i];
    }
    assert busy[..|busy|] == busy;
    if lastEndTime < endOfDay {
      freeSlots := freeSlots + [Interval(lastEndTime, endOfDay)];
    }
    SweepPositive(busy, startOfDay, endOfDay);
  }

  /** Inserts the events of the oracle's schedule into `calendarId`; how the
      call ends and what it inserted are those of `Apply`. */
  method CreateEventsFromSchedule(service: CalendarService, calendarId: string, payload: Payload)
    returns (outcome: Outcome)
    modifies service
    ensures outcome == Apply(calendarId, payload).outcome
    ensures service.events == old(service.events) + Apply(calendarId, payload).inserted
    ensures service.calendars == old(service.calendars)
  {
    if payload.Malformed? {
      return Rejected(InvalidJson);
    }
    var scheduleData := payload.value;
    if !scheduleData.JObject? {
      return Aborted(AttributeError);
    }
    var scheduleList := Get(scheduleData.fields, "events", JNull);
    if !Truthy(scheduleList) || !scheduleList.JArray? {
      return Rejected(MissingEventsList);
    }
    var items := scheduleList.items;
    for i := 0 to |items|
      invariant forall j :: 0 <= j < i ==> !LacksTimes(items[j])
      invariant service.events == old(service.events) + Inserts(calendarId, items[..i])
      invariant service.calendars == old(service.calendars)
    {
      assert items[..i + 1][..i] == items[..i];
      var item := items[i];
      if !item.JObject? {
        continue;
      }
      var f := item.fields;
      var summary := Get(f, "summary", JString("Aegis Task"));
      var description := Get(f, "description", JString(""));
      if "start_time" !in f {
        Search.FirstWhereUnique(items, LacksTimes, i);
        return Aborted(KeyError("start_time"));
      }
      if "end_time" !in f {
        Search.FirstWhereUnique(items, LacksTimes, i);
        return Aborted(KeyError("end_time"));
      }
      var event := EventBody(summary, description,
        EventTime(f["start_time"], "UTC"), EventTime(f["end_time"], "UTC"));
      service.InsertEvent(calendarId, event);
    }
    assert items[..|items|] == items;
    Search.FirstWhereUnique(items, LacksTimes, |items|);
    return Completed;
  }
}
