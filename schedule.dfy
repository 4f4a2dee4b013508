/** What `create_events_from_schedule` does with the oracle's reply:
    which checks reject it, which items become event bodies, in what
    order, with what defaults, and where a missing key aborts the walk. */
module Schedule {
  import opened Json
  import opened Calendar
  import Search

  /** The two early returns, each with its own message. */
  datatype Rejection = InvalidJson | MissingEventsList

  /** The Python exceptions the function can raise (caught by `main`). */
  datatype PyError = AttributeError | KeyError(key: string)

  /** How a call ends: an early return, an exception, or the end of the loop. */
  datatype Outcome = Rejected(reason: Rejection) | Aborted(error: PyError) | Completed

  /** Result of the checks that precede the insert loop. */
  datatype Checked = Reject(reason: Rejection) | Raise(error: PyError) | Accept(items: seq<Json>)

  /** The checks before the loop: decoding, `.get("events")` (which raises on a
      non-dict), and `not schedule_list or not isinstance(schedule_list, list)`. */
  function CheckSchedule(payload: Payload): (r: Checked)
    ensures r == Reject(InvalidJson) <==> payload.Malformed?
    ensures r.Raise? <==> payload.Parsed? && !payload.value.JObject?
    ensures r.Raise? ==> r.error == AttributeError
    ensures r.Accept? <==>
      && payload.Parsed? && payload.value.JObject?
      && "events" in payload.value.fields
      && payload.value.fields["events"].JArray?
      && payload.value.fields["events"].items != []
    ensures r.Accept? ==> r.items == payload.value.fields["events"].items
  {
    match payload
    case Malformed => Reject(InvalidJson)
    case Parsed(data) =>
      if !data.JObject? then Raise(AttributeError)
      else
        var scheduleList := Get(data.fields, "events", JNull);
        if !Truthy(scheduleList) || !scheduleList.JArray? then Reject(MissingEventsList)
        else Accept(scheduleList.items)
  }

  /** A dict item that lacks `start_time` or `end_time`: indexing it raises KeyError. */
  predicate LacksTimes(item: Json)
  {
    item.JObject? && ("start_time" !in item.fields || "end_time" !in item.fields)
  }

  /** The key whose lookup raises first: `start_time` is read before `end_time`. */
  function MissingKey(fields: map<string, Json>): string
  {
    if "start_time" !in fields then "start_time" else "end_time"
  }

  /** The event body built from a dict item holding both times. */
  function BuildBody(fields: map<string, Json>): EventBody
    requires "start_time" in fields && "end_time" in fields
  {
    EventBody(
      Get(fields, "summary", JString("Aegis Task")),
      Get(fields, "description", JString("")),
      EventTime(fields["start_time"], "UTC"),
      EventTime(fields["end_time"], "UTC"))
  }

  /** An item the loop inserts: a dict holding both times. */
  predicate Insertable(item: Json)
  {
    item.JObject? && "start_time" in item.fields && "end_time" in item.fields
  }

  /** The events the loop inserts for `items`, skipping every item that is not insertable. */
  function Inserts(calendarId: string, items: seq<Json>): seq<StoredEvent>
  {
    if items == [] then []
    else
      var item := items[|items| - 1];
      Inserts(calendarId, items[..|items| - 1])
        + if Insertable(item) then [StoredEvent(calendarId, BuildBody(item.fields))] else []
  }

  /** Position of the first item whose lookup raises KeyError, or `|items|`. */
  function FailIndex(items: seq<Json>): (k: nat)
    ensures k <= |items|
    ensures forall j :: 0 <= j < k ==> !LacksTimes(items[j])
    ensures k < |items| ==> LacksTimes(items[k])
  {
    Search.FirstWhere(items, LacksTimes)
  }

  /** A whole call: how it ends, and the events it inserted, in order. */
  datatype Application = Application(outcome: Outcome, inserted: seq<StoredEvent>)

  function Apply(calendarId: string, payload: Payload): (r: Application)
    // Every rejection, and the AttributeError, leave the calendar untouched.
    ensures r.outcome.Rejected? || r.outcome == Aborted(AttributeError) ==> r.inserted == []
    ensures r.outcome.Rejected? <==> CheckSchedule(payload).Reject?
    ensures CheckSchedule(payload).Reject? ==> r.outcome == Rejected(CheckSchedule(payload).reason)
    // A reply that is not an object makes `.get` raise before anything is inserted.
    ensures CheckSchedule(payload).Raise? ==> r == Application(Aborted(AttributeError), [])
    // A run over an accepted list completes exactly when no dict item lacks a time,
    // and then inserts the events of all items.
    ensures CheckSchedule(payload).Accept? ==>
      var items := CheckSchedule(payload).items;
      && (r.outcome == Completed <==> forall i :: 0 <= i < |items| ==> !LacksTimes(items[i]))
      && (r.outcome == Completed ==> r.inserted == Inserts(calendarId, items))
    // Otherwise the first such item raises KeyError: it and every later item
    // are not inserted, the earlier inserts stay.
    ensures CheckSchedule(payload).Accept? && r.outcome != Completed ==>
      var items := CheckSchedule(payload).items;
      exists k :: 0 <= k < |items| && LacksTimes(items[k])
        && (forall j :: 0 <= j < k ==> !LacksTimes(items[j]))
        && r.outcome == Aborted(KeyError(MissingKey(items[k].fields)))
        && r.inserted == Inserts(calendarId, items[..k])
  {
    match CheckSchedule(payload)
    case Reject(reason) => Application(Rejected(reason), [])
    case Raise(error) => Application(Aborted(error), [])
    case Accept(items) =>
      var k := FailIndex(items);
      if k < |items| then
        Application(Aborted(KeyError(MissingKey(items[k].fields))), Inserts(calendarId, items[..k]))
      else
        Application(Completed, Inserts(calendarId, items))
  }

  // ---------------------------------------------------------------------
  // What the inserted sequence is made of

  /** The inserts of a concatenation are the inserts of each part, in order. */
  lemma {:induction false} InsertsAppend(calendarId: string, a: seq<Json>, b: seq<Json>)
    ensures Inserts(calendarId, a + b) == Inserts(calendarId, a) + Inserts(calendarId, b)
  {
    if b != [] {
      var b0 := b[..|b| - 1];
      assert (a + b)[..|a + b| - 1] == a + b0;
      InsertsAppend(calendarId, a, b0);
    } else {
      assert a + b == a;
    }
  }

  /** Each item contributes in list order: a non-dict item nothing, a dict
      item holding both times exactly one event, carrying its summary
      (default "Aegis Task"), its description (default "") and its two
      times qualified with timeZone "UTC". */
  lemma InsertsItem(calendarId: string, items: seq<Json>, i: nat)
    requires i < |items|
    requires !items[i].JObject? || Insertable(items[i])
    ensures var before := Inserts(calendarId, items[..i]);
      if !items[i].JObject? then
        Inserts(calendarId, items[..i + 1]) == before
      else
        var f := items[i].fields;
        var event := StoredEvent(calendarId, EventBody(
          if "summary" in f then f["summary"] else JString("Aegis Task"),
          if "description" in f then f["description"] else JString(""),
          EventTime(f["start_time"], "UTC"),
          EventTime(f["end_time"], "UTC")));
        && Inserts(calendarId, items[..i + 1]) == before + [event]
        && |before| < |Inserts(calendarId, items)|
        && Inserts(calendarId, items)[|before|] == event
  {
    assert items[..i + 1][..i] == items[..i];
    assert items == items[..i + 1] + items[i + 1..];
    InsertsAppend(calendarId, items[..i + 1], items[i + 1..]);
  }

  /** Every inserted event goes to the given calendar with both times in UTC. */
  lemma {:induction false} InsertsTagged(calendarId: string, items: seq<Json>)
    ensures forall e :: e in Inserts(calendarId, items) ==>
      e.calendarId == calendarId && e.body.start.timeZone == "UTC" && e.body.end.timeZone == "UTC"
  {
    if items != [] {
      InsertsTagged(calendarId, items[..|items| - 1]);
    }
  }

  /** No call inserts more events than the list has items. */
  lemma {:induction false} InsertsBounded(calendarId: string, items: seq<Json>)
    ensures |Inserts(calendarId, items)| <= |items|
  {
    if items != [] {
      InsertsBounded(calendarId, items[..|items| - 1]);
    }
  }
}
