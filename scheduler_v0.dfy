/** The earlier scheduling script: the same sweep, preceded by an explicit
    early return when the query found no events. */
module SchedulerV0 {
  import opened FreeSlots
  import DayWindow

  /** With no events the whole 07:00-23:00 window is returned as one slot;
      otherwise the cursor sweep runs. Either way the result is the sweep's,
      the same as the later script's `GetFreeSlots` gives for the same input. */
  method GetFreeSlots(now: int, busy: seq<Interval>) returns (freeSlots: seq<Interval>)
    ensures freeSlots == Sweep(busy, DayWindow.SweepStart(now), DayWindow.SweepEnd(now))
    ensures busy == [] ==> freeSlots == [Interval(DayWindow.SweepStart(now), DayWindow.SweepEnd(now))]
  {
    var startOfDay := DayWindow.Replace(now, 7, 0, 0);
    var endOfDay := DayWindow.Replace(now, 23, 0, 0);
    if busy == [] {
      EarlyReturnIsSweep(now);
      return [Interval(startOfDay, endOfDay)];
    }
    freeSlots := [];
    var lastEndTime := startOfDay;
    for i := 0 to |busy|
      invariant Walk(busy[..i], startOfDay) == SweepState(lastEndTime, freeSlots)
    {
      var b := busy[i];
      if b.start > lastEndTime {
        freeSlots := freeSlots + [Interval(lastEndTime, b.start)];
      }
      lastEndTime := Max(lastEndTime, b.end);
      assert busy[..i + 1][..i] == busy[..i];
    }
    assert busy[..|busy|] == busy;
    if lastEndTime < endOfDay {
      freeSlots := freeSlots + [Interval(lastEndTime, endOfDay)];
    }
  }

  /** The early return's single slot is exactly what the general sweep
      produces when there are no busy events. */
  lemma EarlyReturnIsSweep(now: int)
    ensures Sweep([], DayWindow.SweepStart(now), DayWindow.SweepEnd(now))
      == [Interval(DayWindow.SweepStart(now), DayWindow.SweepEnd(now))]
  {
    DayWindow.SweepWindowWellFormed(now);
  }
}
