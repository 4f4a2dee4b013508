/** The cursor sweep that turns today's busy events into free slots,
    stated as a function over already-parsed instants, with the
    guarantees the sweep gives proved about it. */
module FreeSlots {

  /** A time span; as a free slot or a busy event it covers [start, end). */
  datatype Interval = Interval(start: int, end: int)

  /** The sweep's loop state: the cursor `last_end_time` and the slots emitted so far. */
  datatype SweepState = SweepState(cursor: int, free: seq<Interval>)

  function Max(a: int, b: int): int { if a < b then b else a }

  /** One loop iteration: emit the gap before `busy` if it starts after
      the cursor, then advance the cursor to `max(cursor, busy.end)`. */
  function Step(st: SweepState, busy: Interval): SweepState
  {
    SweepState(
      Max(st.cursor, busy.end),
      if busy.start > st.cursor then st.free + [Interval(st.cursor, busy.start)] else st.free)
  }

  /** The loop state after walking `busy` in the given order from `windowStart`. */
  function Walk(busy: seq<Interval>, windowStart: int): SweepState
  {
    if busy == [] then SweepState(windowStart, [])
    else Step(Walk(busy[..|busy| - 1], windowStart), busy[|busy| - 1])
  }

  /** The free slots: the gaps of the walk, then the tail gap up to the window end. */
  function Sweep(busy: seq<Interval>, windowStart: int, windowEnd: int): seq<Interval>
  {
    var st := Walk(busy, windowStart);
    st.free + if st.cursor < windowEnd then [Interval(st.cursor, windowEnd)] else []
  }

  predicate Contains(iv: Interval, t: int) { iv.start <= t < iv.end }

  predicate Disjoint(a: Interval, b: Interval) { a.end <= b.start || b.end <= a.start }

  /** Every busy event ends no earlier than it starts. */
  predicate WellFormed(busy: seq<Interval>)
  {
    forall i :: 0 <= i < |busy| ==> busy[i].start <= busy[i].end
  }

  /** Busy events come ordered by start, as `orderBy="startTime"` supplies them. */
  predicate SortedByStart(busy: seq<Interval>)
  {
    forall i, j :: 0 <= i < j < |busy| ==> busy[i].start <= busy[j].start
  }

  /** Every slot has positive length. */
  predicate Positive(slots: seq<Interval>)
  {
    forall k :: 0 <= k < |slots| ==> slots[k].start < slots[k].end
  }

  /** Each slot ends no later than any later slot starts: ascending and pairwise disjoint. */
  predicate Ascending(slots: seq<Interval>)
  {
    forall k, l :: 0 <= k < l < |slots| ==> slots[k].end <= slots[l].start
  }

  // ---------------------------------------------------------------------
  // The walk

  /** The cursor starts at the window start, never falls behind it, and
      has passed the end of every busy event walked. */
  lemma {:induction false} CursorBounds(busy: seq<Interval>, windowStart: int)
    ensures windowStart <= Walk(busy, windowStart).cursor
    ensures forall i :: 0 <= i < |busy| ==> busy[i].end <= Walk(busy, windowStart).cursor
  {
    if busy != [] {
      var init := busy[..|busy| - 1];
      CursorBounds(init, windowStart);
      assert forall i :: 0 <= i < |busy| - 1 ==> busy[i] == init[i];
    }
  }

  /** `last_end_time` never decreases: walking a longer prefix never moves it back. */
  lemma {:induction false} CursorMonotone(busy: seq<Interval>, i: nat, j: nat, windowStart: int)
    requires i <= j <= |busy|
    ensures Walk(busy[..i], windowStart).cursor <= Walk(busy[..j], windowStart).cursor
  {
    if i < j {
      CursorMonotone(busy, i, j - 1, windowStart);
      assert busy[..j][..j - 1] == busy[..j - 1];
    }
  }

  /** Gaps emitted by the walk have positive length and start at or after
      the window start; on well-formed input they ascend and end by the
      cursor; and they end by any bound that every busy start respects. */
  lemma {:induction false} WalkGaps(busy: seq<Interval>, windowStart: int, bound: int)
    ensures var st := Walk(busy, windowStart);
      && Positive(st.free)
      && (forall k :: 0 <= k < |st.free| ==> windowStart <= st.free[k].start)
      && (WellFormed(busy) ==> Ascending(st.free) && forall k :: 0 <= k < |st.free| ==> st.free[k].end <= st.cursor)
      && ((forall i :: 0 <= i < |busy| ==> busy[i].start <= bound) ==> forall k :: 0 <= k < |st.free| ==> st.free[k].end <= bound)
  {
    if busy != [] {
      var init := busy[..|busy| - 1];
      var b := busy[|busy| - 1];
      WalkGaps(init, windowStart, bound);
      CursorBounds(init, windowStart);
      assert forall i :: 0 <= i < |busy| - 1 ==> busy[i] == init[i];
    }
  }

  /** On start-sorted input no emitted gap overlaps any busy event walked,
      and every gap ends by the start of the last busy event walked. */
  lemma {:induction false} WalkAvoidsBusy(busy: seq<Interval>, windowStart: int)
    requires SortedByStart(busy)
    ensures var st := Walk(busy, windowStart);
      && (forall k, i :: 0 <= k < |st.free| && 0 <= i < |busy| ==> Disjoint(st.free[k], busy[i]))
      && (busy != [] ==> forall k :: 0 <= k < |st.free| ==> st.free[k].end <= busy[|busy| - 1].start)
  {
    if busy != [] {
      var init := busy[..|busy| - 1];
      var b := busy[|busy| - 1];
      assert forall i :: 0 <= i < |busy| - 1 ==> busy[i] == init[i];
      WalkAvoidsBusy(init, windowStart);
      CursorBounds(init, windowStart);
      var st0 := Walk(init, windowStart);
      if init != [] {
        assert init[|init| - 1].start <= b.start;
      }
    }
  }

  /** Every instant between the window start and the cursor lies in an
      emitted gap or in a busy event, whatever the input order. */
  lemma {:induction false} WalkCovers(busy: seq<Interval>, windowStart: int, t: int)
    requires windowStart <= t < Walk(busy, windowStart).cursor
    ensures var st := Walk(busy, windowStart);
      (exists k :: 0 <= k < |st.free| && Contains(st.free[k], t))
      || (exists i :: 0 <= i < |busy| && Contains(busy[i], t))
  {
    if busy == [] {
      assert false;
    }
    var init := busy[..|busy| - 1];
    var b := busy[|busy| - 1];
    var st0 := Walk(init, windowStart);
    var st := Walk(busy, windowStart);
    assert st == Step(st0, b);
    if t < st0.cursor {
      WalkCovers(init, windowStart, t);
      if exists k :: 0 <= k < |st0.free| && Contains(st0.free[k], t) {
        var k :| 0 <= k < |st0.free| && Contains(st0.free[k], t);
        assert st.free[k] == st0.free[k];
      } else {
        var i :| 0 <= i < |init| && Contains(init[i], t);
        assert busy[i] == init[i];
      }
    } else if t < b.start {
      assert Contains(st.free[|st.free| - 1], t);
    } else {
      assert Contains(busy[|busy| - 1], t);
    }
  }

  // ---------------------------------------------------------------------
  // The sweep's guarantees

  /** Every free slot has positive length and starts at or after the window start. */
  lemma SweepPositive(busy: seq<Interval>, windowStart: int, windowEnd: int)
    ensures var slots := Sweep(busy, windowStart, windowEnd);
      Positive(slots) && forall k :: 0 <= k < |slots| ==> windowStart <= slots[k].start
  {
    WalkGaps(busy, windowStart, windowEnd);
    CursorBounds(busy, windowStart);
  }

  /** On well-formed busy events the free slots ascend and are pairwise disjoint. */
  lemma SweepAscending(busy: seq<Interval>, windowStart: int, windowEnd: int)
    requires WellFormed(busy)
    ensures Ascending(Sweep(busy, windowStart, windowEnd))
  {
    WalkGaps(busy, windowStart, windowEnd);
  }

  /** When no busy event starts after the window end, neither does any free slot end after it. */
  lemma SweepWithinWindow(busy: seq<Interval>, windowStart: int, windowEnd: int)
    requires forall i :: 0 <= i < |busy| ==> busy[i].start <= windowEnd
    ensures forall k :: 0 <= k < |Sweep(busy, windowStart, windowEnd)| ==>
      windowStart <= Sweep(busy, windowStart, windowEnd)[k].start
      && Sweep(busy, windowStart, windowEnd)[k].end <= windowEnd
  {
    WalkGaps(busy, windowStart, windowEnd);
    CursorBounds(busy, windowStart);
  }

  /** On start-sorted busy events no free slot overlaps any busy event. */
  lemma SweepAvoidsBusy(busy: seq<Interval>, windowStart: int, windowEnd: int)
    requires SortedByStart(busy)
    ensures var slots := Sweep(busy, windowStart, windowEnd);
      forall k, i :: 0 <= k < |slots| && 0 <= i < |busy| ==> Disjoint(slots[k], busy[i])
  {
    WalkAvoidsBusy(busy, windowStart);
    CursorBounds(busy, windowStart);
  }

  /** Every instant of [windowStart, windowEnd) lies in a free slot or in a
      busy event, whatever the order of the busy events. */
  lemma SweepCovers(busy: seq<Interval>, windowStart: int, windowEnd: int, t: int)
    requires windowStart <= t < windowEnd
    ensures var slots := Sweep(busy, windowStart, windowEnd);
      (exists k :: 0 <= k < |slots| && Contains(slots[k], t))
      || (exists i :: 0 <= i < |busy| && Contains(busy[i], t))
  {
    var st := Walk(busy, windowStart);
    var slots := Sweep(busy, windowStart, windowEnd);
    if t < st.cursor {
      WalkCovers(busy, windowStart, t);
      if exists k :: 0 <= k < |st.free| && Contains(st.free[k], t) {
        var k :| 0 <= k < |st.free| && Contains(st.free[k], t);
        assert slots[k] == st.free[k];
      }
    } else {
      assert Contains(slots[|slots| - 1], t);
    }
  }

  /** With no busy events the result is the whole window, or nothing when the window is empty. */
  lemma SweepNoBusy(windowStart: int, windowEnd: int)
    ensures Sweep([], windowStart, windowEnd)
      == if windowStart < windowEnd then [Interval(windowStart, windowEnd)] else []
  {
  }
}
