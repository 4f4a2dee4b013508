/** Day-window bounds computed from a naive UTC "now" with `replace`.
    Instants are integers counting microseconds since the epoch. */
module DayWindow {

  const MicrosPerSecond: int := 1_000_000
  const MicrosPerMinute: int := 60 * MicrosPerSecond
  const MicrosPerHour: int := 60 * MicrosPerMinute
  const MicrosPerDay: int := 24 * MicrosPerHour

  /** Calendar date of an instant, as a day number (floor division). */
  function Date(t: int): int { t / MicrosPerDay }

  /** Offset of an instant from midnight of its date. */
  function TimeOfDay(t: int): int { t % MicrosPerDay }

  /** `t.replace(hour=h, minute=m, second=s, microsecond=0)`. */
  function Replace(t: int, hour: int, minute: int, second: int): (r: int)
    requires 0 <= hour < 24 && 0 <= minute < 60 && 0 <= second < 60
    ensures Date(r) == Date(t)
    ensures TimeOfDay(r) == hour * MicrosPerHour + minute * MicrosPerMinute + second * MicrosPerSecond
  {
    var offset := hour * MicrosPerHour + minute * MicrosPerMinute + second * MicrosPerSecond;
    var r := Date(t) * MicrosPerDay + offset;
    DateOfMidnightPlus(Date(t), offset);
    r
  }

  lemma DateOfMidnightPlus(d: int, offset: int)
    requires 0 <= offset < MicrosPerDay
    ensures Date(d * MicrosPerDay + offset) == d
    ensures TimeOfDay(d * MicrosPerDay + offset) == offset
  {
  }

  /** Start of the free-slot sweep window: 07:00 on now's date. */
  function SweepStart(now: int): int { Replace(now, 7, 0, 0) }

  /** End of the free-slot sweep window: 23:00 on now's date. */
  function SweepEnd(now: int): int { Replace(now, 23, 0, 0) }

  /** The sweep window lies within one date and spans sixteen hours. */
  lemma SweepWindowWellFormed(now: int)
    ensures Date(SweepStart(now)) == Date(SweepEnd(now)) == Date(now)
    ensures SweepStart(now) < SweepEnd(now)
    ensures SweepEnd(now) - SweepStart(now) == 16 * MicrosPerHour
  {
  }

  /** Start of the briefing query window: 00:00:00 on now's date. */
  function BriefingStart(now: int): int { Replace(now, 0, 0, 0) }

  /** End of the briefing query window: 23:59:59 on now's date. */
  function BriefingEnd(now: int): int { Replace(now, 23, 59, 59) }

  /** The briefing window lies within one date, is non-empty and holds
      every instant of that date up to the last whole second. */
  lemma BriefingWindowWellFormed(now: int)
    ensures Date(BriefingStart(now)) == Date(BriefingEnd(now)) == Date(now)
    ensures BriefingStart(now) < BriefingEnd(now)
    ensures BriefingStart(now) <= now < BriefingEnd(now) + MicrosPerSecond
  {
  }
}
