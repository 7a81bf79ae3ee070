/** What the schedule-window matcher promises, stated over all inputs. */
module ScheduleProperties {
  import opened Wrappers
  import opened Text
  import opened Schedule

  /** Length of a window on the 24-hour dial; an end at or before the start wraps past midnight. */
  function WindowLength(startMs: int, endMs: int): (len: int)
    requires 0 <= startMs < DayMs && 0 <= endMs < DayMs
    ensures 0 < len <= DayMs
  {
    if endMs <= startMs then endMs - startMs + DayMs else endMs - startMs
  }

  /**
   * Reference reading of a window as an arc of the 24-hour dial: `nowMs` is
   * inside when the clockwise distance from the start is shorter than the
   * arc. For bounds inside one day it agrees with the matcher in both
   * directions; in particular equal bounds cover the whole day.
   */
  lemma ClockWindowIsArc(startMs: int, endMs: int, nowMs: int)
    requires 0 <= startMs < DayMs && 0 <= endMs < DayMs && 0 <= nowMs < DayMs
    ensures InClockWindow(startMs, endMs, nowMs) <==> (nowMs - startMs) % DayMs < WindowLength(startMs, endMs)
  {
    if nowMs >= startMs {
      assert (nowMs - startMs) % DayMs == nowMs - startMs;
    } else {
      assert (nowMs - startMs) % DayMs == nowMs - startMs + DayMs;
    }
  }

  /** Same-day window: start inclusive, end exclusive. */
  lemma SameDayWindow(startMs: int, endMs: int, nowMs: int)
    requires startMs < endMs
    ensures InClockWindow(startMs, endMs, nowMs) <==> startMs <= nowMs < endMs
  {
  }

  /** Overnight window: the evening from the start, plus the early morning before the end. */
  lemma OvernightWindow(startMs: int, endMs: int, nowMs: int)
    requires endMs <= startMs
    ensures InClockWindow(startMs, endMs, nowMs) <==> nowMs >= startMs || nowMs < endMs
  {
  }

  /** Equal bounds block the whole day. */
  lemma EqualBoundsCoverWholeDay(boundMs: int, now: Instant)
    requires now.Valid()
    ensures InClockWindow(boundMs, boundMs, now.msOfDay)
  {
  }

  /** An empty schedule never blocks. */
  lemma EmptyScheduleNeverBlocks(now: Instant)
    requires now.Valid()
    ensures !InScheduledBlock([], now)
  {
  }

  /**
   * The result is decided by the first enabled entry for today alone: its
   * window when its times parse, false otherwise.
   */
  lemma FirstEntryDecides(schedule: seq<ScheduleEntry>, now: Instant, i: nat)
    requires now.Valid()
    requires TodayEntryIndex(schedule, IsoWeekday(now.calendarDay)) == Some(i)
    ensures EntryBounds(schedule[i]).None? ==> !InScheduledBlock(schedule, now)
    ensures EntryBounds(schedule[i]).Some? ==>
      (InScheduledBlock(schedule, now) <==>
        InClockWindow(EntryBounds(schedule[i]).value.0, EntryBounds(schedule[i]).value.1, now.msOfDay))
  {
  }

  /**
   * Fail closed: a missing time, a time that does not split into exactly
   * two parts, or a part that is not an `Int` all mean "not in a block".
   */
  lemma MalformedEntryFailsClosed(schedule: seq<ScheduleEntry>, now: Instant, i: nat)
    requires now.Valid()
    requires TodayEntryIndex(schedule, IsoWeekday(now.calendarDay)) == Some(i)
    requires
      || schedule[i].startTime.None?
      || schedule[i].endTime.None?
      || Count(schedule[i].startTime.value, ':') != 1
      || Count(schedule[i].endTime.value, ':') != 1
      || ParseInt(Split(schedule[i].startTime.value, ':')[0]).None?
      || ParseInt(Split(schedule[i].startTime.value, ':')[1]).None?
      || ParseInt(Split(schedule[i].endTime.value, ':')[0]).None?
      || ParseInt(Split(schedule[i].endTime.value, ':')[1]).None?
    ensures !InScheduledBlock(schedule, now)
  {
  }

  /** Appending entries never changes which entry is first for a day that already has one. */
  lemma {:induction false} TodayEntryStableUnderAppend(schedule: seq<ScheduleEntry>, more: seq<ScheduleEntry>, isoDay: int)
    requires TodayEntryIndex(schedule, isoDay).Some?
    ensures TodayEntryIndex(schedule + more, isoDay) == TodayEntryIndex(schedule, isoDay)
  {
    var i := TodayEntryIndex(schedule, isoDay).value;
    var all := schedule + more;
    assert all[i] == schedule[i];
    assert forall j :: 0 <= j < i ==> all[j] == schedule[j];
  }

  /**
   * Entries after today's first enabled entry are ignored, even when that
   * first entry is malformed and a later one would have matched.
   */
  lemma LaterEntriesIgnored(schedule: seq<ScheduleEntry>, more: seq<ScheduleEntry>, now: Instant)
    requires now.Valid()
    requires TodayEntryIndex(schedule, IsoWeekday(now.calendarDay)).Some?
    ensures InScheduledBlock(schedule + more, now) == InScheduledBlock(schedule, now)
  {
    var d := IsoWeekday(now.calendarDay);
    TodayEntryStableUnderAppend(schedule, more, d);
    var i := TodayEntryIndex(schedule, d).value;
    assert (schedule + more)[i] == schedule[i];
  }

  /** Entries for other days, or disabled ones, have no influence. */
  lemma {:induction false} IrrelevantEntryIgnored(e: ScheduleEntry, schedule: seq<ScheduleEntry>, now: Instant)
    requires now.Valid()
    requires !MatchesDay(e, IsoWeekday(now.calendarDay))
    ensures InScheduledBlock([e] + schedule, now) == InScheduledBlock(schedule, now)
  {
    var d := IsoWeekday(now.calendarDay);
    var all := [e] + schedule;
    assert all[1..] == schedule;
    var k := TodayEntryIndex(all, d);
    match TodayEntryIndex(schedule, d)
    case None =>
      assert k.None?;
    case Some(i) =>
      assert k == Some(i + 1);
      assert all[i + 1] == schedule[i];
      assert EntryBounds(all[i + 1]) == EntryBounds(schedule[i]);
  }
}
