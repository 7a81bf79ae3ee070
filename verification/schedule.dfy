/**
 * The schedule-window matcher: is the current instant inside today's
 * scheduled block? A schedule is an ordered list of weekly entries; only
 * the first enabled entry for today is consulted, its "HH:MM" bounds are
 * parsed, and any malformed value means "not in a block".
 */
module Schedule {
  import opened Wrappers
  import opened Text

  const MinuteMs: int := 60_000
  const DayMs: int := 24 * 60 * MinuteMs

  /**
   * One entry of the schedule as the host delivers it: a loosely typed map
   * whose fields may be absent or of the wrong type, hence every field is
   * optional. `dayOfWeek` is numbered Monday = 1 ... Sunday = 7.
   */
  datatype ScheduleEntry = ScheduleEntry(
    dayOfWeek: Option<int>,
    isEnabled: Option<bool>,
    startTime: Option<string>,
    endTime: Option<string>)

  /** `java.util.Calendar` numbers the week Sunday = 1 ... Saturday = 7. */
  const CalendarSunday: int := 1

  /** The current instant: a `Calendar` weekday and the milliseconds since local midnight. */
  datatype Instant = Instant(calendarDay: int, msOfDay: int) {
    predicate Valid() {
      1 <= calendarDay <= 7 && 0 <= msOfDay < DayMs
    }
  }

  /** Calendar weekday of an ISO weekday (Monday = 1 ... Sunday = 7). */
  function CalendarWeekday(isoDay: int): (c: int)
    requires 1 <= isoDay <= 7
    ensures 1 <= c <= 7
  {
    if isoDay == 7 then CalendarSunday else isoDay + 1
  }

  /** Converts the `Calendar` weekday to Monday = 1 ... Sunday = 7. */
  function IsoWeekday(calendarDay: int): (d: int)
    requires 1 <= calendarDay <= 7
    ensures 1 <= d <= 7
    ensures CalendarWeekday(d) == calendarDay
    ensures d == 7 <==> calendarDay == CalendarSunday
  {
    if calendarDay == CalendarSunday then 7 else calendarDay - 1
  }

  /** The two numberings are in one-to-one correspondence. */
  lemma IsoWeekdayBijective(isoDay: int)
    requires 1 <= isoDay <= 7
    ensures IsoWeekday(CalendarWeekday(isoDay)) == isoDay
  {
  }

  /** An entry is a candidate for `isoDay` when it names that day and is explicitly enabled. */
  predicate MatchesDay(e: ScheduleEntry, isoDay: int) {
    e.dayOfWeek == Some(isoDay) && e.isEnabled == Some(true)
  }

  /** Index of the first entry that is enabled for `isoDay`, if any. */
  function TodayEntryIndex(schedule: seq<ScheduleEntry>, isoDay: int): (r: Option<nat>)
    ensures r.Some? ==> r.value < |schedule| && MatchesDay(schedule[r.value], isoDay)
    ensures r.Some? ==> forall j :: 0 <= j < r.value ==> !MatchesDay(schedule[j], isoDay)
    ensures r.None? <==> forall j :: 0 <= j < |schedule| ==> !MatchesDay(schedule[j], isoDay)
  {
    if |schedule| == 0 then None
    else if MatchesDay(schedule[0], isoDay) then Some(0)
    else
      match TodayEntryIndex(schedule[1..], isoDay)
      case None => None
      case Some(i) => Some(i + 1)
  }

  /**
   * Offset from local midnight of `h:m:00.000`. `Calendar` is lenient, so
   * out-of-range hours and minutes roll into the neighbouring days rather
   * than being rejected.
   */
  function ClockOffset(h: int, m: int): (offsetMs: int)
    ensures 0 <= h < 24 && 0 <= m < 60 ==> 0 <= offsetMs < DayMs
    ensures 0 <= m < 60 ==> offsetMs / (60 * MinuteMs) == h && offsetMs % (60 * MinuteMs) == m * MinuteMs
  {
    (h * 60 + m) * MinuteMs
  }

  /**
   * Parses an "H:M" string into its offset from midnight: exactly two
   * colon-separated parts, each an `Int`. Anything else is `None`.
   */
  function ParseClock(s: string): (r: Option<int>)
    ensures Count(s, ':') != 1 ==> r.None?
  {
    var parts := Split(s, ':');
    if |parts| != 2 then None
    else
      match (ParseInt(parts[0]), ParseInt(parts[1]))
      case (Some(h), Some(m)) => Some(ClockOffset(h, m))
      case _ => None
  }

  /** Renders a wall-clock time as "HH:MM". */
  function FormatClock(h: int, m: int): string
    requires 0 <= h < 100 && 0 <= m < 100
  {
    Pad2(h) + ":" + Pad2(m)
  }

  /** Every well-formed "HH:MM" string parses to its offset from midnight. */
  lemma ParseFormatClock(h: int, m: int)
    requires 0 <= h < 100 && 0 <= m < 100
    ensures ParseClock(FormatClock(h, m)) == Some(ClockOffset(h, m))
  {
    var parts := [Pad2(h), Pad2(m)];
    assert ':' !in Pad2(h) by { assert forall i :: 0 <= i < 2 ==> IsDigit(Pad2(h)[i]); }
    assert ':' !in Pad2(m) by { assert forall i :: 0 <= i < 2 ==> IsDigit(Pad2(m)[i]); }
    assert Join(parts[1..], ':') == Pad2(m);
    assert Join(parts, ':') == FormatClock(h, m);
    SplitJoin(parts, ':');
    ParsePad2(h);
    ParsePad2(m);
  }

  /** The (start, end) offsets of an entry, when both times are present and parse. */
  function EntryBounds(e: ScheduleEntry): (r: Option<(int, int)>)
    ensures r.Some? ==> e.startTime.Some? && e.endTime.Some?
    ensures r.Some? ==> Count(e.startTime.value, ':') == 1 && Count(e.endTime.value, ':') == 1
  {
    if e.startTime.None? || e.endTime.None? then None
    else
      match (ParseClock(e.startTime.value), ParseClock(e.endTime.value))
      case (Some(a), Some(b)) => Some((a, b))
      case _ => None
  }

  /**
   * Whether `nowMs` lies in the window from `startMs` to `endMs`. An end at
   * or before the start is read as a window across midnight: from the start
   * to the end of the day, and from midnight up to the end.
   */
  function InClockWindow(startMs: int, endMs: int, nowMs: int): (inside: bool)
    ensures nowMs == startMs ==> inside
    ensures nowMs == endMs && endMs != startMs ==> !inside
  {
    if endMs <= startMs then nowMs >= startMs || nowMs < endMs
    else startMs <= nowMs < endMs
  }

  /**
   * Whether `now` falls in today's scheduled block. It is only ever true
   * when some enabled entry names today and the first such entry carries
   * two well-formed times; every malformed input yields false.
   */
  function InScheduledBlock(schedule: seq<ScheduleEntry>, now: Instant): (r: bool)
    requires now.Valid()
    ensures r ==> |schedule| > 0
    ensures r ==> TodayEntryIndex(schedule, IsoWeekday(now.calendarDay)).Some?
    ensures r ==> EntryBounds(schedule[TodayEntryIndex(schedule, IsoWeekday(now.calendarDay)).value]).Some?
  {
    if |schedule| == 0 then false
    else
      match TodayEntryIndex(schedule, IsoWeekday(now.calendarDay))
      case None => false
      case Some(i) =>
        match EntryBounds(schedule[i])
        case None => false
        case Some(bounds) => InClockWindow(bounds.0, bounds.1, now.msOfDay)
  }
}
