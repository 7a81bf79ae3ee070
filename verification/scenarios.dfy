/** Concrete situations, worked through the model. */
module Scenarios {
  import opened Wrappers
  import opened Text
  import opened Schedule
  import opened ScheduleProperties
  import opened Engine
  import opened EngineProperties

  const Game: string := "com.example.game"
  const HourMs: int := 60 * MinuteMs

  /** `Calendar` weekday numbers used below. */
  const CalendarMonday: int := 2
  const CalendarTuesday: int := 3

  /** An enabled Monday entry from 22:00 to 02:00. */
  function MondayNight(): ScheduleEntry {
    ScheduleEntry(Some(1), Some(true), Some("22:00"), Some("02:00"))
  }

  lemma MondayNightBounds()
    ensures EntryBounds(MondayNight()) == Some((22 * HourMs, 2 * HourMs))
  {
    assert DigitChar(0) == '0' && DigitChar(2) == '2';
    assert FormatClock(22, 0) == "22:00";
    assert FormatClock(2, 0) == "02:00";
    ParseFormatClock(22, 0);
    ParseFormatClock(2, 0);
  }

  /** The overnight entry blocks Monday from 22:00, and Monday before 02:00. */
  lemma OvernightEntryOnItsDay()
    ensures InScheduledBlock([MondayNight()], Instant(CalendarMonday, 23 * HourMs))
    ensures InScheduledBlock([MondayNight()], Instant(CalendarMonday, 1 * HourMs))
    ensures !InScheduledBlock([MondayNight()], Instant(CalendarMonday, 12 * HourMs))
  {
    MondayNightBounds();
    assert IsoWeekday(CalendarMonday) == 1;
    assert TodayEntryIndex([MondayNight()], 1) == Some(0);
  }

  /**
   * It does not block Tuesday before 02:00: the early-morning part of a day
   * is governed by that day's own entry, not by the previous evening's.
   */
  lemma OvernightEntryNotNextMorning()
    ensures !InScheduledBlock([MondayNight()], Instant(CalendarTuesday, 1 * HourMs))
  {
    assert IsoWeekday(CalendarTuesday) == 2;
    assert TodayEntryIndex([MondayNight()], 2) == None;
  }

  /**
   * A malformed first Monday entry hides a later Monday entry that would
   * block all day.
   */
  lemma MalformedFirstEntryWins()
    ensures !InScheduledBlock(
      [ScheduleEntry(Some(1), Some(true), Some("22"), Some("02:00")),
       ScheduleEntry(Some(1), Some(true), Some("00:00"), Some("00:00"))],
      Instant(CalendarMonday, 23 * HourMs))
  {
    assert Count("22", ':') == 0;
  }

  /** Configured for Monday nights with the game blocked; nothing else known yet. */
  function Configured(): State {
    State([MondayNight()], [Game], None, 0, None, false)
  }

  /** Before any foreground app is known, configuration and balance updates start nothing. */
  lemma ConfigureAndFund(inBlock: ScheduleCheck)
    ensures Dispatch(Init(), UpdateConfiguration(Some([MondayNight()]), Some([Game])), inBlock)
      == Transition(Configured(), [])
    ensures Dispatch(Configured(), UpdateScreenTime(Some(5000)), inBlock)
      == Transition(Configured().(balanceMs := 5000), [Emit(5000)])
  {
    assert Decide(Configured(), inBlock) == NoForegroundApp;
    assert Decide(Configured().(balanceMs := 5000), inBlock) == NoForegroundApp;
  }

  /** Opening the blocked game inside the window with balance left starts charging it. */
  lemma LaunchGame(inBlock: ScheduleCheck)
    requires inBlock([MondayNight()])
    ensures Dispatch(Configured().(balanceMs := 5000), UpdateForegroundApp(Some(Game)), inBlock)
      == Transition(Configured().(balanceMs := 5000, foreground := Some(Game), tracked := Some(Game), timerActive := true),
                    [HideLock, Emit(5000), ScheduleTimer(TickMs, TickMs)])
  {
    var moved := Configured().(balanceMs := 5000, foreground := Some(Game));
    assert Decide(moved, inBlock) == Deducting(Game);
    StartReplacesSession(moved, Game);
  }

  /** The overnight entry blocks all of Monday evening from 22:00 to midnight. */
  lemma MondayEveningBlocked(msOfDay: int)
    requires 22 * HourMs <= msOfDay < DayMs
    ensures InScheduledBlock([MondayNight()], Instant(CalendarMonday, msOfDay))
  {
    MondayNightBounds();
    assert IsoWeekday(CalendarMonday) == 1;
    assert TodayEntryIndex([MondayNight()], 1) == Some(0);
  }

  /**
   * The schedule checks of `n` ticks of a timer scheduled at Monday 23:00:
   * the first fires one period later, each next one a period after that.
   */
  function MondayTickChecks(n: nat): (checks: seq<ScheduleCheck>)
    requires n < 3600
    ensures |checks| == n
  {
    seq(n, k requires 0 <= k < n => CheckAt(Instant(CalendarMonday, 23 * HourMs + (k + 1) * TickMs)))
  }

  /** The game being charged with 5000 ms left. */
  function Charging(): State {
    Configured().(balanceMs := 5000, foreground := Some(Game), tracked := Some(Game), timerActive := true)
  }

  /** Every one of five ticks from Monday 23:00 still falls in the block. */
  lemma ChargingThroughMondayTicks()
    ensures ChargingThroughout(Charging(), MondayTickChecks(5))
  {
    var checks := MondayTickChecks(5);
    forall k | 0 <= k < |checks|
      ensures checks[k](Charging().schedule)
    {
      assert checks[k] == CheckAt(Instant(CalendarMonday, 23 * HourMs + (k + 1) * TickMs));
      MondayEveningBlocked(23 * HourMs + (k + 1) * TickMs);
    }
  }

  /**
   * Monday 23:00, the game blocked, 5000 ms earned: opening the game starts
   * charging it; five ticks later, one second apart, the balance is gone,
   * the session ended and the lock screen shown.
   */
  lemma MondayNightCountdown()
    ensures Dispatch(Configured().(balanceMs := 5000), UpdateForegroundApp(Some(Game)),
                     CheckAt(Instant(CalendarMonday, 23 * HourMs))).state == Charging()
    ensures Ticks(Charging(), MondayTickChecks(5)).state == Charging().(balanceMs := 0, tracked := None, timerActive := false)
    ensures ShowLock in Ticks(Charging(), MondayTickChecks(5)).effects
  {
    var inBlock := CheckAt(Instant(CalendarMonday, 23 * HourMs));
    OvernightEntryOnItsDay();
    assert inBlock([MondayNight()]);
    LaunchGame(inBlock);
    ChargingThroughMondayTicks();
    CountdownEndsInLock(Charging(), MondayTickChecks(5));
  }
}
