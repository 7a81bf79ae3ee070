# TaskTime blocking engine, modelled in Dafny

TaskTime's Android background service decides from moment to moment whether
the app in the foreground may be used. An app is subject to blocking when it
is on the block list and the current time falls inside today's scheduled
block. Such an app is then either charged against the user's earned screen
time, one second per second of use, or locked out when no earned time is
left. This project models that engine: the schedule-window matcher, the
block decision, the deduction session with its one-second timer, and the
handling of the commands the app sends to the service. It proves the
properties the service relies on.

The model is functional. `Engine.State` holds the schedule, the block list,
the foreground app, the balance in milliseconds, and the deduction session:
the tracked app and whether its timer exists. Every operation returns a
`Transition`: the next state plus the ordered list of effects it asks the
platform for. The effects are showing or hiding the lock screen, reporting
the balance, scheduling or cancelling the timer, and posting a
re-evaluation to the main loop.

Files:
- `wrappers.dfy`: `Option`, standing in for Kotlin's nullable values.
- `text.dfy`: Kotlin's `split(":")` (empty parts kept) and `toInt()`, with round-trip lemmas.
- `schedule.dfy`: schedule entries, weekday numbering, first-match entry selection, "HH:MM" parsing, and the window check.
- `schedule_properties.dfy`: all-inputs lemmas about the matcher.
- `engine.dfy`: state, effects, the start and stop discipline, the decision, evaluation, the timer tick, command dispatch, and the event loop.
- `engine_properties.dfy`: all-inputs lemmas about the engine.
- `scenarios.dfy`: concrete situations worked through the model.

How the platform is abstracted:
- "Now" is `Schedule.Instant`: the `Calendar` weekday (Sunday = 1) plus the milliseconds since local midnight.
- The engine reads the clock only through `Engine.ScheduleCheck`. This is the matcher evaluated at the instant the event is handled: `Engine.CheckAt(now)`. `Engine.Step` supplies it for each event.
- The timer is the `timerActive` flag. Each firing is an explicit `TimerFired` event.
- `handler.post { evaluateCurrentState() }` becomes a `PostEvaluate` effect. `Engine.TickStep` runs that evaluation right after the tick, at the same instant. `EngineProperties.Ticks` takes one schedule check per firing, so each firing can see the schedule at its own instant; `Scenarios.MondayTickChecks` supplies instants one second apart, the first one period after the timer is scheduled.

## Model

| member | source | states |
|---|---|---|
| Text.Split | android/app/src/main/java/com/tasktime/app/BackgroundService.kt:197-199 | there is exactly one more part than there are colons, so "exactly two parts" means "exactly one colon" |
| Text.SplitPartsFree | android/app/src/main/java/com/tasktime/app/BackgroundService.kt:197-198 | no part produced by the split contains the separator |
| Text.JoinSplit | android/app/src/main/java/com/tasktime/app/BackgroundService.kt:197-198 | joining the parts with the separator gives back the original string, so the split loses nothing |
| Text.SplitJoin | android/app/src/main/java/com/tasktime/app/BackgroundService.kt:197-199 | splitting a join of separator-free parts gives back exactly those parts |
| Text.ParseInt | android/app/src/main/java/com/tasktime/app/BackgroundService.kt:203-206 | `toInt` accepts only an optional sign followed by at least one digit, with a value in the 32-bit Int range; non-negative unless the sign is '-' |
| Text.ParseFormatInt | android/app/src/main/java/com/tasktime/app/BackgroundService.kt:203-206 | every Int is read back from its decimal rendering |
| Text.ParsePad2 | android/app/src/main/java/com/tasktime/app/BackgroundService.kt:203-206 | a zero-padded two-digit field such as "09" is read as its value |
| Text.ParseIntRejectsNonDigit | android/app/src/main/java/com/tasktime/app/BackgroundService.kt:267-270 | a non-digit after the first character makes the parse fail, which the source turns into "not in a block" |
| Schedule.IsoWeekday | android/app/src/main/java/com/tasktime/app/BackgroundService.kt:176-177 | Calendar's Sunday (1) becomes 7 and every other day shifts down by one; the result is in 1..7 and maps back to the Calendar day |
| Schedule.IsoWeekdayBijective | android/app/src/main/java/com/tasktime/app/BackgroundService.kt:176-177 | the weekday conversion is one-to-one on 1..7 |
| Schedule.TodayEntryIndex | android/app/src/main/java/com/tasktime/app/BackgroundService.kt:179-181 | finds the first entry that names today and is explicitly enabled; returns none exactly when no entry qualifies |
| Schedule.ParseClock | android/app/src/main/java/com/tasktime/app/BackgroundService.kt:197-202 | a time that does not have exactly one colon never parses |
| Schedule.ClockOffset | android/app/src/main/java/com/tasktime/app/BackgroundService.kt:208-223 | for an hour in 0..23 and a minute in 0..59 the offset lies within one day, and for any minute in 0..59 the hour and minute can be read back from it |
| Schedule.ParseFormatClock | android/app/src/main/java/com/tasktime/app/BackgroundService.kt:197-219 | every "HH:MM" string parses to (H*60+M) minutes after midnight, in milliseconds |
| Schedule.EntryBounds | android/app/src/main/java/com/tasktime/app/BackgroundService.kt:188-206 | an entry has bounds only when both times are present and each has exactly one colon |
| Schedule.InClockWindow | android/app/src/main/java/com/tasktime/app/BackgroundService.kt:225-265 | the start instant is always inside the window, and the end instant is outside unless start and end coincide |
| Schedule.InScheduledBlock | android/app/src/main/java/com/tasktime/app/BackgroundService.kt:169-273 | true only when the schedule is non-empty, some enabled entry names today, and the first such entry has two well-formed times |
| ScheduleProperties.ClockWindowIsArc | android/app/src/main/java/com/tasktime/app/BackgroundService.kt:225-265 | for bounds within one day, the window matches the arc of the 24-hour dial from start to end, in both directions; equal bounds give the full dial |
| ScheduleProperties.SameDayWindow | android/app/src/main/java/com/tasktime/app/BackgroundService.kt:261-265 | when end > start, the window is start-inclusive and end-exclusive |
| ScheduleProperties.OvernightWindow | android/app/src/main/java/com/tasktime/app/BackgroundService.kt:225-231 | when end <= start, the window is "at or after start, or before end" |
| ScheduleProperties.EqualBoundsCoverWholeDay | android/app/src/main/java/com/tasktime/app/BackgroundService.kt:225-231 | start == end puts the whole day in the window |
| ScheduleProperties.EmptyScheduleNeverBlocks | android/app/src/main/java/com/tasktime/app/BackgroundService.kt:170-173 | an empty schedule is never in a block |
| ScheduleProperties.FirstEntryDecides | android/app/src/main/java/com/tasktime/app/BackgroundService.kt:183-231 | the result is decided by today's first enabled entry alone: false if its times are malformed, otherwise its window |
| ScheduleProperties.MalformedEntryFailsClosed | android/app/src/main/java/com/tasktime/app/BackgroundService.kt:188-206 | any of these yields "not in a block" without an error: a missing time, a wrong number of colon-separated parts, or a part that is not an Int |
| ScheduleProperties.TodayEntryStableUnderAppend | android/app/src/main/java/com/tasktime/app/BackgroundService.kt:179-181 | appending entries does not change which entry is first for a day that already has one |
| ScheduleProperties.LaterEntriesIgnored | android/app/src/main/java/com/tasktime/app/BackgroundService.kt:179-186 | entries after today's first enabled entry never change the result, even when that entry is malformed |
| ScheduleProperties.IrrelevantEntryIgnored | android/app/src/main/java/com/tasktime/app/BackgroundService.kt:179-181 | an entry for another day, or one that is not explicitly enabled, has no influence |
| Engine.Init | android/app/src/main/java/com/tasktime/app/BackgroundService.kt:44-51 | the service starts with an empty schedule, an empty block list, no known foreground app, a zero balance, and no tracked app or timer |
| Engine.StopDeduction | android/app/src/main/java/com/tasktime/app/BackgroundService.kt:335-347 | afterwards there is no tracked app and no timer; a cancel is issued exactly when a timer existed; nothing else changes |
| Engine.StartDeduction | android/app/src/main/java/com/tasktime/app/BackgroundService.kt:294-306 | afterwards the app is tracked with a timer running; it is a no-op if that app's timer already runs; otherwise the last effects report the balance and schedule a 1000 ms delay / 1000 ms period timer |
| Engine.Decide | android/app/src/main/java/com/tasktime/app/BackgroundService.kt:139-158 | the app is charged only when blocked, inside the window, and the balance is positive; denied when blocked and inside the window with balance <= 0; otherwise allowed |
| Engine.Evaluate | android/app/src/main/java/com/tasktime/app/BackgroundService.kt:128-159 | the session afterwards is the charged app's session or none; the lock is shown exactly when denied and hidden exactly when allowed or charged; it changes no input and never posts a re-evaluation |
| Engine.Deducted | android/app/src/main/java/com/tasktime/app/BackgroundService.kt:315-317 | one tick lowers a positive balance by 1000 ms, floored at 0; the result is 0 exactly when at most 1000 ms were left |
| Engine.Tick | android/app/src/main/java/com/tasktime/app/BackgroundService.kt:307-331 | a cancelled timer does nothing; the balance either stays or drops but never goes below 0; a drop keeps the session; an unchanged balance ends it; a re-evaluation is posted exactly when the session ended or the balance hit 0 |
| Engine.TickStep | android/app/src/main/java/com/tasktime/app/BackgroundService.kt:307-331 | a tick plus its posted evaluation keeps the configuration and foreground app, never raises the balance, and keeps the session consistent |
| EngineProperties.StartLikeConfigurationResend | android/app/src/main/java/com/tasktime/app/BackgroundService.kt:70-102 | on a configured service a start command does exactly what re-sending the configuration without changes does; before any configuration it does nothing; an unrecognised command behaves like a start |
| Engine.Dispatch | android/app/src/main/java/com/tasktime/app/BackgroundService.kt:66-126 | configuration, foreground app and balance are replaced, never merged, and a configuration update always evaluates; a changed foreground app is evaluated and an unchanged one is a complete no-op; a balance update reports the new balance first (absent means 0) and then evaluates with it, so new time can unlock a denied app; a start or unrecognised command goes through the configured-only evaluation; a stop command ends the session |
| Engine.Step | android/app/src/main/java/com/tasktime/app/BackgroundService.kt:66-126 | every event keeps the session consistent: a tracked app exactly when a timer exists |
| EngineProperties.StopIdempotent | android/app/src/main/java/com/tasktime/app/BackgroundService.kt:335-347 | stopping twice equals stopping once and issues nothing the second time |
| EngineProperties.StartIdempotent | android/app/src/main/java/com/tasktime/app/BackgroundService.kt:295-298 | starting the session that is already running is a no-op |
| EngineProperties.StartReplacesSession | android/app/src/main/java/com/tasktime/app/BackgroundService.kt:299-306 | starting for a new app cancels the old timer, then reports the balance, then schedules the new timer; only the new app is tracked |
| EngineProperties.EvaluateWithoutForegroundApp | android/app/src/main/java/com/tasktime/app/BackgroundService.kt:132-136 | with no foreground app, evaluation only ends the session and leaves the lock screen alone |
| EngineProperties.EvaluateAllowed | android/app/src/main/java/com/tasktime/app/BackgroundService.kt:154-158 | an allowed app: hide the lock, then end the session |
| EngineProperties.EvaluateDenied | android/app/src/main/java/com/tasktime/app/BackgroundService.kt:149-153 | a denied app: end the session, then show the lock |
| EngineProperties.EvaluateDeducting | android/app/src/main/java/com/tasktime/app/BackgroundService.kt:144-148 | a charged app: hide the lock, then start its session, or only hide the lock when that session is already running |
| EngineProperties.EvaluateIdempotent | android/app/src/main/java/com/tasktime/app/BackgroundService.kt:128-159 | a second evaluation with nothing changed leaves the state alone and re-issues only the same lock command; nothing is restarted or reported |
| EngineProperties.EvaluateStateFollowsInputs | android/app/src/main/java/com/tasktime/app/BackgroundService.kt:128-159 | the state left by an evaluation depends only on the configuration, foreground app and balance, not on the old session |
| EngineProperties.EvaluateEmitsOnlyOnStart | android/app/src/main/java/com/tasktime/app/BackgroundService.kt:300-303 | an evaluation reports the balance only when it starts a new session, and then it reports the current balance |
| EngineProperties.StartEmitsCurrentBalance | android/app/src/main/java/com/tasktime/app/BackgroundService.kt:302-303 | starting a session reports only the balance as it stands |
| EngineProperties.EvaluateEmitsCurrentBalance | android/app/src/main/java/com/tasktime/app/BackgroundService.kt:128-159 | whatever the session, an evaluation reports only the current balance |
| EngineProperties.TickDeductsIffStillDeducting | android/app/src/main/java/com/tasktime/app/BackgroundService.kt:308-319 | a tick charges the balance if and only if a fresh decision would still charge the tracked app |
| EngineProperties.NonDeductingTickReevaluates | android/app/src/main/java/com/tasktime/app/BackgroundService.kt:308-313 | a tick that does not charge cancels the timer and posts a re-evaluation; the engine ends where a fresh evaluation would, with the balance untouched |
| EngineProperties.ExhaustingTickLocks | android/app/src/main/java/com/tasktime/app/BackgroundService.kt:315-325 | the tick that uses up the last second reports 0; the evaluation it posts ends the session and shows the lock |
| EngineProperties.DeductingTick | android/app/src/main/java/com/tasktime/app/BackgroundService.kt:315-320 | while the conditions hold and more than a second is left, a tick takes off exactly 1000 ms and reports the rest |
| EngineProperties.CountdownByWholeTicks | android/app/src/main/java/com/tasktime/app/BackgroundService.kt:315-319 | with one schedule check per tick, each still placing the schedule in a block, n ticks take off exactly n seconds while more than n seconds remain |
| EngineProperties.CountdownEndsInLock | android/app/src/main/java/com/tasktime/app/BackgroundService.kt:315-325 | with one schedule check per tick, each still placing the schedule in a block, and a balance of more than n-1 but at most n seconds, n ticks bring the balance to 0 (the last through the clamp), end the session and show the lock |
| EngineProperties.UnlistedAppAllowed | android/app/src/main/java/com/tasktime/app/BackgroundService.kt:139-167 | an app that is not on the block list is allowed whatever the schedule and balance: evaluating hides the lock and leaves no session running |
| EngineProperties.EmptyScheduleAllows | android/app/src/main/java/com/tasktime/app/BackgroundService.kt:139-158 | with no schedule, every foreground app is allowed |
| EngineProperties.ScreenTimeUpdateKeepsSession | android/app/src/main/java/com/tasktime/app/BackgroundService.kt:112-117 | re-sending a positive balance while the foreground app is being charged reports it and hides the lock, but does not restart the timer |
| EngineProperties.ForegroundLostStopsSession | android/app/src/main/java/com/tasktime/app/BackgroundService.kt:104-111 | when the foreground app becomes unknown mid-session, only the timer is cancelled: no report and no lock command |
| EngineProperties.UnblockingStopsSession | android/app/src/main/java/com/tasktime/app/BackgroundService.kt:94-102 | taking the charged app off the block list ends its session at once: hide the lock, then cancel the timer |
| EngineProperties.RunKeepsSessionConsistent | android/app/src/main/java/com/tasktime/app/BackgroundService.kt:50-51 | over any sequence of events, a tracked app exists exactly when a timer exists, so at most one app is ever charged |
| EngineProperties.DispatchBalanceNonNegative | android/app/src/main/java/com/tasktime/app/BackgroundService.kt:112-117 | a command with a non-negative balance keeps the balance non-negative and reports only non-negative values |
| EngineProperties.TickStepBalanceNonNegative | android/app/src/main/java/com/tasktime/app/BackgroundService.kt:315-319 | a tick never makes the balance negative and reports only non-negative values |
| EngineProperties.StepBalanceNonNegative | android/app/src/main/java/com/tasktime/app/BackgroundService.kt:112-117 | one event keeps the balance and every reported value non-negative |
| EngineProperties.RunBalanceNonNegative | android/app/src/main/java/com/tasktime/app/BackgroundService.kt:313-319 | if the app only ever sends non-negative balances, the balance and every reported value stay non-negative forever |
| Scenarios.MondayNightBounds | android/app/src/main/java/com/tasktime/app/BackgroundService.kt:197-223 | "22:00" and "02:00" parse to 22 h and 2 h after midnight |
| Scenarios.OvernightEntryOnItsDay | android/app/src/main/java/com/tasktime/app/BackgroundService.kt:225-231 | a Monday 22:00-02:00 entry blocks Monday 23:00 and Monday 01:00, but not Monday noon |
| Scenarios.MondayEveningBlocked | android/app/src/main/java/com/tasktime/app/BackgroundService.kt:225-231 | the Monday 22:00-02:00 entry blocks every instant of Monday from 22:00 to midnight |
| Scenarios.OvernightEntryNotNextMorning | android/app/src/main/java/com/tasktime/app/BackgroundService.kt:179-186 | the same entry does not block Tuesday 01:00: each day's early morning is governed by that day's own entry |
| Scenarios.MalformedFirstEntryWins | android/app/src/main/java/com/tasktime/app/BackgroundService.kt:179-202 | a malformed first Monday entry hides a later Monday entry that would block all day |
| Scenarios.ConfigureAndFund | android/app/src/main/java/com/tasktime/app/BackgroundService.kt:86-117 | with no foreground app known yet, configuring and funding start nothing; funding reports the balance |
| Scenarios.LaunchGame | android/app/src/main/java/com/tasktime/app/BackgroundService.kt:104-110 | opening the blocked game inside the window with 5000 ms earned hides the lock, reports 5000, and schedules the timer |
| Scenarios.MondayNightCountdown | android/app/src/main/java/com/tasktime/app/BackgroundService.kt:307-325 | Monday 23:00 with 5000 ms earned: opening the game starts charging it, and five ticks, the first one second after the launch and each next one a second later, use up the balance, end the session and show the lock |

## Behaviour that differs from an idealised reading

The model follows the code in each of these cases:
- With no foreground app, evaluation only ends the session. It does not hide the lock screen (BackgroundService.kt:132-136).
- Evaluation is not free of repeated effects. Each call issues its lock command again: hide when allowed or charged, show when denied. Only the session commands are idempotent (`EvaluateIdempotent`).
- Removing the charged app from the block list stops the session immediately. The configuration update evaluates at once, before the next tick (BackgroundService.kt:102).
- An overnight entry covers the evening of its own day and the early morning of that same day, not of the next day. Blocking Tuesday 00:00-02:00 needs an enabled Tuesday entry.

## Left out

- Service lifecycle and plumbing. This covers `onCreate`, the notification channel and notification, `onBind`, `onDestroy`, `START_STICKY`/`START_NOT_STICKY`, and reading values out of the intent. The stop command is modelled only as ending the deduction session.
- The daily reset check (`scheduleDailyResetCheck`, `lastResetCheckDate`, `dailyResetTimer`). The service references it, but its definition is not part of this model.
- Blocked website hosts: they are stored but no decision reads them.
- Real concurrency: the timer thread racing the main looper, and ticks still in flight after `cancel()`. A tick is one atomic step, a cancelled timer never fires, and the posted evaluation runs before any other event.
- Clock details: time zones, daylight-saving transitions, and the separate `Calendar.getInstance()` calls, which could fall on different days. The dead `endMillis += 24h` (line 226) and the redundant second overnight check (lines 245-259) are not modelled. Whenever that second check holds, the check at line 228 already holds.
- Text.ParseInt: accepts only ASCII digits. `Integer.parseInt` also accepts other Unicode decimal digits.
- Schedule.ScheduleEntry: `dayOfWeek` is taken as already converted by `Number.toInt()`. Truncation of fractional or 64-bit values is not modelled.
- The balance is an unbounded integer, not a 64-bit `Long`. The engine subtracts only from a positive balance, so no wrap-around can occur.
- Delivery of reported balances to the Flutter sink, logging, and the lock-screen activity and its broadcast receiver. Showing, hiding and reporting are opaque effects.
- The other source files (UsageStatsModule, OverlayModule, MyAccessibilityService, MainActivity, LockScreenActivity): permission, settings and channel wrappers outside the engine.
