/**
 * The blocking engine of the background service as a sequential state
 * machine. Every operation is a pure function from the current state to a
 * `Transition`: the next state plus the side effects it asks the host for,
 * in the order it asks for them.
 */
module Engine {
  import opened Wrappers
  import opened Schedule

  /** Period, and first delay, of the deduction timer, and the amount one tick deducts. */
  const TickMs: int := 1000

  /** Commands the engine sends to the host platform. */
  datatype Effect =
    | ShowLock                                 // bring up the lock screen
    | HideLock                                 // broadcast "close the lock screen"
    | Emit(balanceMs: int)                     // report the balance to the app's UI
    | ScheduleTimer(delayMs: int, periodMs: int) // start the periodic deduction timer
    | CancelTimer                              // cancel the deduction timer
    | PostEvaluate                             // queue a re-evaluation on the main loop

  /**
   * The service's in-memory state. `tracked` and `timerActive` together are
   * the deduction session: the app whose use is being charged and whether
   * its periodic timer exists. `balanceMs` is the earned screen time.
   */
  datatype State = State(
    schedule: seq<ScheduleEntry>,
    blockedApps: seq<string>,
    foreground: Option<string>,
    balanceMs: int,
    tracked: Option<string>,
    timerActive: bool)

  datatype Transition = Transition(state: State, effects: seq<Effect>)

  /**
   * The schedule check as it reads at the instant an event is handled:
   * given a schedule, whether the current time is in today's block. The
   * engine consults the clock only through it, and one event is handled
   * at one instant.
   */
  type ScheduleCheck = seq<ScheduleEntry> -> bool

  /** The schedule check at `now`. */
  function CheckAt(now: Instant): ScheduleCheck
    requires now.Valid()
  {
    (schedule: seq<ScheduleEntry>) => InScheduledBlock(schedule, now)
  }

  /** A session names an app exactly when its timer exists. */
  predicate SessionConsistent(s: State) {
    s.tracked.Some? <==> s.timerActive
  }

  /** The configuration, foreground app and balance are the same in both states. */
  predicate SameInputs(s: State, t: State) {
    && t.schedule == s.schedule
    && t.blockedApps == s.blockedApps
    && t.foreground == s.foreground
    && t.balanceMs == s.balanceMs
  }

  /** The state of a freshly created service: nothing configured, nothing tracked. */
  function Init(): (s: State)
    ensures s.schedule == [] && s.blockedApps == [] && s.foreground.None?
    ensures s.balanceMs == 0
    ensures s.tracked.None? && !s.timerActive
  {
    State([], [], None, 0, None, false)
  }

  /** Whether `app` is on the block list, compared by whole package name. */
  predicate IsAppBlocked(blockedApps: seq<string>, app: string) {
    app in blockedApps
  }

  /**
   * Tears down the deduction session: cancels the timer if there is one and
   * forgets the tracked app. Nothing else changes.
   */
  /** The effects of tearing down whatever session there is. */
  function Cancels(s: State): seq<Effect> {
    if s.timerActive then [CancelTimer] else []
  }

  function StopDeduction(s: State): (t: Transition)
    ensures t.state.tracked.None? && !t.state.timerActive
    ensures SameInputs(s, t.state)
    ensures CancelTimer in t.effects <==> s.timerActive
    ensures forall e :: e in t.effects ==> e == CancelTimer
    ensures ShowLock !in t.effects && HideLock !in t.effects && PostEvaluate !in t.effects
  {
    Transition(s.(tracked := None, timerActive := false), Cancels(s))
  }

  /**
   * Starts charging `app`. A no-op when a timer already runs for `app`;
   * otherwise any other session is torn down first, `app` becomes tracked,
   * the current balance is reported and a timer is scheduled whose first
   * tick comes one period from now.
   */
  function StartDeduction(s: State, app: string): (t: Transition)
    ensures t.state.tracked == Some(app) && t.state.timerActive
    ensures SameInputs(s, t.state)
    ensures s.timerActive && s.tracked == Some(app) ==> t.effects == []
    ensures !(s.timerActive && s.tracked == Some(app)) ==>
      |t.effects| >= 2 && t.effects[|t.effects| - 2..] == [Emit(s.balanceMs), ScheduleTimer(TickMs, TickMs)]
    ensures ShowLock !in t.effects && HideLock !in t.effects && PostEvaluate !in t.effects
  {
    if s.timerActive && s.tracked == Some(app) then Transition(s, [])
    else
      var stopped := StopDeduction(s);
      Transition(stopped.state.(tracked := Some(app), timerActive := true),
                 stopped.effects + [Emit(s.balanceMs), ScheduleTimer(TickMs, TickMs)])
  }

  /** The three-way block decision, plus the case where no foreground app is known. */
  datatype Decision =
    | NoForegroundApp
    | Allowed
    | Denied(app: string)
    | Deducting(app: string)

  /**
   * The foreground app is charged when it is on the block list, the
   * schedule is active, and some balance is left; it is denied when the
   * first two hold but the balance is exhausted; otherwise it is allowed.
   */
  function Decide(s: State, inBlock: ScheduleCheck): (d: Decision)
    ensures d.NoForegroundApp? <==> s.foreground.None?
    ensures (d.Denied? || d.Deducting?) ==>
      s.foreground == Some(d.app) && IsAppBlocked(s.blockedApps, d.app) && inBlock(s.schedule)
    ensures d.Deducting? ==> s.balanceMs > 0
    ensures d.Denied? ==> s.balanceMs <= 0
    ensures d.Allowed? ==> !(IsAppBlocked(s.blockedApps, s.foreground.value) && inBlock(s.schedule))
  {
    match s.foreground
    case None => NoForegroundApp
    case Some(app) =>
      if IsAppBlocked(s.blockedApps, app) && inBlock(s.schedule) then
        if s.balanceMs > 0 then Deducting(app) else Denied(app)
      else Allowed
  }

  /**
   * Drives the side effects of the current decision. With no foreground app
   * the session is stopped and the lock screen is left as it is; when
   * charging, the lock is hidden and the session started (or kept); when
   * denied, the session is stopped and the lock shown; when allowed, the
   * lock is hidden and the session stopped.
   */
  function Evaluate(s: State, inBlock: ScheduleCheck): (t: Transition)
    ensures SameInputs(s, t.state)
    ensures SessionConsistent(t.state)
    ensures t.state.tracked == (if Decide(s, inBlock).Deducting? then Some(Decide(s, inBlock).app) else None)
    ensures ShowLock in t.effects <==> Decide(s, inBlock).Denied?
    ensures HideLock in t.effects <==> Decide(s, inBlock).Allowed? || Decide(s, inBlock).Deducting?
    ensures PostEvaluate !in t.effects
  {
    match Decide(s, inBlock)
    case NoForegroundApp => StopDeduction(s)
    case Deducting(app) =>
      var started := StartDeduction(s, app);
      Transition(started.state, [HideLock] + started.effects)
    case Denied(_) =>
      var stopped := StopDeduction(s);
      Transition(stopped.state, stopped.effects + [ShowLock])
    case Allowed =>
      var stopped := StopDeduction(s);
      Transition(stopped.state, [HideLock] + stopped.effects)
  }

  /** The balance after one tick's deduction, never below zero. */
  function Deducted(balanceMs: int): (b: int)
    requires balanceMs > 0
    ensures 0 <= b < balanceMs
    ensures b == 0 <==> balanceMs <= TickMs
    ensures b > 0 ==> b == balanceMs - TickMs
  {
    var d := balanceMs - TickMs;
    if d < 0 then 0 else d
  }

  /**
   * One firing of the deduction timer. A cancelled timer fires no more.
   * If the tracked app is no longer in the foreground, is no longer
   * blocked, or the schedule is no longer active, the session is torn down
   * and a re-evaluation is queued, leaving the balance alone. Otherwise a
   * positive balance loses one tick (floored at zero) and is reported, with
   * a re-evaluation queued when it reaches zero; an exhausted balance tears
   * the session down and queues a re-evaluation.
   */
  function Tick(s: State, inBlock: ScheduleCheck): (t: Transition)
    ensures t.state.schedule == s.schedule && t.state.blockedApps == s.blockedApps
    ensures t.state.foreground == s.foreground
    ensures !s.timerActive ==> t == Transition(s, [])
    ensures t.state.balanceMs == s.balanceMs || (s.balanceMs > 0 && 0 <= t.state.balanceMs < s.balanceMs)
    ensures t.state.balanceMs != s.balanceMs ==> t.state.tracked == s.tracked && t.state.timerActive
    ensures s.timerActive && t.state.balanceMs == s.balanceMs ==> !t.state.timerActive && t.state.tracked.None?
    ensures s.timerActive ==> (PostEvaluate in t.effects <==> !t.state.timerActive || t.state.balanceMs == 0)
    ensures SessionConsistent(s) ==> SessionConsistent(t.state)
  {
    if !s.timerActive then Transition(s, [])
    else if s.foreground != s.tracked
         || !IsAppBlocked(s.blockedApps, s.foreground.GetOr(""))
         || !inBlock(s.schedule) then
      var stopped := StopDeduction(s);
      Transition(stopped.state, stopped.effects + [PostEvaluate])
    else if s.balanceMs > 0 then
      var b := Deducted(s.balanceMs);
      Transition(s.(balanceMs := b), [Emit(b)] + (if b == 0 then [PostEvaluate] else []))
    else
      var stopped := StopDeduction(s);
      Transition(stopped.state, stopped.effects + [PostEvaluate])
  }

  /**
   * A tick followed by the re-evaluation it queued, if any, before any
   * other event is handled.
   */
  function TickStep(s: State, inBlock: ScheduleCheck): (t: Transition)
    ensures t.state.schedule == s.schedule && t.state.blockedApps == s.blockedApps
    ensures t.state.foreground == s.foreground
    ensures t.state.balanceMs == s.balanceMs || (s.balanceMs > 0 && 0 <= t.state.balanceMs < s.balanceMs)
    ensures SessionConsistent(s) ==> SessionConsistent(t.state)
  {
    var ticked := Tick(s, inBlock);
    if PostEvaluate in ticked.effects then
      var evaluated := Evaluate(ticked.state, inBlock);
      Transition(evaluated.state, ticked.effects + evaluated.effects)
    else ticked
  }

  /** The actions the service accepts, with the extras each carries when present. */
  datatype Command =
    | StartService
    | StopService
    | UpdateConfiguration(newSchedule: Option<seq<ScheduleEntry>>, newBlockedApps: Option<seq<string>>)
    | UpdateForegroundApp(app: Option<string>)
    | UpdateScreenTime(balanceMs: Option<int>)
    | Unrecognized

  /** Evaluates only once some configuration has arrived. */
  function EvaluateIfConfigured(s: State, inBlock: ScheduleCheck): (t: Transition)
    ensures SameInputs(s, t.state)
  {
    if |s.schedule| > 0 || |s.blockedApps| > 0 then Evaluate(s, inBlock) else Transition(s, [])
  }

  /**
   * Handles one command. Configuration, foreground app and balance are
   * overwritten, never merged; a foreground update re-evaluates only when
   * the app actually changed; a balance update reports the new balance
   * before re-evaluating (an absent balance reads as 0).
   */
  function Dispatch(s: State, cmd: Command, inBlock: ScheduleCheck): (t: Transition)
    ensures SessionConsistent(s) ==> SessionConsistent(t.state)
    ensures cmd.UpdateConfiguration? ==>
      && t.state.schedule == cmd.newSchedule.GetOr(s.schedule)
      && t.state.blockedApps == cmd.newBlockedApps.GetOr(s.blockedApps)
      && t.state.foreground == s.foreground && t.state.balanceMs == s.balanceMs
    ensures cmd.UpdateForegroundApp? ==>
      && t.state.foreground == cmd.app
      && t.state.schedule == s.schedule && t.state.blockedApps == s.blockedApps
      && t.state.balanceMs == s.balanceMs
    ensures cmd.UpdateForegroundApp? && cmd.app == s.foreground ==> t == Transition(s, [])
    ensures cmd.UpdateForegroundApp? && cmd.app != s.foreground ==> t == Evaluate(s.(foreground := cmd.app), inBlock)
    ensures cmd.UpdateConfiguration? ==> t == Evaluate(t.state.(tracked := s.tracked, timerActive := s.timerActive), inBlock)
    ensures cmd.UpdateScreenTime? ==>
      && t.state.balanceMs == cmd.balanceMs.GetOr(0)
      && |t.effects| > 0 && t.effects[0] == Emit(cmd.balanceMs.GetOr(0))
      && t.state.schedule == s.schedule && t.state.blockedApps == s.blockedApps
      && t.state.foreground == s.foreground
    ensures cmd.UpdateScreenTime? ==>
      var funded := s.(balanceMs := cmd.balanceMs.GetOr(0));
      t == Transition(Evaluate(funded, inBlock).state, [Emit(funded.balanceMs)] + Evaluate(funded, inBlock).effects)
    ensures cmd.StopService? ==> t.state.tracked.None? && !t.state.timerActive && SameInputs(s, t.state)
    ensures (cmd.StartService? || cmd.Unrecognized?) ==> SameInputs(s, t.state)
    ensures (cmd.StartService? || cmd.Unrecognized?) ==> t == EvaluateIfConfigured(s, inBlock)
  {
    match cmd
    case StartService => EvaluateIfConfigured(s, inBlock)
    case Unrecognized => EvaluateIfConfigured(s, inBlock)
    case StopService => StopDeduction(s)
    case UpdateConfiguration(newSchedule, newBlockedApps) =>
      var configured := s.(schedule := newSchedule.GetOr(s.schedule),
                           blockedApps := newBlockedApps.GetOr(s.blockedApps));
      Evaluate(configured, inBlock)
    case UpdateForegroundApp(app) =>
      var moved := s.(foreground := app);
      if s.foreground != app then Evaluate(moved, inBlock) else Transition(moved, [])
    case UpdateScreenTime(balanceMs) =>
      var b := balanceMs.GetOr(0);
      var evaluated := Evaluate(s.(balanceMs := b), inBlock);
      Transition(evaluated.state, [Emit(b)] + evaluated.effects)
  }

  /** Everything that can happen to the service: a command from the app, or a timer firing. */
  datatype Event = Received(cmd: Command) | TimerFired

  /** An event together with the instant at which it is handled. */
  datatype Input = Input(event: Event, at: Instant)

  predicate ValidInputs(inputs: seq<Input>) {
    forall i :: 0 <= i < |inputs| ==> inputs[i].at.Valid()
  }

  /** Handles one event to completion. */
  function Step(s: State, input: Input): (t: Transition)
    requires input.at.Valid()
    ensures SessionConsistent(s) ==> SessionConsistent(t.state)
  {
    match input.event
    case Received(cmd) => Dispatch(s, cmd, CheckAt(input.at))
    case TimerFired => TickStep(s, CheckAt(input.at))
  }

  /** Handles the events in order, collecting every effect. */
  function Run(s: State, inputs: seq<Input>): (t: Transition)
    requires ValidInputs(inputs)
    decreases |inputs|
  {
    if |inputs| == 0 then Transition(s, [])
    else
      var first := Step(s, inputs[0]);
      var rest := Run(first.state, inputs[1..]);
      Transition(rest.state, first.effects + rest.effects)
  }
}
