/** What the blocking engine promises, stated over all states and inputs. */
module EngineProperties {
  import opened Wrappers
  import opened Schedule
  import opened Engine

  /** Stopping twice is the same as stopping once. */
  lemma StopIdempotent(s: State)
    ensures StopDeduction(StopDeduction(s).state) == Transition(StopDeduction(s).state, [])
  {
  }

  /** Starting the session already running is a no-op. */
  lemma StartIdempotent(s: State, app: string)
    ensures StartDeduction(StartDeduction(s, app).state, app) == Transition(StartDeduction(s, app).state, [])
  {
  }

  /**
   * Starting a session for a new app cancels the old timer first, reports
   * the balance, then schedules the new timer: at most one app is ever
   * tracked.
   */
  lemma StartReplacesSession(s: State, app: string)
    requires SessionConsistent(s)
    requires s.tracked != Some(app)
    ensures StartDeduction(s, app).effects
      == Cancels(s) + [Emit(s.balanceMs), ScheduleTimer(TickMs, TickMs)]
    ensures StartDeduction(s, app).state == s.(tracked := Some(app), timerActive := true)
  {
  }

  /** With no foreground app, an evaluation only tears down the session; the lock screen is left alone. */
  lemma EvaluateWithoutForegroundApp(s: State, inBlock: ScheduleCheck)
    requires s.foreground.None?
    ensures Evaluate(s, inBlock) == Transition(s.(tracked := None, timerActive := false), Cancels(s))
  {
  }

  /** An allowed app: hide the lock, then tear down the session. */
  lemma EvaluateAllowed(s: State, inBlock: ScheduleCheck)
    requires Decide(s, inBlock).Allowed?
    ensures Evaluate(s, inBlock) == Transition(s.(tracked := None, timerActive := false), [HideLock] + Cancels(s))
  {
  }

  /** A denied app: tear down the session, then show the lock. */
  lemma EvaluateDenied(s: State, inBlock: ScheduleCheck)
    requires Decide(s, inBlock).Denied?
    ensures Evaluate(s, inBlock) == Transition(s.(tracked := None, timerActive := false), Cancels(s) + [ShowLock])
  {
  }

  /**
   * A charged app: hide the lock, then start its session, unless that
   * session is already running, in which case only the lock is hidden.
   */
  lemma EvaluateDeducting(s: State, inBlock: ScheduleCheck)
    requires SessionConsistent(s)
    requires Decide(s, inBlock).Deducting?
    ensures s.tracked == Some(Decide(s, inBlock).app) ==> Evaluate(s, inBlock) == Transition(s, [HideLock])
    ensures s.tracked != Some(Decide(s, inBlock).app) ==>
      Evaluate(s, inBlock) == Transition(s.(tracked := Some(Decide(s, inBlock).app), timerActive := true),
        [HideLock] + Cancels(s) + [Emit(s.balanceMs), ScheduleTimer(TickMs, TickMs)])
  {
    var app := Decide(s, inBlock).app;
    if s.tracked != Some(app) {
      StartReplacesSession(s, app);
    }
  }

  /**
   * Evaluating again with nothing changed leaves the state alone and
   * re-issues only the lock-screen command of the same decision; the
   * session is neither restarted nor stopped and no balance is reported.
   */
  lemma EvaluateIdempotent(s: State, inBlock: ScheduleCheck)
    ensures Evaluate(Evaluate(s, inBlock).state, inBlock).state == Evaluate(s, inBlock).state
    ensures Evaluate(Evaluate(s, inBlock).state, inBlock).effects ==
      match Decide(s, inBlock)
      case NoForegroundApp => []
      case Denied(_) => [ShowLock]
      case _ => [HideLock]
  {
    var t := Evaluate(s, inBlock).state;
    EvaluateStateFollowsInputs(s, t, inBlock);
    match Decide(s, inBlock)
    case NoForegroundApp =>
      EvaluateWithoutForegroundApp(t, inBlock);
    case Allowed =>
      EvaluateAllowed(t, inBlock);
    case Denied(_) =>
      EvaluateDenied(t, inBlock);
    case Deducting(_) =>
      EvaluateDeducting(t, inBlock);
  }

  /**
   * A tick charges the balance exactly when a fresh decision would still
   * charge the tracked app.
   */
  lemma TickDeductsIffStillDeducting(s: State, inBlock: ScheduleCheck)
    requires SessionConsistent(s) && s.timerActive
    ensures Tick(s, inBlock).state.balanceMs < s.balanceMs <==> Decide(s, inBlock) == Deducting(s.tracked.value)
  {
  }

  /**
   * A tick that does not charge leaves the engine exactly where a fresh
   * evaluation would, with the balance untouched.
   */
  lemma NonDeductingTickReevaluates(s: State, inBlock: ScheduleCheck)
    requires SessionConsistent(s) && s.timerActive
    requires Decide(s, inBlock) != Deducting(s.tracked.value)
    ensures TickStep(s, inBlock).state == Evaluate(s, inBlock).state
    ensures TickStep(s, inBlock).state.balanceMs == s.balanceMs
    ensures TickStep(s, inBlock).effects == [CancelTimer, PostEvaluate] + Evaluate(StopDeduction(s).state, inBlock).effects
  {
    var stopped := StopDeduction(s).state;
    assert Tick(s, inBlock) == Transition(stopped, [CancelTimer, PostEvaluate]);
    EvaluateStateFollowsInputs(s, stopped, inBlock);
  }

  /** The state an evaluation leaves behind depends only on the inputs, not on the old session. */
  lemma EvaluateStateFollowsInputs(s: State, u: State, inBlock: ScheduleCheck)
    requires SameInputs(s, u)
    ensures Evaluate(s, inBlock).state == Evaluate(u, inBlock).state
    ensures Decide(s, inBlock) == Decide(u, inBlock)
  {
    assert Decide(s, inBlock) == Decide(u, inBlock);
  }

  /**
   * The last second of balance: the tick reports 0, and the evaluation it
   * queues stops the session and shows the lock screen.
   */
  lemma ExhaustingTickLocks(s: State, inBlock: ScheduleCheck)
    requires SessionConsistent(s) && s.timerActive
    requires Decide(s, inBlock) == Deducting(s.tracked.value)
    requires s.balanceMs <= TickMs
    ensures TickStep(s, inBlock).state == s.(balanceMs := 0, tracked := None, timerActive := false)
    ensures TickStep(s, inBlock).effects == [Emit(0), PostEvaluate, CancelTimer, ShowLock]
  {
    var ticked := Tick(s, inBlock).state;
    assert ticked == s.(balanceMs := 0);
    assert Decide(ticked, inBlock) == Denied(s.tracked.value);
  }

  /**
   * While the conditions hold and more than one second is left, a tick
   * takes off one second, reports the rest and changes nothing else.
   */
  lemma DeductingTick(s: State, inBlock: ScheduleCheck)
    requires SessionConsistent(s) && s.timerActive
    requires Decide(s, inBlock) == Deducting(s.tracked.value)
    requires s.balanceMs > TickMs
    ensures TickStep(s, inBlock) == Transition(s.(balanceMs := s.balanceMs - TickMs), [Emit(s.balanceMs - TickMs)])
    ensures Decide(TickStep(s, inBlock).state, inBlock) == Deducting(s.tracked.value)
  {
    assert Tick(s, inBlock) == Transition(s.(balanceMs := s.balanceMs - TickMs), [Emit(s.balanceMs - TickMs)]);
  }

  /**
   * Timer firings in a row, one per schedule check: each firing sees the
   * schedule through its own check.
   */
  function Ticks(s: State, checks: seq<ScheduleCheck>): (t: Transition)
    ensures t.state.balanceMs <= s.balanceMs
    decreases |checks|
  {
    if |checks| == 0 then Transition(s, [])
    else
      var first := TickStep(s, checks[0]);
      var rest := Ticks(first.state, checks[1..]);
      Transition(rest.state, first.effects + rest.effects)
  }

  /**
   * The foreground app is being charged, it stays on the block list, and
   * every one of the given checks still places the schedule in a block.
   */
  predicate ChargingThroughout(s: State, checks: seq<ScheduleCheck>) {
    && SessionConsistent(s) && s.timerActive
    && s.foreground == s.tracked
    && IsAppBlocked(s.blockedApps, s.tracked.value)
    && forall k :: 0 <= k < |checks| ==> checks[k](s.schedule)
  }

  /** Only the balance changes from one tick to the next, so the conditions carry over. */
  lemma ChargingCarriesOver(s: State, checks: seq<ScheduleCheck>, balanceMs: int)
    requires |checks| > 0 && ChargingThroughout(s, checks)
    ensures ChargingThroughout(s.(balanceMs := balanceMs), checks[1..])
    ensures checks[0](s.schedule)
  {
    assert forall k :: 0 <= k < |checks| - 1 ==> checks[1..][k] == checks[k + 1];
  }

  /**
   * While the conditions hold at every tick and more than one second per
   * tick remains, the ticks take off exactly one second each and keep the
   * session.
   */
  lemma {:induction false} CountdownByWholeTicks(s: State, checks: seq<ScheduleCheck>)
    requires ChargingThroughout(s, checks)
    requires s.balanceMs > |checks| * TickMs
    ensures Ticks(s, checks).state == s.(balanceMs := s.balanceMs - |checks| * TickMs)
    decreases |checks|
  {
    if |checks| > 0 {
      ChargingCarriesOver(s, checks, s.balanceMs - TickMs);
      assert Decide(s, checks[0]) == Deducting(s.tracked.value);
      DeductingTick(s, checks[0]);
      CountdownByWholeTicks(TickStep(s, checks[0]).state, checks[1..]);
    }
  }

  /**
   * With a balance that runs out during the last tick (more than one second
   * per earlier tick, at most one second for the last) and the conditions
   * holding at every tick, the ticks run the balance down to zero, end the
   * session and show the lock screen.
   */
  lemma {:induction false} CountdownEndsInLock(s: State, checks: seq<ScheduleCheck>)
    requires ChargingThroughout(s, checks)
    requires |checks| > 0 && (|checks| - 1) * TickMs < s.balanceMs <= |checks| * TickMs
    ensures Ticks(s, checks).state == s.(balanceMs := 0, tracked := None, timerActive := false)
    ensures ShowLock in Ticks(s, checks).effects
    decreases |checks|
  {
    ChargingCarriesOver(s, checks, s.balanceMs - TickMs);
    assert Decide(s, checks[0]) == Deducting(s.tracked.value);
    if |checks| == 1 {
      ExhaustingTickLocks(s, checks[0]);
      assert Ticks(s, checks).effects == TickStep(s, checks[0]).effects + [];
    } else {
      DeductingTick(s, checks[0]);
      var first := TickStep(s, checks[0]);
      CountdownEndsInLock(first.state, checks[1..]);
      var rest := Ticks(first.state, checks[1..]);
      assert Ticks(s, checks) == Transition(rest.state, first.effects + rest.effects);
    }
  }

  /**
   * An app that is not on the block list is allowed whatever the schedule
   * and balance: evaluating hides the lock and leaves no session running.
   */
  lemma UnlistedAppAllowed(s: State, inBlock: ScheduleCheck)
    requires s.foreground.Some? && s.foreground.value !in s.blockedApps
    ensures Decide(s, inBlock) == Allowed
    ensures !Evaluate(s, inBlock).state.timerActive && Evaluate(s, inBlock).state.tracked.None?
    ensures HideLock in Evaluate(s, inBlock).effects && ShowLock !in Evaluate(s, inBlock).effects
  {
  }

  /** Without a schedule nothing is ever blocked. */
  lemma EmptyScheduleAllows(s: State, now: Instant)
    requires now.Valid()
    requires s.schedule == [] && s.foreground.Some?
    ensures Decide(s, CheckAt(now)) == Allowed
  {
  }

  /**
   * Re-sending a positive balance while the foreground app is being charged
   * reports it and hides the lock, but does not restart the timer.
   */
  lemma ScreenTimeUpdateKeepsSession(s: State, ms: int, inBlock: ScheduleCheck)
    requires SessionConsistent(s) && s.timerActive
    requires s.foreground == s.tracked
    requires IsAppBlocked(s.blockedApps, s.tracked.value) && inBlock(s.schedule)
    requires ms > 0
    ensures Dispatch(s, UpdateScreenTime(Some(ms)), inBlock) == Transition(s.(balanceMs := ms), [Emit(ms), HideLock])
  {
    assert Decide(s.(balanceMs := ms), inBlock) == Deducting(s.tracked.value);
  }

  /**
   * When the foreground app goes away mid-session, the session stops and
   * nothing else happens: no report, and the lock screen is left as it is.
   */
  lemma ForegroundLostStopsSession(s: State, inBlock: ScheduleCheck)
    requires SessionConsistent(s) && s.timerActive
    ensures Dispatch(s, UpdateForegroundApp(None), inBlock).effects == (if s.foreground.Some? then [CancelTimer] else [])
    ensures !Dispatch(s, UpdateForegroundApp(None), inBlock).state.timerActive || s.foreground.None?
  {
  }

  /**
   * Taking the charged app off the block list ends its session at once,
   * hiding the lock and cancelling the timer.
   */
  lemma UnblockingStopsSession(s: State, apps: seq<string>, inBlock: ScheduleCheck)
    requires SessionConsistent(s) && s.timerActive
    requires s.foreground == s.tracked && s.tracked.value !in apps
    ensures Dispatch(s, UpdateConfiguration(None, Some(apps)), inBlock)
      == Transition(s.(blockedApps := apps, tracked := None, timerActive := false), [HideLock, CancelTimer])
  {
  }

  /**
   * On a configured service a start command does exactly what re-sending
   * the configuration without changes does; before any configuration it
   * does nothing at all. An unrecognised command behaves like a start.
   */
  lemma StartLikeConfigurationResend(s: State, inBlock: ScheduleCheck)
    ensures |s.schedule| > 0 || |s.blockedApps| > 0 ==>
      Dispatch(s, StartService, inBlock) == Dispatch(s, UpdateConfiguration(None, None), inBlock)
    ensures |s.schedule| == 0 && |s.blockedApps| == 0 ==> Dispatch(s, StartService, inBlock) == Transition(s, [])
    ensures Dispatch(s, Unrecognized, inBlock) == Dispatch(s, StartService, inBlock)
  {
  }

  /** Every reachable state keeps the session consistent: one tracked app exactly when a timer runs. */
  lemma {:induction false} RunKeepsSessionConsistent(s: State, inputs: seq<Input>)
    requires ValidInputs(inputs)
    requires SessionConsistent(s)
    ensures SessionConsistent(Run(s, inputs).state)
    decreases |inputs|
  {
    if |inputs| > 0 {
      RunKeepsSessionConsistent(Step(s, inputs[0]).state, inputs[1..]);
    }
  }

  /** Whether a command only ever sets a non-negative balance. */
  predicate NonNegativeCommand(e: Event) {
    e.Received? && e.cmd.UpdateScreenTime? ==> e.cmd.balanceMs.GetOr(0) >= 0
  }

  /**
   * An evaluation reports a balance only when it starts a session, and then
   * the current one.
   */
  lemma EvaluateEmitsOnlyOnStart(s: State, inBlock: ScheduleCheck)
    requires SessionConsistent(s)
    ensures forall e :: e in Evaluate(s, inBlock).effects && e.Emit? ==>
      e == Emit(s.balanceMs) && Decide(s, inBlock).Deducting? && s.tracked != Some(Decide(s, inBlock).app)
  {
    match Decide(s, inBlock)
    case NoForegroundApp =>
      EvaluateWithoutForegroundApp(s, inBlock);
    case Allowed =>
      EvaluateAllowed(s, inBlock);
    case Denied(_) =>
      EvaluateDenied(s, inBlock);
    case Deducting(app) =>
      EvaluateDeducting(s, inBlock);
      if s.tracked != Some(app) {
        var effects := Evaluate(s, inBlock).effects;
        assert effects == [HideLock] + Cancels(s) + [Emit(s.balanceMs), ScheduleTimer(TickMs, TickMs)];
        assert forall e :: e in Cancels(s) ==> e == CancelTimer;
      }
  }

  /** A command keeps the balance non-negative and reports only non-negative balances. */
  lemma DispatchBalanceNonNegative(s: State, cmd: Command, inBlock: ScheduleCheck)
    requires s.balanceMs >= 0 && NonNegativeCommand(Received(cmd))
    ensures Dispatch(s, cmd, inBlock).state.balanceMs >= 0
    ensures forall e :: e in Dispatch(s, cmd, inBlock).effects && e.Emit? ==> e.balanceMs >= 0
  {
    var t := Dispatch(s, cmd, inBlock);
    match cmd
    case StartService =>
      EvaluateEmitsCurrentBalance(s, inBlock);
    case Unrecognized =>
      EvaluateEmitsCurrentBalance(s, inBlock);
    case StopService =>
    case UpdateConfiguration(newSchedule, newBlockedApps) =>
      var u := s.(schedule := newSchedule.GetOr(s.schedule), blockedApps := newBlockedApps.GetOr(s.blockedApps));
      assert t == Evaluate(u, inBlock);
      EvaluateEmitsCurrentBalance(u, inBlock);
    case UpdateForegroundApp(app) =>
      EvaluateEmitsCurrentBalance(s.(foreground := app), inBlock);
    case UpdateScreenTime(balanceMs) =>
      var u := s.(balanceMs := balanceMs.GetOr(0));
      assert t.effects == [Emit(u.balanceMs)] + Evaluate(u, inBlock).effects;
      EvaluateEmitsCurrentBalance(u, inBlock);
  }

  /** Starting a session reports no balance other than the current one. */
  lemma StartEmitsCurrentBalance(s: State, app: string)
    ensures forall e :: e in StartDeduction(s, app).effects && e.Emit? ==> e == Emit(s.balanceMs)
  {
    if !(s.timerActive && s.tracked == Some(app)) {
      assert StartDeduction(s, app).effects == Cancels(s) + [Emit(s.balanceMs), ScheduleTimer(TickMs, TickMs)];
    }
  }

  /** An evaluation reports no balance other than the current one, whatever the session. */
  lemma EvaluateEmitsCurrentBalance(s: State, inBlock: ScheduleCheck)
    ensures forall e :: e in Evaluate(s, inBlock).effects && e.Emit? ==> e == Emit(s.balanceMs)
  {
    match Decide(s, inBlock)
    case NoForegroundApp =>
      EvaluateWithoutForegroundApp(s, inBlock);
    case Allowed =>
      EvaluateAllowed(s, inBlock);
    case Denied(_) =>
      EvaluateDenied(s, inBlock);
    case Deducting(app) =>
      assert Evaluate(s, inBlock).effects == [HideLock] + StartDeduction(s, app).effects;
      StartEmitsCurrentBalance(s, app);
  }

  /** A timer firing keeps the balance non-negative and reports only non-negative balances. */
  lemma TickStepBalanceNonNegative(s: State, inBlock: ScheduleCheck)
    requires s.balanceMs >= 0
    ensures TickStep(s, inBlock).state.balanceMs >= 0
    ensures forall e :: e in TickStep(s, inBlock).effects && e.Emit? ==> e.balanceMs >= 0
  {
    var ticked := Tick(s, inBlock);
    assert forall e :: e in ticked.effects && e.Emit? ==> e.balanceMs == ticked.state.balanceMs;
    EvaluateEmitsCurrentBalance(ticked.state, inBlock);
  }

  /** One step keeps the balance non-negative and reports only non-negative balances. */
  lemma StepBalanceNonNegative(s: State, input: Input)
    requires input.at.Valid()
    requires s.balanceMs >= 0 && NonNegativeCommand(input.event)
    ensures Step(s, input).state.balanceMs >= 0
    ensures forall e :: e in Step(s, input).effects && e.Emit? ==> e.balanceMs >= 0
  {
    match input.event
    case Received(cmd) => DispatchBalanceNonNegative(s, cmd, CheckAt(input.at));
    case TimerFired => TickStepBalanceNonNegative(s, CheckAt(input.at));
  }

  /**
   * If every balance the app sends is non-negative, the balance never goes
   * negative and every reported balance is non-negative.
   */
  lemma {:induction false} RunBalanceNonNegative(s: State, inputs: seq<Input>)
    requires ValidInputs(inputs)
    requires s.balanceMs >= 0
    requires forall i :: 0 <= i < |inputs| ==> NonNegativeCommand(inputs[i].event)
    ensures Run(s, inputs).state.balanceMs >= 0
    ensures forall e :: e in Run(s, inputs).effects && e.Emit? ==> e.balanceMs >= 0
    decreases |inputs|
  {
    if |inputs| > 0 {
      StepBalanceNonNegative(s, inputs[0]);
      RunBalanceNonNegative(Step(s, inputs[0]).state, inputs[1..]);
    }
  }
}
