/** The tick state machine and the time-budget catch-up of `update`, as pure
    functions of the UI state. The controller class applies them in place. */
module Machine {
  import opened CArith
  import opened Frames

  datatype FrameState = Fixed | InTransition

  /** The source's `esp_ssd1306uiState` record. */
  datatype UiState = UiState(currentFrame: int, frameState: FrameState,
                             ticksSinceLastStateSwitch: int, lastUpdate: int)

  /** The controller fields a tick reads. */
  datatype Timing = Timing(ticksPerFrame: int, ticksPerTransition: int, autoTransition: bool,
                           direction: int, frameCount: int)

  /** The state and the dirty flag after the state switch of one tick. */
  datatype Switched = Switched(state: UiState, dirty: bool)

  /** The state switch of `tick`, before the redraw: count the tick, then
      finish a transition whose time is up, or start one when a frame's time
      is up and auto-transition is on. */
  function Switch(s: UiState, dirty: bool, t: Timing): (r: Switched)
    requires t.frameCount >= 1
    ensures r.state.lastUpdate == s.lastUpdate
    // A transition marks the display dirty on every tick; once its time is up
    // the machine rests on the next frame, otherwise the frame stays.
    ensures s.frameState == InTransition ==>
      if s.ticksSinceLastStateSwitch + 1 >= t.ticksPerTransition then
        && r.state.frameState == Fixed
        && r.state.currentFrame == NextFrameNumber(s.currentFrame, t.direction, t.frameCount)
        && r.state.ticksSinceLastStateSwitch == 0
      else
        r.state == s.(ticksSinceLastStateSwitch := s.ticksSinceLastStateSwitch + 1)
    // A fixed frame never changes the current frame; when its time is up the
    // counter restarts, and a transition starts only with auto-transition on.
    ensures s.frameState == Fixed ==>
      if s.ticksSinceLastStateSwitch + 1 >= t.ticksPerFrame then
        && r.state.currentFrame == s.currentFrame
        && r.state.ticksSinceLastStateSwitch == 0
        && (r.state.frameState == InTransition <==> t.autoTransition)
      else
        r.state == s.(ticksSinceLastStateSwitch := s.ticksSinceLastStateSwitch + 1)
    // The display is dirty afterwards exactly when it was before, or a
    // transition was running, or one has just started.
    ensures r.dirty == (dirty || s.frameState == InTransition || r.state.frameState == InTransition)
    // A valid frame index stays valid; a transition still running after the
    // switch has either just started or has ticks left.
    ensures 0 <= s.currentFrame < t.frameCount ==> 0 <= r.state.currentFrame < t.frameCount
    ensures s.ticksSinceLastStateSwitch >= 0 ==>
      && r.state.ticksSinceLastStateSwitch >= 0
      && (r.state.frameState == InTransition ==>
            r.state.ticksSinceLastStateSwitch == 0
            || r.state.ticksSinceLastStateSwitch < t.ticksPerTransition)
  {
    var ticks := s.ticksSinceLastStateSwitch + 1;
    match s.frameState
    case InTransition =>
      if ticks >= t.ticksPerTransition then
        Switched(s.(frameState := Fixed,
                    currentFrame := NextFrameNumber(s.currentFrame, t.direction, t.frameCount),
                    ticksSinceLastStateSwitch := 0), true)
      else
        Switched(s.(ticksSinceLastStateSwitch := ticks), true)
    case Fixed =>
      if ticks >= t.ticksPerFrame then
        if t.autoTransition then
          Switched(s.(frameState := InTransition, ticksSinceLastStateSwitch := 0), true)
        else
          Switched(s.(ticksSinceLastStateSwitch := 0), dirty)
      else
        Switched(s.(ticksSinceLastStateSwitch := ticks), dirty)
  }

  /** The state after `k` ticks. The state switch never reads the dirty flag,
      so the run starts from a clean one. */
  function Run(s: UiState, t: Timing, k: nat): UiState
    requires t.frameCount >= 1
    decreases k
  {
    if k == 0 then s else Run(Switch(s, false, t).state, t, k - 1)
  }

  lemma {:induction false} RunAdditive(s: UiState, t: Timing, a: nat, b: nat)
    requires t.frameCount >= 1
    ensures Run(s, t, a + b) == Run(Run(s, t, a), t, b)
    decreases a
  {
    if a > 0 {
      RunAdditive(Switch(s, false, t).state, t, a - 1, b);
    }
  }

  /** With auto-transition off a fixed frame stays fixed and shown forever. */
  lemma {:induction false} ManualModeHoldsFrame(s: UiState, t: Timing, k: nat)
    requires t.frameCount >= 1 && !t.autoTransition && s.frameState == Fixed
    ensures Run(s, t, k).frameState == Fixed
    ensures Run(s, t, k).currentFrame == s.currentFrame
    ensures Run(s, t, k).lastUpdate == s.lastUpdate
    decreases k
  {
    if k > 0 {
      ManualModeHoldsFrame(Switch(s, false, t).state, t, k - 1);
    }
  }

  /** Until its time is up, a transition only counts ticks. */
  lemma {:induction false} TransitionInProgress(s: UiState, t: Timing, k: nat)
    requires t.frameCount >= 1 && s.frameState == InTransition
    requires s.ticksSinceLastStateSwitch + k < t.ticksPerTransition
    ensures Run(s, t, k) == s.(ticksSinceLastStateSwitch := s.ticksSinceLastStateSwitch + k)
    decreases k
  {
    if k > 0 {
      TransitionInProgress(Switch(s, false, t).state, t, k - 1);
    }
  }

  /** A transition with `c` ticks behind it ends after `ticksPerTransition - c`
      more ticks, resting on the next frame with the counter reset. */
  lemma TransitionCompletes(s: UiState, t: Timing)
    requires t.frameCount >= 1 && s.frameState == InTransition
    requires 0 <= s.ticksSinceLastStateSwitch < t.ticksPerTransition
    ensures Run(s, t, t.ticksPerTransition - s.ticksSinceLastStateSwitch)
         == s.(frameState := Fixed,
               currentFrame := NextFrameNumber(s.currentFrame, t.direction, t.frameCount),
               ticksSinceLastStateSwitch := 0)
  {
    var k := t.ticksPerTransition - s.ticksSinceLastStateSwitch - 1;
    RunAdditive(s, t, k, 1);
    TransitionInProgress(s, t, k);
  }

  /** After `setAutoTransitionBackwards`, which stores +1 as the forwards
      setter does, a transition with 3 or more frames still ends on the frame
      after the current one, never on the frame before it. */
  lemma BackwardsSetterLeadsForward(s: UiState, t: Timing)
    requires t.direction == 1 && t.frameCount >= 3 && 0 <= s.currentFrame < t.frameCount
    requires s.frameState == InTransition && 0 <= s.ticksSinceLastStateSwitch < t.ticksPerTransition
    ensures var landed := Run(s, t, t.ticksPerTransition - s.ticksSinceLastStateSwitch).currentFrame;
      && landed == NextFrameNumber(s.currentFrame, 1, t.frameCount)
      && landed != NextFrameNumber(s.currentFrame, -1, t.frameCount)
  {
    TransitionCompletes(s, t);
    ForwardAndBackwardTargetsDiffer(s.currentFrame, t.frameCount);
  }

  /** Until its time is up, a fixed frame only counts ticks. */
  lemma {:induction false} FrameInProgress(s: UiState, t: Timing, k: nat)
    requires t.frameCount >= 1 && s.frameState == Fixed
    requires s.ticksSinceLastStateSwitch + k < t.ticksPerFrame
    ensures Run(s, t, k) == s.(ticksSinceLastStateSwitch := s.ticksSinceLastStateSwitch + k)
    decreases k
  {
    if k > 0 {
      FrameInProgress(Switch(s, false, t).state, t, k - 1);
    }
  }

  /** With auto-transition on, a fixed frame with `c` ticks behind it starts
      the transition after `ticksPerFrame - c` more ticks. */
  lemma FrameTimeUp(s: UiState, t: Timing)
    requires t.frameCount >= 1 && t.autoTransition && s.frameState == Fixed
    requires 0 <= s.ticksSinceLastStateSwitch < t.ticksPerFrame
    ensures Run(s, t, t.ticksPerFrame - s.ticksSinceLastStateSwitch)
         == s.(frameState := InTransition, ticksSinceLastStateSwitch := 0)
  {
    var k := t.ticksPerFrame - s.ticksSinceLastStateSwitch - 1;
    RunAdditive(s, t, k, 1);
    FrameInProgress(s, t, k);
  }

  /** One full automatic cycle: a frame shown for `ticksPerFrame` ticks and a
      transition of `ticksPerTransition` ticks move the display on by exactly
      one frame in the transition direction. */
  lemma AutoCycleAdvancesOneFrame(s: UiState, t: Timing)
    requires t.frameCount >= 1 && t.autoTransition && s.frameState == Fixed
    requires s.ticksSinceLastStateSwitch == 0 && t.ticksPerFrame >= 1 && t.ticksPerTransition >= 1
    ensures Run(s, t, t.ticksPerFrame + t.ticksPerTransition)
         == s.(currentFrame := NextFrameNumber(s.currentFrame, t.direction, t.frameCount))
  {
    FrameTimeUp(s, t);
    TransitionFromRest(s, t);
    RunThrough(s, s.(frameState := InTransition, ticksSinceLastStateSwitch := 0),
               s.(currentFrame := NextFrameNumber(s.currentFrame, t.direction, t.frameCount)),
               t, t.ticksPerFrame, t.ticksPerTransition);
  }

  /** Runs that pass through an intermediate state compose. */
  lemma RunThrough(s: UiState, mid: UiState, last: UiState, t: Timing, a: nat, b: nat)
    requires t.frameCount >= 1 && Run(s, t, a) == mid && Run(mid, t, b) == last
    ensures Run(s, t, a + b) == last
  {
    RunAdditive(s, t, a, b);
  }

  /** A transition started from a frame at rest ends on the next frame, at rest. */
  lemma TransitionFromRest(s: UiState, t: Timing)
    requires t.frameCount >= 1 && t.ticksPerTransition >= 1
    requires s.frameState == Fixed && s.ticksSinceLastStateSwitch == 0
    ensures Run(s.(frameState := InTransition, ticksSinceLastStateSwitch := 0), t, t.ticksPerTransition)
         == s.(currentFrame := NextFrameNumber(s.currentFrame, t.direction, t.frameCount))
  {
    var started := s.(frameState := InTransition, ticksSinceLastStateSwitch := 0);
    TransitionCompletes(started, t);
    assert started.(frameState := Fixed,
                    currentFrame := NextFrameNumber(s.currentFrame, t.direction, t.frameCount),
                    ticksSinceLastStateSwitch := 0)
        == s.(currentFrame := NextFrameNumber(s.currentFrame, t.direction, t.frameCount));
  }

  /** The time left before the next tick is due: `update` returns it. */
  function TimeBudget(updateInterval: int, lastUpdate: int, now: int): (budget: int)
    // The budget is spent exactly when a whole interval has passed.
    ensures budget <= 0 <==> now - lastUpdate >= updateInterval
    // It is never more than one interval.
    ensures now >= lastUpdate ==> budget <= updateInterval
  {
    updateInterval - (now - lastUpdate)
  }

  /** What `update` does to the state before its one tick, once the budget is
      spent: frame skipping adds the intervals missed beyond the first (not on
      the very first update, nor with auto-transition off), and the update
      time is taken. */
  function CatchUp(s: UiState, autoTransition: bool, updateInterval: int, now: int): (r: UiState)
    requires updateInterval >= 1 && TimeBudget(updateInterval, s.lastUpdate, now) <= 0
    ensures r == s.(ticksSinceLastStateSwitch := r.ticksSinceLastStateSwitch, lastUpdate := now)
    // Together with the tick that follows, the counter advances by the number
    // of whole update intervals that have elapsed.
    ensures autoTransition && s.lastUpdate != 0 ==>
      r.ticksSinceLastStateSwitch + 1 == s.ticksSinceLastStateSwitch + (now - s.lastUpdate) / updateInterval
    ensures !(autoTransition && s.lastUpdate != 0) ==>
      r.ticksSinceLastStateSwitch == s.ticksSinceLastStateSwitch
  {
    var budget := TimeBudget(updateInterval, s.lastUpdate, now);
    var skipped := if autoTransition && s.lastUpdate != 0 then Quot(-budget, updateInterval) else 0;
    IntervalsElapsed(now - s.lastUpdate, updateInterval);
    s.(ticksSinceLastStateSwitch := s.ticksSinceLastStateSwitch + skipped, lastUpdate := now)
  }

  /** `elapsed - interval` holds one whole interval fewer than `elapsed`. */
  lemma IntervalsElapsed(elapsed: int, updateInterval: int)
    requires updateInterval >= 1 && elapsed >= updateInterval
    ensures Quot(elapsed - updateInterval, updateInterval) + 1 == elapsed / updateInterval
  {
    var q := (elapsed - updateInterval) / updateInterval;
    var r := (elapsed - updateInterval) % updateInterval;
    assert elapsed - updateInterval == q * updateInterval + r;
    DivisionUnique(elapsed, updateInterval, q + 1, r);
  }
}
