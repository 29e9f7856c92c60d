/** The frame-cycling controller (`esp_ssd1306ui`): configuration, UI state and
    dirty flag as fields updated in place, and the redraw recorded as the list
    of calls made to the display driver and to the user's callbacks. */
module Ui {
  import opened CArith
  import opened Display
  import opened Frames
  import opened Geometry
  import opened Indicator
  import opened Machine

  class Controller {
    var updateInterval: int
    var ticksPerFrame: int
    var ticksPerTransition: int
    var autoTransition: bool
    var frameTransitionDirection: int
    var frameAnimationDirection: AnimationDirection
    var indicatorPosition: IndicatorPosition
    var indicatorDirection: IndicatorDirection
    var activeSymbol: Bitmap
    var inactiveSymbol: Bitmap
    var frameCount: int
    var overlayCount: int
    var state: UiState
    var dirty: bool
    /** Every call made to the display driver and to the callbacks so far. */
    var trace: seq<DrawCall>

    /** The update interval is a positive number of milliseconds; the tick
        counter and the update time never go below zero. */
    predicate Valid()
      reads this`updateInterval, this`state
    {
      && updateInterval >= 1
      && state.ticksSinceLastStateSwitch >= 0
      && state.lastUpdate >= 0
    }

    /** What a tick needs of the frame list and of the transition length: a
        current frame inside the frame list (whose length fits the `byte` loop
        counter of `drawIndicator`) and a transition of at least one tick, by
        which the transition progress is divided. */
    predicate Ready()
      reads this`frameCount, this`state, this`ticksPerTransition
    {
      && 1 <= frameCount <= 255
      && 0 <= state.currentFrame < frameCount
      && ticksPerTransition >= 1
    }

    function Schedule(): Timing
      reads this`ticksPerFrame, this`ticksPerTransition, this`autoTransition, this`frameTransitionDirection, this`frameCount
    {
      Timing(ticksPerFrame, ticksPerTransition, autoTransition, frameTransitionDirection, frameCount)
    }

    /** The header's defaults are not part of this model, so every field the
        constructor does not compute is given: the configuration, the frame and
        overlay counts, the initial UI state and the initial dirty flag. Only
        the trace of calls starts empty. */
    constructor (updateInterval: int, ticksPerFrame: int, ticksPerTransition: int, autoTransition: bool,
                 transitionDirection: int, animation: AnimationDirection,
                 position: IndicatorPosition, direction: IndicatorDirection,
                 active: Bitmap, inactive: Bitmap, frames: int, overlays: int,
                 initial: UiState, initiallyDirty: bool)
      requires updateInterval >= 1
      requires initial.ticksSinceLastStateSwitch >= 0 && initial.lastUpdate >= 0
      ensures Valid()
      ensures this.updateInterval == updateInterval && this.ticksPerFrame == ticksPerFrame
      ensures this.ticksPerTransition == ticksPerTransition && this.autoTransition == autoTransition
      ensures frameTransitionDirection == transitionDirection && frameAnimationDirection == animation
      ensures indicatorPosition == position && indicatorDirection == direction
      ensures activeSymbol == active && inactiveSymbol == inactive
      ensures frameCount == frames && overlayCount == overlays
      ensures state == initial && dirty == initiallyDirty && trace == []
    {
      this.updateInterval := updateInterval;
      this.ticksPerFrame := ticksPerFrame;
      this.ticksPerTransition := ticksPerTransition;
      this.autoTransition := autoTransition;
      frameTransitionDirection := transitionDirection;
      frameAnimationDirection := animation;
      indicatorPosition := position;
      indicatorDirection := direction;
      activeSymbol := active;
      inactiveSymbol := inactive;
      frameCount := frames;
      overlayCount := overlays;
      state := initial;
      dirty := initiallyDirty;
      trace := [];
    }

    // Automatic control

    method EnableAutoTransition()
      requires Valid()
      modifies this`autoTransition
      ensures Valid() && autoTransition
    {
      autoTransition := true;
    }

    method DisableAutoTransition()
      requires Valid()
      modifies this`autoTransition
      ensures Valid() && !autoTransition
    {
      autoTransition := false;
    }

    method SetAutoTransitionForwards()
      requires Valid()
      modifies this`frameTransitionDirection
      ensures Valid() && frameTransitionDirection == 1
    {
      frameTransitionDirection := 1;
    }

    /** Stores +1, the same direction as the forwards setter. */
    method SetAutoTransitionBackwards()
      requires Valid()
      modifies this`frameTransitionDirection
      ensures Valid() && frameTransitionDirection == 1
    {
      frameTransitionDirection := 1;
    }

    /** A frame is shown for the whole number of update intervals in `time`
        milliseconds (the float quotient truncated toward zero). */
    method SetTimePerFrame(time: int)
      requires Valid()
      modifies this`ticksPerFrame
      ensures Valid() && ticksPerFrame == Quot(time, updateInterval)
      ensures time >= 0 ==> ticksPerFrame * updateInterval <= time < (ticksPerFrame + 1) * updateInterval
    {
      ticksPerFrame := Quot(time, updateInterval);
    }

    /** A transition lasts the whole number of update intervals in `time`
        milliseconds (the float quotient truncated toward zero). */
    method SetTimePerTransition(time: int)
      requires Valid()
      modifies this`ticksPerTransition
      ensures Valid() && ticksPerTransition == Quot(time, updateInterval)
      ensures time >= 0 ==> ticksPerTransition * updateInterval <= time < (ticksPerTransition + 1) * updateInterval
    {
      ticksPerTransition := Quot(time, updateInterval);
    }

    // Indicator position and style

    method SetIndicatorPosition(position: IndicatorPosition)
      requires Valid()
      modifies this`indicatorPosition, this`dirty
      ensures Valid() && indicatorPosition == position && dirty
    {
      indicatorPosition := position;
      dirty := true;
    }

    /** Unlike the other indicator setters, this one leaves the dirty flag alone. */
    method SetIndicatorDirection(direction: IndicatorDirection)
      requires Valid()
      modifies this`indicatorDirection
      ensures Valid() && indicatorDirection == direction
    {
      indicatorDirection := direction;
    }

    method SetActiveSymbol(symbol: Bitmap)
      requires Valid()
      modifies this`activeSymbol, this`dirty
      ensures Valid() && activeSymbol == symbol && dirty
    {
      activeSymbol := symbol;
      dirty := true;
    }

    method SetInactiveSymbol(symbol: Bitmap)
      requires Valid()
      modifies this`inactiveSymbol, this`dirty
      ensures Valid() && inactiveSymbol == symbol && dirty
    {
      inactiveSymbol := symbol;
      dirty := true;
    }

    // Frames and overlays

    method SetFrameAnimation(animation: AnimationDirection)
      requires Valid()
      modifies this`frameAnimationDirection
      ensures Valid() && frameAnimationDirection == animation
    {
      frameAnimationDirection := animation;
    }

    /** The callbacks themselves are represented by the results passed to
        `Tick`; only their number is kept. */
    method SetFrames(count: int)
      requires Valid()
      modifies this`frameCount
      ensures Valid() && frameCount == count
    {
      frameCount := count;
    }

    method SetOverlays(count: int)
      requires Valid()
      modifies this`overlayCount
      ensures Valid() && overlayCount == count
    {
      overlayCount := count;
    }

    // Manual control

    /** Starts (or restarts) a transition toward the following frame. */
    method NextFrame()
      requires Valid()
      modifies this`state, this`frameTransitionDirection
      ensures Valid() && frameTransitionDirection == 1
      ensures state == old(state).(frameState := InTransition, ticksSinceLastStateSwitch := 0)
    {
      state := state.(frameState := InTransition, ticksSinceLastStateSwitch := 0);
      frameTransitionDirection := 1;
    }

    /** Starts (or restarts) a transition toward the preceding frame. */
    method PreviousFrame()
      requires Valid()
      modifies this`state, this`frameTransitionDirection
      ensures Valid() && frameTransitionDirection == -1
      ensures state == old(state).(frameState := InTransition, ticksSinceLastStateSwitch := 0)
    {
      state := state.(frameState := InTransition, ticksSinceLastStateSwitch := 0);
      frameTransitionDirection := -1;
    }

    method GetUiState() returns (s: UiState)
      ensures s == state
    {
      s := state;
    }

    // The update loop

    /** The frame callbacks a redraw makes in the current state: the current
        frame at rest, or the current and the next frame at their transition
        offsets. */
    function FrameCalls(): (calls: seq<DrawCall>)
      reads this`updateInterval, this`state, this`frameCount, this`ticksPerTransition, this`frameAnimationDirection, this`frameTransitionDirection
      requires Valid() && Ready()
      // One callback at rest, two in transition, each for a frame that exists,
      // the current frame first.
      ensures |calls| == if state.frameState == Fixed then 1 else 2
      ensures forall i :: 0 <= i < |calls| ==> calls[i].FrameCallback? && 0 <= calls[i].index < frameCount
      ensures calls[0].index == state.currentFrame
      ensures state.frameState == Fixed ==> calls[0].x == 0 && calls[0].y == 0
      // In transition the next frame is drawn one screen from the current
      // one, against the slide and reversed going backward.
      ensures state.frameState == InTransition ==>
        && calls[1].index == NextFrameNumber(state.currentFrame, frameTransitionDirection, frameCount)
        && calls[1].x - calls[0].x == Signed(ScreenGap(frameAnimationDirection).x, frameTransitionDirection)
        && calls[1].y - calls[0].y == Signed(ScreenGap(frameAnimationDirection).y, frameTransitionDirection)
    {
      match state.frameState
      case Fixed => [FrameCallback(state.currentFrame, 0, 0)]
      case InTransition =>
        var p := TransitionOffsets(frameAnimationDirection, state.ticksSinceLastStateSwitch,
                                   ticksPerTransition, frameTransitionDirection);
        [FrameCallback(state.currentFrame, p.outgoing.x, p.outgoing.y),
         FrameCallback(NextFrameNumber(state.currentFrame, frameTransitionDirection, frameCount),
                       p.incoming.x, p.incoming.y)]
    }

    /** Some frame callback called in the current state reported drawing;
        `frameDrew[0]` answers for the current frame, `frameDrew[1]` for the
        next one. */
    predicate FrameDrew(frameDrew: seq<bool>)
      reads this`state
      requires |frameDrew| == 2
    {
      frameDrew[0] || (state.frameState == InTransition && frameDrew[1])
    }

    /** The calls of a full redraw in the current state. */
    function Redraw(): (calls: seq<DrawCall>)
      reads this`updateInterval, this`state, this`frameCount, this`ticksPerTransition, this`frameAnimationDirection, this`frameTransitionDirection, this`indicatorDirection, this`indicatorPosition, this`activeSymbol, this`inactiveSymbol, this`overlayCount
      requires Valid() && Ready()
      // The display is cleared first and presented last, and neither happens
      // in between.
      ensures |calls| >= 2 && calls[0] == Clear && calls[|calls| - 1] == Present
      ensures forall i :: 0 < i < |calls| - 1 ==> calls[i] != Clear && calls[i] != Present
      // One symbol per frame, the frame callbacks, one call per overlay.
      ensures |calls| == 2 + frameCount + |FrameCalls()| + (if overlayCount <= 0 then 0 else overlayCount)
    {
      [Clear]
      + Layout(indicatorDirection, indicatorPosition, state.currentFrame, frameCount, activeSymbol, inactiveSymbol)
      + FrameCalls()
      + OverlayCalls(overlayCount)
      + [Present]
    }

    /** Compares the time since the last tick with the update interval. While
        budget is left nothing changes; once it is spent, missed intervals are
        added to the tick counter, the time is recorded and one tick runs. */
    method Update(now: int, frameDrew: seq<bool>, overlayDrew: seq<bool>) returns (timeBudget: int)
      requires Valid() && now >= state.lastUpdate
      // Only the tick needs the frame list and the transition length.
      requires TimeBudget(updateInterval, state.lastUpdate, now) <= 0 ==> Ready()
      requires |frameDrew| == 2 && overlayCount <= |overlayDrew|
      modifies this`state, this`dirty, this`trace
      ensures Valid() && (old(Ready()) ==> Ready())
      ensures timeBudget == TimeBudget(updateInterval, old(state).lastUpdate, now)
      ensures timeBudget > 0 ==> state == old(state) && dirty == old(dirty) && trace == old(trace)
      ensures timeBudget <= 0 ==>
        var sw := Switch(CatchUp(old(state), autoTransition, updateInterval, now), old(dirty), Schedule());
        && state == sw.state
        && dirty == (sw.dirty && (FrameDrew(frameDrew) || AnyDrew(overlayDrew, overlayCount)))
        && trace == old(trace) + (if sw.dirty then Redraw() else [])
    {
      timeBudget := updateInterval - (now - state.lastUpdate);
      if timeBudget <= 0 {
        if autoTransition && state.lastUpdate != 0 {
          state := state.(ticksSinceLastStateSwitch :=
                            state.ticksSinceLastStateSwitch + Quot(-timeBudget, updateInterval));
        }
        state := state.(lastUpdate := now);
        Tick(frameDrew, overlayDrew);
      }
    }

    /** One step of the frame machine, then a full redraw if anything changed.
        After the redraw the display is dirty again only if a callback drew. */
    method Tick(frameDrew: seq<bool>, overlayDrew: seq<bool>)
      requires Valid() && Ready()
      requires |frameDrew| == 2 && overlayCount <= |overlayDrew|
      modifies this`state, this`dirty, this`trace
      ensures Valid() && Ready()
      ensures var sw := Switch(old(state), old(dirty), Schedule());
        && state == sw.state
        && dirty == (sw.dirty && (FrameDrew(frameDrew) || AnyDrew(overlayDrew, overlayCount)))
        && trace == old(trace) + (if sw.dirty then Redraw() else [])
    {
      SwitchState();
      if dirty {
        RedrawDisplay(frameDrew, overlayDrew);
      }
    }

    /** The redraw at the end of `tick`: clear the dirty flag, clear the
        display, draw the indicator, the frame(s) and the overlays, and present
        the result. Callbacks that report drawing leave the display dirty. */
    method RedrawDisplay(frameDrew: seq<bool>, overlayDrew: seq<bool>)
      requires Valid() && Ready()
      requires |frameDrew| == 2 && overlayCount <= |overlayDrew|
      modifies this`dirty, this`trace
      ensures dirty == (FrameDrew(frameDrew) || AnyDrew(overlayDrew, overlayCount))
      ensures trace == old(trace) + Redraw()
    {
      ghost var layout :=
        Layout(indicatorDirection, indicatorPosition, state.currentFrame, frameCount, activeSymbol, inactiveSymbol);
      ghost var frames, overlays := FrameCalls(), OverlayCalls(overlayCount);
      dirty := false;
      trace := trace + [Clear];
      DrawIndicator();
      DrawFrame(frameDrew);
      DrawOverlays(overlayDrew);
      trace := trace + [Present];
      Regroup(old(trace), [Clear], layout, frames, overlays, [Present]);
    }

    /** The state switch at the start of `tick`: count the tick, then finish a
        transition whose time is up, or start one when a frame's time is up. */
    method SwitchState()
      requires Valid() && Ready()
      modifies this`state, this`dirty
      ensures Valid() && Ready()
      ensures state == Switch(old(state), old(dirty), Schedule()).state
      ensures dirty == Switch(old(state), old(dirty), Schedule()).dirty
    {
      state := state.(ticksSinceLastStateSwitch := state.ticksSinceLastStateSwitch + 1);
      match state.frameState {
        case InTransition =>
          dirty := true;
          if state.ticksSinceLastStateSwitch >= ticksPerTransition {
            state := state.(frameState := Fixed);
            state := state.(currentFrame := NextFrameNumber(state.currentFrame, frameTransitionDirection, frameCount));
            state := state.(ticksSinceLastStateSwitch := 0);
          }
        case Fixed =>
          if state.ticksSinceLastStateSwitch >= ticksPerFrame {
            if autoTransition {
              state := state.(frameState := InTransition);
              dirty := true;
            }
            state := state.(ticksSinceLastStateSwitch := 0);
          }
      }
    }

    /** Draws the frame callbacks of the current state and keeps the display
        dirty if one of them drew. */
    method DrawFrame(frameDrew: seq<bool>)
      requires Valid() && Ready() && |frameDrew| == 2
      modifies this`dirty, this`trace
      ensures dirty == (old(dirty) || FrameDrew(frameDrew))
      ensures trace == old(trace) + FrameCalls()
    {
      match state.frameState {
        case InTransition =>
          var p := TransitionOffsets(frameAnimationDirection, state.ticksSinceLastStateSwitch,
                                     ticksPerTransition, frameTransitionDirection);
          trace := trace + [FrameCallback(state.currentFrame, p.outgoing.x, p.outgoing.y)];
          dirty := dirty || frameDrew[0];
          var next := NextFrameNumber(state.currentFrame, frameTransitionDirection, frameCount);
          trace := trace + [FrameCallback(next, p.incoming.x, p.incoming.y)];
          dirty := dirty || frameDrew[1];
        case Fixed =>
          trace := trace + [FrameCallback(state.currentFrame, 0, 0)];
          dirty := dirty || frameDrew[0];
      }
    }

    /** Draws one indicator symbol per frame, the current frame's slot active. */
    method DrawIndicator()
      requires frameCount <= 255
      modifies this`trace
      ensures trace == old(trace)
        + Layout(indicatorDirection, indicatorPosition, state.currentFrame, frameCount, activeSymbol, inactiveSymbol)
    {
      var slot := ActiveSlot(indicatorDirection, state.currentFrame, frameCount);
      ghost var layout := Layout(indicatorDirection, indicatorPosition, state.currentFrame, frameCount,
                                 activeSymbol, inactiveSymbol);
      var i := 0;
      while i < frameCount
        invariant 0 <= i <= |layout|
        invariant trace == old(trace) + layout[..i]
      {
        var image := if slot == i then activeSymbol else inactiveSymbol;
        var p := SymbolAt(indicatorPosition, frameCount, i);
        trace := trace + [Xbm(p.x, p.y, SymbolSize, SymbolSize, image)];
        i := i + 1;
      }
    }

    /** Calls every overlay in order; the display stays dirty if any of them drew. */
    method DrawOverlays(overlayDrew: seq<bool>)
      requires overlayCount <= |overlayDrew|
      modifies this`dirty, this`trace
      ensures dirty == (old(dirty) || AnyDrew(overlayDrew, overlayCount))
      ensures trace == old(trace) + OverlayCalls(overlayCount)
    {
      var i := 0;
      while i < overlayCount
        invariant 0 <= i <= |overlayDrew| && i <= (if overlayCount < 0 then 0 else overlayCount)
        invariant dirty == (old(dirty) || AnyDrew(overlayDrew, i))
        invariant trace == old(trace) + OverlayCalls(i)
      {
        assert OverlayCalls(i + 1) == OverlayCalls(i) + [OverlayCallback(i)];
        trace := trace + [OverlayCallback(i)];
        dirty := dirty || overlayDrew[i];
        i := i + 1;
      }
      assert OverlayCalls(overlayCount) == OverlayCalls(i);
    }
  }

  /** Regrouping the pieces of a redraw appended one after the other. */
  lemma Regroup<T>(t: seq<T>, a: seq<T>, b: seq<T>, c: seq<T>, d: seq<T>, e: seq<T>)
    ensures t + a + b + c + d + e == t + (a + b + c + d + e)
  {
  }
}
