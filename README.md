# Frame-cycling UI controller for a 128x64 monochrome display

This project models the controller class `esp_ssd1306ui` of the
Espresso-Lite weather station (`lib/esp_ssd1306/esp_ssd1306ui.cpp`) in Dafny
and proves properties of the model. The controller cycles through
user-supplied *frames* (page drawing callbacks). It shows each frame for
`ticksPerFrame` ticks, slides to the next one over `ticksPerTransition` ticks,
draws a page indicator and any *overlays*, and redraws only when the *dirty*
flag says something changed. `update()` is called from the host loop. It
compares the time since the last tick with `updateInterval`, adds missed ticks
(frame skipping) and runs one `tick()`.

Modules, one per concern of the source file:

- `CArith` (`carith.dfy`): C++ integer `/` and `%`, which truncate toward zero (Dafny's are Euclidean).
- `Frames` (`frames.dfy`): `getNextFrameNumber`, the wrap-around frame index.
- `Geometry` (`geometry.dfy`): the slide offsets computed in `drawFrame`.
- `Indicator` (`indicator.dfy`): the active-symbol choice and symbol coordinates of `drawIndicator`.
- `Machine` (`machine.dfy`): the state switch of `tick` and the catch-up of `update` as pure
  functions of the UI state record, with lemmas about runs of many ticks.
- `Display` (`display.dfy`): the calls a redraw makes, recorded as `DrawCall` values.
- `Ui` (`ui.dfy`): class `Controller` with the source's fields. Its methods update them in place, and
  each method's `ensures` ties the new state to the `Machine`, `Geometry` and `Indicator` functions.

The display driver and the user callbacks are outside the model. The class
keeps a `trace` field of every call it makes to them, in order: `Clear`, `Xbm`
(`drawXbm`), `FrameCallback`, `OverlayCallback` and `Present`. Each callback's
boolean result ("did it draw") is an input to `Tick` and `Update`:
`frameDrew[0]` is the current frame's result, `frameDrew[1]` the next frame's,
and `overlayDrew[i]` is overlay `i`'s. The clock `millis()` is the parameter
`now` of `Update`.

## Model

| member | source | states |
|---|---|---|
| CArith.Quot | lib/esp_ssd1306/esp_ssd1306ui.cpp:101 | C++ division truncates toward zero. For a non-negative dividend the quotient is the largest `q` with `q*b <= a`; for a negative one it is the smallest `q` with `a <= q*b`. |
| CArith.Rem | lib/esp_ssd1306/esp_ssd1306ui.cpp:242 | C++ remainder: `Quot(a,b)*b + r == a`, with `r` in `[0,b)` for `a >= 0` and in `(-b,0]` for `a < 0`. |
| Frames.NextFrameNumber | lib/esp_ssd1306/esp_ssd1306ui.cpp:241-247 | For `frameCount >= 1`, the next frame index is in `[0, frameCount)` for every current frame and every direction. |
| Frames.NextFrameIsResidue | lib/esp_ssd1306/esp_ssd1306ui.cpp:241-247 | The C++ remainder plus the negative fix-up equals the mathematical residue `(current + direction) mod frameCount`. |
| Frames.WrapAroundBoundaries | lib/esp_ssd1306/esp_ssd1306ui.cpp:242-245 | Frame 0 with direction -1 gives `frameCount-1`. Frame `frameCount-1` with direction +1 gives 0. |
| Frames.BackwardUndoesForward | lib/esp_ssd1306/esp_ssd1306ui.cpp:241-247 | One step forward then one step back (and the reverse) returns to the starting frame. |
| Frames.ForwardAndBackwardTargetsDiffer | lib/esp_ssd1306/esp_ssd1306ui.cpp:241-247 | With 3 or more frames, the next frame for direction +1 differs from the next frame for direction -1. |
| Geometry.Travelled | lib/esp_ssd1306/esp_ssd1306ui.cpp:146-169 | Pixels slid after `t` of `T` ticks: `d*T <= extent*t < (d+1)*T`, `d >= 0`, and `d < extent` while `t < T`. |
| Geometry.Signed | lib/esp_ssd1306/esp_ssd1306ui.cpp:175-177 | An offset times the sign of the transition direction (+1 for a direction `>= 0`, -1 otherwise): the same magnitude, reversed going backward. |
| Geometry.TransitionOffsets | lib/esp_ssd1306/esp_ssd1306ui.cpp:145-177 | The incoming offset is the outgoing one plus one screen (±128 on x for left/right slides, ±64 on y for up/down), negated for a backward direction. Only one axis moves. The outgoing frame is displaced by the travelled distance in the slide's sense, reversed going backward. |
| Geometry.TransitionStartsInPlace | lib/esp_ssd1306/esp_ssd1306ui.cpp:146-172 | At tick 0 the outgoing frame is at (0,0) and the incoming frame is one full screen away. |
| Geometry.OutgoingStaysOnScreen | lib/esp_ssd1306/esp_ssd1306ui.cpp:146-172 | While `t < T`, the outgoing offset stays strictly within one screen width and height. |
| Geometry.TravelledMonotone | lib/esp_ssd1306/esp_ssd1306ui.cpp:146-169 | The slid distance never decreases as ticks go by. |
| Indicator.ActiveSlot | lib/esp_ssd1306/esp_ssd1306ui.cpp:190-199 | The `byte` slot of the active symbol: a value in `[0, 256)` congruent modulo 256 to the current frame (LEFT_RIGHT) or to `frameCount-1-currentFrame` (RIGHT_LEFT). |
| Indicator.SymbolAt | lib/esp_ssd1306/esp_ssd1306ui.cpp:212-229 | Symbol `i` touches its edge of the screen (y = 0, y + 8 = 64, x + 8 = 128 or x = 0). Along the edge it starts `12*i` px after the first symbol, which starts half a row of `frameCount` 12 px cells before the middle of the edge. |
| Indicator.Layout | lib/esp_ssd1306/esp_ssd1306ui.cpp:189-233 | One 8x8 `drawXbm` per frame. With the current frame in range and distinct active and inactive symbols, exactly one symbol is active: slot `currentFrame` for LEFT_RIGHT, slot `frameCount-1-currentFrame` for RIGHT_LEFT. Symbols are spaced 12 px apart along the edge and share the other coordinate. |
| Indicator.ActiveSlotInRange | lib/esp_ssd1306/esp_ssd1306ui.cpp:190-199 | For a current frame in range, the `byte` slot equals the frame index or its mirror image (no truncation). |
| Indicator.SymbolsSpaced | lib/esp_ssd1306/esp_ssd1306ui.cpp:212-229 | Symbol `j` is `12*(j-i)` px from symbol `i` along the edge (x for TOP/BOTTOM, y for LEFT/RIGHT). |
| Indicator.Centred | lib/esp_ssd1306/esp_ssd1306ui.cpp:213-228 | The run of `frameCount` 12 px cells starting at the first symbol is centred on x = 64 (TOP/BOTTOM) or y = 32 (LEFT/RIGHT). The 8 px symbols sit at the start of their cells, so the symbols themselves are centred 2 px earlier. |
| Indicator.FitsOnScreen | lib/esp_ssd1306/esp_ssd1306ui.cpp:212-231 | Every symbol is wholly on screen if and only if `frameCount <= 10` (TOP/BOTTOM) or `frameCount <= 5` (LEFT/RIGHT). |
| Machine.Switch | lib/esp_ssd1306/esp_ssd1306ui.cpp:110-131 | IN_TRANSITION: the tick marks dirty. When the counter reaches `ticksPerTransition`, the state becomes FIXED on `NextFrameNumber` with counter 0; otherwise only the counter grows. FIXED: the frame never changes. On reaching `ticksPerFrame` the counter resets, and IN_TRANSITION starts iff auto-transition is on. Dirty afterwards iff dirty before, or the machine was or now is in transition. A valid frame index stays valid. |
| Machine.RunAdditive | lib/esp_ssd1306/esp_ssd1306ui.cpp:110-131 | `a + b` ticks equal `a` ticks followed by `b` ticks. |
| Machine.ManualModeHoldsFrame | lib/esp_ssd1306/esp_ssd1306ui.cpp:122-130 | With auto-transition off, a FIXED frame stays FIXED on the same frame for any number of ticks. |
| Machine.TransitionInProgress | lib/esp_ssd1306/esp_ssd1306ui.cpp:114-121 | Before its time is up, a transition only counts ticks. |
| Machine.TransitionCompletes | lib/esp_ssd1306/esp_ssd1306ui.cpp:114-121 | A transition with `c` ticks done ends after exactly `ticksPerTransition - c` more ticks: FIXED, next frame, counter 0. |
| Machine.FrameInProgress | lib/esp_ssd1306/esp_ssd1306ui.cpp:122-130 | Before its time is up, a FIXED frame only counts ticks. |
| Machine.FrameTimeUp | lib/esp_ssd1306/esp_ssd1306ui.cpp:122-130 | With auto-transition on, a FIXED frame with `c` ticks done starts the transition after exactly `ticksPerFrame - c` more ticks. |
| Machine.TransitionFromRest | lib/esp_ssd1306/esp_ssd1306ui.cpp:114-130 | A transition started from a frame at rest ends, after `ticksPerTransition` ticks, at rest on the next frame. |
| Machine.BackwardsSetterLeadsForward | lib/esp_ssd1306/esp_ssd1306ui.cpp:33-35 | With the +1 that `setAutoTransitionBackwards` stores and 3 or more frames, a transition in progress ends on the frame after the current one, never on the frame before it. |
| Machine.AutoCycleAdvancesOneFrame | lib/esp_ssd1306/esp_ssd1306ui.cpp:110-131 | One display period plus one transition period moves the display on by exactly one frame in the transition direction, back at rest with counter 0. |
| Machine.TimeBudget | lib/esp_ssd1306/esp_ssd1306ui.cpp:98 | The budget is spent (`<= 0`) exactly when a whole update interval has passed since the last update, and it is never more than one interval. |
| Machine.CatchUp | lib/esp_ssd1306/esp_ssd1306ui.cpp:98-103 | Once the budget is spent, only `ticksSinceLastStateSwitch` and `lastUpdate := now` change. With auto-transition on and a previous update, catch-up plus the tick's own increment add exactly `(now - lastUpdate) / updateInterval` ticks (whole intervals elapsed). Otherwise the counter is untouched. |
| Machine.IntervalsElapsed | lib/esp_ssd1306/esp_ssd1306ui.cpp:101 | `(elapsed - interval) / interval`, truncated, is one less than the number of whole intervals in `elapsed`. |
| Ui.Controller.constructor | lib/esp_ssd1306/esp_ssd1306ui.cpp:4-6 | Every field takes the given value: configuration, frame and overlay counts, initial UI state and dirty flag. The trace starts empty. |
| Ui.Controller.EnableAutoTransition | lib/esp_ssd1306/esp_ssd1306ui.cpp:24-26 | Sets `autoTransition`; nothing else changes. |
| Ui.Controller.DisableAutoTransition | lib/esp_ssd1306/esp_ssd1306ui.cpp:27-29 | Clears `autoTransition`; nothing else changes. |
| Ui.Controller.SetAutoTransitionForwards | lib/esp_ssd1306/esp_ssd1306ui.cpp:30-32 | `frameTransitionDirection == 1`; nothing else changes. |
| Ui.Controller.SetAutoTransitionBackwards | lib/esp_ssd1306/esp_ssd1306ui.cpp:33-35 | `frameTransitionDirection == 1`, the same value as the forwards setter; nothing else changes. |
| Ui.Controller.SetTimePerFrame | lib/esp_ssd1306/esp_ssd1306ui.cpp:36-38 | `ticksPerFrame` is the truncated quotient of `time` by `updateInterval`. For `time >= 0`, a frame's duration in ms is within one interval below `time`. Dirty is untouched. |
| Ui.Controller.SetTimePerTransition | lib/esp_ssd1306/esp_ssd1306ui.cpp:39-41 | The same for `ticksPerTransition`. |
| Ui.Controller.SetIndicatorPosition | lib/esp_ssd1306/esp_ssd1306ui.cpp:45-48 | Stores the position and sets dirty. |
| Ui.Controller.SetIndicatorDirection | lib/esp_ssd1306/esp_ssd1306ui.cpp:49-51 | Stores the direction; dirty is NOT set. |
| Ui.Controller.SetActiveSymbol | lib/esp_ssd1306/esp_ssd1306ui.cpp:52-55 | Stores the active symbol and sets dirty. |
| Ui.Controller.SetInactiveSymbol | lib/esp_ssd1306/esp_ssd1306ui.cpp:56-59 | Stores the inactive symbol and sets dirty. |
| Ui.Controller.SetFrameAnimation | lib/esp_ssd1306/esp_ssd1306ui.cpp:63-65 | Stores the slide direction; dirty is NOT set. |
| Ui.Controller.SetFrames | lib/esp_ssd1306/esp_ssd1306ui.cpp:66-69 | Stores the frame count; the current frame is not reset. |
| Ui.Controller.SetOverlays | lib/esp_ssd1306/esp_ssd1306ui.cpp:72-75 | Stores the overlay count. |
| Ui.Controller.NextFrame | lib/esp_ssd1306/esp_ssd1306ui.cpp:79-83 | IN_TRANSITION with counter 0 and direction +1, even mid-transition. `currentFrame`, `lastUpdate` and `dirty` are unchanged. |
| Ui.Controller.PreviousFrame | lib/esp_ssd1306/esp_ssd1306ui.cpp:84-88 | IN_TRANSITION with counter 0 and direction -1, even mid-transition. `currentFrame`, `lastUpdate` and `dirty` are unchanged. |
| Ui.Controller.GetUiState | lib/esp_ssd1306/esp_ssd1306ui.cpp:92-94 | Returns the UI state record. |
| Ui.Controller.FrameCalls | lib/esp_ssd1306/esp_ssd1306ui.cpp:143-187 | One frame callback at rest, at (0,0); two in transition. Each is for a frame that exists, the current frame first. In transition the second is `NextFrameNumber`, drawn one screen from the first, against the slide and reversed going backward. |
| Ui.Controller.Redraw | lib/esp_ssd1306/esp_ssd1306ui.cpp:133-140 | A full redraw clears the display first and presents it last, with neither in between. In between come one symbol per frame, the frame callbacks and one call per overlay. |
| Ui.Controller.Update | lib/esp_ssd1306/esp_ssd1306ui.cpp:97-107 | Returns `updateInterval - (now - lastUpdate)`. If positive, nothing changes, whatever the frame list and transition length. Otherwise the new state is `Switch(CatchUp(old state))`: catch-up, then exactly one tick, with the redraw and dirty outcome of `Tick`. |
| Ui.Controller.Tick | lib/esp_ssd1306/esp_ssd1306ui.cpp:110-141 | The state becomes `Switch(old state)`. A full redraw (clear, indicator, frames, overlays, present) is appended to the trace exactly when the switch leaves the display dirty. Afterwards dirty holds iff that redraw happened and some frame or overlay callback reported drawing. The frame index stays valid. |
| Ui.Controller.SwitchState | lib/esp_ssd1306/esp_ssd1306ui.cpp:111-131 | In-place counterpart of `Machine.Switch`: the fields `state` and `dirty` become its result. |
| Ui.Controller.RedrawDisplay | lib/esp_ssd1306/esp_ssd1306ui.cpp:133-140 | Appends `Clear`, the indicator layout, the frame calls, the overlay calls and `Present`. Dirty becomes true iff some callback drew. |
| Ui.Controller.DrawFrame | lib/esp_ssd1306/esp_ssd1306ui.cpp:143-187 | FIXED: the current frame is called at (0,0). IN_TRANSITION: the current frame at the outgoing offset, then `NextFrameNumber` at the incoming offset. Dirty accumulates each callback's result. |
| Ui.Controller.DrawIndicator | lib/esp_ssd1306/esp_ssd1306ui.cpp:189-233 | Appends exactly `Indicator.Layout` for the current configuration, slot 0 first. |
| Ui.Controller.DrawOverlays | lib/esp_ssd1306/esp_ssd1306ui.cpp:235-239 | Calls overlays `0 .. overlayCount-1` in order. Dirty becomes old dirty or'ed with every overlay's result. |

## Behaviour of the source worth noting

Line numbers below refer to `lib/esp_ssd1306/esp_ssd1306ui.cpp`.

- `setAutoTransitionBackwards` stores +1, exactly like `setAutoTransitionForwards`, although its name says
  it should make automatic transitions go backward. The model keeps the +1.
  `Machine.BackwardsSetterLeadsForward` shows the consequence: with 3 or more frames, a transition
  still ends on the following frame, not the preceding one.
- The catch-up at line 101 divides two `int`s before `ceil`, so the `ceil` has no effect. The model uses
  truncating division. As `Machine.CatchUp` proves, catch-up plus the tick's own increment then advance the
  counter by the whole number of intervals elapsed.
- `setTimePerFrame` and `setTimePerTransition` truncate and do not clamp: a duration shorter than one
  interval gives 0 ticks (so does a negative one shorter than one interval), and a duration of
  `-updateInterval` or less gives a negative count.
- `setIndicatorDirection` and `setFrameAnimation` do not set the dirty flag.
- `setFrames` does not reset or check the current frame. With `frameCount == 0`, `tick` has no guard. A
  tick that ends a transition (line 118) or redraws one (line 180) divides by zero in
  `getNextFrameNumber`, and a tick that redraws indexes past the frame array (lines 179 and 184). A
  tick at rest that does not redraw touches neither. The model makes `frameCount >= 1` a precondition
  of `Tick` (see below).

## Left out

- `setTargetFPS` (lines 12-20) is not modelled. It is float arithmetic whose operand types are in `esp_ssd1306ui.h`, which is not part of this model, and it divides by zero at `fps = 0`.
- `init` (lines 8-10) and the display driver are hardware I/O. Neither `init` is modelled. Only the order and the arguments of the calls to `clear`, `display` and `drawXbm` are recorded, in `trace`.
- Ui.Controller.constructor: the pointer wiring is not modelled. The field defaults come from `esp_ssd1306ui.h`, which is not part of this model, so the constructor takes every field's initial value as a parameter (configuration, transition direction, frame and overlay counts, UI state, dirty flag). It requires `updateInterval >= 1` (the source divides by it at lines 37, 40 and 101) and a non-negative tick counter and update time in the initial state.
- The frame and overlay callbacks are user code. Only their boolean results are modelled, as inputs. They also receive a pointer to the UI state and could change it; the model assumes they do not.
- The callback arrays themselves are not modelled, only `frameCount` and `overlayCount`.
- `millis()` is the parameter `now`. The second read at line 103 is taken equal to the first (line 98).
- Geometry.TransitionOffsets: the float `progress` at line 146 is modelled by exact rational arithmetic truncated toward zero. A float rounding that lands on the other side of an integer is not captured.
- Ui.Controller.SetTimePerFrame and Ui.Controller.SetTimePerTransition: the float quotient is modelled as exact integer division truncated toward zero. Float rounding is not captured.
- Ui.Controller.Update: requires `now >= lastUpdate`, and the requirements of `Tick` (below) only when the budget is spent and a tick runs. Unsigned wrap-around of the millisecond counter is not modelled, nor is the 32-bit range of `int`.
- Ui.Controller.Tick: requires `1 <= frameCount <= 255`, a current frame in range and `ticksPerTransition >= 1`. Without them the source divides by zero (`frameCount == 0`, when a tick ends or draws a transition), indexes past the frame array (when a tick redraws), or loops forever (a `byte` loop counter with `frameCount > 255`, when a tick redraws). The source has no guard for any of these. `ticksPerTransition >= 1` excludes instant transitions (`ticksPerTransition <= 0`) even though the source defines most of them: a transition in progress then ends in the same tick and the frame is drawn at rest, and a negative length at an automatic start gives progress -0.0, so the outgoing offset is 0 and the incoming one is one screen away. Only `ticksPerTransition == 0` at an automatic start faults, computing `0.0/0.0` and converting NaN to `int`. Only the automatic start depends on the float progress, which the model does not cover. The manual-mode case (auto-transition off, so every transition ends in the tick it runs and is never drawn) computes no progress; the model excludes it by choice, to keep one precondition for every tick.
- Ui.Controller.DrawIndicator: requires `frameCount <= 255`, for the same `byte` loop counter.
- 32-bit overflow of the tick counter and of the coordinate arithmetic is not modelled.
