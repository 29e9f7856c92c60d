/** What a redraw hands to the display driver and to the user's callbacks.

    The driver and the callbacks are not modelled; the controller's effect on
    them is the ordered list of calls it makes, recorded as `DrawCall` values.
 */
module Display {

  /** An opaque bitmap handle (the active and inactive indicator symbols). */
  datatype Bitmap = Bitmap(handle: nat)

  datatype DrawCall =
    | Clear                                                  // display->clear()
    | Xbm(x: int, y: int, width: int, height: int, image: Bitmap)  // display->drawXbm(...)
    | FrameCallback(index: int, x: int, y: int)              // frameFunctions[index](display, &state, x, y)
    | OverlayCallback(index: int)                            // overlayFunctions[index](display, &state)
    | Present                                                // display->display()

  /** The overlay callbacks `0 .. count-1`, called in order. */
  function OverlayCalls(count: int): seq<DrawCall> {
    if count <= 0 then [] else seq(count, i requires 0 <= i < count => OverlayCallback(i))
  }

  /** Some overlay callback among the first `count` reported that it drew. */
  predicate AnyDrew(drew: seq<bool>, count: int)
    requires count <= |drew|
  {
    exists i :: 0 <= i < count && drew[i]
  }
}
