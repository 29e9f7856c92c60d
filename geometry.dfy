/** Transition geometry of `drawFrame`: where the outgoing and the incoming
    frame are drawn while a slide is in progress on the 128x64 display.

    The source computes `progress = ticks / ticksPerTransition` as a float and
    converts `±128 * progress` (or `±64 * progress`) back to `int`, truncating
    toward zero. The model uses the exact rational value: the distance slid is
    `(extent * ticks) / ticksPerTransition`, rounded toward zero.
 */
module Geometry {

  const Width: int := 128
  const Height: int := 64

  datatype AnimationDirection = SlideLeft | SlideRight | SlideUp | SlideDown

  datatype Offset = Offset(x: int, y: int)

  /** Where the two frames of a transition are drawn. */
  datatype FramePair = FramePair(outgoing: Offset, incoming: Offset)

  predicate Horizontal(animation: AnimationDirection) {
    animation == SlideLeft || animation == SlideRight
  }

  /** The pixels slid after `ticks` of a `ticksPerTransition`-tick slide
      across `extent` pixels. */
  function Travelled(extent: int, ticks: int, ticksPerTransition: int): (d: int)
    requires extent >= 0 && ticks >= 0 && ticksPerTransition >= 1
    ensures 0 <= d
    ensures d * ticksPerTransition <= extent * ticks < (d + 1) * ticksPerTransition
    ensures ticks < ticksPerTransition ==> d < extent || extent == 0
  {
    TravelledBounds(extent, ticks, ticksPerTransition);
    (extent * ticks) / ticksPerTransition
  }

  lemma TravelledBounds(extent: int, ticks: int, ticksPerTransition: int)
    requires extent >= 0 && ticks >= 0 && ticksPerTransition >= 1
    ensures var d := (extent * ticks) / ticksPerTransition;
      && 0 <= d
      && d * ticksPerTransition <= extent * ticks < (d + 1) * ticksPerTransition
      && (ticks < ticksPerTransition ==> d < extent || extent == 0)
  {
    var p := extent * ticks;
    NonnegativeProduct(extent, ticks);
    var d := p / ticksPerTransition;
    assert d * ticksPerTransition + p % ticksPerTransition == p;
    if ticks < ticksPerTransition && extent > 0 && d >= extent {
      MultiplyMonotone(ticks, ticksPerTransition, extent);
      MultiplyMonotone(extent, d, ticksPerTransition);
      assert false;
    }
  }

  lemma NonnegativeProduct(a: int, b: int)
    requires a >= 0 && b >= 0
    ensures a * b >= 0
  {
  }

  lemma MultiplyMonotone(a: int, b: int, c: int)
    requires a <= b && c >= 0
    ensures a * c <= b * c
  {
    assert b * c - a * c == (b - a) * c;
    NonnegativeProduct(b - a, c);
  }

  /** An offset multiplied by the direction's sign (`+1` for a forward
      direction `>= 0`, `-1` for a backward one): kept going forward, negated
      going backward. */
  function Signed(v: int, direction: int): (r: int)
    ensures r == v * (if direction >= 0 then 1 else -1)
    ensures r * r == v * v
  {
    if direction >= 0 then v else -v
  }

  /** The offset from the outgoing frame to the incoming one, before the
      direction sign is applied: one full screen against the slide. */
  function ScreenGap(animation: AnimationDirection): Offset {
    match animation
    case SlideLeft => Offset(Width, 0)
    case SlideRight => Offset(-Width, 0)
    case SlideUp => Offset(0, Height)
    case SlideDown => Offset(0, -Height)
  }

  /** The offsets at which `drawFrame` draws the current frame (outgoing) and
      the next frame (incoming) after `ticks` ticks of a transition. */
  function TransitionOffsets(animation: AnimationDirection, ticks: int, ticksPerTransition: int,
                             direction: int): (p: FramePair)
    requires ticks >= 0 && ticksPerTransition >= 1
    // The incoming frame sits one screen away from the outgoing one ...
    ensures p.incoming.x == p.outgoing.x + Signed(ScreenGap(animation).x, direction)
    ensures p.incoming.y == p.outgoing.y + Signed(ScreenGap(animation).y, direction)
    // ... and both move along one axis only.
    ensures Horizontal(animation) ==> p.outgoing.y == 0 && p.incoming.y == 0
    ensures !Horizontal(animation) ==> p.outgoing.x == 0 && p.incoming.x == 0
    // The outgoing frame has slid the travelled distance, in the slide's sense,
    // reversed for a backward transition.
    ensures animation == SlideLeft ==> p.outgoing.x == Signed(-Travelled(Width, ticks, ticksPerTransition), direction)
    ensures animation == SlideRight ==> p.outgoing.x == Signed(Travelled(Width, ticks, ticksPerTransition), direction)
    ensures animation == SlideUp ==> p.outgoing.y == Signed(-Travelled(Height, ticks, ticksPerTransition), direction)
    ensures animation == SlideDown ==> p.outgoing.y == Signed(Travelled(Height, ticks, ticksPerTransition), direction)
  {
    var raw := match animation
      case SlideLeft =>
        var x := -Travelled(Width, ticks, ticksPerTransition);
        FramePair(Offset(x, 0), Offset(x + Width, 0))
      case SlideRight =>
        var x := Travelled(Width, ticks, ticksPerTransition);
        FramePair(Offset(x, 0), Offset(x - Width, 0))
      case SlideUp =>
        var y := -Travelled(Height, ticks, ticksPerTransition);
        FramePair(Offset(0, y), Offset(0, y + Height))
      case SlideDown =>
        var y := Travelled(Height, ticks, ticksPerTransition);
        FramePair(Offset(0, y), Offset(0, y - Height));
    FramePair(Offset(Signed(raw.outgoing.x, direction), Signed(raw.outgoing.y, direction)),
              Offset(Signed(raw.incoming.x, direction), Signed(raw.incoming.y, direction)))
  }

  /** At the start of a transition the outgoing frame is still in place and the
      incoming one a full screen away; while the transition runs
      (`ticks < ticksPerTransition`) the outgoing frame has not yet left the
      screen. */
  lemma TransitionStartsInPlace(animation: AnimationDirection, ticksPerTransition: int, direction: int)
    requires ticksPerTransition >= 1
    ensures TransitionOffsets(animation, 0, ticksPerTransition, direction).outgoing == Offset(0, 0)
    ensures TransitionOffsets(animation, 0, ticksPerTransition, direction).incoming
         == Offset(Signed(ScreenGap(animation).x, direction), Signed(ScreenGap(animation).y, direction))
  {
    assert Travelled(Width, 0, ticksPerTransition) == 0;
    assert Travelled(Height, 0, ticksPerTransition) == 0;
  }

  lemma OutgoingStaysOnScreen(animation: AnimationDirection, ticks: int, ticksPerTransition: int, direction: int)
    requires 0 <= ticks < ticksPerTransition
    ensures var p := TransitionOffsets(animation, ticks, ticksPerTransition, direction);
      -Width < p.outgoing.x < Width && -Height < p.outgoing.y < Height
  {
  }

  /** The slide only moves forward: the distance travelled never decreases as
      ticks go by. */
  lemma {:induction false} TravelledMonotone(extent: int, t1: int, t2: int, ticksPerTransition: int)
    requires extent >= 0 && 0 <= t1 <= t2 && ticksPerTransition >= 1
    ensures Travelled(extent, t1, ticksPerTransition) <= Travelled(extent, t2, ticksPerTransition)
  {
    var d1 := Travelled(extent, t1, ticksPerTransition);
    var d2 := Travelled(extent, t2, ticksPerTransition);
    MultiplyMonotone(t1, t2, extent);
    assert extent * t1 <= extent * t2;
    assert d1 * ticksPerTransition < (d2 + 1) * ticksPerTransition;
    if d1 > d2 {
      MultiplyMonotone(d2 + 1, d1, ticksPerTransition);
    }
  }
}
