/** Page-indicator layout of `drawIndicator`: one 8x8 symbol per frame, 12 px
    apart, along one edge of the 128x64 display; the symbol of the page shown
    is the active one. */
module Indicator {
  import opened Display

  datatype IndicatorPosition = Top | Bottom | Right | Left

  datatype IndicatorDirection = LeftRight | RightLeft

  const SymbolSize: int := 8
  const SymbolSpacing: int := 12

  datatype Point = Point(x: int, y: int)

  /** The slot whose symbol is active: the current frame's index, mirrored for
      RIGHT_LEFT. The source keeps it in a `byte`, hence the reduction modulo
      256 (an unsigned conversion). */
  function ActiveSlot(direction: IndicatorDirection, currentFrame: int, frameCount: int): (b: int)
    // A byte value congruent to the intended slot modulo 256.
    ensures 0 <= b < 256
    ensures ((if direction == LeftRight then currentFrame else frameCount - 1 - currentFrame) - b) % 256 == 0
  {
    var slot := match direction
      case LeftRight => currentFrame
      case RightLeft => (frameCount - 1) - currentFrame;
    slot % 256
  }

  /** Top-left corner of the symbol for slot `i`. */
  function SymbolAt(position: IndicatorPosition, frameCount: int, i: int): (p: Point)
    // The symbol touches its edge of the 128x64 screen ...
    ensures position == Top ==> p.y == 0
    ensures position == Bottom ==> p.y + SymbolSize == 64
    ensures position == Right ==> p.x + SymbolSize == 128
    ensures position == Left ==> p.x == 0
    // ... and slot `i` starts `i` cells after the first, which starts half a
    // row of `frameCount` cells before the middle of the edge.
    ensures AlongTopOrBottom(position) ==> 2 * (p.x - SymbolSpacing * i) + SymbolSpacing * frameCount == 128
    ensures !AlongTopOrBottom(position) ==> 2 * (p.y - SymbolSpacing * i) + SymbolSpacing * frameCount == 64
  {
    HalfRow(frameCount);
    match position
    case Top => Point(64 - (12 * frameCount / 2) + 12 * i, 0)
    case Bottom => Point(64 - (12 * frameCount / 2) + 12 * i, 56)
    case Right => Point(120, 32 - (12 * frameCount / 2) + 12 * i)
    case Left => Point(0, 32 - (12 * frameCount / 2) + 12 * i)
  }

  /** The `drawXbm` call for slot `i`. */
  function SymbolCall(direction: IndicatorDirection, position: IndicatorPosition, currentFrame: int,
                      frameCount: int, active: Bitmap, inactive: Bitmap, i: int): DrawCall
  {
    var p := SymbolAt(position, frameCount, i);
    Xbm(p.x, p.y, SymbolSize, SymbolSize,
        if ActiveSlot(direction, currentFrame, frameCount) == i then active else inactive)
  }

  /** The `drawXbm` calls of one indicator pass, slot 0 first. */
  function Layout(direction: IndicatorDirection, position: IndicatorPosition, currentFrame: int,
                  frameCount: int, active: Bitmap, inactive: Bitmap): (layout: seq<DrawCall>)
    ensures |layout| == if frameCount <= 0 then 0 else frameCount
    ensures forall i :: 0 <= i < |layout| ==>
              && layout[i].Xbm?
              && layout[i].width == SymbolSize && layout[i].height == SymbolSize
              && (layout[i].image == active || layout[i].image == inactive)
    // With the current frame in range, exactly one symbol is the active one:
    // the current frame's slot for LEFT_RIGHT, its mirror image for RIGHT_LEFT.
    ensures 1 <= frameCount <= 256 && 0 <= currentFrame < frameCount && active != inactive ==>
      var slot := if direction == LeftRight then currentFrame else frameCount - 1 - currentFrame;
      0 <= slot < frameCount && forall i :: 0 <= i < |layout| ==> (layout[i].image == active <==> i == slot)
    // Symbols are spaced 12 px apart along the indicator's edge, in slot
    // order, and share the other coordinate.
    ensures forall i, j :: 0 <= i <= j < |layout| ==>
      if AlongTopOrBottom(position) then
        layout[j].x - layout[i].x == SymbolSpacing * (j - i) && layout[j].y == layout[i].y
      else
        layout[j].y - layout[i].y == SymbolSpacing * (j - i) && layout[j].x == layout[i].x
  {
    if frameCount <= 0 then []
    else
      ActiveSlotInRange(direction, currentFrame, frameCount);
      SymbolsSpaced(position, frameCount);
      seq(frameCount, i requires 0 <= i < frameCount =>
            SymbolCall(direction, position, currentFrame, frameCount, active, inactive, i))
  }

  lemma ActiveSlotInRange(direction: IndicatorDirection, currentFrame: int, frameCount: int)
    ensures 1 <= frameCount <= 256 && 0 <= currentFrame < frameCount ==>
      ActiveSlot(direction, currentFrame, frameCount)
      == if direction == LeftRight then currentFrame else frameCount - 1 - currentFrame
  {
  }

  lemma SymbolsSpaced(position: IndicatorPosition, frameCount: int)
    ensures forall i, j ::
      var p, q := SymbolAt(position, frameCount, i), SymbolAt(position, frameCount, j);
      if AlongTopOrBottom(position) then q.x - p.x == SymbolSpacing * (j - i) && q.y == p.y
      else q.y - p.y == SymbolSpacing * (j - i) && q.x == p.x
  {
  }

  predicate AlongTopOrBottom(position: IndicatorPosition) {
    position == Top || position == Bottom
  }

  /** The row is offset by half its own length: `12 * frameCount / 2` is exact. */
  lemma HalfRow(frameCount: int)
    ensures 12 * frameCount / 2 == 6 * frameCount
  {
    assert 12 * frameCount == 2 * (6 * frameCount);
  }

  /** The run of `frameCount` 12 px cells that starts at the first symbol is
      centred on the middle of its edge (x = 64, or y = 32). Each 8 px symbol
      sits at the start of its cell, so the symbols themselves span a range
      centred 2 px earlier (x = 62, or y = 30): with 4 frames on the top edge
      they cover x = 40 .. 84. */
  lemma Centred(position: IndicatorPosition, frameCount: int)
    requires frameCount >= 1
    ensures var first := SymbolAt(position, frameCount, 0);
      var last := SymbolAt(position, frameCount, frameCount - 1);
      if AlongTopOrBottom(position) then first.x + (last.x + SymbolSpacing) == 2 * 64
      else first.y + (last.y + SymbolSpacing) == 2 * 32
  {
    HalfRow(frameCount);
  }

  /** Every symbol lies wholly on the 128x64 screen exactly when there are at
      most 10 pages (top or bottom edge) or at most 5 pages (left or right). */
  lemma FitsOnScreen(position: IndicatorPosition, frameCount: int)
    requires frameCount >= 1
    ensures (forall i :: 0 <= i < frameCount ==> OnScreen(SymbolAt(position, frameCount, i)))
        <==> frameCount <= (if AlongTopOrBottom(position) then 10 else 5)
  {
    HalfRow(frameCount);
    var first := SymbolAt(position, frameCount, 0);
    var last := SymbolAt(position, frameCount, frameCount - 1);
    if frameCount <= (if AlongTopOrBottom(position) then 10 else 5) {
      forall i | 0 <= i < frameCount
        ensures OnScreen(SymbolAt(position, frameCount, i))
      {
      }
    } else {
      assert !OnScreen(first) || !OnScreen(last);
    }
  }

  predicate OnScreen(p: Point) {
    0 <= p.x && p.x + SymbolSize <= 128 && 0 <= p.y && p.y + SymbolSize <= 64
  }
}
