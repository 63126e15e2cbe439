/**
 * Rectangular pixel regions with inclusive extents: the `Bounds` value of the
 * ssd1963 controller crate, which the terminal and the scroller build, resize
 * and translate. The crate itself is not part of this model; these definitions
 * give `Bounds` the meaning its callers rely on (inclusive edges, resizing
 * from the start edge, translation of both edges).
 */
module Geometry {
  import opened Uint
  import opened Wrappers

  datatype Bounds = Bounds(xStart: u16, xEnd: u16, yStart: u16, yEnd: u16)

  /** A non-empty rectangle: both start edges at or before the end edges. */
  predicate Valid(b: Bounds)
  {
    b.xStart <= b.xEnd && b.yStart <= b.yEnd
  }

  function Width(b: Bounds): int
  {
    b.xEnd - b.xStart + 1
  }

  function Height(b: Bounds): int
  {
    b.yEnd - b.yStart + 1
  }

  function Area(b: Bounds): nat
    requires Valid(b)
  {
    Width(b) * Height(b)
  }

  predicate Contains(b: Bounds, x: int, y: int)
  {
    b.xStart <= x <= b.xEnd && b.yStart <= y <= b.yEnd
  }

  /** b lies inside a width x height screen whose origin is (0, 0). */
  predicate Inside(b: Bounds, width: int, height: int)
  {
    Valid(b) && b.xEnd < width && b.yEnd < height
  }

  /** The whole screen, `0..=WIDTH-1` by `0..=HEIGHT-1`. */
  function ScreenBounds(width: u16, height: u16): (r: Bounds)
    requires width >= 1 && height >= 1
    ensures Inside(r, width, height) && Width(r) == width && Height(r) == height
  {
    Bounds(0, width - 1, 0, height - 1)
  }

  /**
   * `Bounds::new_within` applied to the inclusive ranges of `b`: the
   * rectangle itself when it is non-empty and lies inside `outer`, and a
   * failure otherwise.
   */
  function NewWithin(b: Bounds, outer: Bounds): (r: Option<Bounds>)
    ensures r.Some? <==> Valid(b) && outer.xStart <= b.xStart && b.xEnd <= outer.xEnd
                         && outer.yStart <= b.yStart && b.yEnd <= outer.yEnd
    ensures r.Some? ==> r.value == b
  {
    if Valid(b) && outer.xStart <= b.xStart && b.xEnd <= outer.xEnd
       && outer.yStart <= b.yStart && b.yEnd <= outer.yEnd
    then Some(b) else None
  }

  /** `set_height`: keeps the top edge and moves the bottom edge. */
  function SetHeight(b: Bounds, h: int): (r: Bounds)
    requires 1 <= h && b.yStart + h - 1 < 0x1_0000
    ensures Height(r) == h && r.yStart == b.yStart
    ensures r.xStart == b.xStart && r.xEnd == b.xEnd
  {
    b.(yEnd := b.yStart + h - 1)
  }

  /** `set_width`: keeps the left edge and moves the right edge. */
  function SetWidth(b: Bounds, w: int): (r: Bounds)
    requires 1 <= w && b.xStart + w - 1 < 0x1_0000
    ensures Width(r) == w && r.xStart == b.xStart
    ensures r.yStart == b.yStart && r.yEnd == b.yEnd
  {
    b.(xEnd := b.xStart + w - 1)
  }

  /** Translating by (dx, dy) keeps every edge a u16 coordinate. */
  predicate CanMoveBy(b: Bounds, dx: int, dy: int)
  {
    0 <= b.xStart + dx < 0x1_0000 && 0 <= b.xEnd + dx < 0x1_0000
    && 0 <= b.yStart + dy < 0x1_0000 && 0 <= b.yEnd + dy < 0x1_0000
  }

  /** `move_by`: translates both edges, keeping the size. */
  function MoveBy(b: Bounds, dx: int, dy: int): (r: Bounds)
    requires CanMoveBy(b, dx, dy)
    ensures Width(r) == Width(b) && Height(r) == Height(b)
  {
    Bounds(b.xStart + dx, b.xEnd + dx, b.yStart + dy, b.yEnd + dy)
  }

  /** A translated rectangle holds exactly the translates of the original's pixels. */
  lemma MoveByContains(b: Bounds, dx: int, dy: int, x: int, y: int)
    requires CanMoveBy(b, dx, dy)
    ensures Contains(MoveBy(b, dx, dy), x, y) <==> Contains(b, x - dx, y - dy)
  {
  }
}
