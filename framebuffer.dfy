/**
 * The display memory as the scroller and the terminal see it through the
 * controller crate's `Display::fill_area` and `ReadArea::read_area`: a frame
 * of 16-bit colours, written and read in raster order through a rectangular
 * window. The crate is not part of this model; `Screen` is a stand-in with
 * the behaviour its callers rely on, and read failures come from a script of
 * faults, one consumed per `read_area` call.
 */
module Framebuffer {
  import opened Uint
  import opened Wrappers
  import opened Geometry

  /** frame[y][x] is the colour of pixel (x, y). */
  type Frame = seq<seq<u16>>

  predicate IsFrame(f: Frame, width: int, height: int)
  {
    |f| == height && forall y :: 0 <= y < |f| ==> |f[y]| == width
  }

  /** Window b is non-empty and every one of its pixels is in frame f. */
  predicate Covers(f: Frame, b: Bounds)
  {
    Valid(b) && b.yEnd < |f| && forall y :: 0 <= y < |f| ==> b.xEnd < |f[y]|
  }

  /** Position of pixel (x, y) in the raster-order stream of window b. */
  function Offset(b: Bounds, x: int, y: int): int
  {
    (y - b.yStart) * Width(b) + (x - b.xStart)
  }

  /** Raster order gives each pixel of a window its own position in 0 .. Area(b) - 1. */
  lemma OffsetInWindow(b: Bounds, x: int, y: int)
    requires Valid(b) && Contains(b, x, y)
    ensures 0 <= Offset(b, x, y) < Area(b)
    ensures Offset(b, x, y) / Width(b) == y - b.yStart && Offset(b, x, y) % Width(b) == x - b.xStart
  {
    DivModOf(y - b.yStart, Width(b), x - b.xStart);
    MulLeft(y - b.yStart, Height(b) - 1, Width(b));
    assert (Height(b) - 1) * Width(b) == Area(b) - Width(b);
  }

  /** ... and every position 0 .. Area(b) - 1 belongs to a pixel of the window. */
  lemma PixelAt(b: Bounds, k: int)
    requires Valid(b) && 0 <= k < Area(b)
    ensures Contains(b, b.xStart + k % Width(b), b.yStart + k / Width(b))
    ensures Offset(b, b.xStart + k % Width(b), b.yStart + k / Width(b)) == k
  {
    var w, h := Width(b), Height(b);
    var q, r := k / w, k % w;
    assert k == q * w + r && 0 <= r < w;
    MulMonotone(q, -1, w);
    MulMonotone(h, q, w);
    assert h * w == Area(b);
  }

  /** The colours of window b in raster order: what a complete read of b yields. */
  function ReadPixels(f: Frame, b: Bounds): (r: seq<u16>)
    requires Covers(f, b)
    ensures |r| == Area(b)
  {
    seq(Area(b), k requires 0 <= k < Area(b) =>
      PixelAt(b, k);
      f[b.yStart + k / Width(b)][b.xStart + k % Width(b)])
  }

  /** Reading a window yields pixel (x, y) at its raster position. */
  lemma ReadPixelsAt(f: Frame, b: Bounds, x: int, y: int)
    requires Covers(f, b) && Contains(b, x, y)
    ensures 0 <= Offset(b, x, y) < Area(b) && ReadPixels(f, b)[Offset(b, x, y)] == f[y][x]
  {
    OffsetInWindow(b, x, y);
  }

  /**
   * Streaming colours c into window b: the pixel at raster position k takes
   * c[k] while the stream lasts; every other pixel keeps its colour.
   */
  function Fill(f: Frame, b: Bounds, c: seq<u16>): (r: Frame)
    ensures |r| == |f| && forall y :: 0 <= y < |f| ==> |r[y]| == |f[y]|
  {
    seq(|f|, y requires 0 <= y < |f| =>
      seq(|f[y]|, x requires 0 <= x < |f[y]| =>
        if Contains(b, x, y) && 0 <= Offset(b, x, y) < |c| then c[Offset(b, x, y)] else f[y][x]))
  }

  lemma FillKeepsFrame(f: Frame, b: Bounds, c: seq<u16>, width: int, height: int)
    requires IsFrame(f, width, height)
    ensures IsFrame(Fill(f, b, c), width, height)
  {
  }

  /** Reading back a window just filled yields the colours written, in order. */
  lemma FillReadRoundTrip(f: Frame, b: Bounds, c: seq<u16>)
    requires Covers(f, b) && |c| >= Area(b)
    ensures Covers(Fill(f, b, c), b)
    ensures ReadPixels(Fill(f, b, c), b) == c[..Area(b)]
  {
    var g := Fill(f, b, c);
    forall k | 0 <= k < Area(b)
      ensures ReadPixels(g, b)[k] == c[k]
    {
      PixelAt(b, k);
    }
  }

  datatype DisplayError = BoundsError | StreamUnderflow | BusFault(code: int)

  /** One pixel as `read_area`'s iterator yields it. */
  type Item = Result<u16, DisplayError>

  /**
   * What goes wrong, if anything, during one `read_area` call: nothing; the
   * call itself fails; the pixel at one position reads as an error; or the
   * iterator ends after n pixels.
   */
  datatype ReadFault = Clean | Refused(e: DisplayError) | BadPixel(at: nat, e: DisplayError) | Short(n: nat)

  function NextFault(faults: seq<ReadFault>): ReadFault
  {
    if faults == [] then Clean else faults[0]
  }

  function RestFaults(faults: seq<ReadFault>): seq<ReadFault>
  {
    if faults == [] then [] else faults[1..]
  }

  /** The result of `read_area(b)` on a width x height frame f when the call meets fault. */
  function ReadOutcome(f: Frame, b: Bounds, fault: ReadFault, width: int, height: int): (r: Result<seq<Item>, DisplayError>)
    requires IsFrame(f, width, height)
    ensures !Inside(b, width, height) ==> r == Err(BoundsError)
    ensures r.Ok? ==> Inside(b, width, height) && |r.value| <= Area(b)
                      && forall k :: 0 <= k < |r.value| && r.value[k].Ok? ==> r.value[k].value == ReadPixels(f, b)[k]
    ensures Inside(b, width, height) && fault == Clean ==>
              r.Ok? && |r.value| == Area(b) && forall k :: 0 <= k < |r.value| ==> r.value[k] == Ok(ReadPixels(f, b)[k])
  {
    if !Inside(b, width, height) then Err(BoundsError)
    else
      var px := ReadPixels(f, b);
      match fault
      case Clean => Ok(seq(|px|, k requires 0 <= k < |px| => Ok(px[k])))
      case Refused(e) => Err(e)
      case BadPixel(at, e) => Ok(seq(|px|, k requires 0 <= k < |px| => if k == at then Err(e) else Ok(px[k])))
      case Short(n) => Ok(seq(Min(n, |px|), k requires 0 <= k < Min(n, |px|) => Ok(px[k])))
  }

  /**
   * The new frame and result of `fill_area(b, c)`: a window outside the
   * screen is refused without writing; a stream shorter than the window
   * writes what it has and reports an underflow.
   */
  function FillOutcome(f: Frame, b: Bounds, c: seq<u16>, width: int, height: int): (r: (Frame, Result<Unit, DisplayError>))
    ensures !Inside(b, width, height) ==> r == (f, Err(BoundsError))
    ensures Inside(b, width, height) ==> r.0 == Fill(f, b, c)
    ensures Inside(b, width, height) ==> (r.1.Ok? <==> |c| >= Area(b))
    ensures r.1.Err? ==> r.1 == Err(BoundsError) || r.1 == Err(StreamUnderflow)
  {
    if !Inside(b, width, height) then (f, Err(BoundsError))
    else if |c| < Area(b) then (Fill(f, b, c), Err(StreamUnderflow))
    else (Fill(f, b, c), Ok(Unit))
  }

  /** A display of fixed size whose memory is `frame`. */
  class Screen {
    const width: u16
    const height: u16
    var frame: Frame
    var faults: seq<ReadFault>

    ghost predicate Valid()
      reads this
    {
      IsFrame(frame, width, height)
    }

    constructor (width: u16, height: u16, frame: Frame, faults: seq<ReadFault>)
      requires IsFrame(frame, width, height)
      ensures Valid()
      ensures this.width == width && this.height == height && this.frame == frame && this.faults == faults
    {
      this.width, this.height := width, height;
      this.frame, this.faults := frame, faults;
    }

    method FillArea(b: Bounds, colors: seq<u16>) returns (r: Result<Unit, DisplayError>)
      requires Valid()
      modifies this`frame
      ensures Valid()
      ensures (frame, r) == FillOutcome(old(frame), b, colors, width, height)
    {
      FillKeepsFrame(frame, b, colors, width, height);
      var outcome := FillOutcome(frame, b, colors, width, height);
      frame, r := outcome.0, outcome.1;
    }

    method ReadArea(b: Bounds) returns (r: Result<seq<Item>, DisplayError>)
      requires Valid()
      modifies this`faults
      ensures faults == RestFaults(old(faults))
      ensures r == ReadOutcome(frame, b, NextFault(old(faults)), width, height)
    {
      r := ReadOutcome(frame, b, NextFault(faults), width, height);
      faults := RestFaults(faults);
    }
  }
}
