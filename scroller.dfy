/**
 * `CopyScroller` (src/term/vertical_scroller.rs): moves the content of a
 * rectangle of the display by (horiz_by, vert_by) through a caller-owned
 * buffer of colours, one horizontal strip of rows at a time, top to bottom.
 */
module Scroller {
  import opened Uint
  import opened Wrappers
  import opened Geometry
  import opened Framebuffer

  /** A strip of `lines` rows of area, starting `top` rows below its top edge. */
  datatype Chunk = Chunk(top: nat, lines: nat)

  function Strip(area: Bounds, top: nat, lines: nat): (r: Bounds)
    requires 1 <= lines && area.yStart + top + lines - 1 < 0x1_0000
    ensures r.xStart == area.xStart && r.xEnd == area.xEnd
    ensures r.yStart == area.yStart + top && Height(r) == lines
  {
    Bounds(area.xStart, area.xEnd, area.yStart + top, area.yStart + top + lines - 1)
  }

  /** A strip holds `lines` rows of the area's width. */
  lemma StripArea(area: Bounds, top: nat, lines: nat)
    requires Valid(area) && 1 <= lines && area.yStart + top + lines - 1 < 0x1_0000
    ensures Area(Strip(area, top, lines)) == Width(area) * lines
  {
    var s := Strip(area, top, lines);
    assert Width(s) == Width(area) && Height(s) == lines;
  }

  // ---------------------------------------------------------------------
  // One copy: read a window into the buffer, write the buffer to a window
  // ---------------------------------------------------------------------

  /** The first position in i .. n whose item is an error, or n when there is none. */
  function FirstError(items: seq<Item>, i: nat, n: nat): (j: nat)
    requires i <= n <= |items|
    ensures i <= j <= n
    ensures forall k :: i <= k < j ==> items[k].Ok?
    ensures j < n ==> items[j].Err?
    decreases n - i
  {
    if i == n then n else if items[i].Err? then i else FirstError(items, i + 1, n)
  }

  lemma {:induction false} FirstErrorIs(items: seq<Item>, i: nat, n: nat, j: nat)
    requires i <= j <= n <= |items|
    requires forall k :: i <= k < j ==> items[k].Ok?
    requires j < n ==> items[j].Err?
    ensures FirstError(items, i, n) == j
    decreases j - i
  {
    if i < j {
      FirstErrorIs(items, i + 1, n, j);
    }
  }

  /** The buffer after its first m slots took the colours of the first m items. */
  function Staged(items: seq<Item>, buf: seq<u16>, m: nat): (r: seq<u16>)
    requires m <= |items| && m <= |buf| && forall k :: 0 <= k < m ==> items[k].Ok?
    ensures |r| == |buf|
  {
    seq(|buf|, k requires 0 <= k < |buf| => if k < m then items[k].value else buf[k])
  }

  /** Display memory, buffer and result after one `copy`. */
  datatype Copied = Copied(frame: Frame, buffer: seq<u16>, result: Result<Unit, DisplayError>)

  /**
   * `copy(src, tgt)` on frame f with buffer buf when the read meets fault:
   * a failed read leaves everything as it was; otherwise the buffer takes the
   * pixels read up to the first bad one; a bad pixel stops the copy there;
   * a read without one writes the first Area(src) slots of the buffer to tgt.
   */
  function CopyStep(f: Frame, fault: ReadFault, buf: seq<u16>, src: Bounds, tgt: Bounds, width: int, height: int): (r: Copied)
    requires IsFrame(f, width, height) && Valid(src) && Area(src) <= |buf|
    ensures IsFrame(r.frame, width, height) && |r.buffer| == |buf|
  {
    var read := ReadOutcome(f, src, fault, width, height);
    if read.Err? then Copied(f, buf, Err(read.error))
    else
      var items := read.value;
      var n := Min(|items|, Area(src));
      var j := FirstError(items, 0, n);
      var staged := Staged(items, buf, j);
      if j < n then Copied(f, staged, Err(items[j].error))
      else
        FillKeepsFrame(f, tgt, staged[..Area(src)], width, height);
        var written := FillOutcome(f, tgt, staged[..Area(src)], width, height);
        Copied(written.0, staged, written.1)
  }

  /** A clean read copies window src onto the equally sized, on-screen window tgt. */
  lemma CopyCleanMoves(f: Frame, buf: seq<u16>, src: Bounds, tgt: Bounds, width: int, height: int)
    requires IsFrame(f, width, height) && Inside(src, width, height) && Area(src) <= |buf|
    requires Inside(tgt, width, height) && Area(tgt) == Area(src)
    ensures CopyStep(f, Clean, buf, src, tgt, width, height)
            == Copied(Fill(f, tgt, ReadPixels(f, src)), ReadPixels(f, src) + buf[Area(src)..], Ok(Unit))
  {
    var items := ReadOutcome(f, src, Clean, width, height).value;
    var n := Area(src);
    FirstErrorIs(items, 0, n, n);
    var staged := Staged(items, buf, n);
    assert staged == ReadPixels(f, src) + buf[n..];
    assert staged[..n] == ReadPixels(f, src);
  }

  /** A refused read or a bad pixel inside the window stops the copy before anything is written. */
  lemma CopyFaultWritesNothing(f: Frame, fault: ReadFault, buf: seq<u16>, src: Bounds, tgt: Bounds, width: int, height: int)
    requires IsFrame(f, width, height) && Valid(src) && Area(src) <= |buf|
    requires !Inside(src, width, height) || fault.Refused? || (fault.BadPixel? && fault.at < Area(src))
    ensures CopyStep(f, fault, buf, src, tgt, width, height).frame == f
    ensures CopyStep(f, fault, buf, src, tgt, width, height).result.Err?
  {
    var read := ReadOutcome(f, src, fault, width, height);
    if read.Ok? {
      var items := read.value;
      assert items[fault.at].Err?;
      assert FirstError(items, 0, Area(src)) <= fault.at;
    }
  }

  /**
   * A read that ends after n < Area(src) pixels still writes the whole target
   * window: its last Area(src) - n pixels get whatever the buffer held before.
   */
  lemma CopyShortWritesStale(f: Frame, n: nat, buf: seq<u16>, src: Bounds, tgt: Bounds, width: int, height: int)
    requires IsFrame(f, width, height) && Inside(src, width, height) && Area(src) <= |buf|
    requires n < Area(src) && Inside(tgt, width, height) && Area(tgt) == Area(src)
    ensures CopyStep(f, Short(n), buf, src, tgt, width, height)
            == Copied(Fill(f, tgt, ReadPixels(f, src)[..n] + buf[n..Area(src)]),
                      ReadPixels(f, src)[..n] + buf[n..], Ok(Unit))
  {
    var items := ReadOutcome(f, src, Short(n), width, height).value;
    FirstErrorIs(items, 0, n, n);
    var staged := Staged(items, buf, n);
    assert staged == ReadPixels(f, src)[..n] + buf[n..];
    assert staged[..Area(src)] == ReadPixels(f, src)[..n] + buf[n..Area(src)];
  }

  // ---------------------------------------------------------------------
  // The chunk plan of scroll_area
  // ---------------------------------------------------------------------

  /** `buffer_lines`: rows per chunk, as many whole rows as the buffer holds, at most the area's height. */
  function BufferLines(area: Bounds, bufLen: nat): nat
    requires Valid(area)
  {
    Min(Height(area), bufLen / Width(area))
  }

  /** Rows taken by k strips of `lines` rows each. */
  function Rows(k: nat, lines: nat): nat
  {
    if k == 0 then 0 else Rows(k - 1, lines) + lines
  }

  lemma {:induction false} RowsIsProduct(k: nat, lines: nat)
    ensures Rows(k, lines) == k * lines
  {
    if k > 0 {
      RowsIsProduct(k - 1, lines);
      assert (k - 1) * lines + lines == k * lines;
    }
  }

  /** The strips scroll_area copies, top to bottom: height / lines full ones, then the remainder. */
  function ChunkRows(height: nat, lines: nat): (r: seq<Chunk>)
    requires 1 <= lines
  {
    seq(height / lines, k requires 0 <= k < height / lines => Chunk(Rows(k, lines), lines))
    + (if height % lines > 0 then [Chunk(Rows(height / lines, lines), height % lines)] else [])
  }

  function SumLines(cs: seq<Chunk>): nat
  {
    if cs == [] then 0 else SumLines(cs[..|cs| - 1]) + cs[|cs| - 1].lines
  }

  /** Rows covered by the first k chunks. */
  function RowsDone(cs: seq<Chunk>, k: nat): nat
    requires k <= |cs|
  {
    if k == 0 then 0 else cs[k - 1].top + cs[k - 1].lines
  }

  /** Each chunk starts where the one before it ends, the first at the top. */
  predicate Consecutive(cs: seq<Chunk>)
  {
    forall k {:trigger RowsDone(cs, k)} :: 0 <= k < |cs| ==> cs[k].top == RowsDone(cs, k)
  }

  lemma {:induction false} SumConsecutive(cs: seq<Chunk>, k: nat)
    requires Consecutive(cs) && k <= |cs|
    ensures SumLines(cs[..k]) == RowsDone(cs, k)
  {
    if k > 0 {
      SumConsecutive(cs, k - 1);
      assert cs[..k][..k - 1] == cs[..k - 1];
    }
  }

  lemma ChunkCount(height: nat, lines: nat)
    requires 1 <= lines
    ensures |ChunkRows(height, lines)| == height / lines + (if height % lines > 0 then 1 else 0)
  {
  }

  /** The k-th chunk: a full strip before height / lines, then the remainder. */
  lemma ChunkAt(height: nat, lines: nat, k: nat)
    requires 1 <= lines && k < |ChunkRows(height, lines)|
    ensures |ChunkRows(height, lines)| == height / lines + (if height % lines > 0 then 1 else 0)
    ensures k < height / lines ==> ChunkRows(height, lines)[k] == Chunk(Rows(k, lines), lines)
    ensures k == height / lines ==> ChunkRows(height, lines)[k] == Chunk(Rows(k, lines), height % lines)
  {
  }

  lemma ChunkRowsConsecutive(height: nat, lines: nat)
    requires 1 <= lines
    ensures Consecutive(ChunkRows(height, lines))
  {
    var cs := ChunkRows(height, lines);
    forall k | 0 <= k < |cs|
      ensures cs[k].top == RowsDone(cs, k)
    {
      ChunkAt(height, lines, k);
      if k > 0 {
        ChunkAt(height, lines, k - 1);
      }
    }
  }

  lemma ChunkRowsCover(height: nat, lines: nat)
    requires 1 <= lines <= height
    ensures |ChunkRows(height, lines)| == (height + lines - 1) / lines
    ensures RowsDone(ChunkRows(height, lines), |ChunkRows(height, lines)|) == height
  {
    var cs := ChunkRows(height, lines);
    var it, rem := height / lines, height % lines;
    assert height == it * lines + rem;
    assert it >= 1;
    ChunkAt(height, lines, |cs| - 1);
    RowsIsProduct(it, lines);
    if rem > 0 {
      DivModOf(it + 1, lines, rem - 1);
      assert height + lines - 1 == (it + 1) * lines + (rem - 1);
    } else {
      DivModOf(it, lines, lines - 1);
      RowsIsProduct(it - 1, lines);
    }
  }

  /**
   * The chunks tile the area's rows: they are consecutive, each holds between
   * 1 and `lines` rows, there are ceil(height / lines) of them, and their
   * heights sum to the height.
   */
  lemma ChunkRowsTile(height: nat, lines: nat)
    requires 1 <= lines <= height
    ensures var cs := ChunkRows(height, lines);
      Consecutive(cs) && |cs| == (height + lines - 1) / lines
      && (forall k :: 0 <= k < |cs| ==> 1 <= cs[k].lines <= lines)
      && RowsDone(cs, |cs|) == height && SumLines(cs) == height
  {
    var cs := ChunkRows(height, lines);
    ChunkRowsConsecutive(height, lines);
    ChunkRowsCover(height, lines);
    forall k | 0 <= k < |cs|
      ensures 1 <= cs[k].lines <= lines
    {
      ChunkAt(height, lines, k);
    }
    SumConsecutive(cs, |cs|);
    assert cs[..|cs|] == cs;
  }

  /** Every window move scroll_area makes stays within u16 coordinates. */
  predicate ScrollFits(area: Bounds, lines: nat, dx: int, dy: int)
    requires Valid(area) && 1 <= lines
  {
    0 <= area.xStart + dx && area.xEnd + dx < 0x1_0000 && 0 <= area.yStart + dy
    && area.yStart + (Height(area) / lines + 1) * lines - 1 + (if dy > 0 then dy else 0) < 0x1_0000
  }

  predicate ChunkFits(area: Bounds, c: Chunk, bufLen: nat, dx: int, dy: int)
  {
    1 <= c.lines && area.yStart + c.top + c.lines - 1 < 0x1_0000
    && Valid(area) && Width(area) * c.lines <= bufLen
    && CanMoveBy(Strip(area, c.top, c.lines), dx, dy)
  }

  predicate ChunksFit(area: Bounds, cs: seq<Chunk>, bufLen: nat, dx: int, dy: int)
  {
    forall k :: 0 <= k < |cs| ==> ChunkFits(area, cs[k], bufLen, dx, dy)
  }

  /** The k-th strip of full height, and its translate, are representable. */
  lemma StripFits(area: Bounds, lines: nat, dx: int, dy: int, k: nat)
    requires Valid(area) && 1 <= lines <= Height(area) && ScrollFits(area, lines, dx, dy)
    requires k <= Height(area) / lines
    ensures area.yStart + Rows(k, lines) + lines - 1 + (if dy > 0 then dy else 0) < 0x1_0000
  {
    RowsIsProduct(k, lines);
    MulLeft(k + 1, Height(area) / lines + 1, lines);
  }

  /** The first window pair scroll_area forms. */
  lemma FirstWindows(area: Bounds, lines: nat, dx: int, dy: int)
    requires Valid(area) && 1 <= lines <= Height(area) && ScrollFits(area, lines, dx, dy)
    ensures area.yStart + lines - 1 < 0x1_0000 && SetHeight(area, lines) == Strip(area, 0, lines)
    ensures CanMoveBy(Strip(area, 0, lines), dx, dy)
  {
    StripFits(area, lines, dx, dy, 0);
  }

  lemma FullChunksIn(height: nat, lines: nat)
    requires 1 <= lines
    ensures height / lines <= |ChunkRows(height, lines)|
  {
    ChunkCount(height, lines);
  }

  lemma FullChunkAt(height: nat, lines: nat, k: nat, top: nat)
    requires 1 <= lines && k < height / lines && top == Rows(k, lines)
    ensures k < |ChunkRows(height, lines)| && ChunkRows(height, lines)[k] == Chunk(top, lines)
  {
    ChunkAt(height, lines, k);
  }

  /** Moving both windows down by `lines` gives the next window pair. */
  lemma NextWindows(area: Bounds, lines: nat, dx: int, dy: int, k: nat, top: nat)
    requires Valid(area) && 1 <= lines <= Height(area) && ScrollFits(area, lines, dx, dy)
    requires k < Height(area) / lines && top == Rows(k, lines)
    ensures area.yStart + top + lines + lines - 1 < 0x1_0000
    ensures CanMoveBy(Strip(area, top, lines), 0, lines)
    ensures MoveBy(Strip(area, top, lines), 0, lines) == Strip(area, top + lines, lines)
    ensures CanMoveBy(Strip(area, top, lines), dx, dy) && CanMoveBy(Strip(area, top + lines, lines), dx, dy)
    ensures CanMoveBy(MoveBy(Strip(area, top, lines), dx, dy), 0, lines)
    ensures MoveBy(MoveBy(Strip(area, top, lines), dx, dy), 0, lines) == MoveBy(Strip(area, top + lines, lines), dx, dy)
  {
    StripFits(area, lines, dx, dy, k + 1);
  }

  /** ... so moving the windows of full strip k down by `lines` gives the windows of strip k + 1. */
  lemma StepWindows(area: Bounds, lines: nat, dx: int, dy: int, k: nat, top: nat, source: Bounds, target: Bounds)
    requires Valid(area) && 1 <= lines <= Height(area) && ScrollFits(area, lines, dx, dy)
    requires k < Height(area) / lines && top == Rows(k, lines) && area.yStart + top + lines - 1 < 0x1_0000
    requires source == Strip(area, top, lines) && CanMoveBy(source, dx, dy) && target == MoveBy(source, dx, dy)
    ensures area.yStart + top + lines + lines - 1 < 0x1_0000
    ensures CanMoveBy(source, 0, lines) && MoveBy(source, 0, lines) == Strip(area, top + lines, lines)
    ensures CanMoveBy(MoveBy(source, 0, lines), dx, dy)
    ensures CanMoveBy(target, 0, lines) && MoveBy(target, 0, lines) == MoveBy(MoveBy(source, 0, lines), dx, dy)
  {
    NextWindows(area, lines, dx, dy, k, top);
  }

  /** Cutting the window pair after the full chunks down to the remaining rows. */
  lemma RemainderWindows(area: Bounds, lines: nat, dx: int, dy: int, top: nat, rest: nat)
    requires Valid(area) && 1 <= lines <= Height(area) && ScrollFits(area, lines, dx, dy)
    requires top == Rows(Height(area) / lines, lines) && 1 <= rest <= lines
    ensures area.yStart + top + lines - 1 < 0x1_0000
    ensures CanMoveBy(Strip(area, top, lines), dx, dy) && CanMoveBy(Strip(area, top, rest), dx, dy)
    ensures SetHeight(Strip(area, top, lines), rest) == Strip(area, top, rest)
    ensures MoveBy(Strip(area, top, lines), dx, dy).yStart + rest - 1 < 0x1_0000
    ensures SetHeight(MoveBy(Strip(area, top, lines), dx, dy), rest) == MoveBy(Strip(area, top, rest), dx, dy)
  {
    StripFits(area, lines, dx, dy, Height(area) / lines);
  }

  /** A chunk of at most BufferLines rows fits in the buffer. */
  lemma BufferHoldsLines(area: Bounds, bufLen: nat, lines: nat)
    requires Valid(area) && lines <= BufferLines(area, bufLen)
    ensures Width(area) * lines <= bufLen
  {
    var w := Width(area);
    MulLeft(lines, bufLen / w, w);
    assert (bufLen / w) * w <= bufLen;
  }

  /** Quotient and remainder recompose the dividend. */
  lemma DivModSplit(height: nat, lines: nat)
    requires 1 <= lines
    ensures height == (height / lines) * lines + height % lines
  {
  }

  lemma CeilBound(height: nat, lines: nat)
    requires 1 <= lines
    ensures height <= (height / lines + 1) * lines
  {
    assert height == (height / lines) * lines + height % lines;
  }

  /** The rows the strips reach exceed the height by less than one strip. */
  lemma CeilAtMost(height: nat, lines: nat)
    requires 1 <= lines
    ensures (height / lines + 1) * lines <= height + lines
  {
    assert (height / lines + 1) * lines == (height / lines) * lines + lines;
    DivModSplit(height, lines);
  }

  lemma ChunkRowsFit(area: Bounds, bufLen: nat, dx: int, dy: int)
    requires Valid(area) && Width(area) <= bufLen
    requires ScrollFits(area, BufferLines(area, bufLen), dx, dy)
    ensures ChunksFit(area, ChunkRows(Height(area), BufferLines(area, bufLen)), bufLen, dx, dy)
  {
    var lines := BufferLines(area, bufLen);
    assert lines >= 1 by {
      MulLeft(1, bufLen / Width(area), Width(area));
    }
    ChunkRowsTile(Height(area), lines);
    CeilBound(Height(area), lines);
    TiledChunksFit(area, bufLen, dx, dy, ChunkRows(Height(area), lines));
  }

  lemma TiledChunksFit(area: Bounds, bufLen: nat, dx: int, dy: int, cs: seq<Chunk>)
    requires Valid(area) && 1 <= BufferLines(area, bufLen)
    requires ScrollFits(area, BufferLines(area, bufLen), dx, dy)
    requires Height(area) <= (Height(area) / BufferLines(area, bufLen) + 1) * BufferLines(area, bufLen)
    requires Consecutive(cs) && RowsDone(cs, |cs|) == Height(area)
    requires forall k :: 0 <= k < |cs| ==> 1 <= cs[k].lines <= BufferLines(area, bufLen)
    ensures ChunksFit(area, cs, bufLen, dx, dy)
  {
    forall k | 0 <= k < |cs|
      ensures ChunkFits(area, cs[k], bufLen, dx, dy)
    {
      RowsMonotone(cs, k + 1, |cs|);
      OneChunkFits(area, bufLen, dx, dy, cs[k]);
    }
  }

  lemma OneChunkFits(area: Bounds, bufLen: nat, dx: int, dy: int, c: Chunk)
    requires Valid(area) && 1 <= BufferLines(area, bufLen)
    requires ScrollFits(area, BufferLines(area, bufLen), dx, dy)
    requires Height(area) <= (Height(area) / BufferLines(area, bufLen) + 1) * BufferLines(area, bufLen)
    requires 1 <= c.lines <= BufferLines(area, bufLen) && c.top + c.lines <= Height(area)
    ensures ChunkFits(area, c, bufLen, dx, dy)
  {
    BufferHoldsLines(area, bufLen, c.lines);
  }

  lemma {:induction false} RowsMonotone(cs: seq<Chunk>, i: nat, j: nat)
    requires Consecutive(cs) && i <= j <= |cs|
    ensures RowsDone(cs, i) <= RowsDone(cs, j)
    decreases j - i
  {
    if i < j {
      RowsMonotone(cs, i, j - 1);
      if j - 1 > 0 {
        assert cs[j - 1].top == RowsDone(cs, j - 1);
      }
    }
  }

  // ---------------------------------------------------------------------
  // Running the chunks
  // ---------------------------------------------------------------------

  /** Display memory, fault script and buffer contents while a scroll runs. */
  datatype ScrollState = ScrollState(frame: Frame, faults: seq<ReadFault>, buffer: seq<u16>)

  /**
   * Copying chunk c of area to its translate by (dx, dy). A chunk that does
   * not fit counts as a failure; ScrollArea only forms chunks that fit.
   */
  function Step(s: ScrollState, area: Bounds, c: Chunk, dx: int, dy: int, width: int, height: int)
    : (r: (ScrollState, Result<Unit, DisplayError>))
    ensures IsFrame(s.frame, width, height) ==> IsFrame(r.0.frame, width, height)
    ensures |r.0.buffer| == |s.buffer|
  {
    if !(IsFrame(s.frame, width, height) && ChunkFits(area, c, |s.buffer|, dx, dy)) then (s, Err(BoundsError))
    else
      var src := Strip(area, c.top, c.lines);
      var out := CopyStep(s.frame, NextFault(s.faults), s.buffer, src, MoveBy(src, dx, dy), width, height);
      (ScrollState(out.frame, RestFaults(s.faults), out.buffer), out.result)
  }

  /** Copying the chunks in order, stopping at the first error. */
  function Run(s: ScrollState, area: Bounds, cs: seq<Chunk>, dx: int, dy: int, width: int, height: int)
    : (r: (ScrollState, Result<Unit, DisplayError>))
    ensures IsFrame(s.frame, width, height) ==> IsFrame(r.0.frame, width, height)
    ensures |r.0.buffer| == |s.buffer|
    decreases |cs|
  {
    if cs == [] then (s, Ok(Unit))
    else
      var before := Run(s, area, cs[..|cs| - 1], dx, dy, width, height);
      if before.1.Err? then before
      else Step(before.0, area, cs[|cs| - 1], dx, dy, width, height)
  }

  /** Running one more chunk after an error-free prefix is one more Step. */
  lemma RunSnoc(s: ScrollState, area: Bounds, cs: seq<Chunk>, k: nat, dx: int, dy: int, width: int, height: int)
    requires k < |cs|
    requires Run(s, area, cs[..k], dx, dy, width, height).1.Ok?
    ensures Run(s, area, cs[..k + 1], dx, dy, width, height)
            == Step(Run(s, area, cs[..k], dx, dy, width, height).0, area, cs[k], dx, dy, width, height)
  {
    assert cs[..k + 1][..k] == cs[..k];
  }

  /** The first k chunks: the first k - 1, then, unless they failed, chunk k - 1. */
  lemma RunLast(s: ScrollState, area: Bounds, cs: seq<Chunk>, k: nat, dx: int, dy: int, width: int, height: int)
    requires 1 <= k <= |cs|
    ensures var before := Run(s, area, cs[..k - 1], dx, dy, width, height);
            Run(s, area, cs[..k], dx, dy, width, height)
            == if before.1.Err? then before else Step(before.0, area, cs[k - 1], dx, dy, width, height)
  {
    assert cs[..k][..k - 1] == cs[..k - 1];
  }

  /** The first chunk is copied from the initial state. */
  lemma RunFirst(s: ScrollState, area: Bounds, cs: seq<Chunk>, dx: int, dy: int, width: int, height: int)
    requires 1 <= |cs|
    ensures Run(s, area, cs[..1], dx, dy, width, height) == Step(s, area, cs[0], dx, dy, width, height)
  {
    assert cs[..1][..0] == [];
  }

  /** Once a chunk fails, the chunks after it are not copied. */
  lemma {:induction false} RunStopsAtError(s: ScrollState, area: Bounds, cs: seq<Chunk>, k: nat, dx: int, dy: int, width: int, height: int)
    requires k <= |cs|
    requires Run(s, area, cs[..k], dx, dy, width, height).1.Err?
    ensures Run(s, area, cs, dx, dy, width, height) == Run(s, area, cs[..k], dx, dy, width, height)
    decreases |cs| - k
  {
    if k < |cs| {
      assert cs[..k + 1][..k] == cs[..k];
      RunStopsAtError(s, area, cs, k + 1, dx, dy, width, height);
    } else {
      assert cs[..k] == cs;
    }
  }

  // ---------------------------------------------------------------------
  // When the chunked copy equals one block copy
  // ---------------------------------------------------------------------

  /** Pixel (x, y) is the translate of a pixel in rows lo .. hi - 1 of area. */
  predicate InMoved(area: Bounds, dx: int, dy: int, lo: int, hi: int, x: int, y: int)
  {
    area.xStart <= x - dx <= area.xEnd && area.yStart + lo <= y - dy < area.yStart + hi
  }

  /** Pixel (x, y) of f after rows lo .. hi - 1 of area were copied to their translate by (dx, dy). */
  function MovedPixel(f: Frame, area: Bounds, dx: int, dy: int, lo: int, hi: int, x: int, y: int): u16
    requires 0 <= y < |f| && 0 <= x < |f[y]|
  {
    if InMoved(area, dx, dy, lo, hi, x, y) && 0 <= y - dy < |f| && 0 <= x - dx < |f[y - dy]|
    then f[y - dy][x - dx] else f[y][x]
  }

  function Moved(f: Frame, area: Bounds, dx: int, dy: int, lo: int, hi: int): (r: Frame)
    ensures |r| == |f| && forall y :: 0 <= y < |f| ==> |r[y]| == |f[y]|
  {
    seq(|f|, y requires 0 <= y < |f| =>
      seq(|f[y]|, x requires 0 <= x < |f[y]| => MovedPixel(f, area, dx, dy, lo, hi, x, y)))
  }

  predicate SameShape(a: Frame, b: Frame)
  {
    |a| == |b| && forall y :: 0 <= y < |a| ==> |a[y]| == |b[y]|
  }

  lemma FrameExt(a: Frame, b: Frame)
    requires SameShape(a, b)
    requires forall y, x :: 0 <= y < |a| && 0 <= x < |a[y]| ==> a[y][x] == b[y][x]
    ensures a == b
  {
    forall y | 0 <= y < |a|
      ensures a[y] == b[y]
    {
    }
  }

  lemma MovedNothing(f: Frame, area: Bounds, dx: int, dy: int, lo: int)
    ensures Moved(f, area, dx, dy, lo, lo) == f
  {
    FrameExt(Moved(f, area, dx, dy, lo, lo), f);
  }

  /** Two frames that agree on window b read the same colours from it. */
  lemma ReadAgree(f: Frame, g: Frame, b: Bounds)
    requires Covers(f, b) && Covers(g, b)
    requires forall x, y :: Contains(b, x, y) ==> g[y][x] == f[y][x]
    ensures ReadPixels(g, b) == ReadPixels(f, b)
  {
    forall k | 0 <= k < Area(b)
      ensures ReadPixels(g, b)[k] == ReadPixels(f, b)[k]
    {
      PixelAt(b, k);
    }
  }

  /** A translated window numbers its pixels as the original does. */
  lemma OffsetMoved(b: Bounds, dx: int, dy: int, x: int, y: int)
    requires CanMoveBy(b, dx, dy)
    ensures Offset(MoveBy(b, dx, dy), x, y) == Offset(b, x - dx, y - dy)
  {
  }

  /**
   * Chunk c widens the moved band lo .. hi - 1 to lo2 .. hi2 - 1 without
   * reading a row the band's copies have overwritten: below the band when
   * the copies move up (dy <= 0), above it when they move down (dy >= 0).
   */
  predicate Joins(c: Chunk, lo: int, hi: int, lo2: int, hi2: int, dy: int)
  {
    lo <= hi
    && ((dy <= 0 && c.top == hi && lo2 == lo && hi2 == hi + c.lines)
        || (dy >= 0 && c.top + c.lines == lo && lo2 == c.top && hi2 == hi))
  }

  /** Pixel (x, y) after chunk c is copied next to the band moved before it. */
  lemma MovedGrowsAt(f: Frame, area: Bounds, c: Chunk, lo: int, hi: int, lo2: int, hi2: int, dx: int, dy: int,
                     width: int, height: int, x: int, y: int)
    requires IsFrame(f, width, height) && Joins(c, lo, hi, lo2, hi2, dy)
    requires 1 <= c.lines && area.yStart + c.top + c.lines - 1 < 0x1_0000
    requires Inside(Strip(area, c.top, c.lines), width, height) && CanMoveBy(Strip(area, c.top, c.lines), dx, dy)
    requires Inside(MoveBy(Strip(area, c.top, c.lines), dx, dy), width, height)
    requires 0 <= y < height && 0 <= x < width
    ensures var src := Strip(area, c.top, c.lines);
            Fill(Moved(f, area, dx, dy, lo, hi), MoveBy(src, dx, dy), ReadPixels(f, src))[y][x]
            == Moved(f, area, dx, dy, lo2, hi2)[y][x]
  {
    var src := Strip(area, c.top, c.lines);
    var tgt := MoveBy(src, dx, dy);
    MoveByContains(src, dx, dy, x, y);
    if Contains(tgt, x, y) {
      OffsetMoved(src, dx, dy, x, y);
      ReadPixelsAt(f, src, x - dx, y - dy);
    }
  }

  /** Copying a joining chunk with a clean read widens the moved band. */
  lemma MovedStep(f: Frame, s: ScrollState, area: Bounds, c: Chunk, lo: int, hi: int, lo2: int, hi2: int,
                  dx: int, dy: int, width: int, height: int)
    requires IsFrame(f, width, height) && Inside(area, width, height)
    requires ChunkFits(area, c, |s.buffer|, dx, dy) && c.top + c.lines <= Height(area)
    requires CanMoveBy(area, dx, dy) && Inside(MoveBy(area, dx, dy), width, height)
    requires Joins(c, lo, hi, lo2, hi2, dy)
    requires s.frame == Moved(f, area, dx, dy, lo, hi) && NextFault(s.faults) == Clean
    ensures Step(s, area, c, dx, dy, width, height).1 == Ok(Unit)
    ensures Step(s, area, c, dx, dy, width, height).0.frame == Moved(f, area, dx, dy, lo2, hi2)
    ensures Step(s, area, c, dx, dy, width, height).0.faults == RestFaults(s.faults)
  {
    var g := s.frame;
    var src := Strip(area, c.top, c.lines);
    var tgt := MoveBy(src, dx, dy);
    assert IsFrame(g, width, height);
    assert Inside(src, width, height) && Inside(tgt, width, height);
    CopyCleanMoves(g, s.buffer, src, tgt, width, height);
    forall x, y | Contains(src, x, y)
      ensures g[y][x] == f[y][x]
    {
    }
    ReadAgree(f, g, src);
    var h := Fill(g, tgt, ReadPixels(f, src));
    var m := Moved(f, area, dx, dy, lo2, hi2);
    forall y, x | 0 <= y < |h| && 0 <= x < |h[y]|
      ensures h[y][x] == m[y][x]
    {
      MovedGrowsAt(f, area, c, lo, hi, lo2, hi2, dx, dy, width, height, x, y);
    }
    FrameExt(h, m);
  }

  /** Pixel (x, y) after the whole area is moved, as a block copy leaves it. */
  lemma MovedAllAt(f: Frame, area: Bounds, dx: int, dy: int, width: int, height: int, x: int, y: int)
    requires IsFrame(f, width, height) && Inside(area, width, height)
    requires CanMoveBy(area, dx, dy) && Inside(MoveBy(area, dx, dy), width, height)
    requires 0 <= y < height && 0 <= x < width
    ensures Moved(f, area, dx, dy, 0, Height(area))[y][x] == Fill(f, MoveBy(area, dx, dy), ReadPixels(f, area))[y][x]
  {
    MoveByContains(area, dx, dy, x, y);
    if Contains(MoveBy(area, dx, dy), x, y) {
      OffsetMoved(area, dx, dy, x, y);
      ReadPixelsAt(f, area, x - dx, y - dy);
    }
  }

  /** Once every row is copied, the moved band is the area filled in at its translate. */
  lemma MovedAll(f: Frame, area: Bounds, dx: int, dy: int, width: int, height: int)
    requires IsFrame(f, width, height) && Inside(area, width, height)
    requires CanMoveBy(area, dx, dy) && Inside(MoveBy(area, dx, dy), width, height)
    ensures Moved(f, area, dx, dy, 0, Height(area)) == Fill(f, MoveBy(area, dx, dy), ReadPixels(f, area))
  {
    var m := Moved(f, area, dx, dy, 0, Height(area));
    var h := Fill(f, MoveBy(area, dx, dy), ReadPixels(f, area));
    forall y, x | 0 <= y < |m| && 0 <= x < |m[y]|
      ensures m[y][x] == h[y][x]
    {
      MovedAllAt(f, area, dx, dy, width, height, x, y);
    }
    FrameExt(m, h);
  }

  /** Every read in the fault script is clean. */
  predicate AllClean(faults: seq<ReadFault>)
  {
    forall i :: 0 <= i < |faults| ==> faults[i] == Clean
  }

  /** Copying the first k chunks top to bottom moves their rows, when the copies move up or sideways. */
  lemma {:induction false} RunPrefixMoves(f: Frame, faults: seq<ReadFault>, buf: seq<u16>, area: Bounds,
                                          cs: seq<Chunk>, k: nat, dx: int, dy: int, width: int, height: int)
    requires IsFrame(f, width, height) && Inside(area, width, height) && dy <= 0 && AllClean(faults)
    requires CanMoveBy(area, dx, dy) && Inside(MoveBy(area, dx, dy), width, height)
    requires ChunksFit(area, cs, |buf|, dx, dy) && Consecutive(cs) && RowsDone(cs, |cs|) <= Height(area)
    requires k <= |cs|
    ensures Run(ScrollState(f, faults, buf), area, cs[..k], dx, dy, width, height).1 == Ok(Unit)
    ensures Run(ScrollState(f, faults, buf), area, cs[..k], dx, dy, width, height).0.frame
            == Moved(f, area, dx, dy, 0, RowsDone(cs, k))
    ensures AllClean(Run(ScrollState(f, faults, buf), area, cs[..k], dx, dy, width, height).0.faults)
  {
    var s0 := ScrollState(f, faults, buf);
    if k == 0 {
      assert cs[..0] == [];
      MovedNothing(f, area, dx, dy, 0);
    } else {
      RunPrefixMoves(f, faults, buf, area, cs, k - 1, dx, dy, width, height);
      RunLast(s0, area, cs, k, dx, dy, width, height);
      var before := Run(s0, area, cs[..k - 1], dx, dy, width, height).0;
      PrefixStep(f, before, area, cs, k - 1, cs[k - 1], RowsDone(cs, k - 1), RowsDone(cs, k), |buf|, dx, dy, width, height);
    }
  }

  /** Copying chunk c = cs[j] onto a frame whose rows above chunk j are already moved moves them through chunk j. */
  lemma PrefixStep(f: Frame, before: ScrollState, area: Bounds, cs: seq<Chunk>, j: nat, c: Chunk, hi: int, hi2: int,
                   bufLen: nat, dx: int, dy: int, width: int, height: int)
    requires IsFrame(f, width, height) && Inside(area, width, height) && dy <= 0 && |before.buffer| == bufLen
    requires CanMoveBy(area, dx, dy) && Inside(MoveBy(area, dx, dy), width, height)
    requires ChunksFit(area, cs, bufLen, dx, dy) && Consecutive(cs) && RowsDone(cs, |cs|) <= Height(area)
    requires j < |cs| && c == cs[j] && hi == RowsDone(cs, j) && hi2 == RowsDone(cs, j + 1)
    requires AllClean(before.faults) && before.frame == Moved(f, area, dx, dy, 0, hi)
    ensures var after := Step(before, area, c, dx, dy, width, height);
            after.1 == Ok(Unit) && after.0.frame == Moved(f, area, dx, dy, 0, hi2) && AllClean(after.0.faults)
  {
    PrefixJoins(area, cs, j, c, hi, hi2, bufLen, dx, dy);
    assert NextFault(before.faults) == Clean;
    MovedStep(f, before, area, c, 0, hi, 0, hi2, dx, dy, width, height);
  }

  /** Chunk c = cs[j] fits and sits right below the rows above it. */
  lemma PrefixJoins(area: Bounds, cs: seq<Chunk>, j: nat, c: Chunk, hi: int, hi2: int, bufLen: nat, dx: int, dy: int)
    requires ChunksFit(area, cs, bufLen, dx, dy) && Consecutive(cs) && RowsDone(cs, |cs|) <= Height(area)
    requires j < |cs| && c == cs[j] && hi == RowsDone(cs, j) && hi2 == RowsDone(cs, j + 1) && dy <= 0
    ensures ChunkFits(area, c, bufLen, dx, dy) && c.top + c.lines <= Height(area)
    ensures Joins(c, 0, hi, 0, hi2, dy)
  {
    assert c.top == RowsDone(cs, j);
    RowsMonotone(cs, j + 1, |cs|);
  }

  /**
   * scroll_area with vertBy <= 0 and no read failure copies the whole area
   * to its translate, as one block copy would: every chunk reads rows that
   * no earlier chunk has overwritten.
   */
  lemma ScrollMovesBlock(f: Frame, faults: seq<ReadFault>, buf: seq<u16>, area: Bounds, dx: int, dy: int,
                         width: int, height: int)
    requires IsFrame(f, width, height) && Inside(area, width, height) && Width(area) <= |buf|
    requires ScrollFits(area, BufferLines(area, |buf|), dx, dy) && dy <= 0 && AllClean(faults)
    requires CanMoveBy(area, dx, dy) && Inside(MoveBy(area, dx, dy), width, height)
    ensures var r := Run(ScrollState(f, faults, buf), area, ChunkRows(Height(area), BufferLines(area, |buf|)),
                         dx, dy, width, height);
            r.1 == Ok(Unit) && r.0.frame == Fill(f, MoveBy(area, dx, dy), ReadPixels(f, area))
  {
    var lines := BufferLines(area, |buf|);
    assert lines >= 1 by {
      MulLeft(1, |buf| / Width(area), Width(area));
    }
    var cs := ChunkRows(Height(area), lines);
    ChunkRowsTile(Height(area), lines);
    ChunkRowsFit(area, |buf|, dx, dy);
    RunPrefixMoves(f, faults, buf, area, cs, |cs|, dx, dy, width, height);
    assert cs[..|cs|] == cs;
    MovedAll(f, area, dx, dy, width, height);
  }

  /** A frame one pixel wide and three high, given by its colours top to bottom. */
  lemma ColumnFrame(h: Frame, a: u16, b: u16, c: u16)
    requires |h| == 3 && |h[0]| == 1 && |h[1]| == 1 && |h[2]| == 1
    requires h[0][0] == a && h[1][0] == b && h[2][0] == c
    ensures h == [[a], [b], [c]]
  {
    assert h[0] == [a] && h[1] == [b] && h[2] == [c];
  }

  /** The window of rows s .. e of column 0 holds pixel (0, y) exactly when s <= y <= e, at position y - s. */
  lemma ColumnWindow(s: int, e: int, y: int)
    requires 0 <= s <= e < 3
    ensures Contains(Bounds(0, 0, s, e), 0, y) <==> s <= y <= e
    ensures Offset(Bounds(0, 0, s, e), 0, y) == y - s
  {
  }

  /** Streaming colours c into rows s .. e of a 1 x 3 frame changes those rows only. */
  lemma FillColumnAt(f: Frame, s: int, e: int, c: seq<u16>, y: int)
    requires IsFrame(f, 1, 3) && 0 <= s <= e < 3 && 0 <= y < 3
    ensures Fill(f, Bounds(0, 0, s, e), c)[y][0] == (if s <= y <= e && y - s < |c| then c[y - s] else f[y][0])
  {
    ColumnWindow(s, e, y);
  }

  /** Writing colour v to row t of a 1 x 3 frame changes row t only. */
  lemma FillRowAt(f: Frame, t: int, v: u16, y: int)
    requires IsFrame(f, 1, 3) && 0 <= t < 3 && 0 <= y < 3
    ensures Fill(f, Bounds(0, 0, t, t), [v])[y][0] == (if y == t then v else f[y][0])
  {
    FillColumnAt(f, t, t, [v], y);
  }

  lemma FillColumnRow(a: u16, b: u16, c: u16, t: int, v: u16)
    requires 0 <= t < 3
    ensures var h := Fill([[a], [b], [c]], Bounds(0, 0, t, t), [v]);
            h == [[if t == 0 then v else a], [if t == 1 then v else b], [if t == 2 then v else c]]
  {
    var f: Frame := [[a], [b], [c]];
    assert IsFrame(f, 1, 3);
    FillRowAt(f, t, v, 0);
    FillRowAt(f, t, v, 1);
    FillRowAt(f, t, v, 2);
    ColumnFrame(Fill(f, Bounds(0, 0, t, t), [v]), if t == 0 then v else a, if t == 1 then v else b, if t == 2 then v else c);
  }

  /** One clean copy of the single pixel in row `from` to row `to` of a 1 x 3 frame. */
  lemma CopyOnePixel(f: Frame, buf: seq<u16>, ch: Chunk, from: int, to: int)
    requires IsFrame(f, 1, 3) && |buf| == 1 && ch.lines == 1 && ch.top <= 1 && from == ch.top && to == from + 1
    ensures var r := Step(ScrollState(f, [], buf), Bounds(0, 0, 0, 1), ch, 0, 1, 1, 3);
            r.1 == Ok(Unit) && r.0.faults == [] && r.0.buffer == [f[from][0]]
            && r.0.frame == Fill(f, Bounds(0, 0, to, to), [f[from][0]])
  {
    var src := Bounds(0, 0, from, from);
    assert Strip(Bounds(0, 0, 0, 1), ch.top, ch.lines) == src;
    assert MoveBy(src, 0, 1) == Bounds(0, 0, to, to);
    CopyCleanMoves(f, buf, src, Bounds(0, 0, to, to), 1, 3);
    ReadPixelsAt(f, src, 0, from);
    assert Offset(src, 0, from) == 0;
    assert ReadPixels(f, src) == [f[from][0]];
  }

  /** Reading rows 0 and 1 of a 1 x 3 frame yields their two pixels, top first. */
  lemma ReadTopRows(f: Frame)
    requires IsFrame(f, 1, 3)
    ensures ReadPixels(f, Bounds(0, 0, 0, 1)) == [f[0][0], f[1][0]]
  {
    ReadPixelsAt(f, Bounds(0, 0, 0, 1), 0, 0);
    ReadPixelsAt(f, Bounds(0, 0, 0, 1), 0, 1);
  }

  /** Streaming rows 0 and 1 of a 1 x 3 frame into rows 1 and 2. */
  lemma BlockColumn(f: Frame)
    requires IsFrame(f, 1, 3)
    ensures Fill(f, Bounds(0, 0, 1, 2), [f[0][0], f[1][0]]) == [[f[0][0]], [f[0][0]], [f[1][0]]]
  {
    var px := [f[0][0], f[1][0]];
    FillColumnAt(f, 1, 2, px, 0);
    FillColumnAt(f, 1, 2, px, 1);
    FillColumnAt(f, 1, 2, px, 2);
    ColumnFrame(Fill(f, Bounds(0, 0, 1, 2), px), f[0][0], f[0][0], f[1][0]);
  }

  /** The block copy of rows 0 and 1 of a 1 x 3 frame one row down. */
  lemma BlockMoveColumn(a: u16, b: u16, c: u16)
    ensures var px := ReadPixels([[a], [b], [c]], Bounds(0, 0, 0, 1));
            Fill([[a], [b], [c]], MoveBy(Bounds(0, 0, 0, 1), 0, 1), px) == [[a], [a], [b]]
  {
    var f: Frame := [[a], [b], [c]];
    assert IsFrame(f, 1, 3) && f[0][0] == a && f[1][0] == b;
    ReadTopRows(f);
    BlockColumn(f);
  }

  /** The top chunk of a 1 x 2 area copied one row down overwrites row 1 with row 0. */
  lemma SmearFirst(f: Frame, area: Bounds, cs: seq<Chunk>, s0: ScrollState, s1: ScrollState, a: u16, b: u16, c: u16)
    requires f == [[a], [b], [c]] && area == Bounds(0, 0, 0, 1) && cs == [Chunk(0, 1), Chunk(1, 1)]
    requires s0 == ScrollState(f, [], [0]) && s1 == ScrollState([[a], [a], [c]], [], [a])
    ensures Run(s0, area, cs[..1], 0, 1, 1, 3) == (s1, Ok(Unit))
  {
    RunFirst(s0, area, cs, 0, 1, 1, 3);
    CopyOnePixel(f, [0], cs[0], 0, 1);
    FillColumnRow(a, b, c, 1, a);
  }

  /** ... and the bottom chunk then copies that overwritten row 1 into row 2. */
  lemma SmearSecondStep(area: Bounds, cs: seq<Chunk>, s1: ScrollState, s2: ScrollState, a: u16, c: u16)
    requires area == Bounds(0, 0, 0, 1) && cs == [Chunk(0, 1), Chunk(1, 1)]
    requires s1 == ScrollState([[a], [a], [c]], [], [a]) && s2 == ScrollState([[a], [a], [a]], [], [a])
    ensures Step(s1, area, cs[1], 0, 1, 1, 3) == (s2, Ok(Unit))
  {
    CopyOnePixel(s1.frame, [a], cs[1], 1, 2);
    FillColumnRow(a, a, c, 2, a);
  }

  lemma SmearSecond(area: Bounds, cs: seq<Chunk>, s0: ScrollState, s1: ScrollState, s2: ScrollState, a: u16, c: u16)
    requires area == Bounds(0, 0, 0, 1) && cs == [Chunk(0, 1), Chunk(1, 1)]
    requires s1 == ScrollState([[a], [a], [c]], [], [a]) && s2 == ScrollState([[a], [a], [a]], [], [a])
    requires Run(s0, area, cs[..1], 0, 1, 1, 3) == (s1, Ok(Unit))
    ensures Run(s0, area, cs, 0, 1, 1, 3) == (s2, Ok(Unit))
  {
    SmearSecondStep(area, cs, s1, s2, a, c);
    RunTwo(s0, area, cs, s1, (s2, Ok(Unit)), 0, 1, 1, 3);
  }

  /** Two chunks: the second runs from the state the first leaves. */
  lemma RunTwo(s0: ScrollState, area: Bounds, cs: seq<Chunk>, s1: ScrollState, r2: (ScrollState, Result<Unit, DisplayError>),
               dx: int, dy: int, width: int, height: int)
    requires |cs| == 2 && Run(s0, area, cs[..1], dx, dy, width, height) == (s1, Ok(Unit))
    requires Step(s1, area, cs[1], dx, dy, width, height) == r2
    ensures Run(s0, area, cs, dx, dy, width, height) == r2
  {
    assert cs[..2] == cs;
    RunSnoc(s0, area, cs, 1, dx, dy, width, height);
  }

  /** A buffer of one pixel splits a 1 x 2 area into two one-row chunks. */
  lemma SmearChunkRows(area: Bounds)
    requires area == Bounds(0, 0, 0, 1)
    ensures BufferLines(area, 1) == 1 && ChunkRows(Height(area), BufferLines(area, 1)) == [Chunk(0, 1), Chunk(1, 1)]
  {
    assert Height(area) == 2 && Width(area) == 1;
    assert BufferLines(area, 1) == 1;
    TwoUnitChunks();
  }

  lemma TwoUnitChunks()
    ensures ChunkRows(2, 1) == [Chunk(0, 1), Chunk(1, 1)]
  {
    assert Rows(1, 1) == 1 by { assert Rows(0, 1) == 0; }
    ChunkCount(2, 1);
    FullChunkAt(2, 1, 0, 0);
    FullChunkAt(2, 1, 1, 1);
  }

  /** The chunked copy of a 1 x 2 area of a 1 x 3 frame one row down, through a one-pixel buffer. */
  lemma ScrollDownChunked(f: Frame, area: Bounds, a: u16, b: u16, c: u16)
    requires f == [[a], [b], [c]] && area == Bounds(0, 0, 0, 1)
    ensures Run(ScrollState(f, [], [0]), area, ChunkRows(Height(area), BufferLines(area, 1)), 0, 1, 1, 3)
            == (ScrollState([[a], [a], [a]], [], [a]), Ok(Unit))
  {
    var cs := ChunkRows(Height(area), BufferLines(area, 1));
    SmearChunkRows(area);
    var s0 := ScrollState(f, [], [0]);
    var s1 := ScrollState([[a], [a], [c]], [], [a]);
    var s2 := ScrollState([[a], [a], [a]], [], [a]);
    SmearFirst(f, area, cs, s0, s1, a, b, c);
    SmearSecond(area, cs, s0, s1, s2, a, c);
  }

  lemma ColumnsDiffer(a: u16, b: u16)
    ensures a != b ==> [[a], [a], [a]] != [[a], [a], [b]]
  {
    if a != b {
      assert [[a], [a], [a]][2][0] != [[a], [a], [b]][2][0];
    }
  }

  /**
   * Moving a 1 x 2 area of a 1 x 3 frame down by one row through a buffer
   * of one row: the first chunk overwrites row 1 before the second chunk
   * reads it, so row 0's colour a ends up in rows 1 and 2 where the block copy
   * (`BlockMoveColumn`) leaves a in row 1 and row 1's colour b in row 2.
   */
  lemma ScrollDownSmears(f: Frame, area: Bounds, a: u16, b: u16, c: u16)
    requires f == [[a], [b], [c]] && area == Bounds(0, 0, 0, 1)
    ensures var r := Run(ScrollState(f, [], [0]), area, ChunkRows(Height(area), BufferLines(area, 1)), 0, 1, 1, 3);
            r.1 == Ok(Unit) && r.0.frame == [[a], [a], [a]]
            && (a != b ==> r.0.frame != [[a], [a], [b]])
  {
    ScrollDownChunked(f, area, a, b, c);
    ColumnsDiffer(a, b);
  }

  // ---------------------------------------------------------------------
  // Bottom-to-top order for copies that move down
  // ---------------------------------------------------------------------

  /** The chunks in the opposite order, last first. */
  function Reversed(cs: seq<Chunk>): (r: seq<Chunk>)
    ensures |r| == |cs|
  {
    seq(|cs|, i requires 0 <= i < |cs| => cs[|cs| - 1 - i])
  }

  /**
   * The order scroll_area should copy its chunks in: top to bottom when the
   * copies move up or sideways, bottom to top when they move down.
   */
  function ScrollOrder(cs: seq<Chunk>, dy: int): seq<Chunk>
  {
    if dy > 0 then Reversed(cs) else cs
  }

  lemma ReversedAt(cs: seq<Chunk>, j: nat, i: nat)
    requires j < |cs| && i == |cs| - 1 - j
    ensures Reversed(cs)[j] == cs[i]
  {
  }

  lemma ReversedFit(area: Bounds, cs: seq<Chunk>, bufLen: nat, dx: int, dy: int)
    requires ChunksFit(area, cs, bufLen, dx, dy)
    ensures ChunksFit(area, Reversed(cs), bufLen, dx, dy)
  {
    forall k | 0 <= k < |cs|
      ensures ChunkFits(area, Reversed(cs)[k], bufLen, dx, dy)
    {
      assert Reversed(cs)[k] == cs[|cs| - 1 - k];
    }
  }

  /**
   * The last k chunks, copied bottom to top, all succeed, leave every fault clean and move
   * the rows they span.
   */
  predicate SuffixMoved(f: Frame, faults: seq<ReadFault>, buf: seq<u16>, area: Bounds,
                        cs: seq<Chunk>, k: nat, dx: int, dy: int, width: int, height: int)
    requires k <= |cs|
  {
    var r := Run(ScrollState(f, faults, buf), area, Reversed(cs)[..k], dx, dy, width, height);
    r.1 == Ok(Unit) && r.0.frame == Moved(f, area, dx, dy, RowsDone(cs, |cs| - k), RowsDone(cs, |cs|))
    && AllClean(r.0.faults)
  }

  /** Copying the last k chunks bottom to top moves their rows, when the copies move down. */
  lemma {:induction false} RunSuffixMoves(f: Frame, faults: seq<ReadFault>, buf: seq<u16>, area: Bounds,
                                          cs: seq<Chunk>, k: nat, dx: int, dy: int, width: int, height: int)
    requires IsFrame(f, width, height) && Inside(area, width, height) && dy >= 0 && AllClean(faults)
    requires CanMoveBy(area, dx, dy) && Inside(MoveBy(area, dx, dy), width, height)
    requires ChunksFit(area, cs, |buf|, dx, dy) && Consecutive(cs) && RowsDone(cs, |cs|) <= Height(area)
    requires k <= |cs|
    ensures SuffixMoved(f, faults, buf, area, cs, k, dx, dy, width, height)
  {
    if k == 0 {
      assert Reversed(cs)[..0] == [];
      MovedNothing(f, area, dx, dy, RowsDone(cs, |cs|));
    } else {
      RunSuffixMoves(f, faults, buf, area, cs, k - 1, dx, dy, width, height);
      SuffixGrows(f, faults, buf, area, cs, k - 1, k, dx, dy, width, height);
    }
  }

  /** The inductive step of RunSuffixMoves: from the last j chunks to the last k = j + 1. */
  lemma SuffixGrows(f: Frame, faults: seq<ReadFault>, buf: seq<u16>, area: Bounds,
                    cs: seq<Chunk>, j: nat, k: nat, dx: int, dy: int, width: int, height: int)
    requires IsFrame(f, width, height) && Inside(area, width, height) && dy >= 0 && AllClean(faults)
    requires CanMoveBy(area, dx, dy) && Inside(MoveBy(area, dx, dy), width, height)
    requires ChunksFit(area, cs, |buf|, dx, dy) && Consecutive(cs) && RowsDone(cs, |cs|) <= Height(area)
    requires 1 <= k <= |cs| && j == k - 1
    requires SuffixMoved(f, faults, buf, area, cs, j, dx, dy, width, height)
    ensures SuffixMoved(f, faults, buf, area, cs, k, dx, dy, width, height)
  {
    var s0 := ScrollState(f, faults, buf);
    var rs := Reversed(cs);
    RunLast(s0, area, rs, k, dx, dy, width, height);
    var before := Run(s0, area, rs[..j], dx, dy, width, height).0;
    SuffixStep(f, before, area, cs, j, k, rs[j], |buf|, dx, dy, width, height);
  }

  /** Chunk c, the (j + 1)-th from the bottom, fits and sits right above the rows below it. */
  lemma SuffixJoins(area: Bounds, cs: seq<Chunk>, j: nat, k: nat, c: Chunk, bufLen: nat, dx: int, dy: int)
    requires ChunksFit(area, cs, bufLen, dx, dy) && Consecutive(cs) && RowsDone(cs, |cs|) <= Height(area)
    requires 1 <= k <= |cs| && j == k - 1 && c == Reversed(cs)[j] && dy >= 0
    ensures ChunkFits(area, c, bufLen, dx, dy) && c.top + c.lines <= Height(area)
    ensures Joins(c, RowsDone(cs, |cs| - j), RowsDone(cs, |cs|), RowsDone(cs, |cs| - k), RowsDone(cs, |cs|), dy)
  {
    var i := |cs| - k;
    ReversedAt(cs, j, i);
    assert |cs| - j == i + 1;
    assert c.top == RowsDone(cs, i);
    RowsMonotone(cs, i + 1, |cs|);
    RowsMonotone(cs, i, i + 1);
  }

  /**
   * Copying chunk c, the (j + 1)-th from the bottom, onto a frame whose rows below it are
   * already moved moves them from chunk c down.
   */
  lemma SuffixStep(f: Frame, before: ScrollState, area: Bounds, cs: seq<Chunk>, j: nat, k: nat, c: Chunk,
                   bufLen: nat, dx: int, dy: int, width: int, height: int)
    requires IsFrame(f, width, height) && Inside(area, width, height) && dy >= 0 && |before.buffer| == bufLen
    requires CanMoveBy(area, dx, dy) && Inside(MoveBy(area, dx, dy), width, height)
    requires ChunksFit(area, cs, bufLen, dx, dy) && Consecutive(cs) && RowsDone(cs, |cs|) <= Height(area)
    requires 1 <= k <= |cs| && j == k - 1 && c == Reversed(cs)[j]
    requires AllClean(before.faults) && before.frame == Moved(f, area, dx, dy, RowsDone(cs, |cs| - j), RowsDone(cs, |cs|))
    ensures var after := Step(before, area, c, dx, dy, width, height);
            after.1 == Ok(Unit) && after.0.frame == Moved(f, area, dx, dy, RowsDone(cs, |cs| - k), RowsDone(cs, |cs|))
            && AllClean(after.0.faults)
  {
    SuffixJoins(area, cs, j, k, c, bufLen, dx, dy);
    assert NextFault(before.faults) == Clean;
    MovedStep(f, before, area, c, RowsDone(cs, |cs| - j), RowsDone(cs, |cs|), RowsDone(cs, |cs| - k), RowsDone(cs, |cs|),
              dx, dy, width, height);
  }

  /**
   * Copying the chunks in ScrollOrder reproduces one block copy for every
   * direction of the move: the correction of scroll_area for vertBy > 0.
   */
  lemma ScrollOrderMovesBlock(f: Frame, faults: seq<ReadFault>, buf: seq<u16>, area: Bounds, dx: int, dy: int,
                              width: int, height: int)
    requires IsFrame(f, width, height) && Inside(area, width, height) && Width(area) <= |buf|
    requires ScrollFits(area, BufferLines(area, |buf|), dx, dy) && AllClean(faults)
    requires CanMoveBy(area, dx, dy) && Inside(MoveBy(area, dx, dy), width, height)
    ensures var cs := ChunkRows(Height(area), BufferLines(area, |buf|));
            var r := Run(ScrollState(f, faults, buf), area, ScrollOrder(cs, dy), dx, dy, width, height);
            r.1 == Ok(Unit) && r.0.frame == Fill(f, MoveBy(area, dx, dy), ReadPixels(f, area))
  {
    if dy <= 0 {
      ScrollMovesBlock(f, faults, buf, area, dx, dy, width, height);
    } else {
      var lines := BufferLines(area, |buf|);
      assert lines >= 1 by {
        MulLeft(1, |buf| / Width(area), Width(area));
      }
      var cs := ChunkRows(Height(area), lines);
      ChunkRowsTile(Height(area), lines);
      ChunkRowsFit(area, |buf|, dx, dy);
      RunSuffixMoves(f, faults, buf, area, cs, |cs|, dx, dy, width, height);
      assert Reversed(cs)[..|cs|] == Reversed(cs);
      assert RowsDone(cs, 0) == 0;
      MovedAll(f, area, dx, dy, width, height);
    }
  }

  class CopyScroller {
    /** The caller-owned staging buffer. */
    const buffer: array<u16>

    /** `CopyScroller::new`: borrows the caller's buffer. */
    constructor New(buffer: array<u16>)
      ensures this.buffer == buffer
    {
      this.buffer := buffer;
    }

    /** `copy`: stage window src in the buffer, then write the staged colours to window tgt. */
    method Copy(src: Bounds, tgt: Bounds, disp: Screen) returns (r: Result<Unit, DisplayError>)
      requires disp.Valid() && Valid(src) && Area(src) <= buffer.Length
      modifies buffer, disp`frame, disp`faults
      ensures disp.Valid()
      ensures disp.faults == RestFaults(old(disp.faults))
      ensures Copied(disp.frame, buffer[..], r)
              == CopyStep(old(disp.frame), NextFault(old(disp.faults)), old(buffer[..]), src, tgt, disp.width, disp.height)
    {
      var area := Area(src);
      var read := disp.ReadArea(src);
      if read.Err? {
        return Err(read.error);
      }
      var items := read.value;
      var n := Min(|items|, area);
      var i := 0;
      while i < n
        invariant 0 <= i <= n
        invariant forall k :: 0 <= k < i ==> items[k].Ok?
        invariant buffer[..] == Staged(items, old(buffer[..]), i)
        modifies buffer
      {
        match items[i]
        case Err(e) =>
          FirstErrorIs(items, 0, n, i);
          return Err(e);
        case Ok(c) =>
          buffer[i] := c;
          i := i + 1;
      }
      FirstErrorIs(items, 0, n, n);
      r := disp.FillArea(tgt, buffer[..area]);
    }

    /** One Copy of chunk k of cs extends the run of the chunks before it by that chunk. */
    method CopyChunk(disp: Screen, area: Bounds, src: Bounds, tgt: Bounds, dx: int, dy: int,
                     ghost s0: ScrollState, ghost cs: seq<Chunk>, ghost k: nat)
      returns (r: Result<Unit, DisplayError>)
      requires disp.Valid() && ChunksFit(area, cs, buffer.Length, dx, dy) && k < |cs|
      requires src == Strip(area, cs[k].top, cs[k].lines) && tgt == MoveBy(src, dx, dy)
      requires Run(s0, area, cs[..k], dx, dy, disp.width, disp.height)
               == (ScrollState(disp.frame, disp.faults, buffer[..]), Ok(Unit))
      modifies buffer, disp`frame, disp`faults
      ensures disp.Valid()
      ensures Run(s0, area, cs[..k + 1], dx, dy, disp.width, disp.height)
              == (ScrollState(disp.frame, disp.faults, buffer[..]), r)
      ensures r.Err? ==> Run(s0, area, cs, dx, dy, disp.width, disp.height)
                         == (ScrollState(disp.frame, disp.faults, buffer[..]), r)
    {
      assert ChunkFits(area, cs[k], buffer.Length, dx, dy);
      StripArea(area, cs[k].top, cs[k].lines);
      r := Copy(src, tgt, disp);
      RunSnoc(s0, area, cs, k, dx, dy, disp.width, disp.height);
      if r.Err? {
        RunStopsAtError(s0, area, cs, k + 1, dx, dy, disp.width, disp.height);
      }
    }

    /**
     * The `for` loop of `scroll_area`: copy the full strips one after the
     * other, moving both windows down by `lines` after each, and stop at the
     * first error.
     */
    method CopyFullStrips(disp: Screen, area: Bounds, lines: nat, iterations: nat, horizBy: i16, vertBy: i16,
                          source0: Bounds, target0: Bounds, ghost s0: ScrollState, ghost cs: seq<Chunk>)
      returns (r: Result<Unit, DisplayError>, sourceWindow: Bounds, targetWindow: Bounds)
      requires disp.Valid() && Valid(area) && 1 <= lines <= Height(area) && ScrollFits(area, lines, horizBy, vertBy)
      requires iterations == Height(area) / lines && cs == ChunkRows(Height(area), lines)
      requires ChunksFit(area, cs, buffer.Length, horizBy, vertBy)
      requires s0 == ScrollState(disp.frame, disp.faults, buffer[..])
      requires area.yStart + lines - 1 < 0x1_0000 && source0 == Strip(area, 0, lines)
      requires CanMoveBy(source0, horizBy, vertBy) && target0 == MoveBy(source0, horizBy, vertBy)
      modifies buffer, disp`frame, disp`faults
      ensures disp.Valid()
      ensures r.Err? ==> Run(s0, area, cs, horizBy, vertBy, disp.width, disp.height)
                         == (ScrollState(disp.frame, disp.faults, buffer[..]), r)
      ensures r.Ok? ==> Run(s0, area, cs[..iterations], horizBy, vertBy, disp.width, disp.height)
                        == (ScrollState(disp.frame, disp.faults, buffer[..]), Ok(Unit))
      ensures r.Ok? ==> area.yStart + Rows(iterations, lines) + lines - 1 < 0x1_0000
                        && sourceWindow == Strip(area, Rows(iterations, lines), lines)
                        && CanMoveBy(sourceWindow, horizBy, vertBy) && targetWindow == MoveBy(sourceWindow, horizBy, vertBy)
    {
      sourceWindow, targetWindow := source0, target0;
      FullChunksIn(Height(area), lines);
      var k := 0;
      ghost var top := 0;
      while k < iterations
        invariant 0 <= k <= iterations && top == Rows(k, lines)
        invariant area.yStart + top + lines - 1 < 0x1_0000
        invariant sourceWindow == Strip(area, top, lines)
        invariant CanMoveBy(sourceWindow, horizBy, vertBy) && targetWindow == MoveBy(sourceWindow, horizBy, vertBy)
        invariant disp.Valid()
        invariant Run(s0, area, cs[..k], horizBy, vertBy, disp.width, disp.height)
                  == (ScrollState(disp.frame, disp.faults, buffer[..]), Ok(Unit))
      {
        r, sourceWindow, targetWindow := CopyFullStrip(disp, area, lines, horizBy, vertBy, sourceWindow, targetWindow, s0, cs, k, top);
        if r.Err? {
          return;
        }
        k := k + 1;
        top := top + lines;
      }
      r := Ok(Unit);
    }

    /** One round of that loop: copy full strip k, then move both windows down by `lines`. */
    method CopyFullStrip(disp: Screen, area: Bounds, lines: nat, horizBy: i16, vertBy: i16,
                         source: Bounds, target: Bounds, ghost s0: ScrollState, ghost cs: seq<Chunk>, ghost k: nat, ghost top: nat)
      returns (r: Result<Unit, DisplayError>, sourceWindow: Bounds, targetWindow: Bounds)
      requires disp.Valid() && Valid(area) && 1 <= lines <= Height(area) && ScrollFits(area, lines, horizBy, vertBy)
      requires cs == ChunkRows(Height(area), lines) && ChunksFit(area, cs, buffer.Length, horizBy, vertBy)
      requires k < Height(area) / lines && top == Rows(k, lines)
      requires area.yStart + top + lines - 1 < 0x1_0000 && source == Strip(area, top, lines)
      requires CanMoveBy(source, horizBy, vertBy) && target == MoveBy(source, horizBy, vertBy)
      requires Run(s0, area, cs[..k], horizBy, vertBy, disp.width, disp.height)
               == (ScrollState(disp.frame, disp.faults, buffer[..]), Ok(Unit))
      modifies buffer, disp`frame, disp`faults
      ensures disp.Valid()
      ensures r.Err? ==> Run(s0, area, cs, horizBy, vertBy, disp.width, disp.height)
                         == (ScrollState(disp.frame, disp.faults, buffer[..]), r)
      ensures r.Ok? ==> Run(s0, area, cs[..k + 1], horizBy, vertBy, disp.width, disp.height)
                        == (ScrollState(disp.frame, disp.faults, buffer[..]), Ok(Unit))
      ensures r.Ok? ==> area.yStart + top + lines + lines - 1 < 0x1_0000
                        && sourceWindow == Strip(area, top + lines, lines)
                        && CanMoveBy(sourceWindow, horizBy, vertBy) && targetWindow == MoveBy(sourceWindow, horizBy, vertBy)
    {
      FullChunkAt(Height(area), lines, k, top);
      r := CopyChunk(disp, area, source, target, horizBy, vertBy, s0, cs, k);
      sourceWindow, targetWindow := source, target;
      if r.Err? {
        return;
      }
      StepWindows(area, lines, horizBy, vertBy, k, top, source, target);
      sourceWindow := MoveBy(source, 0, lines);
      targetWindow := MoveBy(target, 0, lines);
    }

    /**
     * The tail of `scroll_area`: when the full strips leave rows over, cut
     * both windows down to them and copy that last strip.
     */
    method CopyRemainingRows(disp: Screen, area: Bounds, lines: nat, iterations: nat, horizBy: i16, vertBy: i16,
                             sourceWindow: Bounds, targetWindow: Bounds, ghost s0: ScrollState, ghost cs: seq<Chunk>)
      returns (r: Result<Unit, DisplayError>)
      requires disp.Valid() && Valid(area) && 1 <= lines <= Height(area) && ScrollFits(area, lines, horizBy, vertBy)
      requires iterations == Height(area) / lines && cs == ChunkRows(Height(area), lines)
      requires ChunksFit(area, cs, buffer.Length, horizBy, vertBy)
      requires Run(s0, area, cs[..iterations], horizBy, vertBy, disp.width, disp.height)
               == (ScrollState(disp.frame, disp.faults, buffer[..]), Ok(Unit))
      requires area.yStart + Rows(iterations, lines) + lines - 1 < 0x1_0000
      requires sourceWindow == Strip(area, Rows(iterations, lines), lines)
      requires CanMoveBy(sourceWindow, horizBy, vertBy) && targetWindow == MoveBy(sourceWindow, horizBy, vertBy)
      modifies buffer, disp`frame, disp`faults
      ensures disp.Valid()
      ensures Run(s0, area, cs, horizBy, vertBy, disp.width, disp.height)
              == (ScrollState(disp.frame, disp.faults, buffer[..]), r)
    {
      assert Height(sourceWindow) == lines;
      var remaining := Height(area) - iterations * Height(sourceWindow);
      assert remaining == Height(area) % lines && Rows(iterations, lines) == iterations * lines by {
        DivModSplit(Height(area), lines);
        RowsIsProduct(iterations, lines);
      }
      ChunkCount(Height(area), lines);
      if remaining > 0 {
        ChunkAt(Height(area), lines, iterations);
        RemainderWindows(area, lines, horizBy, vertBy, Rows(iterations, lines), remaining);
        var sourceRest := SetHeight(sourceWindow, remaining);
        var targetRest := SetHeight(targetWindow, remaining);
        r := CopyChunk(disp, area, sourceRest, targetRest, horizBy, vertBy, s0, cs, iterations);
        assert cs[..iterations + 1] == cs;
      } else {
        assert cs[..iterations] == cs;
        r := Ok(Unit);
      }
    }

    /**
     * `scroll_area`: copy area to its translate by (horizBy, vertBy), through
     * the buffer, in strips of BufferLines rows from the top down.
     */
    method ScrollArea(disp: Screen, area: Bounds, horizBy: i16, vertBy: i16) returns (r: Result<Unit, DisplayError>)
      requires disp.Valid() && 1 <= disp.width && 1 <= disp.height
      requires NewWithin(area, ScreenBounds(disp.width, disp.height)).Some?
      requires Width(area) <= buffer.Length
      requires ScrollFits(area, BufferLines(area, buffer.Length), horizBy, vertBy)
      modifies buffer, disp`frame, disp`faults
      ensures disp.Valid()
      ensures ChunksFit(area, ChunkRows(Height(area), BufferLines(area, buffer.Length)), buffer.Length, horizBy, vertBy)
      ensures (ScrollState(disp.frame, disp.faults, buffer[..]), r)
              == Run(ScrollState(old(disp.frame), old(disp.faults), old(buffer[..])), area,
                     ChunkRows(Height(area), BufferLines(area, buffer.Length)), horizBy, vertBy, disp.width, disp.height)
    {
      var source := NewWithin(area, ScreenBounds(disp.width, disp.height)).value;
      assert source == area;
      var lines := Min(Height(source), buffer.Length / Width(source));
      assert 1 <= lines == BufferLines(area, buffer.Length) by {
        MulLeft(1, buffer.Length / Width(area), Width(area));
      }
      ghost var cs := ChunkRows(Height(area), lines);
      ghost var s0 := ScrollState(disp.frame, disp.faults, buffer[..]);
      ChunkRowsFit(area, buffer.Length, horizBy, vertBy);
      FirstWindows(area, lines, horizBy, vertBy);
      var sourceWindow := SetHeight(source, lines);
      var targetWindow := MoveBy(sourceWindow, horizBy, vertBy);
      var iterations := Height(source) / lines;
      r, sourceWindow, targetWindow :=
        CopyFullStrips(disp, area, lines, iterations, horizBy, vertBy, sourceWindow, targetWindow, s0, cs);
      if r.Err? {
        return;
      }
      r := CopyRemainingRows(disp, area, lines, iterations, horizBy, vertBy, sourceWindow, targetWindow, s0, cs);
    }
  }
}
