/**
 * Glyph decoding of src/term/mod.rs: a monospace font is a packed bit table holding one
 * W x H glyph per character code 32 ..= 127, W * H bits each, bit i of the table being bit
 * i % 8 of byte i / 8 (least significant first). `get_bits` walks a glyph's bits in table
 * order; `get_bits_transposed` walks them with an inner `row` counter running to W and an
 * outer `col` counter running to H, and reads bit `start + row * W + col`.
 *
 * The font module itself is not part of this model: a `Font` is its two dimensions and its
 * data, with the sizes the arithmetic of the decoder needs stated as predicates.
 */
module Glyph {
  import opened Uint
  import opened Wrappers

  /** `MonoFont`: `CHAR_WIDTH`, `CHAR_HEIGHT` and `data()`. */
  datatype Font = Font(width: u8, height: u8, data: seq<u8>)

  /** Bits of one glyph, `u16::from(CHAR_HEIGHT) * u16::from(CHAR_WIDTH)`. */
  function BitsPerChar(font: Font): nat
  {
    font.height * font.width
  }

  /** The character code a glyph is looked up by: printable ASCII, anything else as 127. */
  function GlyphCode(ch: char): (code: u8)
    ensures 32 <= code <= 127
    ensures 32 <= ch as int <= 127 ==> code == ch as int
    ensures !(32 <= ch as int <= 127) ==> code == 127
  {
    if (ch as int) < 32 || (ch as int) > 127 then 127 else ch as int
  }

  /**
   * `(code - 32) * bits_per_char` is computed in u16: every glyph's first bit must be a u16,
   * or the multiplication overflows.
   */
  predicate StartFits(font: Font)
  {
    95 * BitsPerChar(font) < 0x1_0000
  }

  /** The index in the font table of the first bit of the glyph for ch. */
  function GlyphStart(font: Font, ch: char): (start: u16)
    requires StartFits(font)
    ensures start + BitsPerChar(font) <= 96 * BitsPerChar(font)
  {
    var index, n := GlyphCode(ch) - 32, BitsPerChar(font);
    MulLeft(index, 95, n);
    index * n
  }

  /** Distinct codes own disjoint runs of the table. */
  lemma GlyphsDisjoint(font: Font, c1: char, c2: char)
    requires StartFits(font) && GlyphCode(c1) < GlyphCode(c2)
    ensures GlyphStart(font, c1) + BitsPerChar(font) <= GlyphStart(font, c2)
  {
    MulLeft(GlyphCode(c1) - 32 + 1, GlyphCode(c2) - 32, BitsPerChar(font));
  }

  /** The table holds all 96 glyphs. */
  predicate TableCovers(font: Font)
  {
    96 * BitsPerChar(font) <= 8 * |font.data|
  }

  /** `byte & (1 << j) != 0`: the test both iterators apply. */
  function BitSet(b: u8, j: nat): bool
    requires j < 8
  {
    (b as bv8) & ((1 as bv8) << j) != 0
  }

  /** The mask test agrees with `(b >> j) & 1`: bit j counted from the least significant end. */
  lemma BitSetIsShift(b: u8, j: nat)
    requires j < 8
    ensures BitSet(b, j) <==> ((b as bv8) >> j) & 1 == 1
  {
    var v := b as bv8;
    if j == 0 { assert v & 1 != 0 <==> v & 1 == 1; }
    else if j == 1 { assert v & 2 != 0 <==> (v >> 1) & 1 == 1; }
    else if j == 2 { assert v & 4 != 0 <==> (v >> 2) & 1 == 1; }
    else if j == 3 { assert v & 8 != 0 <==> (v >> 3) & 1 == 1; }
    else if j == 4 { assert v & 16 != 0 <==> (v >> 4) & 1 == 1; }
    else if j == 5 { assert v & 32 != 0 <==> (v >> 5) & 1 == 1; }
    else if j == 6 { assert v & 64 != 0 <==> (v >> 6) & 1 == 1; }
    else { assert v & 128 != 0 <==> (v >> 7) & 1 == 1; }
  }

  /** Bit i of a packed table: bit i % 8 of byte i / 8. */
  function TableBit(data: seq<u8>, i: nat): bool
    requires i < 8 * |data|
  {
    BitSet(data[i / 8], i % 8)
  }

  /** Dropping the first byte of a table moves every bit down by eight. */
  lemma TableBitDrop(data: seq<u8>, i: nat)
    requires 1 <= |data| && i < 8 * (|data| - 1)
    ensures TableBit(data[1..], i) == TableBit(data, i + 8)
  {
    assert (i + 8) / 8 == i / 8 + 1 && (i + 8) % 8 == i % 8;
  }

  /** Dropping n bytes moves every bit down by 8 n: the slice `get_bits` starts from. */
  lemma {:induction false} TableBitSuffix(data: seq<u8>, n: nat, i: nat)
    requires n <= |data| && i < 8 * (|data| - n)
    ensures TableBit(data[n..], i) == TableBit(data, 8 * n + i)
    decreases n
  {
    if n > 0 {
      TableBitSuffix(data, n - 1, i + 8);
      assert data[n..] == data[n - 1..][1..];
      TableBitDrop(data[n - 1..], i);
    }
  }

  /** The glyph for ch in table order, row by row: what `get_bits` yields. */
  function GlyphBits(font: Font, ch: char): (bits: seq<bool>)
    requires StartFits(font) && TableCovers(font)
    ensures |bits| == BitsPerChar(font)
  {
    var start := GlyphStart(font, ch);
    seq(BitsPerChar(font), k requires 0 <= k < BitsPerChar(font) => TableBit(font.data, start + k))
  }

  // ---------------------------------------------------------------------------------------------
  // CharPixelIter (src/term/mod.rs:52-73)
  // ---------------------------------------------------------------------------------------------

  /** `get_bits`' iterator: the table from the glyph's byte on, a bit offset in it and a count. */
  class CharPixelIter {
    var data: seq<u8>
    var bitOffset: u8
    var count: u16

    /** The next bit is bit `bitOffset` of `data`; the remaining `count` bits lie inside `data`. */
    predicate Valid()
      reads this
    {
      bitOffset < 8 && bitOffset + count <= 8 * |data|
    }

    /** The items the iterator has still to yield, in order. */
    function Remaining(): (bits: seq<bool>)
      reads this
      requires Valid()
      ensures |bits| == count
    {
      var n, d, o := count, data, bitOffset;
      seq(n, k requires 0 <= k < n => TableBit(d, o + k))
    }

    /** `get_bits(font, ch)`: starts at the glyph's byte, at its bit within that byte. */
    constructor GetBits(font: Font, ch: char)
      requires StartFits(font) && TableCovers(font)
      ensures Valid()
      ensures count == BitsPerChar(font)
      ensures Remaining() == GlyphBits(font, ch)
    {
      var start := GlyphStart(font, ch);
      var byteOffset := start / 8;
      data := font.data[byteOffset..];
      bitOffset := start % 8;
      count := BitsPerChar(font);
      new;
      forall k | 0 <= k < count
        ensures Remaining()[k] == GlyphBits(font, ch)[k]
      {
        TableBitSuffix(font.data, byteOffset, bitOffset + k);
      }
    }

    /** `next`: the first remaining bit, or `None` once `count` reaches zero. */
    method Next() returns (r: Option<bool>)
      requires Valid()
      modifies this
      ensures Valid()
      ensures old(count) == 0 ==> r == None && count == 0
      ensures old(count) > 0 ==> r == Some(old(Remaining())[0]) && Remaining() == old(Remaining())[1..]
    {
      if count == 0 {
        return None;
      }
      ghost var before := Remaining();
      assert bitOffset / 8 == 0 && bitOffset % 8 == bitOffset;
      assert before[0] == TableBit(data, bitOffset + 0);
      assert before[0] == BitSet(data[0], bitOffset);
      count := count - 1;
      var bit := BitSet(data[0], bitOffset);
      if bitOffset == 7 {
        ghost var old_data := data;
        bitOffset := 0;
        data := data[1..];
        forall k | 0 <= k < count
          ensures Remaining()[k] == before[k + 1]
        {
          TableBitDrop(old_data, k);
        }
      } else {
        bitOffset := bitOffset + 1;
      }
      assert Remaining() == before[1..];
      r := Some(bit);
    }
  }

  // ---------------------------------------------------------------------------------------------
  // CharPixelTransIter (src/term/mod.rs:75-99)
  // ---------------------------------------------------------------------------------------------

  /** The table bit, relative to the glyph's first bit, that item k of the transposed walk reads. */
  function TransIndex(w: nat, k: nat): nat
    requires 1 <= w
  {
    (k % w) * w + k / w
  }

  /** The largest index the transposed walk reads: row W - 1, col H - 1. */
  function MaxTransIndex(font: Font): int
  {
    (font.width - 1) * font.width + (font.height - 1)
  }

  /**
   * What `get_bits_transposed` needs of the font: non-empty glyphs (a zero width makes `row`
   * count up without end), each sum `start + row * W + col` a u16, and each byte it reads
   * inside the table.
   */
  predicate TransFits(font: Font, start: int)
  {
    1 <= font.width && 1 <= font.height
    && 0 <= start && start + MaxTransIndex(font) < 0x1_0000 && start + MaxTransIndex(font) < 8 * |font.data|
  }

  /** Item k of a W x H walk has `row` k % W and `col` k / W, the latter below H. */
  lemma WalkCoords(w: nat, h: nat, k: nat)
    requires 1 <= w && k < h * w
    ensures k / w < h && k == (k / w) * w + k % w
  {
    MulMonotone(h, k / w, w);
  }

  /** Every index the walk reads is at most the one at row W - 1, col H - 1. */
  lemma TransIndexBound(font: Font, k: nat)
    requires 1 <= font.width && 1 <= font.height && k < BitsPerChar(font)
    ensures TransIndex(font.width, k) <= MaxTransIndex(font)
  {
    WalkCoords(font.width, font.height, k);
    MulLeft(k % font.width, font.width - 1, font.width);
  }

  /** Items p, p + 1, ... of the transposed walk over the glyph whose first bit is `start`. */
  function TransWalk(font: Font, start: int, p: nat): (bits: seq<bool>)
    requires TransFits(font, start) && p <= BitsPerChar(font)
    ensures |bits| == BitsPerChar(font) - p
  {
    var n := BitsPerChar(font);
    seq(n - p, k requires 0 <= k < n - p =>
      TransIndexBound(font, p + k);
      TableBit(font.data, start + TransIndex(font.width, p + k)))
  }

  /** The walk from p yields the bit at p's index, then the walk from p + 1. */
  lemma TransWalkStep(font: Font, start: int, p: nat)
    requires TransFits(font, start) && p < BitsPerChar(font)
    ensures start + TransIndex(font.width, p) < 8 * |font.data|
    ensures TransWalk(font, start, p)[0] == TableBit(font.data, start + TransIndex(font.width, p))
    ensures TransWalk(font, start, p)[1..] == TransWalk(font, start, p + 1)
  {
    TransIndexBound(font, p);
    var a, b := TransWalk(font, start, p), TransWalk(font, start, p + 1);
    forall k | 0 <= k < |b|
      ensures a[1..][k] == b[k]
    {
      assert p + (k + 1) == p + 1 + k;
    }
  }

  /** The items of the transposed walk over the glyph for ch, in the order they are yielded. */
  function TransBits(font: Font, ch: char): (bits: seq<bool>)
    requires StartFits(font) && TransFits(font, GlyphStart(font, ch))
    ensures |bits| == BitsPerChar(font)
  {
    TransWalk(font, GlyphStart(font, ch), 0)
  }

  /** `get_bits_transposed`' iterator: the whole table, the glyph's first bit and two counters. */
  class CharPixelTransIter {
    const font: Font
    const bitOffset: u16
    var row: u8
    var col: u8

    /**
     * `row` runs 0 ..= W and `col` 0 .. H until the walk ends; `Next` sets `col` to H when it
     * yields `None`.
     */
    predicate Valid()
      reads this
    {
      TransFits(font, bitOffset) && row <= font.width && col <= font.height
      && (col == font.height ==> row == font.width)
    }

    /** How many items the walk has yielded: col full passes of W rows, then `row` more. */
    function Position(): nat
      reads this
    {
      col * font.width + row
    }

    /** The walk has yielded its final `None`. */
    predicate Finished()
      reads this
    {
      col == font.height
    }

    /** The items still to come, in order. */
    function Remaining(): (bits: seq<bool>)
      reads this
      requires Valid()
      ensures Finished() ==> bits == []
    {
      if Finished() then []
      else
        PositionBound(font.width, font.height, row, col);
        TransWalk(font, bitOffset, Position())
    }

    /** `get_bits_transposed(font, ch)`: both counters at zero, at the glyph's first bit. */
    constructor GetBitsTransposed(font: Font, ch: char)
      requires StartFits(font) && TransFits(font, GlyphStart(font, ch))
      ensures Valid() && !Finished() && this.font == font
      ensures Remaining() == TransBits(font, ch)
    {
      this.font := font;
      bitOffset := GlyphStart(font, ch);
      row, col := 0, 0;
    }

    /**
     * `next`: moves to the next column once `row` reaches W, gives `None` when that was the
     * last column, and otherwise reads bit `start + row * W + col`.
     */
    method Next() returns (r: Option<bool>)
      requires Valid() && !Finished()
      modifies this`row, this`col
      ensures Valid()
      ensures old(Remaining()) == [] ==> r == None && Finished()
      ensures old(Remaining()) != [] ==> r == Some(old(Remaining())[0]) && Remaining() == old(Remaining())[1..]
    {
      ghost var p := Position();
      PositionBound(font.width, font.height, row, col);
      if row == font.width {
        NextColumn(font.width, col);
        col := col + 1;
        if col == font.height {
          return None;
        }
        row := 0;
      }
      assert Position() == p;
      PositionStep(font.width, font.height, row, col);
      TransWalkStep(font, bitOffset, p);
      TransIndexBound(font, p);
      var index: u16 := bitOffset + row * font.width + col;
      row := row + 1;
      var byteOffset := index / 8;
      var bit := BitSet(font.data[byteOffset], index % 8);
      r := Some(bit);
    }
  }

  /** The position `col * W + row` never passes the glyph's size. */
  lemma PositionBound(w: nat, h: nat, row: nat, col: nat)
    requires 1 <= w && row <= w && col <= h && (col == h ==> row == w)
    ensures col < h ==> col * w + row <= h * w
  {
    if col < h {
      MulLeft(col + 1, h, w);
    }
  }

  /** Row W of column `col` is row 0 of column `col + 1`. */
  lemma NextColumn(w: nat, col: nat)
    ensures col * w + w == (col + 1) * w + 0
  {
  }

  /** At `row < W`, position `col * W + row` is an item of the walk, and it reads `row * W + col`. */
  lemma PositionStep(w: nat, h: nat, row: nat, col: nat)
    requires 1 <= w && row < w && col < h
    ensures col * w + row < h * w
    ensures TransIndex(w, col * w + row) == row * w + col
  {
    DivModOf(col, w, row);
    MulLeft(col + 1, h, w);
  }

  // ---------------------------------------------------------------------------------------------
  // What the transposed walk reads
  // ---------------------------------------------------------------------------------------------

  /** In a square W x W walk, item k reads glyph bit (row k % W, col k / W) exchanged. */
  lemma SquareItem(w: nat, k: nat)
    requires 1 <= w && k < w * w
    ensures TransIndex(w, k) < w * w
    ensures TransIndex(w, k) / w == k % w && TransIndex(w, k) % w == k / w
    ensures TransIndex(w, TransIndex(w, k)) == k
  {
    var row, col := k % w, k / w;
    WalkCoords(w, w, k);
    PositionStep(w, w, col, row);
    DivModOf(row, w, col);
    PositionStep(w, w, row, col);
  }

  /**
   * For a square glyph the transposed walk is a permutation of the glyph's bits: item k is the
   * glyph bit with row and column of k exchanged, and exchanging twice gives k back.
   */
  lemma SquareTransposes(font: Font, ch: char, k: nat)
    requires StartFits(font) && TableCovers(font) && TransFits(font, GlyphStart(font, ch))
    requires font.width == font.height && k < BitsPerChar(font)
    ensures TransIndex(font.width, k) < BitsPerChar(font)
    ensures TransIndex(font.width, TransIndex(font.width, k)) == k
    ensures TransBits(font, ch)[k] == GlyphBits(font, ch)[TransIndex(font.width, k)]
  {
    SquareItem(font.width, k);
  }

  /**
   * The walk reads each bit of the glyph exactly once if and only if the glyph is square or
   * one pixel wide; otherwise it either reads past the glyph or reads a bit twice.
   */
  lemma TransposedCoversGlyph(w: nat, h: nat)
    requires 1 <= w && 1 <= h
    ensures (w == h || w == 1) ==>
              (forall k :: 0 <= k < h * w ==> TransIndex(w, k) < h * w)
              && (forall j, k :: 0 <= j < k < h * w ==> TransIndex(w, j) != TransIndex(w, k))
    ensures !(w == h || w == 1) ==>
              (exists k :: 0 <= k < h * w && TransIndex(w, k) >= h * w)
              || (exists j, k :: 0 <= j < k < h * w && TransIndex(w, j) == TransIndex(w, k))
  {
    if w == 1 {
      ThinWalk(h);
    } else if w == h {
      SquareWalk(w);
    } else if h < w {
      WideWalkOverruns(w, h);
    } else {
      TallWalkRepeats(w, h);
    }
  }

  /** A one pixel wide walk reads bit k as item k. */
  lemma ThinWalk(h: nat)
    ensures forall k :: 0 <= k < h * 1 ==> TransIndex(1, k) == k
  {
  }

  /** A square walk stays in the glyph and never reads a bit twice. */
  lemma SquareWalk(w: nat)
    requires 1 <= w
    ensures forall k :: 0 <= k < w * w ==> TransIndex(w, k) < w * w
    ensures forall j, k :: 0 <= j < k < w * w ==> TransIndex(w, j) != TransIndex(w, k)
  {
    forall k | 0 <= k < w * w
      ensures TransIndex(w, k) < w * w
    {
      SquareItem(w, k);
    }
    forall j, k | 0 <= j < k < w * w
      ensures TransIndex(w, j) != TransIndex(w, k)
    {
      SquareItem(w, j);
      SquareItem(w, k);
    }
  }

  /** A walk wider than tall reads past the glyph at row W - 1 of col H - 1. */
  lemma WideWalkOverruns(w: nat, h: nat)
    requires 1 <= h < w
    ensures exists k :: 0 <= k < h * w && TransIndex(w, k) >= h * w
  {
    var k := (h - 1) * w + (w - 1);
    PositionStep(w, h, w - 1, h - 1);
    ExchangedPastGlyph(w, h);
    assert 0 <= k < h * w && TransIndex(w, k) >= h * w;
  }

  /** A walk taller than wide reads bit W both at item 1 (row 1, col 0) and at item W * W (row 0, col W). */
  lemma TallWalkRepeats(w: nat, h: nat)
    requires 1 < w < h
    ensures exists j, k :: 0 <= j < k < h * w && TransIndex(w, j) == TransIndex(w, k)
  {
    PositionStep(w, h, 1, 0);
    PositionStep(w, h, 0, w);
    assert 0 <= 0 * w + 1 < w * w + 0 < h * w && TransIndex(w, 0 * w + 1) == TransIndex(w, w * w + 0);
  }

  /** For a glyph wider than tall, row W - 1 of col H - 1 lies past the glyph's last bit. */
  lemma ExchangedPastGlyph(w: nat, h: nat)
    requires 1 <= h < w
    ensures (w - 1) * w + (h - 1) >= h * w
  {
    assert (w - 1) * w - (w - 1) * h == (w - 1) * (w - h);
    MulLeft(1, w - 1, w - h);
  }
}
