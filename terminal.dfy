/**
 * The text terminal of src/term/mod.rs. `Term` draws text on a display through two
 * collaborators it is generic over, a `Display` and a `Scroller`, and ignores what their calls
 * return (`.ok()`). Here those collaborators are replaced by a log of the calls the terminal
 * makes: clearing a strip, streaming a glyph into a window, and scrolling an area.
 *
 * A pure reference, `Step` and `Run`, gives the cursor and the calls each token of text
 * produces; the class `Term` is proved to follow it. Rust's u16 arithmetic panics on overflow,
 * so the reference yields `None` wherever the source would panic.
 */
module Terminal {
  import opened Uint
  import opened Wrappers
  import opened Geometry
  import opened Glyph
  import Framebuffer
  import Scroller

  // ---------------------------------------------------------------------------------------------
  // Splitting text into tokens (src/term/mod.rs:216-255)
  // ---------------------------------------------------------------------------------------------

  datatype CharOrNewline = Char(c: char) | NewLine

  /** The token for one character: `'\n'` and `'\r'` end a line, anything else is drawn. */
  function Token(c: char): (t: CharOrNewline)
    ensures t == NewLine <==> c == '\n' || c == '\r'
    ensures t.Char? ==> t.c == c
  {
    if c == '\n' || c == '\r' then NewLine else Char(c)
  }

  /** One token per character, in order. */
  function Tokens(text: string): (ts: seq<CharOrNewline>)
    ensures |ts| == |text|
  {
    seq(|text|, i requires 0 <= i < |text| => Token(text[i]))
  }

  lemma TokensSnoc(text: string, c: char)
    ensures Tokens(text + [c]) == Tokens(text) + [Token(c)]
  {
    assert forall i :: 0 <= i < |text| ==> (text + [c])[i] == text[i];
  }

  /** The iterator `SplitByLenOrNewline`: the characters not yet read, the line length, the offset. */
  class SplitByLenOrNewline {
    var chars: string
    const lineLen: u8
    var lineOffset: u8

    /** `SplitByLenOrNewline::new`: the whole text left, at offset 0. */
    constructor New(text: string, lineLen: u8)
      ensures chars == text && this.lineLen == lineLen && lineOffset == 0
    {
      chars := text;
      this.lineLen := lineLen;
      lineOffset := 0;
    }

    /**
     * `next`: below the line length, the token for the next character, or `None` at the end
     * of the text; at the line length, a `NewLine` that resets the offset. The offset is reset
     * and never increased, so from the initial state the length branch is taken only when the
     * line length is zero.
     */
    method Next() returns (r: Option<CharOrNewline>)
      modifies this`chars, this`lineOffset
      ensures lineOffset <= old(lineOffset)
      ensures old(lineOffset) < lineLen && old(chars) == [] ==> r == None && chars == [] && lineOffset == old(lineOffset)
      ensures old(lineOffset) < lineLen && old(chars) != [] ==>
                r == Some(Token(old(chars)[0])) && chars == old(chars)[1..]
                && lineOffset == (if r == Some(NewLine) then 0 else old(lineOffset))
      ensures old(lineOffset) >= lineLen ==> r == Some(NewLine) && chars == old(chars) && lineOffset == 0
    {
      if lineOffset < lineLen {
        if chars == [] {
          r := None;
        } else {
          var ch := chars[0];
          chars := chars[1..];
          if ch == '\n' || ch == '\r' {
            lineOffset := 0;
            r := Some(NewLine);
          } else {
            r := Some(Char(ch));
          }
        }
      } else {
        lineOffset := 0;
        r := Some(NewLine);
      }
    }
  }

  /** No line of the tokens, counting from `offset` characters already on the first one, is longer than n. */
  predicate LinesAtMost(ts: seq<CharOrNewline>, n: nat, offset: nat)
    decreases |ts|
  {
    offset <= n
    && (ts != [] ==> LinesAtMost(ts[1..], n, if ts[0] == NewLine then 0 else offset + 1))
  }

  /**
   * The splitter never ends a line by length: on a line of two characters with a line length
   * of one it yields both characters and no `NewLine`, so the line is longer than the limit.
   * This is what the `SplitByLenOrNewline.Next` loop of `Term.Write` produces (see `WriteRound`).
   */
  lemma LongLineNotSplit(a: char, b: char)
    requires Token(a) != NewLine && Token(b) != NewLine
    ensures Tokens([a, b]) == [Char(a), Char(b)]
    ensures !LinesAtMost(Tokens([a, b]), 1, 0)
  {
    var ts := Tokens([a, b]);
    assert ts[1..][1..] == [];
    assert !LinesAtMost(ts[1..][1..], 1, 2);
  }

  /**
   * The tokens as the splitter evidently means them: the offset counts the characters of the
   * current line, and a `NewLine` is inserted once it reaches the line length.
   */
  function WrapTokens(text: string, lineLen: nat, offset: nat): (ts: seq<CharOrNewline>)
    requires 1 <= lineLen && offset <= lineLen
    decreases |text|, if offset >= lineLen then 1 else 0
  {
    if offset >= lineLen then [NewLine] + WrapTokens(text, lineLen, 0)
    else if text == [] then []
    else if Token(text[0]) == NewLine then [NewLine] + WrapTokens(text[1..], lineLen, 0)
    else [Char(text[0])] + WrapTokens(text[1..], lineLen, offset + 1)
  }

  /** With wrapping, no line is longer than the line length. */
  lemma {:induction false} WrapBoundsLines(text: string, lineLen: nat, offset: nat)
    requires 1 <= lineLen && offset <= lineLen
    ensures LinesAtMost(WrapTokens(text, lineLen, offset), lineLen, offset)
    decreases |text|, if offset >= lineLen then 1 else 0
  {
    var ts := WrapTokens(text, lineLen, offset);
    if offset >= lineLen {
      WrapBoundsLines(text, lineLen, 0);
      assert ts[1..] == WrapTokens(text, lineLen, 0);
    } else if text != [] {
      var next := if Token(text[0]) == NewLine then 0 else offset + 1;
      WrapBoundsLines(text[1..], lineLen, next);
      assert ts[1..] == WrapTokens(text[1..], lineLen, next);
    }
  }

  /** The characters of the text, without its line ends. */
  function Printed(ts: seq<CharOrNewline>): (cs: string)
    ensures |cs| <= |ts|
  {
    if ts == [] then [] else (if ts[0].Char? then [ts[0].c] else []) + Printed(ts[1..])
  }

  /** Wrapping only adds line ends: the characters drawn are those of the splitter as written, in order. */
  lemma {:induction false} WrapKeepsCharacters(text: string, lineLen: nat, offset: nat)
    requires 1 <= lineLen && offset <= lineLen
    ensures Printed(WrapTokens(text, lineLen, offset)) == Printed(Tokens(text))
    decreases |text|, if offset >= lineLen then 1 else 0
  {
    var ts := WrapTokens(text, lineLen, offset);
    if offset >= lineLen {
      WrapKeepsCharacters(text, lineLen, 0);
      assert ts[1..] == WrapTokens(text, lineLen, 0);
    } else if text != [] {
      var next := if Token(text[0]) == NewLine then 0 else offset + 1;
      WrapKeepsCharacters(text[1..], lineLen, next);
      assert ts[1..] == WrapTokens(text[1..], lineLen, next);
      assert Tokens(text)[1..] == Tokens(text[1..]);
    }
  }

  // ---------------------------------------------------------------------------------------------
  // The terminal's calls and state
  // ---------------------------------------------------------------------------------------------

  /** A call `Term` makes on its display or its scroller. */
  datatype Call =
    | ClearStrip(area: Bounds, color: u16)              // fill_area with core::iter::repeat(color)
    | DrawGlyph(area: Bounds, colors: seq<u16>)         // fill_area with the glyph's colour stream
    | ScrollArea(area: Bounds, horizBy: int, vertBy: int) // scroller.scroll_area

  /** What `Term::write` changes: the text cursor. */
  datatype Cursor = Cursor(lineOffset: u16, columnOffset: u16, startWithNewline: bool)

  /** What it does not: the font, the drawing area and the two colours. */
  datatype Setup = Setup(font: Font, bounds: Bounds, fgcolor: u16, bgcolor: u16)

  /** A font the transposed walk can read for every glyph without overflow or an index panic. */
  predicate FontOk(font: Font)
  {
    StartFits(font) && TransFits(font, 95 * BitsPerChar(font))
  }

  predicate SetupOk(s: Setup)
  {
    FontOk(s.font) && Valid(s.bounds) && Height(s.bounds) < 0x1_0000
  }

  lemma GlyphFits(font: Font, ch: char)
    requires FontOk(font)
    ensures TransFits(font, GlyphStart(font, ch))
  {
    MulLeft(GlyphCode(ch) - 32, 95, BitsPerChar(font));
  }

  /** The glyph for ch as colours, in the transposed order: a set bit in fgcolor, others in bgcolor. */
  function GlyphColors(s: Setup, ch: char): (colors: seq<u16>)
    requires FontOk(s.font)
    ensures |colors| == BitsPerChar(s.font)
  {
    GlyphFits(s.font, ch);
    var bits := TransBits(s.font, ch);
    seq(|bits|, k requires 0 <= k < |bits| => if bits[k] then s.fgcolor else s.bgcolor)
  }

  /** Rows left below the current line once it is finished: negative if the line does not fit. */
  function RowsBelow(s: Setup, cur: Cursor): int
  {
    Height(s.bounds) - cur.lineOffset - s.font.height
  }

  /** The current line fits in the drawing area. */
  predicate Room(s: Setup, cur: Cursor)
  {
    RowsBelow(s, cur) >= 0
  }

  /**
   * The strip from the cursor to the right edge of the area, one glyph tall, or `None` where a
   * u16 sum overflows.
   */
  function CursorStrip(s: Setup, cur: Cursor): Option<Bounds>
  {
    var b, h := s.bounds, s.font.height;
    if b.xStart + cur.columnOffset >= 0x1_0000 || b.yStart + cur.lineOffset + h - 1 >= 0x1_0000 || h < 1 then None
    else Some(SetHeight(b.(xStart := b.xStart + cur.columnOffset, yStart := b.yStart + cur.lineOffset), h))
  }

  /**
   * The first character after a newline: clear the rest of the current line, then move one
   * line down if another line fits below it, or else scroll the area up by the missing rows
   * and stay on its last line.
   */
  function AdvanceLine(s: Setup, cur: Cursor): Option<(Cursor, seq<Call>)>
    requires SetupOk(s)
  {
    var h := s.font.height;
    var strip := CursorStrip(s, cur);
    if strip.None? || !Room(s, cur) then None
    else
      var clear := ClearStrip(strip.value, s.bgcolor);
      var rem := RowsBelow(s, cur);
      if rem < h then Some((Cursor(Height(s.bounds) - h, 0, false), [clear, ScrollArea(s.bounds, 0, -(h - rem))]))
      else Some((Cursor(cur.lineOffset + h, 0, false), [clear]))
  }

  /** The W x H window at the cursor, or `None` where a u16 sum overflows. */
  function GlyphWindow(s: Setup, cur: Cursor): Option<Bounds>
  {
    var b, w, h := s.bounds, s.font.width, s.font.height;
    if w < 1 || h < 1 || b.xStart + cur.columnOffset + w - 1 >= 0x1_0000 || b.yStart + cur.lineOffset + h - 1 >= 0x1_0000
    then None
    else Some(SetWidth(SetHeight(b.(xStart := b.xStart + cur.columnOffset, yStart := b.yStart + cur.lineOffset), h), w))
  }

  /**
   * Drawing ch: stream its transposed glyph into the window at the cursor, then move the
   * cursor W - 1 columns right. The unused `end_line_offset` is computed too, and may overflow.
   */
  function DrawChar(s: Setup, cur: Cursor, ch: char): Option<(Cursor, seq<Call>)>
    requires SetupOk(s)
  {
    var window := GlyphWindow(s, cur);
    if cur.columnOffset + s.font.width >= 0x1_0000 || cur.lineOffset + s.font.height >= 0x1_0000 || window.None? then None
    else Some((cur.(columnOffset := cur.columnOffset + s.font.width - 1), [DrawGlyph(window.value, GlyphColors(s, ch))]))
  }

  /** One token of `Term::write`'s loop. */
  function Step(s: Setup, cur: Cursor, t: CharOrNewline): Option<(Cursor, seq<Call>)>
    requires SetupOk(s)
  {
    match t
    case NewLine => Some((cur.(startWithNewline := true), []))
    case Char(ch) =>
      if !cur.startWithNewline then DrawChar(s, cur, ch)
      else
        match AdvanceLine(s, cur)
        case None => None
        case Some(adv) =>
          match DrawChar(s, adv.0, ch)
          case None => None
          case Some(drawn) => Some((drawn.0, adv.1 + drawn.1))
  }

  /** The tokens ts in order: the final cursor and all calls, or `None` if any step panics. */
  function Run(s: Setup, cur: Cursor, ts: seq<CharOrNewline>): Option<(Cursor, seq<Call>)>
    requires SetupOk(s)
    decreases |ts|
  {
    if ts == [] then Some((cur, []))
    else
      match Run(s, cur, ts[..|ts| - 1])
      case None => None
      case Some(before) =>
        match Step(s, before.0, ts[|ts| - 1])
        case None => None
        case Some(last) => Some((last.0, before.1 + last.1))
  }

  lemma RunSnoc(s: Setup, cur: Cursor, ts: seq<CharOrNewline>, t: CharOrNewline)
    requires SetupOk(s) && Run(s, cur, ts + [t]).Some?
    ensures Run(s, cur, ts).Some? && Step(s, Run(s, cur, ts).value.0, t).Some?
    ensures Run(s, cur, ts + [t]).value
            == (Step(s, Run(s, cur, ts).value.0, t).value.0, Run(s, cur, ts).value.1 + Step(s, Run(s, cur, ts).value.0, t).value.1)
  {
    assert (ts + [t])[..|ts|] == ts;
  }

  /** Continuing a run that reached r with the tokens b; a panic stays a panic. */
  function Then(s: Setup, r: Option<(Cursor, seq<Call>)>, b: seq<CharOrNewline>): Option<(Cursor, seq<Call>)>
    requires SetupOk(s)
  {
    if r.None? then None
    else
      var rb := Run(s, r.value.0, b);
      if rb.None? then None else Some((rb.value.0, r.value.1 + rb.value.1))
  }

  /** Running a + b is running b from where a leaves the cursor, after a's calls. */
  lemma {:induction false} RunAppend(s: Setup, cur: Cursor, a: seq<CharOrNewline>, b: seq<CharOrNewline>)
    requires SetupOk(s)
    ensures Run(s, cur, a + b) == Then(s, Run(s, cur, a), b)
    decreases |b|
  {
    if b == [] {
      assert a + b == a;
      var ra := Run(s, cur, a);
      if ra.Some? {
        assert ra.value.1 + [] == ra.value.1;
      }
    } else {
      var b', t := b[..|b| - 1], b[|b| - 1];
      RunAppend(s, cur, a, b');
      assert (a + b)[..|a + b| - 1] == a + b';
      assert (a + b)[|a + b| - 1] == t;
      var ra := Run(s, cur, a);
      if ra.Some? {
        var rb' := Run(s, ra.value.0, b');
        if rb'.Some? {
          var st := Step(s, rb'.value.0, t);
          if st.Some? {
            assert ra.value.1 + rb'.value.1 + st.value.1 == ra.value.1 + (rb'.value.1 + st.value.1);
          }
        }
      }
    }
  }

  // ---------------------------------------------------------------------------------------------
  // What a run of `Term::write` promises
  // ---------------------------------------------------------------------------------------------

  /**
   * The first character after a newline leaves room for its line: it moves one line down when
   * that line fits, and otherwise scrolls the area up by exactly the rows missing below the
   * line and puts the cursor on the area's last line.
   */
  lemma AdvanceLineKeepsRoom(s: Setup, cur: Cursor)
    requires SetupOk(s) && AdvanceLine(s, cur).Some?
    ensures Room(s, cur)
    ensures var (next, calls) := AdvanceLine(s, cur).value;
            Room(s, next) && next.columnOffset == 0 && !next.startWithNewline
            && calls[0] == ClearStrip(CursorStrip(s, cur).value, s.bgcolor)
            && (RowsBelow(s, cur) >= s.font.height ==>
                  |calls| == 1 && next.lineOffset == cur.lineOffset + s.font.height)
            && (RowsBelow(s, cur) < s.font.height ==>
                  |calls| == 2 && calls[1] == ScrollArea(s.bounds, 0, RowsBelow(s, cur) - s.font.height)
                  && RowsBelow(s, next) == 0)
  {
  }

  /** Every step keeps the current line inside the drawing area. */
  lemma StepKeepsRoom(s: Setup, cur: Cursor, t: CharOrNewline)
    requires SetupOk(s) && Room(s, cur) && Step(s, cur, t).Some?
    ensures Room(s, Step(s, cur, t).value.0)
  {
    if t.Char? && cur.startWithNewline {
      AdvanceLineKeepsRoom(s, cur);
    }
  }

  /** A whole run keeps the current line inside the drawing area. */
  lemma {:induction false} RunKeepsRoom(s: Setup, cur: Cursor, ts: seq<CharOrNewline>)
    requires SetupOk(s) && Room(s, cur) && Run(s, cur, ts).Some?
    ensures Room(s, Run(s, cur, ts).value.0)
    decreases |ts|
  {
    if ts != [] {
      var init, t := ts[..|ts| - 1], ts[|ts| - 1];
      assert ts == init + [t];
      RunSnoc(s, cur, init, t);
      RunKeepsRoom(s, cur, init);
      StepKeepsRoom(s, Run(s, cur, init).value.0, t);
    }
  }

  /** A scroll the terminal asks for moves the area up, by at most a glyph's height, never sideways. */
  predicate ScrollsUp(s: Setup, calls: seq<Call>)
  {
    forall i :: 0 <= i < |calls| && calls[i].ScrollArea? ==>
      calls[i].area == s.bounds && calls[i].horizBy == 0 && -(s.font.height as int) <= calls[i].vertBy < 0
  }

  lemma StepScrollsUp(s: Setup, cur: Cursor, t: CharOrNewline)
    requires SetupOk(s) && Step(s, cur, t).Some?
    ensures ScrollsUp(s, Step(s, cur, t).value.1)
  {
    if t.Char? && cur.startWithNewline {
      AdvanceLineKeepsRoom(s, cur);
    }
  }

  /**
   * Every scroll in a run of `Term::write` has a vertical offset below zero and no horizontal
   * one: the direction in which the chunked copy of the scroller equals a block copy.
   */
  lemma {:induction false} RunScrollsUp(s: Setup, cur: Cursor, ts: seq<CharOrNewline>)
    requires SetupOk(s) && Run(s, cur, ts).Some?
    ensures ScrollsUp(s, Run(s, cur, ts).value.1)
    decreases |ts|
  {
    if ts != [] {
      var init, t := ts[..|ts| - 1], ts[|ts| - 1];
      assert ts == init + [t];
      RunSnoc(s, cur, init, t);
      RunScrollsUp(s, cur, init);
      var before := Run(s, cur, init).value;
      StepScrollsUp(s, before.0, t);
      ScrollsUpAppend(s, before.1, Step(s, before.0, t).value.1);
    }
  }

  lemma ScrollsUpAppend(s: Setup, a: seq<Call>, b: seq<Call>)
    requires ScrollsUp(s, a) && ScrollsUp(s, b)
    ensures ScrollsUp(s, a + b)
  {
    forall i | 0 <= i < |a + b| && (a + b)[i].ScrollArea?
      ensures (a + b)[i].area == s.bounds && (a + b)[i].horizBy == 0 && -(s.font.height as int) <= (a + b)[i].vertBy < 0
    {
      if i < |a| {
        assert (a + b)[i] == a[i];
      } else {
        assert (a + b)[i] == b[i - |a|];
      }
    }
  }

  /**
   * On bounds that start at row 0, as `Term::new` sets them (src/term/mod.rs:128-140), every
   * scroll of a run asks `scroll_area` to move the whole bounds up: the first target window
   * would start above row 0, so no strip height makes the windows representable in u16.
   */
  lemma RunScrollsLeaveScreen(s: Setup, cur: Cursor, ts: seq<CharOrNewline>, i: nat, lines: nat)
    requires SetupOk(s) && s.bounds.yStart == 0 && Run(s, cur, ts).Some?
    requires i < |Run(s, cur, ts).value.1| && Run(s, cur, ts).value.1[i].ScrollArea? && 1 <= lines
    ensures var c := Run(s, cur, ts).value.1[i];
            c.area == s.bounds && c.horizBy == 0 && c.vertBy < 0
            && !Scroller.ScrollFits(c.area, lines, c.horizBy, c.vertBy)
            && (lines <= Height(c.area) ==> !CanMoveBy(SetHeight(c.area, lines), c.horizBy, c.vertBy))
  {
    RunScrollsUp(s, cur, ts);
  }

  /** The rows a scroll up by `rows` evidently means to move: all rows of b but the top `rows`. */
  function ScrollUpSource(b: Bounds, rows: nat): (r: Bounds)
    requires Valid(b) && rows < Height(b)
    ensures Valid(r) && Width(r) == Width(b) && Height(r) == Height(b) - rows && r.yEnd == b.yEnd
  {
    b.(yStart := b.yStart + rows)
  }

  /** Scrolling the lower rows of the screen up by `rows` is a call `scroll_area` can carry out. */
  lemma ScrollUpSourceFits(width: u16, height: u16, rows: int, bufLen: nat)
    requires 1 <= width <= bufLen && 1 <= rows < height < 0x8000
    ensures var area := ScrollUpSource(ScreenBounds(width, height), rows);
            Inside(area, width, height) && Scroller.ScrollFits(area, Scroller.BufferLines(area, bufLen), 0, -rows)
            && CanMoveBy(area, 0, -rows) && MoveBy(area, 0, -rows) == Bounds(0, width - 1, 0, height - 1 - rows)
  {
    var area := ScrollUpSource(ScreenBounds(width, height), rows);
    var lines := Scroller.BufferLines(area, bufLen);
    assert 1 <= lines <= Height(area) by {
      MulLeft(1, bufLen / Width(area), Width(area));
    }
    Scroller.CeilAtMost(Height(area), lines);
  }

  /**
   * The corrected scroll moves rows `rows` .. H - 1 of the screen to rows 0 .. H - 1 - rows and
   * leaves the bottom `rows` rows as they were, for the terminal to clear.
   */
  lemma ScrollUpSourceMoves(f: Framebuffer.Frame, faults: seq<Framebuffer.ReadFault>, buf: seq<u16>,
                            width: u16, height: u16, rows: int)
    requires 1 <= width <= |buf| && 1 <= rows < height < 0x8000
    requires Framebuffer.IsFrame(f, width, height) && Scroller.AllClean(faults)
    ensures var area := ScrollUpSource(ScreenBounds(width, height), rows);
            var r := Scroller.Run(Scroller.ScrollState(f, faults, buf), area,
                                  Scroller.ChunkRows(Height(area), Scroller.BufferLines(area, |buf|)),
                                  0, -rows, width, height);
            r.1 == Ok(Unit) && Framebuffer.IsFrame(r.0.frame, width, height)
            && forall y, x :: 0 <= y < height && 0 <= x < width ==>
                 r.0.frame[y][x] == (if y < height - rows then f[y + rows][x] else f[y][x])
  {
    var area := ScrollUpSource(ScreenBounds(width, height), rows);
    ScrollUpSourceFits(width, height, rows, |buf|);
    Scroller.ScrollMovesBlock(f, faults, buf, area, 0, -rows, width, height);
    var g := Framebuffer.Fill(f, MoveBy(area, 0, -rows), Framebuffer.ReadPixels(f, area));
    Framebuffer.FillKeepsFrame(f, MoveBy(area, 0, -rows), Framebuffer.ReadPixels(f, area), width, height);
    forall y, x | 0 <= y < height && 0 <= x < width
      ensures g[y][x] == (if y < height - rows then f[y + rows][x] else f[y][x])
    {
      Scroller.MovedAllAt(f, area, 0, -rows, width, height, x, y);
    }
  }

  function NewLines(n: nat): (ts: seq<CharOrNewline>)
    ensures |ts| == n
  {
    seq(n, _ => NewLine)
  }

  /** A run of newlines only raises the flag: nothing is drawn and the position stays. */
  lemma {:induction false} NewLinesOnlyFlag(s: Setup, cur: Cursor, n: nat)
    requires SetupOk(s) && 1 <= n
    ensures Run(s, cur, NewLines(n)) == Some((cur.(startWithNewline := true), []))
  {
    if n > 1 {
      NewLinesOnlyFlag(s, cur, n - 1);
      assert NewLines(n)[..n - 1] == NewLines(n - 1);
    } else {
      var ts := NewLines(1);
      assert ts[..0] == [] && ts[0] == NewLine;
      assert Run(s, cur, ts[..0]) == Some((cur, []));
      assert Step(s, cur, NewLine) == Some((cur.(startWithNewline := true), []));
      var none: seq<Call> := [];
      assert none + none == none;
    }
  }

  /** Several newlines before the next token act as one. */
  lemma NewLinesCollapse(s: Setup, cur: Cursor, n: nat, rest: seq<CharOrNewline>)
    requires SetupOk(s) && 1 <= n
    ensures Run(s, cur, NewLines(n) + rest) == Run(s, cur, [NewLine] + rest)
  {
    RunAppend(s, cur, NewLines(n), rest);
    NewLinesOnlyFlag(s, cur, n);
    RunAppend(s, cur, NewLines(1), rest);
    NewLinesOnlyFlag(s, cur, 1);
    assert NewLines(1) == [NewLine];
  }

  /**
   * A character is drawn as its transposed glyph, mapped to the two colours, in the W x H
   * window at the cursor (at the start of the next line after a newline), and the cursor then
   * moves W - 1 columns right.
   */
  lemma CharDrawsGlyph(s: Setup, cur: Cursor, ch: char)
    requires SetupOk(s) && Step(s, cur, Char(ch)).Some?
    ensures var (next, calls) := Step(s, cur, Char(ch)).value;
            var at := if cur.startWithNewline then AdvanceLine(s, cur).value.0 else cur;
            next.columnOffset == at.columnOffset + s.font.width - 1
            && next.lineOffset == at.lineOffset && !next.startWithNewline
            && calls[|calls| - 1].DrawGlyph?
            && var window := calls[|calls| - 1].area;
            var colors := calls[|calls| - 1].colors;
            window.xStart == s.bounds.xStart + at.columnOffset && window.yStart == s.bounds.yStart + at.lineOffset
            && Width(window) == s.font.width && Height(window) == s.font.height
            && |colors| == Area(window)
            && (GlyphFits(s.font, ch);
                forall k :: 0 <= k < |colors| ==>
                  colors[k] == if TransBits(s.font, ch)[k] then s.fgcolor else s.bgcolor)
  {
    if cur.startWithNewline {
      AdvanceLineKeepsRoom(s, cur);
    }
  }

  // ---------------------------------------------------------------------------------------------
  // Term (src/term/mod.rs:101-203)
  // ---------------------------------------------------------------------------------------------

  class Term {
    const width: u16
    const height: u16
    const font: Font
    const bgcolor: u16
    const fgcolor: u16
    const bounds: Bounds
    var lineOffset: u16
    var columnOffset: u16
    var startWithNewline: bool
    var calls: seq<Call>

    function Settings(): Setup
    {
      Setup(font, bounds, fgcolor, bgcolor)
    }

    function Cur(): Cursor
      reads this
    {
      Cursor(lineOffset, columnOffset, startWithNewline)
    }

    predicate Valid()
    {
      SetupOk(Settings())
    }

    /**
     * `Term::new`: the whole display as drawing area (`display_size`), the cursor at its top
     * left, and white (0xFFFF) on black (0).
     */
    constructor New(width: u16, height: u16, font: Font)
      requires 1 <= width && 1 <= height && FontOk(font)
      ensures Valid()
      ensures this.width == width && this.height == height && this.font == font
      ensures bounds == ScreenBounds(width, height) && bgcolor == 0 && fgcolor == 0xFFFF
      ensures Cur() == Cursor(0, 0, false) && calls == []
    {
      this.width, this.height, this.font := width, height, font;
      bounds := ScreenBounds(width, height);
      bgcolor, fgcolor := 0, 0xFFFF;
      lineOffset, columnOffset, startWithNewline := 0, 0, false;
      calls := [];
    }

    /** `scroll_up`: the whole area up by `rows` rows, which must fit an i16. */
    method ScrollUp(rows: u16)
      requires rows < 0x8000
      modifies this`calls
      ensures calls == old(calls) + [ScrollArea(bounds, 0, -(rows as int))]
    {
      var vertBy: i16 := -(rows as int);
      calls := calls + [ScrollArea(bounds, 0, vertBy)];
    }

    /** The body of `write`'s loop for a `Char` token. */
    method PutChar(ch: char)
      requires Valid() && Step(Settings(), Cur(), Char(ch)).Some?
      modifies this`lineOffset, this`columnOffset, this`startWithNewline, this`calls
      ensures Cur() == Step(Settings(), old(Cur()), Char(ch)).value.0
      ensures calls == old(calls) + Step(Settings(), old(Cur()), Char(ch)).value.1
    {
      if startWithNewline {
        ghost var adv := AdvanceLine(Settings(), Cur()).value;
        ghost var drawn := DrawChar(Settings(), adv.0, ch).value;
        StartLine();
        DrawCharAt(ch);
        assert calls == old(calls) + (adv.1 + drawn.1);
      } else {
        DrawCharAt(ch);
      }
    }

    /**
     * The first character after a newline: clear the rest of the current line, then move down
     * a line or scroll the area up.
     */
    method StartLine()
      requires Valid() && AdvanceLine(Settings(), Cur()).Some?
      modifies this`lineOffset, this`columnOffset, this`startWithNewline, this`calls
      ensures Cur() == AdvanceLine(Settings(), old(Cur())).value.0
      ensures calls == old(calls) + AdvanceLine(Settings(), old(Cur())).value.1
    {
      var remaining := bounds.(xStart := bounds.xStart + columnOffset, yStart := bounds.yStart + lineOffset);
      remaining := SetHeight(remaining, font.height);
      calls := calls + [ClearStrip(remaining, bgcolor)];
      var remainingHeight := Height(bounds) - lineOffset - font.height;
      if remainingHeight < font.height {
        ScrollUp(font.height - remainingHeight);
        lineOffset := Height(bounds) - font.height;
      } else {
        lineOffset := lineOffset + font.height;
      }
      startWithNewline := false;
      columnOffset := 0;
    }

    /** Drawing ch at the cursor: its transposed glyph into the W x H window there. */
    method DrawCharAt(ch: char)
      requires Valid() && DrawChar(Settings(), Cur(), ch).Some?
      modifies this`columnOffset, this`calls
      ensures Cur() == DrawChar(Settings(), old(Cur()), ch).value.0
      ensures calls == old(calls) + DrawChar(Settings(), old(Cur()), ch).value.1
    {
      GlyphFits(font, ch);
      var glyph := new CharPixelTransIter.GetBitsTransposed(font, ch);
      var bits := glyph.Remaining();
      var colors := seq(|bits|, k requires 0 <= k < |bits| => if bits[k] then fgcolor else bgcolor);
      var endColumnOffset: u16 := columnOffset + font.width;
      var endLineOffset: u16 := lineOffset + font.height;
      var abc := bounds.(xStart := bounds.xStart + columnOffset, yStart := bounds.yStart + lineOffset);
      abc := SetHeight(abc, font.height);
      abc := SetWidth(abc, font.width);
      calls := calls + [DrawGlyph(abc, colors)];
      columnOffset := endColumnOffset - 1;
    }

    /** The body of `write`'s loop for one token. */
    method PutToken(t: CharOrNewline)
      requires Valid() && Step(Settings(), Cur(), t).Some?
      modifies this`lineOffset, this`columnOffset, this`startWithNewline, this`calls
      ensures Cur() == Step(Settings(), old(Cur()), t).value.0
      ensures calls == old(calls) + Step(Settings(), old(Cur()), t).value.1
    {
      match t {
        case NewLine =>
          startWithNewline := true;
        case Char(c) =>
          PutChar(c);
      }
    }

    /**
     * `write(text)`: the tokens of the text, a line length of `WIDTH / W` that must fit a u8
     * and be at least 1 (otherwise the splitter yields `NewLine` for ever), and no u16 panic
     * along the way.
     */
    method Write(text: string)
      requires Valid() && 1 <= font.width <= width && width / font.width < 0x100
      requires Run(Settings(), Cur(), Tokens(text)).Some?
      modifies this`lineOffset, this`columnOffset, this`startWithNewline, this`calls
      ensures Cur() == Run(Settings(), old(Cur()), Tokens(text)).value.0
      ensures calls == old(calls) + Run(Settings(), old(Cur()), Tokens(text)).value.1
    {
      var lineLen: u8 := width / font.width;
      LineLenPositive(width, font.width);
      var chars := new SplitByLenOrNewline.New(text, lineLen);
      ghost var s, done: string := Settings(), [];
      ghost var cur0, calls0 := Cur(), calls;
      ghost var r := (cur0, []);
      while true
        invariant fresh(chars)
        invariant chars.lineLen == lineLen && chars.lineOffset == 0
        invariant text == done + chars.chars
        invariant Run(s, cur0, Tokens(done)) == Some(r)
        invariant Cur() == r.0 && calls == calls0 + r.1
        decreases |chars.chars|
      {
        var more;
        more, done, r := WriteRound(chars, text, done, cur0, calls0, r);
        if !more {
          return;
        }
      }
    }

    /**
     * One round of `write`'s loop: read a token from the splitter and, unless the text is at
     * its end, draw it. The run so far, r on the characters done, grows by that token's step.
     */
    method WriteRound(chars: SplitByLenOrNewline, ghost text: string, ghost done: string, ghost cur0: Cursor,
                      ghost calls0: seq<Call>, ghost r: (Cursor, seq<Call>))
      returns (more: bool, ghost done': string, ghost r': (Cursor, seq<Call>))
      requires Valid() && 1 <= chars.lineLen && chars.lineOffset == 0 && text == done + chars.chars
      requires Run(Settings(), cur0, Tokens(text)).Some? && Run(Settings(), cur0, Tokens(done)) == Some(r)
      requires Cur() == r.0 && calls == calls0 + r.1
      modifies this`lineOffset, this`columnOffset, this`startWithNewline, this`calls, chars`chars, chars`lineOffset
      ensures chars.lineOffset == 0 && text == done' + chars.chars
      ensures Run(Settings(), cur0, Tokens(done')) == Some(r') && Cur() == r'.0 && calls == calls0 + r'.1
      ensures more ==> |chars.chars| < old(|chars.chars|)
      ensures !more ==> done' == text && r' == r
    {
      ghost var rest := chars.chars;
      var next := chars.Next();
      if next.None? {
        assert done == text;
        return false, done, r;
      }
      ghost var ch := rest[0];
      assert rest == [ch] + chars.chars;
      ghost var step := NextToken(Settings(), cur0, text, done, ch, chars.chars);
      PutToken(next.value);
      assert calls == calls0 + (r.1 + step.1);
      more, done', r' := true, done + [ch], (step.0, r.1 + step.1);
    }
  }

  lemma LineLenPositive(width: int, charWidth: int)
    requires 1 <= charWidth <= width
    ensures width / charWidth >= 1
  {
    assert width == (width / charWidth) * charWidth + width % charWidth;
  }

  /** The run on one more character of the text is one more step of the run so far. */
  lemma NextToken(s: Setup, cur: Cursor, text: string, done: string, ch: char, rest: string) returns (step: (Cursor, seq<Call>))
    requires SetupOk(s) && Run(s, cur, Tokens(text)).Some? && text == done + ([ch] + rest)
    ensures Run(s, cur, Tokens(done)).Some?
    ensures var before := Run(s, cur, Tokens(done)).value;
            Step(s, before.0, Token(ch)) == Some(step)
            && Run(s, cur, Tokens(done + [ch])) == Some((step.0, before.1 + step.1))
  {
    assert text == (done + [ch]) + rest;
    assert done + [ch] == text[..|done| + 1];
    PrefixRuns(s, cur, text, done + [ch]);
    TokensSnoc(done, ch);
    RunSnoc(s, cur, Tokens(done), Token(ch));
    step := Step(s, Run(s, cur, Tokens(done)).value.0, Token(ch)).value;
  }

  /** A run that does not panic on a text does not panic on any prefix of it. */
  lemma PrefixRuns(s: Setup, cur: Cursor, text: string, prefix: string)
    requires SetupOk(s) && Run(s, cur, Tokens(text)).Some?
    requires |prefix| <= |text| && prefix == text[..|prefix|]
    ensures Run(s, cur, Tokens(prefix)).Some?
  {
    var rest := text[|prefix|..];
    assert text == prefix + rest;
    TokensAppend(prefix, rest);
    RunAppend(s, cur, Tokens(prefix), Tokens(rest));
  }

  lemma TokensAppend(a: string, b: string)
    ensures Tokens(a + b) == Tokens(a) + Tokens(b)
  {
  }
}
