# SSD1963 display firmware: bus driver, text terminal and scroller

A model in Dafny of the core of a small firmware that drives an SSD1963 LCD
controller from an STM32 microcontroller over an 8080-style parallel bus, and
draws scrolling text on it.

- `uint.dfy`: the machine integer types (`u8`, `u16`, `i16`, ...) as subset
  types, plus a few arithmetic facts.
- `wrappers.dfy`: `Option` and `Result`.
- `bus.dfy` (module `Bus`, `src/main.rs`):
  - the byte split `nth_least_significant_byte`;
  - the bus driver `MCU8080_8Bit` as the class `Mcu8080`. Its state is its pins plus the
    trace of words the controller latches on each rising edge of WR;
  - `write_command`, `write_data`, `set_area`, `fill_area`, `clear_screen` and `init`,
    each proved to append a stated sequence of samples to that trace;
  - a chip-side decoder that reads a trace back as an address window and pixels.
- `geometry.dfy` (module `Geometry`): the rectangle `Bounds` of the `ssd1963` crate.
  It keeps inclusive corners and has `area`, `height`, `width`, `set_height`, `set_width`,
  `move_by` and `new_within`. `display_size` is `ScreenBounds`.
- `framebuffer.dfy` (module `Framebuffer`): a display as a frame of 16-bit colours.
  - Filling a window from a colour stream, and reading a window back, are pure functions.
  - The class `Screen` stands in for the `Display` and `ReadArea` traits that
    `CopyScroller` is generic over.
  - Its read errors come from a script of faults given to its constructor.
- `scroller.dfy` (module `Scroller`, `src/term/vertical_scroller.rs`): `CopyScroller`.
  - It has a staging `array` and its methods `copy` and `scroll_area`.
  - These are proved against the pure reference `Run`, which processes chunks of
    `buffer_lines` rows.
  - Lemmas prove that the chunks tile the area, that errors stop the scroll, and that for
    `vert_by <= 0` the chunked copy equals a block copy of the whole area.
- `glyph.dfy` (module `Glyph`, `src/term/mod.rs:17-99`):
  - `get_bits` and `get_bits_transposed`;
  - the iterators `CharPixelIter` and `CharPixelTransIter` as classes, whose `Next` is
    proved to yield exactly a pure bit sequence of the glyph;
  - the traversal order of the transposed iterator, characterised for every font shape.
- `terminal.dfy` (module `Terminal`, `src/term/mod.rs:101-255`):
  - the splitter `SplitByLenOrNewline`;
  - the text terminal `Term`, whose generic display and scroller are replaced by a log
    of the calls it makes on them;
  - a pure reference `Step`/`Run` for what each token does. `Term.Write` is proved
    against it.
  - Lemmas prove that the current line always stays inside the drawing area, that
    scrolls only move the area up, that several newlines act as one, and how each
    character is drawn.

Rust's `u16` and `u8` arithmetic panics on overflow in this firmware's debug build.
Each such sum is modelled explicitly: either as a precondition, or as `None`
from the reference function. The panics of `unwrap` on a failed conversion or
an area outside the display are preconditions as well, each named under
"## Left out". A description of the firmware says the splitter
wraps long lines. The code never does, and the model follows the code (see
Findings).

## Model

| member | source | states |
|---|---|---|
| Bus.NthLeastSignificantByte | src/main.rs:70-76 | byte n is 0 when n is at least the size of the type, and otherwise is (u / 256^n) mod 256, the n-th byte counting from the least significant |
| Bus.ToBeBytesAt | src/main.rs:53-68 | in the big-endian byte array, index width-1-n holds byte n of u counted from the least significant |
| Bus.U16HiLo | src/main.rs:280-292 | the two bytes `set_area` sends for a u16 recombine to it: high * 256 + low, high = v / 256, low = v mod 256 |
| Bus.U24Bytes | src/main.rs:194-196 | the three bytes sent for a value below 2^24 recombine to that value |
| Bus.Mcu8080.SetValue | src/main.rs:123-144 | the data bus holds the value; nothing is latched |
| Bus.Mcu8080.SetWr | src/main.rs:256-267 | the controller latches (DC, CS, bus) exactly on a rising edge of WR |
| Bus.Mcu8080.WriteCommand | src/main.rs:256-261 | DC low, the word on the bus, WR high, and exactly one command sample appended to the trace |
| Bus.Mcu8080.WriteData | src/main.rs:262-267 | DC high, the word on the bus, WR high, and exactly one data sample appended |
| Bus.Mcu8080.SetArea | src/main.rs:280-292 | appends SET_COLUMN_ADDRESS with sx, ex and SET_PAGE_ADDRESS with sy, ey, each as high then low byte |
| Bus.SetAreaDecodes | src/main.rs:280-292 | decoding the samples of `set_area` gives back the window (sx, ex, sy, ey), and every data word is a single byte |
| Bus.Mcu8080.FillArea | src/main.rs:294-300 | appends set_area, WRITE_MEMORY_START and (ex-sx+1)*(ey-sy+1) copies of the colour |
| Bus.FillDecodes | src/main.rs:294-300 | the decoder reads a `fill_area` trace as the window plus exactly one colour word per pixel of the window |
| Bus.FillCountFits | src/main.rs:296 | for a window the loop can count (sx <= ex, sy <= ey), the pixel count is at least 1 and fits 32 bits |
| Bus.FillKeepsSelect | src/main.rs:294-300 | every sample of a fill carries the chip select it started with |
| Bus.Mcu8080.ClearScreen | src/main.rs:301-310 | a fill of the window (0, WIDTH, 0, HEIGHT) in the given colour |
| Bus.Mcu8080.InitPll | src/main.rs:169-180 | SET_PLL_MN 0x1E 0x02 0x54, SET_PLL 1, SET_PLL 3, SOFT_RESET appended in order |
| Bus.Mcu8080.InitPixelClock | src/main.rs:182-196 | SET_LSHIFT_FREQ followed by the three low bytes of fpr, most significant first |
| Bus.InitPixelClockWords | src/main.rs:182-196 | fpr = 803 * 490 * 30 * 2^20 / 10^8 = 0x01E37E, sent as 0x01 0xE3 0x7E without loss |
| Bus.Mcu8080.InitPanel | src/main.rs:198-224 | SET_LCD_MODE, SET_HORI_PERIOD and SET_VERT_PERIOD with their bytes, in order |
| Bus.InitPanelSizeWords | src/main.rs:198-205 | SET_LCD_MODE carries the panel size 800 x 480 as 0x03 0x20 0x01 0xE0 |
| Bus.Mcu8080.InitInterface | src/main.rs:226-248 | GPIO value and configuration, address mode, 16-bit RGB565 interface, PWM and DBC configuration, in order |
| Bus.RegisterSetupLength | src/main.rs:169-248 | the register writes of `init` are 56 words |
| Bus.Mcu8080.Init | src/main.rs:163-254 | the pins end RD, WR, CS high, and the trace is the register setup, a full green clear and DISPLAY_ON |
| Bus.InitIsSelected | src/main.rs:163-254 | whatever the trace before it, every word `init` appends is latched with CS low |
| Bus.InitClears | src/main.rs:250-251 | `init` ends with a fill of (0..800, 0..480) in 0x07E0, 801*481 words, then DISPLAY_ON |
| Geometry.ScreenBounds | src/term/mod.rs:101-108 | `display_size` is the rectangle (0, W-1, 0, H-1): inside the display, W wide and H tall |
| Geometry.NewWithin | src/term/vertical_scroller.rs:51-61 | `new_within` succeeds exactly for a well-formed rectangle inside the outer one, and returns it unchanged |
| Geometry.SetHeight | src/term/vertical_scroller.rs:64 | keeps the top and the columns and makes the rectangle h rows tall |
| Geometry.SetWidth | src/term/mod.rs:196 | keeps the left edge and the rows and makes the rectangle w columns wide |
| Geometry.MoveByContains | src/term/vertical_scroller.rs:66 | a point is in the moved rectangle exactly when the point moved back is in the original |
| Framebuffer.ReadPixelsAt | src/term/vertical_scroller.rs:27-29 | a window is read row by row: item Offset(x, y) is the pixel at (x, y) |
| Framebuffer.FillReadRoundTrip | src/term/vertical_scroller.rs:41 | reading back a window just filled returns the first Area colours of the stream |
| Framebuffer.FillKeepsFrame | src/term/vertical_scroller.rs:41 | a fill keeps the frame's dimensions |
| Framebuffer.ReadOutcome | src/term/vertical_scroller.rs:27-28 | a read outside the display fails; a successful read yields at most Area items, each correct pixel being the window's; a clean read yields exactly the window's pixels |
| Framebuffer.FillOutcome | src/term/vertical_scroller.rs:41 | a fill outside the display fails and changes nothing; inside, it fills, and succeeds exactly when the stream holds enough colours |
| Framebuffer.Screen.FillArea | src/term/vertical_scroller.rs:41 | the frame and the result are those of FillOutcome |
| Framebuffer.Screen.ReadArea | src/term/vertical_scroller.rs:27-28 | consumes one scripted fault and returns the ReadOutcome for it |
| Scroller.FirstError | src/term/vertical_scroller.rs:29-37 | `find_map` stops at the first error item: all items before it are colours |
| Scroller.FirstErrorIs | src/term/vertical_scroller.rs:29-37 | the first error is unique: any position with only colours before it and an error at it is FirstError |
| Scroller.CopyCleanMoves | src/term/vertical_scroller.rs:23-42 | a clean copy writes the source window's pixels into the target window and stages them in the buffer |
| Scroller.CopyFaultWritesNothing | src/term/vertical_scroller.rs:27-40 | a failed or faulty read returns an error before anything is written |
| Scroller.CopyShortWritesStale | src/term/vertical_scroller.rs:26-41 | a read that ends early after n items still fills the target, with buffer contents left from earlier copies after item n |
| Scroller.CopyScroller.New | src/term/vertical_scroller.rs:19-21 | the scroller holds the caller's buffer itself, not a copy |
| Scroller.CopyScroller.Copy | src/term/vertical_scroller.rs:23-42 | the display, the buffer and the result are those of CopyStep for the next scripted fault |
| Scroller.ChunkCount | src/term/vertical_scroller.rs:68-79 | the loop makes height / lines copies, plus one if a remainder is left |
| Scroller.ChunkAt | src/term/vertical_scroller.rs:68-79 | chunk k starts k * lines rows down; full chunks are `lines` tall and the last is the remainder |
| Scroller.ChunkRowsTile | src/term/vertical_scroller.rs:68-79 | the chunks are consecutive, each 1 to `lines` rows, and together cover exactly the area's height |
| Scroller.ChunkRowsFit | src/term/vertical_scroller.rs:62-79 | every chunk's source and target windows fit the buffer and can be moved without overflow |
| Scroller.RunStopsAtError | src/term/vertical_scroller.rs:69-79 | after the first failed copy, nothing more is done and the error is returned |
| Scroller.ScrollMovesBlock | src/term/vertical_scroller.rs:46-82 | for vert_by <= 0 and clean reads, the chunked scroll succeeds and equals writing the whole area's old pixels at the moved position |
| Scroller.ScrollDownSmears | src/term/vertical_scroller.rs:69-73 | for vert_by = 1 with a one-row buffer, the scroll succeeds but leaves a in all three rows, which differs from the block copy [[a],[a],[b]] whenever a != b (see Findings) |
| Scroller.BlockMoveColumn | src/term/vertical_scroller.rs:46-82 | one block copy of rows 0 and 1 of the column [[a],[b],[c]] one row down gives [[a],[a],[b]] |
| Scroller.ScrollOrderMovesBlock | src/term/vertical_scroller.rs:46-82 | copying the chunks bottom-up when vert_by > 0 (top-down otherwise) equals the block move for every offset |
| Scroller.CopyScroller.CopyChunk | src/term/vertical_scroller.rs:70 | one copy is one more Step of the reference run |
| Scroller.CopyScroller.CopyFullStrip | src/term/vertical_scroller.rs:70-72 | one round of the loop is one more Step of the reference run; on success both windows move down by `lines` to the next strip |
| Scroller.CopyScroller.CopyFullStrips | src/term/vertical_scroller.rs:68-73 | the loop performs the reference run on the full chunks, or stops with its error; the windows end at the remainder's strip |
| Scroller.CopyScroller.CopyRemainingRows | src/term/vertical_scroller.rs:74-79 | the remainder copy completes the reference run on all chunks |
| Scroller.CopyScroller.ScrollArea | src/term/vertical_scroller.rs:46-82 | the display, buffer and result are those of the reference run over all chunks of `buffer_lines` rows, and every chunk fits |
| Glyph.GlyphCode | src/term/mod.rs:18-22 | characters 32 to 127 keep their code; any other character becomes 127 |
| Glyph.GlyphStart | src/term/mod.rs:23-24 | computes (code - 32) * W * H in u16; the glyph it starts ends within the table of 96 glyphs |
| Glyph.GlyphsDisjoint | src/term/mod.rs:23-24 | two different codes start at least one glyph apart, so their bits do not overlap |
| Glyph.BitSetIsShift | src/term/mod.rs:64 | testing `b & (1 << j)` is testing bit j of b |
| Glyph.TableBitSuffix | src/term/mod.rs:26-31 | bit i of the table from byte n on is bit 8n + i of the whole table |
| Glyph.CharPixelIter.GetBits | src/term/mod.rs:17-33 | the iterator starts with W * H bits left, exactly the glyph's bits in table order |
| Glyph.CharPixelIter.Next | src/term/mod.rs:57-73 | with bits left, yields the first and leaves the rest; with none, yields None and stays empty |
| Glyph.TransWalkStep | src/term/mod.rs:84-98 | each step of the transposed walk reads bit start + TransIndex(p) of the table, in range |
| Glyph.CharPixelTransIter.GetBitsTransposed | src/term/mod.rs:34-50 | the iterator starts at row 0, column 0 with exactly the transposed bits of the glyph left |
| Glyph.CharPixelTransIter.Next | src/term/mod.rs:82-99 | yields the next bit of the transposed walk and leaves the rest, or None once the last column is done |
| Glyph.PositionStep | src/term/mod.rs:84-91 | at (row, col), the iterator reads glyph bit row * W + col, the item at position col * W + row |
| Glyph.SquareTransposes | src/term/mod.rs:84-98 | for a square font the walk is a transposition: it reads every glyph bit once, and transposing twice is the identity |
| Glyph.TransposedCoversGlyph | src/term/mod.rs:84-98 | the walk reads each glyph bit exactly once iff W == H or W == 1; otherwise it reads past the glyph or reads a bit twice |
| Terminal.Token | src/term/mod.rs:242-249 | '\n' and '\r' become NewLine and every other character is drawn as itself |
| Terminal.SplitByLenOrNewline.New | src/term/mod.rs:226-232 | the splitter starts with the whole text unread, the given line length and offset 0 |
| Terminal.SplitByLenOrNewline.Next | src/term/mod.rs:240-254 | below the line length: the next character's token (resetting the offset on a newline) or None at the end of the text; at the length: NewLine with the offset reset; the offset never grows |
| Terminal.LongLineNotSplit | src/term/mod.rs:240-254 | two printable characters with a line length of 1 come out as two characters and no line break, so the line exceeds the length (see Findings) |
| Terminal.WrapBoundsLines | src/term/mod.rs:240-254 | with the offset counting characters, no line of the tokens is longer than the line length |
| Terminal.WrapKeepsCharacters | src/term/mod.rs:240-254 | wrapping only inserts line breaks: the characters, in order, are those of the splitter as written |
| Terminal.AdvanceLineKeepsRoom | src/term/mod.rs:164-186 | clears the strip from the cursor to the right edge and moves one line down if it fits; otherwise scrolls up by the missing rows and pins the cursor to the last line; column 0, flag cleared |
| Terminal.StepKeepsRoom | src/term/mod.rs:160-199 | each token keeps line_offset + H <= height |
| Terminal.RunKeepsRoom | src/term/mod.rs:159-201 | a whole run keeps line_offset + H <= height |
| Terminal.RunScrollsUp | src/term/mod.rs:177-181 | every scroll the terminal asks for moves the whole bounds up by 1 to H rows and not sideways |
| Terminal.RunScrollsLeaveScreen | src/term/mod.rs:150-154 | on bounds starting at row 0, every scroll of a run moves the whole bounds up, so its first target window starts above row 0 and the call lies outside ScrollFits for every strip height (see Findings) |
| Terminal.ScrollUpSourceFits | src/term/mod.rs:150-154 | moving rows `rows` .. H - 1 of the screen up by `rows` fits ScrollFits and the screen, and lands on rows 0 .. H - 1 - rows |
| Terminal.ScrollUpSourceMoves | src/term/mod.rs:177-181 | that corrected scroll succeeds on clean reads; row y < H - rows then holds old row y + rows and the bottom rows are unchanged |
| Terminal.NewLinesOnlyFlag | src/term/mod.rs:162 | newlines draw nothing and keep the cursor; they only set start_with_newline |
| Terminal.NewLinesCollapse | src/term/mod.rs:162-164 | any number n >= 1 of newlines before the rest of the text acts as one |
| Terminal.CharDrawsGlyph | src/term/mod.rs:187-198 | a character streams its transposed glyph mapped to fg/bg into the W x H window at the cursor, then the column moves W - 1 right |
| Terminal.RunAppend | src/term/mod.rs:159-201 | running a + b is running b from where a leaves the cursor, after a's calls |
| Terminal.PrefixRuns | src/term/mod.rs:159-201 | if the whole text runs without a panic, so does every prefix of it |
| Terminal.Term.New | src/term/mod.rs:128-140 | bounds are the display size, the cursor is at (0, 0) without a pending newline, white on black |
| Terminal.Term.ScrollUp | src/term/mod.rs:150-154 | asks the scroller to move the whole bounds up by `rows`, which must fit an i16 |
| Terminal.Term.StartLine | src/term/mod.rs:164-186 | the cursor and the calls after clearing the strip and moving to the next line are those of the reference AdvanceLine |
| Terminal.Term.DrawCharAt | src/term/mod.rs:187-197 | the cursor and the calls after drawing one glyph are those of the reference DrawChar |
| Terminal.Term.PutChar | src/term/mod.rs:163-198 | the cursor and the calls after one character are those of the reference Step |
| Terminal.Term.PutToken | src/term/mod.rs:160-199 | the cursor and the calls after one token are those of the reference Step |
| Terminal.Term.WriteRound | src/term/mod.rs:159-200 | one round of the loop consumes one character and extends the reference run by its token, or ends at the end of the text |
| Terminal.Term.Write | src/term/mod.rs:155-202 | the final cursor and the calls logged are those of the reference run over the text's tokens |

## Left out

- `set_value`'s delay and busy wait, the PLL lock delay, `delay`, and `dir_write`
  (src/main.rs:105-122) are left out: timing and pin modes have no effect on the trace.
- The commented-out read path, and the bring-up in `main` (clocks, GPIO, the font and the
  main loop), are not part of this model.
- The `ssd1963` crate is not part of this model. `Bounds`, `Display` and `ReadArea` are
  given the semantics their use here implies: inclusive corners, a row-major pixel
  stream, and an error for a window outside the display or a stream that is too short.
  `RangeBounds` arguments are passed as the `Bounds` they come from.
- `Term::dimensions` (src/term/mod.rs:142-149) and the `fmt::Write` impl
  (src/term/mod.rs:205-214) are not part of this model. The bounds are a constant of a
  `Term`, set by `Term.New`.
- `SplitByLenOrNewline::line_offset` (src/term/mod.rs:234-236) is unused and left out.
- The font data of `font.rs` is a parameter (`Font`).
- `fullscreen_scroller.rs` only declares a trait and is left out.
- `Term` does not compose with `Screen`/`CopyScroller`. It logs its calls, because the
  source ignores what they return (`.ok()`). `Terminal.RunScrollsUp` shows that its
  scrolls are always upward. `Terminal.RunScrollsLeaveScreen` shows that they still lie
  outside `Scroller.ScrollFits`, because they move the whole bounds above row 0. So
  `Scroller.ScrollMovesBlock` does not apply to them (see Findings).
- Terminal.Term.Write: requires `1 <= W <= WIDTH` and `WIDTH / W < 256`.
  - With `W > WIDTH` the line length is 0 and the source loops for ever on the
    splitter's NewLine.
  - Otherwise `try_into().unwrap()` (or a division by zero) panics.
  - It also requires that no `u16` sum overflows along the run. The source panics
    at the first such sum instead.
- Terminal.Term.New: requires a font whose glyph table is large enough. It also requires
  that the transposed walk stays in range for every character. The source would panic on
  an out-of-range index when drawing instead.
- Terminal.Term.ScrollUp: requires `rows < 0x8000`; the source panics in `unwrap`.
- Glyph.CharPixelTransIter.Next: modelled until its first None. The source does not fuse
  the iterator, and calling it again would count the column past the glyph's height.
- Scroller.CopyScroller.ScrollArea: requires the buffer to hold at least one row of the
  area. The source divides by zero otherwise. It requires the area to lie inside the
  display (`NewWithin(...).Some?`), where the source panics in `new_within(...).unwrap()`
  (src/term/vertical_scroller.rs:51-61). It also requires that the moved windows stay
  within `u16`. `move_by` belongs to the `ssd1963` crate, so what it does past those
  limits (a panic or a wrapped window) is not modelled.
- `SendWindow`, `StartLine`, `DrawCharAt`, `PutChar`, `PutToken` and `WriteRound`, `CopyChunk`, `CopyFullStrip`, `CopyFullStrips` and
  `CopyRemainingRows`, and the `InitPll`-style phases of `Init` are proof splits of one
  source function each. They are not separate functions of the firmware.

## Findings

| source | as written | input that shows it | evidently intended | confidence | as-written member | corrected member |
|---|---|---|---|---|---|---|
| src/term/vertical_scroller.rs:69-73 | strips are copied top to bottom whatever the sign of vert_by, so when scrolling down each copy overwrites rows not yet copied | a 1 x 3 display [[a],[b],[c]] with a != b, area rows 0..1, a one-pixel buffer, vert_by = 1: result [[a],[a],[a]] instead of [[a],[a],[b]] | copy the strips bottom to top when vert_by > 0 | high, not executed | Scroller.ScrollDownSmears | Scroller.ScrollOrderMovesBlock |
| src/term/mod.rs:240-254 | `line_offset` is reset but never incremented, so the splitter never breaks a line by length | a display narrower than two glyphs (line length 1) and the text "ab": two characters on one line; with WIDTH <= 2W - 2 the second is drawn past the right edge | count the characters of a line and yield NewLine when the count reaches the line length | medium, not executed | Terminal.LongLineNotSplit | Terminal.WrapBoundsLines |
| src/term/mod.rs:150-154 | `scroll_up` asks to move the whole bounds up by `by` rows, so the target window starts `by` rows above the top of the bounds, at a negative row when the bounds start at row 0 as `Term::new` sets them | any scroll of the terminal, e.g. a 1 x 3 screen and a 1 x 1 font when a fourth line starts: area rows 0..2 moved by -1, a target window starting at row -1 | move rows `by` .. H - 1 of the bounds up by `by`, leaving the bottom rows to be cleared | medium, not executed | Terminal.RunScrollsLeaveScreen | Terminal.ScrollUpSourceMoves |

`Term.Write` follows the splitter as written. The reference `Run` and its lemmas
(`RunKeepsRoom`, `RunScrollsUp`, `NewLinesCollapse`) hold for any token sequence, so
they hold for the corrected `WrapTokens` too. The scroller as written is also modelled
as written: `ScrollMovesBlock` covers the direction in which it is right.
`Term` logs its scroll calls as the source makes them. `ScrollUpSourceMoves` states what
the corrected call does on a `Screen` driven by the scroller as written.
