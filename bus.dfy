/**
 * The SSD1963 driver of src/main.rs: a 16-bit parallel bus in 8080 style with a data/command
 * line (DC), a write strobe (WR), a read strobe (RD) and a chip select (CS).
 *
 * The hardware is replaced by a bus trace. The controller latches the word on the data lines at
 * the rising edge of WR, and each such edge appends one `Sample` to `trace`, recording the level
 * of DC (low for a command, high for data) and of CS (the controller listens only while CS is low).
 */
module Bus {
  import opened Uint
  import opened Wrappers

  // ---------------------------------------------------------------------------------------------
  // Splitting integers into bytes (src/main.rs:53-76)
  // ---------------------------------------------------------------------------------------------

  /** Rust's `to_be_bytes` for an unsigned type `width` bytes wide: most significant byte first. */
  function ToBeBytes(u: nat, width: nat): (bytes: seq<u8>)
    requires u < Pow256(width)
    ensures |bytes| == width
  {
    if width == 0 then [] else ToBeBytes(u / 256, width - 1) + [u % 256]
  }

  /** Element `width - 1 - n` of the big-endian bytes is the n-th least significant byte. */
  lemma {:induction false} ToBeBytesAt(u: nat, width: nat, n: nat)
    requires u < Pow256(width) && n < width
    ensures ToBeBytes(u, width)[width - 1 - n] == (u / Pow256(n)) % 256
  {
    if n > 0 {
      ToBeBytesAt(u / 256, width - 1, n - 1);
      DivDiv(u, 256, Pow256(n - 1));
    }
  }

  /**
   * `nth_least_significant_byte(n, u)` for a value `u` of a `width`-byte unsigned type:
   * 0 once `n` reaches the byte width, else byte n counted from the least significant end.
   */
  function NthLeastSignificantByte(n: u8, u: nat, width: nat): (b: u8)
    requires u < Pow256(width)
    ensures n >= width ==> b == 0
    ensures n < width ==> b == (u / Pow256(n)) % 256
  {
    if n >= width then 0
    else
      ToBeBytesAt(u, width, n);
      ToBeBytes(u, width)[width - 1 - n]
  }

  /** The high byte of a u16, as `set_area` and `init` send it. */
  function Hi(v: u16): u8
  {
    NthLeastSignificantByte(1, v, 2)
  }

  /** The low byte of a u16. */
  function Lo(v: u16): u8
  {
    NthLeastSignificantByte(0, v, 2)
  }

  /** The two bytes sent for a u16 coordinate encode it exactly. */
  lemma U16HiLo(v: u16)
    ensures Hi(v) * 256 + Lo(v) == v
    ensures Hi(v) == v / 256 && Lo(v) == v % 256
  {
    assert Pow256(1) == 256;
    DivModOf(0, 256, v / 256);
  }

  /** Three bytes, most significant first, encode any value below 2^24 without loss. */
  lemma U24Bytes(v: nat, width: nat)
    requires 3 <= width && v < Pow256(3) && v < Pow256(width)
    ensures NthLeastSignificantByte(2, v, width) * 65536
          + NthLeastSignificantByte(1, v, width) * 256
          + NthLeastSignificantByte(0, v, width) == v
  {
    assert Pow256(1) == 256 && Pow256(2) == 65536 && Pow256(3) == 0x100_0000;
    DivModOf(0, 256, v / 65536);
    DivDiv(v, 256, 256);
    assert v == (v / 256) * 256 + v % 256;
    assert v / 256 == (v / 65536) * 256 + (v / 256) % 256;
  }

  // ---------------------------------------------------------------------------------------------
  // The bus trace
  // ---------------------------------------------------------------------------------------------

  datatype Level = Low | High

  /** A word latched by the controller: DC and CS at the rising edge of WR, and the data lines. */
  datatype Sample = Sample(dc: Level, cs: Level, value: u16)

  function Command(cs: Level, op: u16): Sample
  {
    Sample(Low, cs, op)
  }

  function Data(cs: Level, v: u16): Sample
  {
    Sample(High, cs, v)
  }

  /** SET_COLUMN_ADDRESS then SET_PAGE_ADDRESS, each coordinate high byte first. */
  function SetAreaSamples(cs: Level, sx: u16, ex: u16, sy: u16, ey: u16): seq<Sample>
  {
    [Command(cs, 0x2A), Data(cs, Hi(sx)), Data(cs, Lo(sx)), Data(cs, Hi(ex)), Data(cs, Lo(ex)),
     Command(cs, 0x2B), Data(cs, Hi(sy)), Data(cs, Lo(sy)), Data(cs, Hi(ey)), Data(cs, Lo(ey))]
  }

  /**
   * What `fill_area` needs to avoid a u16 panic: `ex - sx` and `ey - sy` must not underflow, and
   * the `+ 1` after them must not overflow.
   */
  predicate FillFits(sx: u16, ex: u16, sy: u16, ey: u16)
  {
    sx <= ex && sy <= ey && ex - sx < 0xFFFF && ey - sy < 0xFFFF
  }

  /** The number of colour words `fill_area` sends: one per pixel of the inclusive window. */
  function FillCount(sx: u16, ex: u16, sy: u16, ey: u16): nat
    requires FillFits(sx, ex, sy, ey)
  {
    (ex - sx + 1) * (ey - sy + 1)
  }

  /** n copies of one sample */
  function Repeat(s: Sample, n: nat): (r: seq<Sample>)
    ensures |r| == n
  {
    seq(n, _ => s)
  }

  function FillSamples(cs: Level, sx: u16, ex: u16, sy: u16, ey: u16, color: u16): seq<Sample>
    requires FillFits(sx, ex, sy, ey)
  {
    SetAreaSamples(cs, sx, ex, sy, ey) + [Command(cs, 0x2C)] + Repeat(Data(cs, color), FillCount(sx, ex, sy, ey))
  }

  /** One more copy at the end. */
  lemma RepeatSnoc(p: seq<Sample>, s: Sample, n: nat)
    ensures p + Repeat(s, n) + [s] == p + Repeat(s, n + 1)
  {
    assert Repeat(s, n) + [s] == Repeat(s, n + 1);
  }

  lemma Concat3(p: seq<Sample>, a: seq<Sample>, b: seq<Sample>, c: seq<Sample>)
    ensures p + a + b + c == p + (a + b + c)
  {
  }

  /** The product of two 16-bit extents fits the 32-bit `usize` of the target. */
  lemma FillCountFits(sx: u16, ex: u16, sy: u16, ey: u16)
    requires FillFits(sx, ex, sy, ey)
    ensures 1 <= FillCount(sx, ex, sy, ey) < 0x1_0000_0000
  {
    MulLeft(1, ex - sx + 1, ey - sy + 1);
    MulLeft(ex - sx + 1, 0xFFFF, ey - sy + 1);
    MulLeft(ey - sy + 1, 0xFFFF, 0xFFFF);
  }

  // ---------------------------------------------------------------------------------------------
  // The controller's side: decoding what it latched while selected
  // ---------------------------------------------------------------------------------------------

  /** An address window as the controller stores it, inclusive on both ends. */
  datatype Window = Window(sx: int, ex: int, sy: int, ey: int)

  /** The pixels a WRITE_MEMORY_START sequence stores into its window. */
  datatype MemoryWrite = MemoryWrite(window: Window, pixels: seq<u16>)

  predicate SelectedByte(s: Sample)
  {
    s.dc == High && s.cs == Low && s.value < 256
  }

  /** Command `op` with two 16-bit parameters, each sent as high byte then low byte. */
  function DecodeRange(s: seq<Sample>, op: u16): Option<(int, int)>
    requires |s| == 5
  {
    if s[0] == Command(Low, op) && SelectedByte(s[1]) && SelectedByte(s[2])
       && SelectedByte(s[3]) && SelectedByte(s[4])
    then Some((s[1].value * 256 + s[2].value, s[3].value * 256 + s[4].value))
    else None
  }

  /** A column range (0x2A) followed by a page range (0x2B). */
  function DecodeWindow(s: seq<Sample>): Option<Window>
    requires |s| == 10
  {
    match (DecodeRange(s[..5], 0x2A), DecodeRange(s[5..], 0x2B))
    case (Some(cols), Some(pages)) => Some(Window(cols.0, cols.1, pages.0, pages.1))
    case _ => None
  }

  /** A window, WRITE_MEMORY_START (0x2C), then nothing but selected data words: the pixels. */
  function DecodeFill(s: seq<Sample>): Option<MemoryWrite>
  {
    if |s| < 11 then None
    else match DecodeWindow(s[..10])
      case None => None
      case Some(w) =>
        if s[10] == Command(Low, 0x2C) && forall i :: 11 <= i < |s| ==> s[i].dc == High && s[i].cs == Low
        then Some(MemoryWrite(w, seq(|s| - 11, i requires 0 <= i < |s| - 11 => s[11 + i].value)))
        else None
  }

  function WindowArea(w: Window): int
  {
    (w.ex - w.sx + 1) * (w.ey - w.sy + 1)
  }

  /** The words of `set_area`, sent while selected, address exactly the requested window. */
  lemma SetAreaDecodes(sx: u16, ex: u16, sy: u16, ey: u16)
    ensures DecodeWindow(SetAreaSamples(Low, sx, ex, sy, ey)) == Some(Window(sx, ex, sy, ey))
    ensures forall i :: 0 <= i < 10 && SetAreaSamples(Low, sx, ex, sy, ey)[i].dc == High
              ==> SetAreaSamples(Low, sx, ex, sy, ey)[i].value < 256
  {
    U16HiLo(sx);
    U16HiLo(ex);
    U16HiLo(sy);
    U16HiLo(ey);
    var s := SetAreaSamples(Low, sx, ex, sy, ey);
    assert DecodeRange(s[..5], 0x2A) == Some((sx as int, ex as int));
    assert DecodeRange(s[5..], 0x2B) == Some((sy as int, ey as int));
  }

  /**
   * The words of `fill_area` make the controller store `color` into every pixel of the window
   * `sx..=ex` by `sy..=ey`: one colour word per pixel, no more and no fewer.
   */
  lemma FillDecodes(sx: u16, ex: u16, sy: u16, ey: u16, color: u16)
    requires FillFits(sx, ex, sy, ey)
    ensures DecodeFill(FillSamples(Low, sx, ex, sy, ey, color))
         == Some(MemoryWrite(Window(sx, ex, sy, ey), seq(FillCount(sx, ex, sy, ey), _ => color)))
    ensures WindowArea(Window(sx, ex, sy, ey)) == FillCount(sx, ex, sy, ey)
  {
    var s := FillSamples(Low, sx, ex, sy, ey, color);
    assert s[..10] == SetAreaSamples(Low, sx, ex, sy, ey);
    SetAreaDecodes(sx, ex, sy, ey);
    var pixels := seq(|s| - 11, i requires 0 <= i < |s| - 11 => s[11 + i].value);
    assert pixels == seq(FillCount(sx, ex, sy, ey), _ => color);
    assert forall i :: 11 <= i < |s| ==> s[i] == Data(Low, color);
  }

  // ---------------------------------------------------------------------------------------------
  // The panel and the initialisation sequence (src/main.rs:161-254)
  // ---------------------------------------------------------------------------------------------

  const WIDTH: u16 := 800
  const HEIGHT: u16 := 480

  /** green in RGB565, the colour `init` clears the screen with */
  const INIT_COLOR: u16 := 0x07E0

  /** The pixel-clock setting of SET_LSHIFT_FREQ, in `init`'s u64 arithmetic. */
  function Fpr(): nat
  {
    var hsyncPeriod := 0 + 3 + WIDTH + 0;
    var vsyncPeriod := 0 + 10 + HEIGHT + 0;
    var pclk := hsyncPeriod * vsyncPeriod * 30;
    pclk * 1048576 / 100000000
  }

  /** A selected command word and a selected parameter word of the initialisation sequence. */
  function Op(op: u16): Sample
  {
    Command(Low, op)
  }

  function Arg(v: u16): Sample
  {
    Data(Low, v)
  }

  /*
   * The register writes of `init`, each as the trace after it: `XSetup(t)` is `t` followed by
   * the words sent. Writing them as a chain of one-word appends keeps them in the shape in which
   * the driver builds its trace.
   */

  /** SET_PLL_MN, SET_PLL twice (before and after the lock delay), SOFT_RESET. */
  function PllSetup(t: seq<Sample>): seq<Sample>
  {
    t + [Op(0xE2)] + [Arg(0x1E)] + [Arg(0x02)] + [Arg(0x54)]
      + [Op(0xE0)] + [Arg(1)]
      + [Op(0xE0)] + [Arg(3)]
      + [Op(0x01)]
  }

  /** SET_LSHIFT_FREQ: the pixel-clock setting, most significant byte first. */
  function PixelClockSetup(t: seq<Sample>): seq<Sample>
  {
    t + [Op(0xE6)] + [Arg(NthLeastSignificantByte(2, Fpr(), 8))]
      + [Arg(NthLeastSignificantByte(1, Fpr(), 8))] + [Arg(NthLeastSignificantByte(0, Fpr(), 8))]
  }

  /** SET_LCD_MODE: TFT mode bytes, then the panel width and height. */
  function LcdModeSetup(t: seq<Sample>): seq<Sample>
  {
    t + [Op(0xB0)] + [Arg(0x24)] + [Arg(0x00)] + [Arg(Hi(WIDTH))] + [Arg(Lo(WIDTH))]
      + [Arg(Hi(HEIGHT))] + [Arg(Lo(HEIGHT))] + [Arg(0)]
  }

  /** SET_LCD_MODE, SET_HORI_PERIOD and SET_VERT_PERIOD. */
  function PanelSetup(t: seq<Sample>): seq<Sample>
  {
    LcdModeSetup(t)
      + [Op(0xB4)] + [Arg(0x03)] + [Arg(0xA0)] + [Arg(0x00)] + [Arg(0x2E)] + [Arg(0x30)] + [Arg(0x00)]
      + [Arg(0x0F)] + [Arg(0x00)]
      + [Op(0xB6)] + [Arg(0x02)] + [Arg(0x0D)] + [Arg(0x00)] + [Arg(0x10)] + [Arg(0x10)] + [Arg(0x00)]
      + [Arg(0x08)]
  }

  /**
   * SET_GPIO_VALUE, SET_GPIO_CONF, SET_ADDRESS_MODE, SET_PIXEL_DATA_INTERFACE (16-bit RGB565),
   * SET_PWM_CONF and SET_DBC_CONF.
   */
  function InterfaceSetup(t: seq<Sample>): seq<Sample>
  {
    t + [Op(0xBA)] + [Arg(0x0F)]
      + [Op(0xB8)] + [Arg(0x07)] + [Arg(0x01)]
      + [Op(0x36)] + [Arg(0x22)]
      + [Op(0xF0)] + [Arg(0x03)]
      + [Op(0xBE)] + [Arg(0x06)] + [Arg(0xF0)] + [Arg(0x01)] + [Arg(0xF0)] + [Arg(0x00)] + [Arg(0x00)]
      + [Op(0xD0)] + [Arg(0x0D)]
  }

  /** Everything `init` sends before clearing the screen, in order, after `t`. */
  function RegisterSetup(t: seq<Sample>): seq<Sample>
  {
    InterfaceSetup(PanelSetup(PixelClockSetup(PllSetup(t))))
  }

  /** The whole trace of `init` after `t`: registers, a full clear in green, SET_DISPLAY_ON. */
  function InitTrace(t: seq<Sample>): seq<Sample>
  {
    RegisterSetup(t) + FillSamples(Low, 0, WIDTH, 0, HEIGHT, INIT_COLOR) + [Op(0x29)]
  }

  /** The register writes of `init` are 56 words. */
  lemma RegisterSetupLength(t: seq<Sample>)
    ensures |RegisterSetup(t)| == |t| + 56
  {
  }

  /**
   * SET_LSHIFT_FREQ carries fpr = 803 * 490 * 30 * 2^20 / 10^8 = 0x01E37E as the three bytes
   * 0x01, 0xE3, 0x7E, most significant first; the value fits in 24 bits, so nothing is lost.
   */
  lemma InitPixelClockWords(t: seq<Sample>)
    ensures Fpr() == 0x01E37E && Fpr() < Pow256(3)
    ensures PixelClockSetup(t) == t + [Op(0xE6), Arg(0x01), Arg(0xE3), Arg(0x7E)]
    ensures NthLeastSignificantByte(2, Fpr(), 8) as int * 65536
          + NthLeastSignificantByte(1, Fpr(), 8) as int * 256
          + NthLeastSignificantByte(0, Fpr(), 8) as int == Fpr()
  {
    assert Pow256(1) == 256 && Pow256(2) == 65536 && Pow256(3) == 0x100_0000;
    assert Fpr() == 123774;
    U24Bytes(Fpr(), 8);
    assert 123774 / 65536 == 1 && 123774 / 256 == 483 && 483 % 256 == 0xE3 && 123774 % 256 == 0x7E;
  }

  /** SET_LCD_MODE carries the panel size 800 x 480 as the bytes 0x03 0x20 and 0x01 0xE0. */
  lemma InitPanelSizeWords(t: seq<Sample>)
    ensures LcdModeSetup(t)
         == t + [Op(0xB0), Arg(0x24), Arg(0x00), Arg(0x03), Arg(0x20), Arg(0x01), Arg(0xE0), Arg(0)]
    ensures PanelSetup(t)[..|t| + 8] == LcdModeSetup(t)
    ensures Hi(WIDTH) as int * 256 + Lo(WIDTH) as int == WIDTH as int
    ensures Hi(HEIGHT) as int * 256 + Lo(HEIGHT) as int == HEIGHT as int
  {
    U16HiLo(WIDTH);
    U16HiLo(HEIGHT);
    var l := LcdModeSetup(t);
    var p := PanelSetup(t);
    assert forall i :: 0 <= i < |l| ==> p[i] == l[i];
  }

  /** Every word of a fill carries the chip-select level it was sent with. */
  lemma FillKeepsSelect(cs: Level, sx: u16, ex: u16, sy: u16, ey: u16, color: u16)
    requires FillFits(sx, ex, sy, ey)
    ensures forall i :: 0 <= i < |FillSamples(cs, sx, ex, sy, ey, color)| ==> FillSamples(cs, sx, ex, sy, ey, color)[i].cs == cs
  {
    var s := FillSamples(cs, sx, ex, sy, ey, color);
    forall i | 0 <= i < |s| ensures s[i].cs == cs {
      if i >= 11 {
        assert s[i] == Repeat(Data(cs, color), FillCount(sx, ex, sy, ey))[i - 11];
      }
    }
  }

  /** Every word from position n on was latched while the controller was selected. */
  predicate SelectedFrom(s: seq<Sample>, n: nat)
  {
    forall i :: n <= i < |s| ==> s[i].cs == Low
  }

  lemma PllSelected(t: seq<Sample>, n: nat)
    requires SelectedFrom(t, n)
    ensures SelectedFrom(PllSetup(t), n)
  {
  }

  lemma PixelClockSelected(t: seq<Sample>, n: nat)
    requires SelectedFrom(t, n)
    ensures SelectedFrom(PixelClockSetup(t), n)
  {
  }

  lemma PanelSelected(t: seq<Sample>, n: nat)
    requires SelectedFrom(t, n)
    ensures SelectedFrom(PanelSetup(t), n)
  {
  }

  lemma InterfaceSelected(t: seq<Sample>, n: nat)
    requires SelectedFrom(t, n)
    ensures SelectedFrom(InterfaceSetup(t), n)
  {
  }

  lemma SelectedFromAppend(a: seq<Sample>, b: seq<Sample>, n: nat)
    requires SelectedFrom(a, n) && SelectedFrom(b, 0)
    ensures SelectedFrom(a + b, n)
  {
    forall i | n <= i < |a + b| ensures (a + b)[i].cs == Low {
      if i >= |a| {
        assert (a + b)[i] == b[i - |a|];
      }
    }
  }

  /**
   * Every word `init` sends is latched with CS low, whatever the trace before it holds, so the
   * controller takes all of them.
   */
  lemma InitIsSelected(t: seq<Sample>)
    ensures SelectedFrom(InitTrace(t), |t|)
  {
    PllSelected(t, |t|);
    PixelClockSelected(PllSetup(t), |t|);
    PanelSelected(PixelClockSetup(PllSetup(t)), |t|);
    InterfaceSelected(PanelSetup(PixelClockSetup(PllSetup(t))), |t|);
    FillKeepsSelect(Low, 0, WIDTH, 0, HEIGHT, INIT_COLOR);
    SelectedFromAppend(RegisterSetup(t), FillSamples(Low, 0, WIDTH, 0, HEIGHT, INIT_COLOR), |t|);
    SelectedFromAppend(RegisterSetup(t) + FillSamples(Low, 0, WIDTH, 0, HEIGHT, INIT_COLOR), [Op(0x29)], |t|);
  }

  /**
   * The clear that precedes SET_DISPLAY_ON covers the window 0..=800 by 0..=480: 801 * 481
   * colour words, one column and one row more than the 800 x 480 panel has, because
   * `clear_screen` passes WIDTH and HEIGHT as end coordinates.
   */
  lemma InitClears(t: seq<Sample>)
    ensures |InitTrace(t)| == |t| + 56 + 11 + 801 * 481 + 1
    ensures InitTrace(t)[|InitTrace(t)| - 1] == Op(0x29)
    ensures DecodeFill(InitTrace(t)[|t| + 56..|InitTrace(t)| - 1])
         == Some(MemoryWrite(Window(0, 800, 0, 480), seq(801 * 481, _ => INIT_COLOR)))
  {
    RegisterSetupLength(t);
    var r := RegisterSetup(t);
    var f := FillSamples(Low, 0, WIDTH, 0, HEIGHT, INIT_COLOR);
    var s := InitTrace(t);
    assert |f| == 11 + 801 * 481;
    assert s[|r|..|s| - 1] == f;
    FillDecodes(0, WIDTH, 0, HEIGHT, INIT_COLOR);
  }

  // ---------------------------------------------------------------------------------------------
  // The driver (src/main.rs:24-51, 123-310)
  // ---------------------------------------------------------------------------------------------

  /** The driver struct `MCU8080_8Bit`: the control pins' levels, the data lines, and the trace. */
  class Mcu8080 {
    var dc: Level
    var wr: Level
    var rd: Level
    var cs: Level
    var bus: u16
    var trace: seq<Sample>

    constructor (dc: Level, wr: Level, rd: Level, cs: Level, bus: u16)
      ensures this.dc == dc && this.wr == wr && this.rd == rd && this.cs == cs && this.bus == bus
      ensures trace == []
    {
      this.dc, this.wr, this.rd, this.cs, this.bus := dc, wr, rd, cs, bus;
      trace := [];
    }

    /** `set_value`: the data lines carry `value` (the settle delay after it is not modelled). */
    method SetValue(value: u16)
      modifies this`bus
      ensures bus == value
    {
      bus := value;
    }

    /** Drives WR; a low-to-high edge makes the controller latch DC, CS and the data lines. */
    method SetWr(level: Level)
      modifies this`wr, this`trace
      ensures wr == level
      ensures trace == old(trace) + (if old(wr) == Low && level == High then [Sample(dc, cs, bus)] else [])
    {
      if wr == Low && level == High {
        trace := trace + [Sample(dc, cs, bus)];
      }
      wr := level;
    }

    /** `write_command`: DC low, the word on the bus, one WR pulse. */
    method WriteCommand(b: u16)
      modifies this`dc, this`bus, this`wr, this`trace
      ensures dc == Low && bus == b && wr == High
      ensures trace == old(trace) + [Command(cs, b)]
    {
      dc := Low;
      SetValue(b);
      SetWr(Low);
      SetWr(High);
    }

    /** `write_data`: DC high, the word on the bus, one WR pulse. */
    method WriteData(b: u16)
      modifies this`dc, this`bus, this`wr, this`trace
      ensures dc == High && bus == b && wr == High
      ensures trace == old(trace) + [Data(cs, b)]
    {
      dc := High;
      SetValue(b);
      SetWr(Low);
      SetWr(High);
    }

    /** One half of `set_area`: a window command, then its start and end coordinates high byte first. */
    method SendWindow(command: u16, start: u16, end: u16)
      modifies this`dc, this`bus, this`wr, this`trace
      ensures dc == High && bus == Lo(end) && wr == High
      ensures trace == old(trace) + [Command(cs, command), Data(cs, Hi(start)), Data(cs, Lo(start)),
                                     Data(cs, Hi(end)), Data(cs, Lo(end))]
    {
      WriteCommand(command);
      WriteData(NthLeastSignificantByte(1, start, 2));
      WriteData(NthLeastSignificantByte(0, start, 2));
      WriteData(NthLeastSignificantByte(1, end, 2));
      WriteData(NthLeastSignificantByte(0, end, 2));
    }

    /** `set_area`: the column window then the page window, coordinates high byte first. */
    method SetArea(sx: u16, ex: u16, sy: u16, ey: u16)
      modifies this`dc, this`bus, this`wr, this`trace
      ensures dc == High && bus == Lo(ey) && wr == High
      ensures trace == old(trace) + SetAreaSamples(cs, sx, ex, sy, ey)
    {
      SendWindow(0x2A, sx, ex);
      SendWindow(0x2B, sy, ey);
    }

    /** `fill_area`: the window, WRITE_MEMORY_START, then one colour word per pixel. */
    method FillArea(sx: u16, ex: u16, sy: u16, ey: u16, color: u16)
      requires FillFits(sx, ex, sy, ey)
      modifies this`dc, this`bus, this`wr, this`trace
      ensures dc == High && bus == color && wr == High
      ensures trace == old(trace) + FillSamples(cs, sx, ex, sy, ey, color)
    {
      SetArea(sx, ex, sy, ey);
      WriteCommand(0x2C);
      ghost var prefix := trace;
      FillCountFits(sx, ex, sy, ey);
      var n: u32 := (ex - sx + 1) * (ey - sy + 1);
      assert n == FillCount(sx, ex, sy, ey) >= 1;
      for i := 0 to n
        invariant trace == prefix + Repeat(Data(cs, color), i)
        invariant wr == High
        invariant i > 0 ==> dc == High && bus == color
      {
        WriteData(color);
        RepeatSnoc(prefix, Data(cs, color), i);
      }
      Concat3(old(trace), SetAreaSamples(cs, sx, ex, sy, ey), [Command(cs, 0x2C)], Repeat(Data(cs, color), n));
    }

    /** `clear_screen`: fills the window 0..=WIDTH by 0..=HEIGHT with one colour. */
    method ClearScreen(color: u16)
      modifies this`dc, this`bus, this`wr, this`trace
      ensures dc == High && bus == color && wr == High
      ensures trace == old(trace) + FillSamples(cs, 0, WIDTH, 0, HEIGHT, color)
    {
      FillArea(0, WIDTH, 0, HEIGHT, color);
    }

    /** The first part of `init`: the PLL, then a soft reset. */
    method InitPll()
      requires cs == Low
      modifies this`dc, this`bus, this`wr, this`trace
      ensures dc == Low && wr == High
      ensures trace == PllSetup(old(trace))
    {
      WriteCommand(0xE2); // SET_PLL_MN
      WriteData(0x1E);
      WriteData(0x02);
      WriteData(0x54);

      WriteCommand(0xE0); // SET_PLL
      WriteData(1);

      WriteCommand(0xE0); // SET_PLL again, after the PLL lock delay
      WriteData(3);

      WriteCommand(0x01); // SOFT_RESET
    }

    /** The part of `init` that computes the pixel-clock setting and sends it. */
    method InitPixelClock()
      requires cs == Low
      modifies this`dc, this`bus, this`wr, this`trace
      ensures dc == High && wr == High
      ensures trace == PixelClockSetup(old(trace))
    {
      var fps: u64 := 30;
      var hsyncBackPorch: u64 := 3;
      var hsyncFrontPorch: u64 := 0;
      var hsyncPulse: u64 := 0;
      var vsyncBackPorch: u64 := 10;
      var vsyncFrontPorch: u64 := 0;
      var vsyncPulse: u64 := 0;
      var hsyncPeriod: u64 := hsyncPulse + hsyncBackPorch + WIDTH + hsyncFrontPorch;
      var vsyncPeriod: u64 := vsyncPulse + vsyncBackPorch + HEIGHT + vsyncFrontPorch;
      var pclk: u64 := hsyncPeriod * vsyncPeriod * fps;
      var fpr: u64 := pclk * 1048576 / 100000000;
      assert fpr == Fpr();
      WriteCommand(0xE6); // SET_LSHIFT_FREQ
      WriteData(NthLeastSignificantByte(2, fpr, 8));
      WriteData(NthLeastSignificantByte(1, fpr, 8));
      WriteData(NthLeastSignificantByte(0, fpr, 8));
    }

    /** The part of `init` that sets the panel mode and its horizontal and vertical timing. */
    method InitPanel()
      requires cs == Low
      modifies this`dc, this`bus, this`wr, this`trace
      ensures dc == High && wr == High
      ensures trace == PanelSetup(old(trace))
    {
      WriteCommand(0xB0); // SET_LCD_MODE
      WriteData(0x24);
      WriteData(0x00);
      WriteData(NthLeastSignificantByte(1, WIDTH, 2));
      WriteData(NthLeastSignificantByte(0, WIDTH, 2));
      WriteData(NthLeastSignificantByte(1, HEIGHT, 2));
      WriteData(NthLeastSignificantByte(0, HEIGHT, 2));
      WriteData(0);

      WriteCommand(0xB4); // SET_HORI_PERIOD
      WriteData(0x03);
      WriteData(0xA0);
      WriteData(0x00);
      WriteData(0x2E);
      WriteData(0x30);
      WriteData(0x00);
      WriteData(0x0F);
      WriteData(0x00);

      WriteCommand(0xB6); // SET_VERT_PERIOD
      WriteData(0x02);
      WriteData(0x0D);
      WriteData(0x00);
      WriteData(0x10);
      WriteData(0x10);
      WriteData(0x00);
      WriteData(0x08);
    }

    /** The part of `init` that sets GPIO, address mode, pixel format and backlight. */
    method InitInterface()
      requires cs == Low
      modifies this`dc, this`bus, this`wr, this`trace
      ensures dc == High && wr == High
      ensures trace == InterfaceSetup(old(trace))
    {
      WriteCommand(0xBA); // SET_GPIO_VALUE
      WriteData(0x0F);

      WriteCommand(0xB8); // SET_GPIO_CONF
      WriteData(0x07);
      WriteData(0x01);

      WriteCommand(0x36); // SET_ADDRESS_MODE
      WriteData(0x22);

      WriteCommand(0xF0); // SET_PIXEL_DATA_INTERFACE: 16-bit RGB565
      WriteData(0x03);

      WriteCommand(0xBE); // SET_PWM_CONF
      WriteData(0x06);
      WriteData(0xF0);
      WriteData(0x01);
      WriteData(0xF0);
      WriteData(0x00);
      WriteData(0x00);

      WriteCommand(0xD0); // SET_DBC_CONF
      WriteData(0x0D);
    }

    /**
     * `init`: RD and WR high, CS low, the register sequence, a clear in green, SET_DISPLAY_ON,
     * and CS high again. If WR was low on entry, raising it latches one stray word first.
     * The register writes are split into the four methods above, in the order `init` sends them.
     */
    method Init()
      modifies this`dc, this`wr, this`rd, this`cs, this`bus, this`trace
      ensures rd == High && wr == High && cs == High && dc == Low && bus == 0x29
      ensures trace == InitTrace(old(trace) + (if old(wr) == Low then [Sample(old(dc), old(cs), old(bus))] else []))
    {
      rd := High;
      SetWr(High);
      cs := Low;
      InitPll();
      InitPixelClock();
      InitPanel();
      InitInterface();
      ClearScreen(INIT_COLOR);
      WriteCommand(0x29); // SET_DISPLAY_ON
      cs := High;
    }
  }
}
