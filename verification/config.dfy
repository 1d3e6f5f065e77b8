/** Start-up configuration: the built-in font and the pure parts of turning
    command-line values into settings. */
module Config {
  import opened Bits
  import Decimal

  /** The timer and main-loop rate in Hz (`MAIN_LOOP_FREQUENCY`). */
  const MainLoopFrequency: nat := 60

  /** `DEFAULT_SCREEN_SIZE_COEFF`. */
  const DefaultScreenSizeCoeff: nat := 10

  /** `DEFAULT_EMU_FREQUENCY`, in Hz. */
  const DefaultEmuFrequency: nat := 500

  /** `u32::MAX`. */
  const U32Max: nat := 0xFFFF_FFFF

  /** The five rows of the glyph for hexadecimal digit d, as listed in `FONT`. */
  function Glyph(d: Nibble): (g: seq<Byte>)
    ensures |g| == 5
  {
    match d
    case 0x0 => [0xF0, 0x90, 0x90, 0x90, 0xF0]
    case 0x1 => [0x20, 0x60, 0x20, 0x20, 0x70]
    case 0x2 => [0xF0, 0x10, 0xF0, 0x80, 0xF0]
    case 0x3 => [0xF0, 0x10, 0xF0, 0x10, 0xF0]
    case 0x4 => [0x90, 0x90, 0xF0, 0x10, 0x10]
    case 0x5 => [0xF0, 0x80, 0xF0, 0x10, 0xF0]
    case 0x6 => [0xF0, 0x80, 0xF0, 0x90, 0xF0]
    case 0x7 => [0xF0, 0x10, 0x20, 0x40, 0x40]
    case 0x8 => [0xF0, 0x90, 0xF0, 0x90, 0xF0]
    case 0x9 => [0xF0, 0x90, 0xF0, 0x10, 0xF0]
    case 0xA => [0xF0, 0x90, 0xF0, 0x90, 0x90]
    case 0xB => [0xE0, 0x90, 0xE0, 0x90, 0xE0]
    case 0xC => [0xF0, 0x80, 0x80, 0x80, 0xF0]
    case 0xD => [0xE0, 0x90, 0x90, 0x90, 0xE0]
    case 0xE => [0xF0, 0x80, 0xF0, 0x80, 0xF0]
    case _ => [0xF0, 0x80, 0xF0, 0x80, 0x80]
  }

  /** `FONT`, the flat 80-byte array loaded into memory: the glyphs one after
      another, so row `row` of glyph d is byte 5 * d + row. */
  function Font(): (f: seq<Byte>)
    ensures |f| == 16 * 5
    ensures forall d: Nibble, row :: 0 <= row < 5 ==> f[5 * d + row] == Glyph(d)[row]
  {
    var f := seq(16 * 5, k requires 0 <= k < 16 * 5 => Glyph(k / 5)[k % 5]);
    assert forall d: Nibble, row :: 0 <= row < 5 ==> f[5 * d + row] == Glyph(d)[row] by {
      forall d: Nibble, row | 0 <= row < 5
        ensures f[5 * d + row] == Glyph(d)[row]
      {
        DivModUnique(5 * d + row, 5, d, row);
      }
    }
    f
  }

  /** Every glyph row leaves the low nibble clear. */
  lemma GlyphRowsNarrow(d: Nibble)
    ensures forall row :: 0 <= row < 5 ==> Glyph(d)[row] % 0x10 == 0
  {
  }

  /** The font holds 16 glyphs of 5 bytes, and every glyph is 4 pixels wide: no
      byte has a bit set in its low nibble. */
  lemma FontShape()
    ensures |Font()| == 16 * 5
    ensures forall k :: 0 <= k < |Font()| ==> Font()[k] % 0x10 == 0
    ensures forall k, b :: 0 <= k < |Font()| && 0 <= b < 4 ==> !Bit(Font()[k], b)
  {
    var font := Font();
    forall k | 0 <= k < |font|
      ensures font[k] % 0x10 == 0
    {
      GlyphRowsNarrow(k / 5);
      assert font[5 * (k / 5) + k % 5] == Glyph(k / 5)[k % 5];
    }
    forall k, b | 0 <= k < |font| && 0 <= b < 4
      ensures !Bit(font[k], b)
    {
      LowBitsOfMultipleOf16(font[k], b);
    }
  }

  lemma LowBitsOfMultipleOf16(v: Byte, b: nat)
    requires v % 0x10 == 0 && b < 4
    ensures !Bit(v, b)
  {
    assert Pow2(4) == 16;
    BitOfRemainder(v, 4, b);
    ZeroHasNoBits(b);
  }

  /** `instructions_per_cycle`: a tick of the 60 Hz loop covers emuSpeed / 60
      machine cycles, and an instruction takes two cycles. The result is the
      largest count whose cycles fit in one tick. */
  function InstructionsPerCycle(emuSpeed: nat): (r: nat)
    requires emuSpeed <= U32Max
    ensures 2 * MainLoopFrequency * r <= emuSpeed < 2 * MainLoopFrequency * (r + 1)
  {
    (emuSpeed / MainLoopFrequency) / 2
  }

  /** Every frequency the command line accepts runs between 1 and 8 instructions
      per tick; the default runs 4. */
  lemma InstructionsPerCycleRange(freq: nat)
    requires 200 <= freq <= 1000
    ensures 1 <= InstructionsPerCycle(freq) <= 8
    ensures InstructionsPerCycle(DefaultEmuFrequency) == 4
  {
  }

  /** The `screen-size` value after clap's possible-values check. */
  datatype Option<T> = None | Some(value: T)

  /** `set_screen_size`: the pixel scale for the named size, 10 for anything else. */
  function ScreenSizeCoeff(arg: Option<string>): (r: nat)
    ensures r == 12 <==> arg == Some("medium")
    ensures r == 16 <==> arg == Some("large")
    ensures r == DefaultScreenSizeCoeff <==> arg != Some("medium") && arg != Some("large")
  {
    match arg
    case Some(v) =>
      if v == "medium" then 12
      else if v == "large" then 16
      else DefaultScreenSizeCoeff
    case None => DefaultScreenSizeCoeff
  }

  /** `set_emu_frequency`: the parsed `u32` when a value is given (its `unwrap`
      panic is a precondition), otherwise the default. */
  function EmuFrequency(arg: Option<string>): (r: nat)
    requires arg.Some? ==> Decimal.Parse(arg.value, U32Max).Parsed?
    ensures r <= U32Max
    ensures arg.None? ==> r == DefaultEmuFrequency
    ensures arg.Some? ==> Decimal.Parse(arg.value, U32Max) == Decimal.Parsed(r)
  {
    match arg
    case Some(v) => Decimal.Parse(v, U32Max).value
    case None => DefaultEmuFrequency
  }
}
