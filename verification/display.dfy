/** The 64 x 32 monochrome display, its refresh latch, and the meaning of
    drawing a sprite on it.

    A sprite of n bytes drawn at column x and row y XORs bit 7 - b of byte r
    into cell (y + r) * 64 + x + b. Only the bound 2048 is checked, so a bit
    past column 63 lands at the start of the next row, and a bit on the last
    row past column 63 or below row 31 is dropped. */
module Display {
  import opened Bits

  const Width := 64
  const Height := 32
  const Size := 2048

  /** `[bool; DISPLAY_WIDTH * DISPLAY_HEIGHT]`, row-major. */
  type Pixels = s: seq<bool> | |s| == 2048 witness seq(2048, _ => false)

  datatype Screen = Screen(display: Pixels, refresh: bool)

  /** `Screen::new`: every cell off, no refresh pending. */
  function NewScreen(): (s: Screen)
    ensures forall p :: 0 <= p < Size ==> !s.display[p]
    ensures !s.refresh
  {
    Screen(seq(Size, _ => false), false)
  }

  /** `Screen::clear`: every cell off; the refresh latch is left alone. */
  function Clear(s: Screen): (r: Screen)
    ensures forall p :: 0 <= p < Size ==> !r.display[p]
    ensures r.refresh == s.refresh
  {
    s.(display := seq(Size, _ => false))
  }

  /** `should_refresh`: reports whether a refresh was pending and consumes it. */
  function ShouldRefresh(s: Screen): (r: (bool, Screen))
    ensures r.0 == s.refresh
    ensures !r.1.refresh && r.1.display == s.display
  {
    if !s.refresh then (false, s) else (true, s.(refresh := false))
  }

  /** A second query right after the first reports nothing and changes nothing. */
  lemma ShouldRefreshConsumes(s: Screen)
    ensures !ShouldRefresh(ShouldRefresh(s).1).0
    ensures ShouldRefresh(ShouldRefresh(s).1).1 == ShouldRefresh(s).1
  {
  }

  /** The cell that bit b (0 = most significant) of sprite row r targets when the
      sprite is drawn at column x, row y. */
  function PixelIndex(x: int, y: int, r: int, b: int): int
  {
    (y + r) * Width + x + b
  }

  /** Bit b of sprite row r, counting from the most significant bit. */
  predicate RowBit(sprite: seq<Byte>, r: int, b: int)
    requires 0 <= r < |sprite| && 0 <= b < 8
  {
    Bit(sprite[r], 7 - b)
  }

  /** The specification of the cells a sprite toggles: some set sprite bit targets p,
      and p is on the display. */
  ghost predicate Hit(sprite: seq<Byte>, x: int, y: int, p: int)
  {
    && 0 <= p < Size
    && exists r, b :: 0 <= r < |sprite| && 0 <= b < 8 && PixelIndex(x, y, r, b) == p && RowBit(sprite, r, b)
  }

  /** Whether cell p is toggled by one of the first `steps` sprite bits, in the order
      the drawing loop visits them (row by row, most significant bit first). The cell
      is found by solving p = (y + r) * 64 + x + b for r and b < 8. */
  predicate CoveredUpTo(sprite: seq<Byte>, x: int, y: int, steps: int, p: int)
  {
    var off := p - (y * Width + x);
    && 0 <= p < Size
    && 0 <= off
    && off / Width < |sprite|
    && off % Width < 8
    && (off / Width) * 8 + off % Width < steps
    && Bit(sprite[off / Width], 7 - off % Width)
  }

  predicate Covered(sprite: seq<Byte>, x: int, y: int, p: int)
  {
    CoveredUpTo(sprite, x, y, 8 * |sprite|, p)
  }

  /** The closed form picks out exactly the cells the specification names. */
  lemma CoveredIffHit(sprite: seq<Byte>, x: int, y: int, p: int)
    ensures Covered(sprite, x, y, p) <==> Hit(sprite, x, y, p)
  {
    if Hit(sprite, x, y, p) {
      var r, b :| 0 <= r < |sprite| && 0 <= b < 8 && PixelIndex(x, y, r, b) == p && RowBit(sprite, r, b);
      DivModUnique(p - (y * Width + x), Width, r, b);
    }
    if Covered(sprite, x, y, p) {
      var off := p - (y * Width + x);
      assert PixelIndex(x, y, off / Width, off % Width) == p;
      assert RowBit(sprite, off / Width, off % Width);
    }
  }

  lemma AllCoveredIffHit(sprite: seq<Byte>, x: int, y: int)
    ensures forall p :: Covered(sprite, x, y, p) <==> Hit(sprite, x, y, p)
  {
    forall p
      ensures Covered(sprite, x, y, p) <==> Hit(sprite, x, y, p)
    {
      CoveredIffHit(sprite, x, y, p);
    }
  }

  /** Whether some cell the first `steps` sprite bits target was lit beforehand. */
  ghost predicate CollidedUpTo(display: Pixels, sprite: seq<Byte>, x: int, y: int, steps: int)
  {
    exists p :: 0 <= p < Size && display[p] && CoveredUpTo(sprite, x, y, steps, p)
  }

  /** Visiting bit `bit` of row `row` (step `before` of the drawing loop) adds
      exactly its target cell, when that cell is on the display and the bit is set,
      and the cell was not visited before. */
  lemma CoveredUpToStep(sprite: seq<Byte>, x: int, y: int, row: int, bit: int, before: int, after: int)
    requires 0 <= row < |sprite| && 0 <= bit < 8
    requires before == 8 * row + bit && after == before + 1
    ensures !CoveredUpTo(sprite, x, y, before, PixelIndex(x, y, row, bit))
    ensures forall p ::
      CoveredUpTo(sprite, x, y, after, p) <==>
        (CoveredUpTo(sprite, x, y, before, p)
         || (p == PixelIndex(x, y, row, bit) && 0 <= p < Size && RowBit(sprite, row, bit)))
  {
    var pos := PixelIndex(x, y, row, bit);
    DivModUnique(pos - (y * Width + x), Width, row, bit);
  }

  /** Once a bit's target is past the last cell, so is the target of every later
      bit of the same row: the rest of the row toggles nothing. */
  lemma CoveredUpToRowEnd(sprite: seq<Byte>, x: int, y: int, row: int, bit: int, before: int, after: int)
    requires 0 <= row < |sprite| && 0 <= bit <= 8
    requires PixelIndex(x, y, row, bit) >= Size || bit == 8
    requires before == 8 * row + bit && after == 8 * (row + 1)
    ensures forall p :: CoveredUpTo(sprite, x, y, after, p) <==> CoveredUpTo(sprite, x, y, before, p)
  {
  }

  /** Drawing as a whole: every targeted cell flips, every other cell keeps its
      value, and the collision flag says whether some targeted cell was lit. */
  function XorSprite(display: Pixels, sprite: seq<Byte>, x: int, y: int): (r: (Pixels, bool))
    ensures forall p :: 0 <= p < Size ==> r.0[p] == (display[p] != Hit(sprite, x, y, p))
    ensures r.1 <==> exists p :: 0 <= p < Size && display[p] && Hit(sprite, x, y, p)
  {
    AllCoveredIffHit(sprite, x, y);
    (seq(Size, p requires 0 <= p < Size => display[p] != Covered(sprite, x, y, p)),
     exists p :: 0 <= p < Size && display[p] && Covered(sprite, x, y, p))
  }

  /** Drawing the same sprite twice at the same place restores the display, and
      the second draw collides exactly when the first one lit some cell. */
  lemma XorSpriteTwice(display: Pixels, sprite: seq<Byte>, x: int, y: int)
    ensures XorSprite(XorSprite(display, sprite, x, y).0, sprite, x, y).0 == display
    ensures XorSprite(XorSprite(display, sprite, x, y).0, sprite, x, y).1
        <==> exists p :: 0 <= p < Size && !display[p] && Hit(sprite, x, y, p)
  {
    var once := XorSprite(display, sprite, x, y).0;
    var twice := XorSprite(once, sprite, x, y);
    assert forall p :: 0 <= p < Size ==> twice.0[p] == display[p];
    if twice.1 {
      var p :| 0 <= p < Size && once[p] && Hit(sprite, x, y, p);
      assert !display[p];
    }
    if exists p :: 0 <= p < Size && !display[p] && Hit(sprite, x, y, p) {
      var p :| 0 <= p < Size && !display[p] && Hit(sprite, x, y, p);
      assert once[p];
    }
  }

  /** On a blank display a sprite never collides, and drawing it again erases it,
      colliding exactly when it targets some cell. */
  lemma XorSpriteOnBlank(sprite: seq<Byte>, x: int, y: int)
    ensures !XorSprite(NewScreen().display, sprite, x, y).1
    ensures XorSprite(XorSprite(NewScreen().display, sprite, x, y).0, sprite, x, y).0 == NewScreen().display
    ensures XorSprite(XorSprite(NewScreen().display, sprite, x, y).0, sprite, x, y).1
        <==> exists p :: 0 <= p < Size && Hit(sprite, x, y, p)
  {
    XorSpriteTwice(NewScreen().display, sprite, x, y);
  }
}
