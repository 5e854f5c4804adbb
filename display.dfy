/** The 64 x 32 monochrome framebuffer and the XOR sprite drawing of DXYN.
    The screen is flat and row-major; a sprite is up to 15 bytes, one row
    per byte, eight pixels wide, most significant bit leftmost. Only the
    top-left corner is wrapped onto the grid: pixels past the right edge
    land at the start of the next row, and rows past the bottom edge land
    beyond the buffer (which the interpreter reports as a fault). */
module Display {
  import opened Bits

  const VideoWidth := 64
  const VideoHeight := 32
  const ScreenSize := VideoWidth * VideoHeight

  /** Flat index of sprite pixel (row, col) drawn with its corner at (x, y). */
  function PixelIndex(x: nat, y: nat, row: nat, col: nat): nat
  {
    (y + row) * VideoWidth + (x + col)
  }

  /** Pixel col (0 = leftmost) of a sprite row. */
  predicate SpriteBit(b: Byte, col: nat)
    requires col < 8
  {
    Bit(b, 7 - col) == 1
  }

  /** The all-off screen. */
  function Blank(): (s: seq<bool>)
    ensures |s| == ScreenSize && forall k :: 0 <= k < ScreenSize ==> !s[k]
  {
    seq(ScreenSize, _ => false)
  }

  /** Every lit sprite pixel lands inside the buffer. */
  predicate SpriteFits(sprite: seq<Byte>, x: nat, y: nat)
  {
    forall row, col | 0 <= row < |sprite| && 0 <= col < 8 ::
      SpriteBit(sprite[row], col) ==> PixelIndex(x, y, row, col) < ScreenSize
  }

  /** Cell k receives a lit sprite pixel among the first `done` pixels, taken
      row by row and left to right (pixel (row, col) is number row * 8 + col).
      Since col < 8 < VideoWidth, the pixel landing on a cell is unique: it is
      found from k by one division. */
  predicate TouchedBefore(sprite: seq<Byte>, x: nat, y: nat, k: int, done: nat)
  {
    var q := k - (y * VideoWidth + x);
    var row, col := q / VideoWidth, q % VideoWidth;
    0 <= q && col < 8 && row < |sprite| && row * 8 + col < done && SpriteBit(sprite[row], col)
  }

  /** The screen after the first `done` sprite pixels have been XORed in. */
  function DrawPartial(screen: seq<bool>, sprite: seq<Byte>, x: nat, y: nat, done: nat): (r: seq<bool>)
    ensures |r| == |screen|
  {
    seq(|screen|, k requires 0 <= k < |screen| => screen[k] != TouchedBefore(sprite, x, y, k, done))
  }

  /** Some lit pixel among the first `done` fell on a cell that was on. */
  predicate CollidedBefore(screen: seq<bool>, sprite: seq<Byte>, x: nat, y: nat, done: nat)
  {
    exists k | 0 <= k < |screen| :: screen[k] && TouchedBefore(sprite, x, y, k, done)
  }

  predicate Touched(sprite: seq<Byte>, x: nat, y: nat, k: int)
  {
    TouchedBefore(sprite, x, y, k, 8 * |sprite|)
  }

  /** The screen after the whole sprite is XORed in: it differs from the
      old one exactly on the cells a lit sprite pixel lands on. */
  function DrawSprite(screen: seq<bool>, sprite: seq<Byte>, x: nat, y: nat): (r: seq<bool>)
    ensures |r| == |screen|
    ensures forall k | 0 <= k < |screen| :: r[k] != screen[k] <==> Touched(sprite, x, y, k)
  {
    DrawPartial(screen, sprite, x, y, 8 * |sprite|)
  }

  /** The collision flag of a whole draw: some cell that was on is off
      afterwards. */
  predicate Collides(screen: seq<bool>, sprite: seq<Byte>, x: nat, y: nat)
    ensures Collides(screen, sprite, x, y) <==>
            exists k | 0 <= k < |screen| :: screen[k] && !DrawSprite(screen, sprite, x, y)[k]
  {
    CollidedBefore(screen, sprite, x, y, 8 * |sprite|)
  }

  /** Pixel (row, col) lands on the cell that TouchedBefore decodes back to
      (row, col), and on no other. */
  lemma PixelIndexDecodes(x: nat, y: nat, row: nat, col: nat, k: int)
    requires col < 8
    ensures var q := PixelIndex(x, y, row, col) - (y * VideoWidth + x);
            q >= 0 && q / VideoWidth == row && q % VideoWidth == col
    ensures var q := k - (y * VideoWidth + x);
            (0 <= q && q / VideoWidth == row && q % VideoWidth == col) ==> k == PixelIndex(x, y, row, col)
  {
    var q := PixelIndex(x, y, row, col) - (y * VideoWidth + x);
    assert q == row * VideoWidth + col;
    DivUnique(q, VideoWidth, row, col);
  }

  /** Pixel number row * 8 + col is the only pixel that the count `done`
      gains when it grows by one, and no earlier pixel touched its cell. */
  lemma TouchedStep(sprite: seq<Byte>, x: nat, y: nat, row: nat, col: nat, k: int)
    requires row < |sprite| && col < 8
    ensures var done, cell := row * 8 + col, PixelIndex(x, y, row, col);
            TouchedBefore(sprite, x, y, k, done + 1)
              == (TouchedBefore(sprite, x, y, k, done) || (k == cell && SpriteBit(sprite[row], col)))
    ensures k == PixelIndex(x, y, row, col) ==> !TouchedBefore(sprite, x, y, k, row * 8 + col)
  {
    var done := row * 8 + col;
    PixelIndexDecodes(x, y, row, col, k);
    var q := k - (y * VideoWidth + x);
    if 0 <= q && q % VideoWidth < 8 && (q / VideoWidth) * 8 + q % VideoWidth == done {
      DivUnique(done, 8, q / VideoWidth, q % VideoWidth);
      DivUnique(done, 8, row, col);
    }
  }

  /** One iteration of the drawing loop on the screen: pixel number
      row * 8 + col toggles its own cell, still at its old value, if it is
      lit, and leaves every other cell alone. */
  lemma DrawStep(screen: seq<bool>, sprite: seq<Byte>, x: nat, y: nat, row: nat, col: nat)
    requires row < |sprite| && col < 8 && |screen| == ScreenSize
    requires SpriteBit(sprite[row], col) ==> PixelIndex(x, y, row, col) < ScreenSize
    ensures var done, cell := row * 8 + col, PixelIndex(x, y, row, col);
            if SpriteBit(sprite[row], col) then
              cell < |screen| &&
              DrawPartial(screen, sprite, x, y, done)[cell] == screen[cell] &&
              DrawPartial(screen, sprite, x, y, done + 1)
                == DrawPartial(screen, sprite, x, y, done)[cell := !screen[cell]]
            else
              DrawPartial(screen, sprite, x, y, done + 1) == DrawPartial(screen, sprite, x, y, done)
  {
    var done, cell := row * 8 + col, PixelIndex(x, y, row, col);
    forall k | 0 <= k < |screen|
      ensures TouchedBefore(sprite, x, y, k, done + 1)
              == (TouchedBefore(sprite, x, y, k, done) || (k == cell && SpriteBit(sprite[row], col)))
      ensures k == cell ==> !TouchedBefore(sprite, x, y, k, done)
    {
      TouchedStep(sprite, x, y, row, col, k);
    }
  }

  /** One iteration of the drawing loop on the collision flag: it rises iff
      the toggled cell was on. */
  lemma CollisionStep(screen: seq<bool>, sprite: seq<Byte>, x: nat, y: nat, row: nat, col: nat)
    requires row < |sprite| && col < 8 && |screen| == ScreenSize
    requires SpriteBit(sprite[row], col) ==> PixelIndex(x, y, row, col) < ScreenSize
    ensures var done, cell := row * 8 + col, PixelIndex(x, y, row, col);
            var hit := SpriteBit(sprite[row], col) && screen[cell];
            CollidedBefore(screen, sprite, x, y, done + 1) == (CollidedBefore(screen, sprite, x, y, done) || hit)
  {
    var done, cell := row * 8 + col, PixelIndex(x, y, row, col);
    if CollidedBefore(screen, sprite, x, y, done + 1) {
      var k :| 0 <= k < |screen| && screen[k] && TouchedBefore(sprite, x, y, k, done + 1);
      TouchedStep(sprite, x, y, row, col, k);
    }
    if SpriteBit(sprite[row], col) && screen[cell] {
      TouchedStep(sprite, x, y, row, col, cell);
      assert TouchedBefore(sprite, x, y, cell, done + 1);
    }
    if CollidedBefore(screen, sprite, x, y, done) {
      var k :| 0 <= k < |screen| && screen[k] && TouchedBefore(sprite, x, y, k, done);
      TouchedStep(sprite, x, y, row, col, k);
    }
  }

  /** Drawing the same sprite at the same place twice restores the screen. */
  lemma DrawTwiceRestores(screen: seq<bool>, sprite: seq<Byte>, x: nat, y: nat)
    ensures DrawSprite(DrawSprite(screen, sprite, x, y), sprite, x, y) == screen
  {
  }

  /** Drawing onto a blank screen never collides; drawing the same sprite
      again collides as soon as one of its lit pixels is on the screen. */
  lemma {:induction false} RedrawCollides(sprite: seq<Byte>, x: nat, y: nat, row: nat, col: nat)
    requires row < |sprite| && col < 8 && SpriteBit(sprite[row], col)
    requires PixelIndex(x, y, row, col) < ScreenSize
    ensures !Collides(Blank(), sprite, x, y)
    ensures Collides(DrawSprite(Blank(), sprite, x, y), sprite, x, y)
  {
    var cell := PixelIndex(x, y, row, col);
    PixelIndexDecodes(x, y, row, col, cell);
    assert Touched(sprite, x, y, cell);
    assert DrawSprite(Blank(), sprite, x, y)[cell];
  }
}
