// The framebuffer primitives: clipped pixels, rectangles and 5x7 characters.
module Raster {
  import opened Bytes
  import opened Font
  import opened Screen

  const FONT_START: Byte := 32
  const FONT_GLYPHS: nat := 95

  type Color = bv16

  ghost predicate OnScreen(x: int, y: int) {
    0 <= x < FB_W && 0 <= y < FB_H
  }

  method PutPixel(fb: array2<Color>, x: int, y: int, color: Color)
    requires fb.Length0 == FB_H && fb.Length1 == FB_W
    modifies fb
    ensures forall px, py | OnScreen(px, py) :: fb[py, px] == if px == x && py == y then color else old(fb[py, px])
  {
    if x < 0 || x >= FB_W || y < 0 || y >= FB_H {
      return;
    }
    fb[y, x] := color;
  }

  /** Sets exactly the pixels of the rectangle that are on the screen; the corners belong to it. */
  method FillRect(fb: array2<Color>, left: int, top: int, right: int, bottom: int, color: Color)
    requires fb.Length0 == FB_H && fb.Length1 == FB_W
    modifies fb
    ensures forall px, py | OnScreen(px, py) ::
              fb[py, px] == if left <= px <= right && top <= py <= bottom then color else old(fb[py, px])
  {
    var x0, y0 := if left < 0 then 0 else left, if top < 0 then 0 else top;
    var x1, y1 := if right >= FB_W then FB_W - 1 else right, if bottom >= FB_H then FB_H - 1 else bottom;
    var y := y0;
    while y <= y1
      invariant y0 <= y
      invariant forall px, py | OnScreen(px, py) ::
                  fb[py, px] == if x0 <= px <= x1 && y0 <= py < y && py <= y1 then color else old(fb[py, px])
    {
      var x := x0;
      while x <= x1
        invariant x0 <= x
        invariant forall px, py | OnScreen(px, py) ::
                    fb[py, px] == if x0 <= px <= x1 && y0 <= py <= y && (py < y || px < x) then color else old(fb[py, px])
      {
        fb[y, x] := color;
        x := x + 1;
      }
      y := y + 1;
    }
  }

  // ----- Characters -----

  /** The k-th of the squares of the given side that begin at 0. */
  predicate InSquare(d: int, side: int, k: nat) {
    k * side <= d < k * side + side
  }

  lemma Monotone(a: int, b: int, side: int)
    requires a <= b && side >= 0
    ensures a * side <= b * side
  {}

  /** A distance below n sides lies in one of the first n squares, the one its quotient names. */
  lemma SquareOf(d: int, side: int, n: nat)
    requires side >= 1 && 0 <= d < n * side
    ensures 0 <= d / side < n && InSquare(d, side, d / side)
  {
    var q := d / side;
    if q >= n {
      Monotone(n, q, side);
    }
  }

  lemma SquareIsUnique(d: int, side: int, k: nat, q: nat)
    requires side >= 1 && InSquare(d, side, k) && InSquare(d, side, q)
    ensures k == q
  {
    if k < q {
      Monotone(k + 1, q, side);
    } else if q < k {
      Monotone(q + 1, k, side);
    }
  }

  predicate InCell(x: int, y: int, scale: int, px: int, py: int) {
    scale >= 1 && 0 <= px - x < COLUMNS * scale && 0 <= py - y < ROWS * scale
  }

  /** The color of a pixel once the first `done` squares of the cell are drawn, row by row. */
  function Drawn(g: Glyph, x: int, y: int, scale: int, fg: Color, bg: Color, done: nat, px: int, py: int,
                 before: Color): Color
    requires |g| == ROWS
  {
    if !InCell(x, y, scale, px, py) then before
    else
      SquareOf(px - x, scale, COLUMNS);
      SquareOf(py - y, scale, ROWS);
      var row, column := (py - y) / scale, (px - x) / scale;
      if row * COLUMNS + column >= done then before else if Bit(g[row], column) then fg else bg
  }

  /** Drawing the next square changes exactly its pixels. */
  lemma NextSquare(g: Glyph, x: int, y: int, scale: int, fg: Color, bg: Color, row: nat, column: nat, px: int,
                   py: int, before: Color)
    requires |g| == ROWS && row < ROWS && column < COLUMNS
    ensures Drawn(g, x, y, scale, fg, bg, row * COLUMNS + column + 1, px, py, before)
            == if x + column * scale <= px < x + column * scale + scale && y + row * scale <= py < y + row * scale + scale
               then (if Bit(g[row], column) then fg else bg)
               else Drawn(g, x, y, scale, fg, bg, row * COLUMNS + column, px, py, before)
  {
    hide Bit;
    if scale >= 1 {
      Monotone(0, row, scale);
      Monotone(row + 1, ROWS, scale);
      Monotone(0, column, scale);
      Monotone(column + 1, COLUMNS, scale);
      if InCell(x, y, scale, px, py) {
        SquareOf(px - x, scale, COLUMNS);
        SquareOf(py - y, scale, ROWS);
        if InSquare(px - x, scale, column) && InSquare(py - y, scale, row) {
          SquareIsUnique(px - x, scale, column, (px - x) / scale);
          SquareIsUnique(py - y, scale, row, (py - y) / scale);
        }
      }
    }
  }

  /** One bit of the glyph: a square of scale by scale pixels. */
  method FillSquare(fb: array2<Color>, x: int, y: int, scale: int, color: Color)
    requires fb.Length0 == FB_H && fb.Length1 == FB_W
    modifies fb
    ensures forall px, py | OnScreen(px, py) ::
              fb[py, px] == if x <= px < x + scale && y <= py < y + scale then color else old(fb[py, px])
  {
    var dy := 0;
    while dy < scale
      invariant 0 <= dy
      invariant scale >= 0 ==> dy <= scale
      invariant forall px, py | OnScreen(px, py) ::
                  fb[py, px] == if x <= px < x + scale && y <= py < y + dy then color else old(fb[py, px])
    {
      var dx := 0;
      while dx < scale
        invariant 0 <= dx <= scale
        invariant forall px, py | OnScreen(px, py) ::
                    fb[py, px] == if x <= px < x + scale && y <= py <= y + dy && (py < y + dy || px < x + dx)
                                  then color else old(fb[py, px])
      {
        PutPixel(fb, x + dx, y + dy, color);
        dx := dx + 1;
      }
      dy := dy + 1;
    }
  }

  /** The glyph of a character; characters without one are drawn as a question mark. */
  function GlyphOf(font: seq<Glyph>, c: Byte): Glyph
    requires |font| == FONT_GLYPHS
  {
    font[(if 32 <= c < 127 then c - 32 else 31) as int]
  }

  /** The glyphs are those of the printable characters in order; every other character gets the question mark's. */
  lemma GlyphsInOrder(font: seq<Glyph>, c: Byte)
    requires |font| == FONT_GLYPHS
    ensures GlyphOf(font, 0x20) == font[0] && GlyphOf(font, 0x3f) == font[31] && GlyphOf(font, 0x7e) == font[94]
    ensures 0x20 <= c <= 0x7e ==> GlyphOf(font, c) == font[c as int - 32]
    ensures c < 0x20 || c > 0x7e ==> GlyphOf(font, c) == GlyphOf(font, 0x3f)
  {}

  method DrawChar(fb: array2<Color>, font: seq<Glyph>, x: int, y: int, c: Byte, scale: int, fg: Color, bg: Color)
    requires fb.Length0 == FB_H && fb.Length1 == FB_W
    requires |font| == FONT_GLYPHS && forall g | g in font :: |g| == ROWS
    modifies fb
    ensures |GlyphOf(font, c)| == ROWS
    ensures forall px, py | OnScreen(px, py) ::
              fb[py, px] == Drawn(GlyphOf(font, c), x, y, scale, fg, bg, ROWS * COLUMNS, px, py, old(fb[py, px]))
  {
    var ch := c;
    if ch < FONT_START || ch >= 127 {
      ch := 0x3f;
    }
    var g := font[(ch - FONT_START) as int];
    assert g == GlyphOf(font, c) && g in font;
    var row := 0;
    while row < 7
      invariant 0 <= row <= 7
      invariant forall px, py | OnScreen(px, py) ::
                  fb[py, px] == Drawn(g, x, y, scale, fg, bg, row * COLUMNS, px, py, old(fb[py, px]))
    {
      var col := 0;
      while col < 5
        invariant 0 <= col <= 5
        invariant forall px, py | OnScreen(px, py) ::
                    fb[py, px] == Drawn(g, x, y, scale, fg, bg, row * COLUMNS + col, px, py, old(fb[py, px]))
      {
        var color := if Bit(g[row], col) then fg else bg;
        FillSquare(fb, x + col * scale, y + row * scale, scale, color);
        forall px, py | OnScreen(px, py)
          ensures fb[py, px] == Drawn(g, x, y, scale, fg, bg, row * COLUMNS + col + 1, px, py, old(fb[py, px]))
        {
          NextSquare(g, x, y, scale, fg, bg, row, col, px, py, old(fb[py, px]));
        }
        col := col + 1;
      }
      row := row + 1;
    }
  }

  /** A character drawn from packed art shows the art: ink at '#', paper elsewhere in the cell, nothing outside. */
  lemma DrawnShowsArt(art: Art, g: Glyph, x: int, y: int, scale: int, fg: Color, bg: Color, px: int, py: int,
                      before: Color)
    requires Packs(art, g)
    ensures var color := Drawn(g, x, y, scale, fg, bg, ROWS * COLUMNS, px, py, before);
            && (!InCell(x, y, scale, px, py) ==> color == before)
            && forall row: nat, column: nat | row < ROWS && column < COLUMNS && scale >= 1
                   && InSquare(px - x, scale, column) && InSquare(py - y, scale, row) ::
                 color == if art[row][column] == INK then fg else bg
  {
    hide Bit;
    forall row: nat, column: nat | row < ROWS && column < COLUMNS && scale >= 1
        && InSquare(px - x, scale, column) && InSquare(py - y, scale, row)
      ensures Drawn(g, x, y, scale, fg, bg, ROWS * COLUMNS, px, py, before) == if art[row][column] == INK then fg else bg
    {
      Monotone(0, row, scale);
      Monotone(row + 1, ROWS, scale);
      Monotone(0, column, scale);
      Monotone(column + 1, COLUMNS, scale);
      SquareOf(px - x, scale, COLUMNS);
      SquareOf(py - y, scale, ROWS);
      SquareIsUnique(px - x, scale, column, (px - x) / scale);
      SquareIsUnique(py - y, scale, row, (py - y) / scale);
      assert RowPacks(art[row], g[row]);
    }
  }
}
