// Anti-aliased glyphs: blending coverage into 16-bit colors and drawing it, clipped.
module GlyphBlend {
  import opened Screen

  /** Five bits of red, six of green, five of blue. */
  type Color = c: nat | c < 65536

  function Red(c: Color): nat {
    c / 2048
  }

  function Green(c: Color): nat {
    c / 32 % 64
  }

  function Blue(c: Color): nat {
    c % 32
  }

  function Pack(r: nat, g: nat, b: nat): Color
    requires r < 32 && g < 64 && b < 32
  {
    r * 2048 + g * 32 + b
  }

  lemma PackedChannels(r: nat, g: nat, b: nat)
    requires r < 32 && g < 64 && b < 32
    ensures Red(Pack(r, g, b)) == r && Green(Pack(r, g, b)) == g && Blue(Pack(r, g, b)) == b
  {
    var c := Pack(r, g, b);
    assert c / 32 == r * 64 + g;
    assert c / 2048 == r;
  }

  lemma PackOfChannels(c: Color)
    ensures Red(c) < 32 && Green(c) < 64 && Blue(c) < 32 && Pack(Red(c), Green(c), Blue(c)) == c
  {}

  lemma NotNegative(k: nat, n: nat)
    ensures k * n >= 0
  {}

  /** A channel on the way from back to fore. */
  function Mix(back: nat, fore: nat, a: nat): nat
    requires a <= 255
  {
    NotNegative(back, 255 - a);
    NotNegative(fore, a);
    (back * (255 - a) + fore * a) / 255
  }

  lemma MixStaysBetween(back: nat, fore: nat, a: nat)
    requires a <= 255
    ensures back <= fore ==> back <= Mix(back, fore, a) <= fore
    ensures fore <= back ==> fore <= Mix(back, fore, a) <= back
    ensures a == 0 ==> Mix(back, fore, a) == back
    ensures a == 255 ==> Mix(back, fore, a) == fore
  {
    if back <= fore {
      Interpolate(back, fore, a);
    } else {
      Interpolate(fore, back, 255 - a);
    }
  }

  lemma Interpolate(low: nat, high: nat, a: nat)
    requires low <= high && a <= 255
    ensures low <= (low * (255 - a) + high * a) / 255 <= high
    ensures a == 0 ==> (low * (255 - a) + high * a) / 255 == low
    ensures a == 255 ==> (low * (255 - a) + high * a) / 255 == high
  {
    NotNegative(high - low, a);
    NotNegative(high - low, 255 - a);
    assert low * (255 - a) + high * a == 255 * low + (high - low) * a;
    assert low * (255 - a) + high * a == 255 * high - (high - low) * (255 - a);
  }

  /** Coverage a of fore over back, channel by channel: all of it gives fore, none gives back. */
  function Blend(back: Color, fore: Color, a: nat): (c: Color)
    requires a <= 255
    ensures a == 255 ==> c == fore
    ensures a == 0 ==> c == back
    ensures back == fore ==> c == back
  {
    PackOfChannels(back);
    PackOfChannels(fore);
    MixStaysBetween(Red(back), Red(fore), a);
    MixStaysBetween(Green(back), Green(fore), a);
    MixStaysBetween(Blue(back), Blue(fore), a);
    Pack(Mix(Red(back), Red(fore), a), Mix(Green(back), Green(fore), a), Mix(Blue(back), Blue(fore), a))
  }

  /** The point that far on the way from back to fore. */
  function Between(back: nat, fore: nat, a: nat): real {
    back as real + (fore as real - back as real) * a as real / 255.0
  }

  /** A mixed channel is the point on the way, rounded down. */
  lemma MixIsExact(back: nat, fore: nat, a: nat)
    requires a <= 255
    ensures Mix(back, fore, a) as real <= Between(back, fore, a) < Mix(back, fore, a) as real + 1.0
  {
    var sum := back * (255 - a) + fore * a;
    NotNegative(back, 255 - a);
    NotNegative(fore, a);
    assert 255 * (sum / 255) <= sum < 255 * (sum / 255) + 255;
    assert Between(back, fore, a) * 255.0 == sum as real;
  }

  /** Five bits of red at the top, six of green, five of blue at the bottom. */
  lemma ChannelPlaces()
    ensures Red(0xf800) == 31 && Green(0xf800) == 0 && Blue(0xf800) == 0
    ensures Red(0x07e0) == 0 && Green(0x07e0) == 63 && Blue(0x07e0) == 0
    ensures Red(0x001f) == 0 && Green(0x001f) == 0 && Blue(0x001f) == 31
  {}

  /** Each channel of a blend is that channel's point on the way. */
  lemma BlendIsExact(back: Color, fore: Color, a: nat)
    requires a <= 255
    ensures var c := Blend(back, fore, a);
            && Red(c) as real <= Between(Red(back), Red(fore), a) < Red(c) as real + 1.0
            && Green(c) as real <= Between(Green(back), Green(fore), a) < Green(c) as real + 1.0
            && Blue(c) as real <= Between(Blue(back), Blue(fore), a) < Blue(c) as real + 1.0
  {
    hide Mix, Between;
    BlendChannels(back, fore, a);
    MixIsExact(Red(back), Red(fore), a);
    MixIsExact(Green(back), Green(fore), a);
    MixIsExact(Blue(back), Blue(fore), a);
  }

  lemma BlendChannels(back: Color, fore: Color, a: nat)
    requires a <= 255
    ensures var c := Blend(back, fore, a);
            && Red(c) == Mix(Red(back), Red(fore), a) && Green(c) == Mix(Green(back), Green(fore), a)
            && Blue(c) == Mix(Blue(back), Blue(fore), a)
  {
    hide Mix, Red, Green, Blue, Pack;
    PackOfChannels(back);
    PackOfChannels(fore);
    MixStaysBetween(Red(back), Red(fore), a);
    MixStaysBetween(Green(back), Green(fore), a);
    MixStaysBetween(Blue(back), Blue(fore), a);
    PackedChannels(Mix(Red(back), Red(fore), a), Mix(Green(back), Green(fore), a), Mix(Blue(back), Blue(fore), a));
  }

  // ----- Drawing a coverage bitmap -----

  /** Rows of coverage values, each below 256. */
  datatype Bitmap = Bitmap(rows: nat, width: nat, coverage: (nat, nat) -> nat)

  ghost predicate ValidBitmap(m: Bitmap) {
    forall row, col :: m.coverage(row, col) <= 255
  }

  /** The bitmap at this place touches the pixel. */
  predicate Touches(m: Bitmap, left: int, top: int, x: int, y: int) {
    && 0 <= x - left < m.width && 0 <= y - top < m.rows && 0 <= x < FB_W && 0 <= y < FB_H
    && m.coverage(y - top, x - left) != 0
  }

  /** This pixel of the bitmap is covered and lands there. */
  predicate Lands(m: Bitmap, left: int, top: int, row: int, col: int, x: int, y: int) {
    0 <= row < m.rows && 0 <= col < m.width && m.coverage(row, col) != 0 && x == left + col && y == top + row
  }

  /** The touched pixels are the bitmap's covered ones, moved to its place, as far as they are on the screen. */
  lemma TouchedAreCovered(m: Bitmap, left: int, top: int, x: int, y: int)
    ensures Touches(m, left, top, x, y) <==>
              0 <= x < FB_W && 0 <= y < FB_H && exists row, col :: Lands(m, left, top, row, col, x, y)
  {
    if Touches(m, left, top, x, y) {
      assert Lands(m, left, top, y - top, x - left, x, y);
    }
  }

  /** The same, for the pixels before a row and column in reading order. */
  predicate TouchesBefore(m: Bitmap, left: int, top: int, row: int, col: int, x: int, y: int) {
    Touches(m, left, top, x, y) && (y - top < row || (y - top == row && x - left < col))
  }

  /** Blends exactly the touched pixels over the background color. */
  method DrawGlyph(fb: array2<Color>, m: Bitmap, left: int, top: int, fg: Color, bg: Color)
    requires ValidBitmap(m) && fb.Length0 == FB_H && fb.Length1 == FB_W
    modifies fb
    ensures forall x, y | 0 <= x < FB_W && 0 <= y < FB_H ::
              fb[y, x] == if Touches(m, left, top, x, y) then Blend(bg, fg, m.coverage(y - top, x - left)) else old(fb[y, x])
  {
    hide Blend;
    var row := 0;
    while row < m.rows
      invariant 0 <= row <= m.rows
      invariant forall x, y | 0 <= x < FB_W && 0 <= y < FB_H ::
                  fb[y, x] == if TouchesBefore(m, left, top, row, 0, x, y)
                              then Blend(bg, fg, m.coverage(y - top, x - left)) else old(fb[y, x])
    {
      var y := top + row;
      if y < 0 || y >= FB_H {
        row := row + 1;
        continue;
      }
      var col := 0;
      while col < m.width
        invariant 0 <= col <= m.width
        invariant forall x, y | 0 <= x < FB_W && 0 <= y < FB_H ::
                    fb[y, x] == if TouchesBefore(m, left, top, row, col, x, y)
                                then Blend(bg, fg, m.coverage(y - top, x - left)) else old(fb[y, x])
      {
        var x := left + col;
        var a := m.coverage(row, col);
        if 0 <= x < FB_W && a != 0 {
          fb[y, x] := Blend(bg, fg, a);
        }
        col := col + 1;
      }
      row := row + 1;
    }
  }
}
