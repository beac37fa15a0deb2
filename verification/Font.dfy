// Glyph art of 7 rows of 5 characters, packed into one byte a row.
module Font {
  import opened Bytes

  const ROWS: nat := 7
  const COLUMNS: nat := 5
  const INK: Byte := 0x23
  const BLANK: Byte := 0x2e

  /** The bit of each column; the leftmost is bit 4. */
  const MASKS: seq<Byte> := [0x10, 0x08, 0x04, 0x02, 0x01]

  type Art = seq<Text>
  type Glyph = seq<Byte>

  datatype Parsed = Packed(rows: Glyph) | WrongRowCount | WrongRowLength | BadCharacter

  predicate Bit(row: Byte, column: nat)
    requires column < COLUMNS
  {
    row & MASKS[column] != 0
  }

  predicate GoodRow(row: Text) {
    |row| == COLUMNS && forall c | 0 <= c < COLUMNS :: row[c] == INK || row[c] == BLANK
  }

  predicate GoodArt(art: Art) {
    |art| == ROWS && forall r | 0 <= r < ROWS :: GoodRow(art[r])
  }

  /** The five low bits of a byte are the inked columns of a row. */
  predicate RowPacks(row: Text, bits: Byte)
    requires |row| == COLUMNS
  {
    bits <= 0x1f && forall c | 0 <= c < COLUMNS :: Bit(bits, c) <==> row[c] == INK
  }

  predicate Packs(art: Art, glyph: Glyph) {
    |art| == |glyph| == ROWS && forall r | 0 <= r < ROWS :: |art[r]| == COLUMNS && RowPacks(art[r], glyph[r])
  }

  // ----- Bits -----

  lemma SetBit(bits: Byte, i: nat, c: nat)
    requires i < COLUMNS && c < COLUMNS && bits <= 0x1f
    ensures bits | MASKS[i] <= 0x1f
    ensures Bit(bits | MASKS[i], c) <==> c == i || Bit(bits, c)
  {
    if i == 0 {
    } else if i == 1 {
    } else if i == 2 {
    } else if i == 3 {
    } else {
      assert i == 4;
    }
  }

  /** The five low bits of a byte determine it. */
  lemma BitsDetermine(a: Byte, b: Byte)
    requires a <= 0x1f && b <= 0x1f && forall c | 0 <= c < COLUMNS :: Bit(a, c) <==> Bit(b, c)
    ensures a == b
  {
    assert Bit(a, 0) <==> Bit(b, 0);
    assert Bit(a, 1) <==> Bit(b, 1);
    assert Bit(a, 2) <==> Bit(b, 2);
    assert Bit(a, 3) <==> Bit(b, 3);
    assert Bit(a, 4) <==> Bit(b, 4);
  }

  /** Packing loses nothing: art and packed rows determine each other. */
  lemma PackingIsFaithful(art: Art, glyph: Glyph, art': Art, glyph': Glyph)
    requires GoodArt(art) && GoodArt(art') && Packs(art, glyph) && Packs(art', glyph')
    ensures glyph == glyph' <==> art == art'
  {
    if art == art' {
      forall r | 0 <= r < ROWS ensures glyph[r] == glyph'[r] {
        BitsDetermine(glyph[r], glyph'[r]);
      }
    }
    if glyph == glyph' {
      forall r | 0 <= r < ROWS ensures art[r] == art'[r] {
        assert RowPacks(art[r], glyph[r]) && RowPacks(art'[r], glyph'[r]) && GoodRow(art[r]) && GoodRow(art'[r]);
      }
    }
  }

  function RowOf(bits: Byte): Text {
    seq(COLUMNS, c requires 0 <= c < COLUMNS => if Bit(bits, c) then INK else BLANK)
  }

  function ArtOf(glyph: Glyph): Art {
    seq(|glyph|, r requires 0 <= r < |glyph| => RowOf(glyph[r]))
  }

  /** Every seven rows of five bits are the packing of some accepted art. */
  lemma EveryGlyphIsDrawn(glyph: Glyph)
    requires |glyph| == ROWS && forall r | 0 <= r < ROWS :: glyph[r] <= 0x1f
    ensures GoodArt(ArtOf(glyph)) && Packs(ArtOf(glyph), glyph)
  {
    hide Bit;
    forall r | 0 <= r < ROWS ensures GoodRow(ArtOf(glyph)[r]) && RowPacks(ArtOf(glyph)[r], glyph[r]) {
      assert ArtOf(glyph)[r] == RowOf(glyph[r]);
    }
  }

  /** The leftmost column is the highest of the five bits. */
  lemma ColumnValues(bits: Byte)
    ensures RowPacks([INK, BLANK, BLANK, BLANK, BLANK], 0x10) && RowPacks([BLANK, INK, BLANK, BLANK, BLANK], 0x08)
    ensures RowPacks([BLANK, BLANK, INK, BLANK, BLANK], 0x04) && RowPacks([BLANK, BLANK, BLANK, INK, BLANK], 0x02)
    ensures RowPacks([BLANK, BLANK, BLANK, BLANK, INK], 0x01)
  {}

  // ----- The code -----

  /** The inked columns among the first i. */
  predicate PackedUpTo(row: Text, i: nat, bits: Byte)
    requires |row| == COLUMNS
  {
    bits <= 0x1f && forall c | 0 <= c < COLUMNS :: Bit(bits, c) <==> c < i && row[c] == INK
  }

  lemma NextColumn(row: Text, i: nat, bits: Byte)
    requires |row| == COLUMNS && i < COLUMNS && row[i] == INK && PackedUpTo(row, i, bits)
    ensures PackedUpTo(row, i + 1, bits | MASKS[i])
  {
    forall c | 0 <= c < COLUMNS ensures Bit(bits | MASKS[i], c) <==> c < i + 1 && row[c] == INK {
      SetBit(bits, i, c);
    }
    SetBit(bits, i, i);
  }

  method ParseRow(row: Text) returns (ok: bool, bits: Byte)
    requires |row| == COLUMNS
    ensures ok <==> GoodRow(row)
    ensures ok ==> RowPacks(row, bits)
  {
    bits := 0;
    var i := 0;
    while i < COLUMNS
      invariant 0 <= i <= COLUMNS && bits <= 0x1f
      invariant forall c | 0 <= c < i :: row[c] == INK || row[c] == BLANK
      invariant PackedUpTo(row, i, bits)
    {
      if row[i] == INK {
        NextColumn(row, i, bits);
        bits := bits | MASKS[i];
      } else if row[i] != BLANK {
        return false, bits;
      }
      i := i + 1;
    }
    ok := true;
  }

  /** Packs exactly the well-formed glyphs, each bit as drawn. */
  method Parse(art: Art) returns (result: Parsed)
    ensures result.Packed? <==> GoodArt(art)
    ensures result.Packed? ==> Packs(art, result.rows)
    ensures result.WrongRowCount? <==> |art| != ROWS
  {
    if |art| != 7 {
      return WrongRowCount;
    }
    var rows: Glyph := [];
    var r := 0;
    while r < |art|
      invariant 0 <= r <= |art| && |rows| == r
      invariant forall k | 0 <= k < r :: GoodRow(art[k]) && RowPacks(art[k], rows[k])
    {
      if |art[r]| != 5 {
        return WrongRowLength;
      }
      var ok, bits := ParseRow(art[r]);
      if !ok {
        return BadCharacter;
      }
      rows := rows + [bits];
      r := r + 1;
    }
    return Packed(rows);
  }
}
