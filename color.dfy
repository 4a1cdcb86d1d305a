// The tri-colour pixel type and its two RAM-plane byte values (src/color.rs).
module Colors {
  import opened Command
  import opened Errors

  datatype Color = Black | White | Red

  /**
   * Byte written to the black/white plane when a whole byte is cleared to `c`.
   * A 1 bit in that plane means "not black".
   */
  function BwByte(c: Color): (b: byte)
    ensures b == 0x00 || b == 0xFF
    ensures b == 0x00 <==> c == Black
  {
    match c
    case Black => 0x00
    case White => 0xFF
    case Red => 0xFF
  }

  /** Byte written to the red plane when a whole byte is cleared to `c`. */
  function RedByte(c: Color): (b: byte)
    ensures b == 0x00 || b == 0xFF
    ensures b == 0xFF <==> c == Red
  {
    match c
    case Black => 0x00
    case White => 0x00
    case Red => 0xFF
  }

  /**
   * Inverse of the (BwByte, RedByte) table: which colour, if any, a pair of
   * plane bytes encodes.
   */
  function ColorOf(bw: byte, red: byte): (r: Option<Color>)
    ensures r.Some? ==> BwByte(r.value) == bw && RedByte(r.value) == red
    ensures r.None? ==> forall c: Color :: (BwByte(c), RedByte(c)) != (bw, red)
  {
    if bw == 0x00 && red == 0x00 then Some(Black)
    else if bw == 0xFF && red == 0x00 then Some(White)
    else if bw == 0xFF && red == 0xFF then Some(Red)
    else None
  }

  /** The plane bytes of a colour decode back to that colour. */
  lemma ColorRoundTrip(c: Color)
    ensures ColorOf(BwByte(c), RedByte(c)) == Some(c)
  {
  }

  /** A set red byte implies a set black/white byte: (bw 0x00, red 0xFF) never occurs. */
  lemma RedImpliesBw(c: Color)
    ensures RedByte(c) == 0xFF ==> BwByte(c) == 0xFF
    ensures (BwByte(c), RedByte(c)) != (0x00, 0xFF)
  {
  }

  /** The three colours have three distinct byte pairs. */
  lemma PairsDistinct(c: Color, d: Color)
    ensures (BwByte(c), RedByte(c)) == (BwByte(d), RedByte(d)) ==> c == d
  {
  }
}
