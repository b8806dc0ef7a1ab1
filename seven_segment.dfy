/**
 * The digit display of the application: the command byte selects a segment mask
 * (`show_digit`), and each segment pin is driven from its bit of the mask.
 *
 * Segment positions, as wired:   --E--
 *                               C     G
 *                                --D--
 *                               B     F
 *                                --A--
 */
module SevenSegment {
  import opened Common
  import opened Bits

  // IIC_command_enum
  const NINE: Byte := 9
  const IIC_COMMAND_OFF: Byte := 0xFF

  const SEGMENT_A_MASK: nat := 0x01
  const SEGMENT_B_MASK: nat := 0x02
  const SEGMENT_C_MASK: nat := 0x04
  const SEGMENT_D_MASK: nat := 0x08
  const SEGMENT_E_MASK: nat := 0x10
  const SEGMENT_F_MASK: nat := 0x20
  const SEGMENT_G_MASK: nat := 0x40

  /**
   * The `led_mask` chosen for a command. The segment masks are distinct single bits, so
   * the sum of a set of them is their bitwise or.
   */
  function SegmentMask(value: Byte): (mask: nat)
    ensures mask < 0x80
    ensures mask != 0 <==> value <= NINE
  {
    match value
    case 0 => SEGMENT_A_MASK + SEGMENT_B_MASK + SEGMENT_C_MASK + SEGMENT_E_MASK + SEGMENT_F_MASK + SEGMENT_G_MASK
    case 1 => SEGMENT_F_MASK + SEGMENT_G_MASK
    case 2 => SEGMENT_A_MASK + SEGMENT_B_MASK + SEGMENT_D_MASK + SEGMENT_E_MASK + SEGMENT_G_MASK
    case 3 => SEGMENT_A_MASK + SEGMENT_D_MASK + SEGMENT_E_MASK + SEGMENT_F_MASK + SEGMENT_G_MASK
    case 4 => SEGMENT_C_MASK + SEGMENT_D_MASK + SEGMENT_F_MASK + SEGMENT_G_MASK
    case 5 => SEGMENT_A_MASK + SEGMENT_C_MASK + SEGMENT_D_MASK + SEGMENT_E_MASK + SEGMENT_F_MASK
    case 6 => SEGMENT_A_MASK + SEGMENT_B_MASK + SEGMENT_C_MASK + SEGMENT_D_MASK + SEGMENT_E_MASK + SEGMENT_F_MASK
    case 7 => SEGMENT_E_MASK + SEGMENT_F_MASK + SEGMENT_G_MASK
    case 8 => SEGMENT_A_MASK + SEGMENT_B_MASK + SEGMENT_C_MASK + SEGMENT_D_MASK + SEGMENT_E_MASK + SEGMENT_F_MASK + SEGMENT_G_MASK
    case 9 => SEGMENT_C_MASK + SEGMENT_D_MASK + SEGMENT_E_MASK + SEGMENT_F_MASK + SEGMENT_G_MASK
    case _ => 0
  }

  /**
   * The levels driven on the pins of segments A..G, in that order:
   * `led_mask & SEGMENT_X_MASK`, high exactly when the segment's bit is set.
   */
  function SegmentLevels(mask: nat): (levels: seq<bool>)
    ensures |levels| == 7
    ensures forall i :: 0 <= i < 7 ==> levels[i] == Bit(mask, i)
  {
    assert Pow2(0) == SEGMENT_A_MASK && Pow2(1) == SEGMENT_B_MASK && Pow2(2) == SEGMENT_C_MASK;
    assert Pow2(3) == SEGMENT_D_MASK && Pow2(4) == SEGMENT_E_MASK && Pow2(5) == SEGMENT_F_MASK;
    assert Pow2(6) == SEGMENT_G_MASK;
    BitAndSingleBit(mask, 0); BitAndSingleBit(mask, 1); BitAndSingleBit(mask, 2);
    BitAndSingleBit(mask, 3); BitAndSingleBit(mask, 4); BitAndSingleBit(mask, 5);
    BitAndSingleBit(mask, 6);
    [BitAnd(mask, SEGMENT_A_MASK) != 0, BitAnd(mask, SEGMENT_B_MASK) != 0,
     BitAnd(mask, SEGMENT_C_MASK) != 0, BitAnd(mask, SEGMENT_D_MASK) != 0,
     BitAnd(mask, SEGMENT_E_MASK) != 0, BitAnd(mask, SEGMENT_F_MASK) != 0,
     BitAnd(mask, SEGMENT_G_MASK) != 0]
  }

  /**
   * `show_digit`: the segment pin levels for a command byte. A digit drives the levels of
   * the digit table; any other byte drives every segment low.
   */
  function ShowDigit(value: Byte): (levels: seq<bool>)
    ensures |levels| == 7
    ensures value <= NINE ==> levels == DigitTable(value)
    ensures value > NINE ==> levels == [false, false, false, false, false, false, false]
  {
    if value <= NINE then
      DigitLevels(value);
      SegmentLevels(SegmentMask(value))
    else
      BlankLevels();
      SegmentLevels(SegmentMask(value))
  }

  /** The all-clear mask drives every segment low. */
  lemma BlankLevels()
    ensures SegmentLevels(0) == [false, false, false, false, false, false, false]
  {
    ZeroHasNoBits(0); ZeroHasNoBits(1); ZeroHasNoBits(2); ZeroHasNoBits(3);
    ZeroHasNoBits(4); ZeroHasNoBits(5); ZeroHasNoBits(6);
  }

  /** Physical places on the display. */
  datatype Place = Top | UpperLeft | UpperRight | Middle | LowerLeft | LowerRight | Bottom

  /** The place of the segment driven by level index i (A = 0 .. G = 6), per the wiring picture. */
  function PlaceOf(i: nat): Place
    requires i < 7
  {
    [Bottom, LowerLeft, UpperLeft, Middle, Top, LowerRight, UpperRight][i]
  }

  /**
   * The glyph of each decimal digit in this display's font: a 6 with its top bar, a 7 of
   * three segments and a 9 without its bottom bar.
   */
  function Glyph(d: nat): set<Place>
    requires d <= 9
  {
    match d
    case 0 => {Top, UpperLeft, UpperRight, LowerLeft, LowerRight, Bottom}
    case 1 => {UpperRight, LowerRight}
    case 2 => {Top, UpperRight, Middle, LowerLeft, Bottom}
    case 3 => {Top, UpperRight, Middle, LowerRight, Bottom}
    case 4 => {UpperLeft, UpperRight, Middle, LowerRight}
    case 5 => {Top, UpperLeft, Middle, LowerRight, Bottom}
    case 6 => {Top, UpperLeft, Middle, LowerLeft, LowerRight, Bottom}
    case 7 => {Top, UpperRight, LowerRight}
    case 8 => {Top, UpperLeft, UpperRight, Middle, LowerLeft, LowerRight, Bottom}
    case _ => {Top, UpperLeft, UpperRight, Middle, LowerRight}
  }

  /** The pin levels of the digits 0..9, segments A..G. */
  function DigitTable(d: Byte): seq<bool>
    requires d <= NINE
  {
    match d
    case 0 => [true, true, true, false, true, true, true]
    case 1 => [false, false, false, false, false, true, true]
    case 2 => [true, true, false, true, true, false, true]
    case 3 => [true, false, false, true, true, true, true]
    case 4 => [false, false, true, true, false, true, true]
    case 5 => [true, false, true, true, true, true, false]
    case 6 => [true, true, true, true, true, true, false]
    case 7 => [false, false, false, false, true, true, true]
    case 8 => [true, true, true, true, true, true, true]
    case _ => [false, false, true, true, true, true, true]
  }

  lemma {:induction false} DigitLevels(d: Byte)
    requires d <= NINE
    ensures SegmentLevels(SegmentMask(d)) == DigitTable(d)
  {
    match d
    case 0 =>
      assert SegmentMask(0) == 0x77;
      assert Bit(0x77, 0) && Bit(0x77, 1) && Bit(0x77, 2) && !Bit(0x77, 3) && Bit(0x77, 4) && Bit(0x77, 5) && Bit(0x77, 6);
    case 1 =>
      assert SegmentMask(1) == 0x60;
      assert !Bit(0x60, 0) && !Bit(0x60, 1) && !Bit(0x60, 2) && !Bit(0x60, 3) && !Bit(0x60, 4) && Bit(0x60, 5) && Bit(0x60, 6);
    case 2 =>
      assert SegmentMask(2) == 0x5B;
      assert Bit(0x5B, 0) && Bit(0x5B, 1) && !Bit(0x5B, 2) && Bit(0x5B, 3) && Bit(0x5B, 4) && !Bit(0x5B, 5) && Bit(0x5B, 6);
    case 3 =>
      assert SegmentMask(3) == 0x79;
      assert Bit(0x79, 0) && !Bit(0x79, 1) && !Bit(0x79, 2) && Bit(0x79, 3) && Bit(0x79, 4) && Bit(0x79, 5) && Bit(0x79, 6);
    case 4 =>
      assert SegmentMask(4) == 0x6C;
      assert !Bit(0x6C, 0) && !Bit(0x6C, 1) && Bit(0x6C, 2) && Bit(0x6C, 3) && !Bit(0x6C, 4) && Bit(0x6C, 5) && Bit(0x6C, 6);
    case 5 =>
      assert SegmentMask(5) == 0x3D;
      assert Bit(0x3D, 0) && !Bit(0x3D, 1) && Bit(0x3D, 2) && Bit(0x3D, 3) && Bit(0x3D, 4) && Bit(0x3D, 5) && !Bit(0x3D, 6);
    case 6 =>
      assert SegmentMask(6) == 0x3F;
      assert Bit(0x3F, 0) && Bit(0x3F, 1) && Bit(0x3F, 2) && Bit(0x3F, 3) && Bit(0x3F, 4) && Bit(0x3F, 5) && !Bit(0x3F, 6);
    case 7 =>
      assert SegmentMask(7) == 0x70;
      assert !Bit(0x70, 0) && !Bit(0x70, 1) && !Bit(0x70, 2) && !Bit(0x70, 3) && Bit(0x70, 4) && Bit(0x70, 5) && Bit(0x70, 6);
    case 8 =>
      assert SegmentMask(8) == 0x7F;
      assert Bit(0x7F, 0) && Bit(0x7F, 1) && Bit(0x7F, 2) && Bit(0x7F, 3) && Bit(0x7F, 4) && Bit(0x7F, 5) && Bit(0x7F, 6);
    case _ =>
      assert SegmentMask(9) == 0x7C;
      assert !Bit(0x7C, 0) && !Bit(0x7C, 1) && Bit(0x7C, 2) && Bit(0x7C, 3) && Bit(0x7C, 4) && Bit(0x7C, 5) && Bit(0x7C, 6);
  }

  lemma GlyphAt(d: Byte, i: nat)
    requires d <= NINE && i < 7
    ensures DigitTable(d)[i] <==> PlaceOf(i) in Glyph(d)
  {
  }

  /** Every digit command lights exactly the segments of that digit's glyph. */
  lemma ShowDigitDrawsGlyph(d: Byte)
    requires d <= NINE
    ensures forall i :: 0 <= i < 7 ==> (ShowDigit(d)[i] <==> PlaceOf(i) in Glyph(d))
  {
    forall i | 0 <= i < 7
      ensures DigitTable(d)[i] <==> PlaceOf(i) in Glyph(d)
    {
      GlyphAt(d, i);
    }
  }

  /** Every other byte, the off command 0xFF included, turns every segment off. */
  lemma ShowDigitBlanksOthers(value: Byte)
    requires value > NINE
    ensures forall i :: 0 <= i < 7 ==> !ShowDigit(value)[i]
    ensures ShowDigit(IIC_COMMAND_OFF) == [false, false, false, false, false, false, false]
  {
  }

  /** EIGHT lights all seven segments (mask 0x7F); ONE lights F and G (mask 0x60). */
  lemma EightAndOne()
    ensures SegmentMask(8) == 0x7F && ShowDigit(8) == [true, true, true, true, true, true, true]
    ensures SegmentMask(1) == 0x60 && ShowDigit(1) == [false, false, false, false, false, true, true]
  {
  }
}
