/** Shifts of a 16-bit word by each of the sixteen amounts Rust accepts,
    spelled out case by case. `Shr(x, p)` is `x >> p` and `Shl(x, p)` is
    `x << p` (ShrIs, ShlIs); facts about a shift by an unknown amount are
    proved on these case-wise definitions. */
module Shifts {

  function Shr(x: bv16, pos: bv4): bv16 {
    match pos
    case 0 => x        case 1 => x >> 1   case 2 => x >> 2   case 3 => x >> 3
    case 4 => x >> 4   case 5 => x >> 5   case 6 => x >> 6   case 7 => x >> 7
    case 8 => x >> 8   case 9 => x >> 9   case 10 => x >> 10 case 11 => x >> 11
    case 12 => x >> 12 case 13 => x >> 13 case 14 => x >> 14 case 15 => x >> 15
  }

  function Shl(x: bv16, pos: bv4): bv16 {
    match pos
    case 0 => x        case 1 => x << 1   case 2 => x << 2   case 3 => x << 3
    case 4 => x << 4   case 5 => x << 5   case 6 => x << 6   case 7 => x << 7
    case 8 => x << 8   case 9 => x << 9   case 10 => x << 10 case 11 => x << 11
    case 12 => x << 12 case 13 => x << 13 case 14 => x << 14 case 15 => x << 15
  }

  lemma ShrIs(x: bv16, pos: bv4)
    ensures Shr(x, pos) == x >> pos
  {
  }

  lemma ShlIs(x: bv16, pos: bv4)
    ensures Shl(x, pos) == x << pos
  {
  }

  /** Shifting right, masking and shifting back keeps exactly the bits under
      the shifted mask. */
  lemma ShrAndShl(a: bv16, b: bv16, pos: bv4)
    ensures Shl(Shr(a, pos) & b, pos) == a & Shl(b, pos)
  {
  }

  lemma ShrOr(a: bv16, b: bv16, pos: bv4, mask: bv16)
    ensures Shr(a | b, pos) & mask == (Shr(a, pos) & mask) | (Shr(b, pos) & mask)
  {
  }

  lemma ShlWithinMask(value: bv16, mask: bv16, pos: bv4)
    ensures Shl(value & mask, pos) & !Shl(mask, pos) == 0
  {
  }

  lemma ShlShrWithinMask(v: bv16, mask: bv16, pos: bv4)
    requires v & mask == v
    requires Shr(Shl(mask, pos), pos) == mask
    ensures Shr(Shl(v, pos), pos) & mask == v
  {
  }

  lemma ShrWindow(word: bv16, pos: bv4, mask: bv16)
    requires mask <= 0xFF
    ensures Shr(word, pos) & mask == Shr(word & Shl(0xFF, pos), pos) & mask
  {
  }
}

/** Bit fields within a `u16` word, read and written through a `u8` mask, the
    instantiation the field tests use. A `u8` value is held in the low byte of
    a `bv16`; the shift amount is a `bv4` because Rust panics on a shift of 16
    or more. */
module Field {
  import opened Shifts

  /** A `u8` value, widened into the word's carrier. */
  type U8Value = x: bv16 | x <= 0xFF

  /** `self.field(pos, mask)`: `(self >> pos) as u8 & mask`. The `as u8`
      keeps the low byte. */
  function Field(word: bv16, pos: bv4, mask: U8Value): (r: U8Value)
    ensures r & mask == r
    ensures r <= mask
    ensures mask == 0 ==> r == 0
  {
    var shifted := Shr(word, pos);
    WithinMask(shifted, mask);
    (shifted & 0xFF) & mask
  }

  lemma WithinMask(x: bv16, mask: U8Value)
    ensures ((x & 0xFF) & mask) & mask == (x & 0xFF) & mask
    ensures (x & 0xFF) & mask <= mask
  {
  }

  /** `self.set_field(pos, mask, value)`: `(value & mask) as u16 << pos | self`.
      The field is OR-ed in, so no bit of `word` is cleared. */
  function SetField(word: bv16, pos: bv4, mask: U8Value, value: U8Value): (r: bv16)
    ensures r & word == word
  {
    Shl(value & mask, pos) | word
  }

  /** The truncation to `u8` is subsumed by the mask. */
  lemma FieldIsMaskedShift(word: bv16, pos: bv4, mask: U8Value)
    ensures Field(word, pos, mask) == Shr(word, pos) & mask
  {
    LowByteUnderMask(Shr(word, pos), mask);
  }

  lemma LowByteUnderMask(x: bv16, mask: U8Value)
    ensures (x & 0xFF) & mask == x & mask
  {
  }

  /** The field, moved back to its position, is exactly the part of the word
      under the shifted mask. */
  lemma FieldInPlace(word: bv16, pos: bv4, mask: U8Value)
    ensures Shl(Field(word, pos, mask), pos) == word & Shl(mask, pos)
  {
    FieldIsMaskedShift(word, pos, mask);
    ShrAndShl(word, mask, pos);
  }

  /** Bits of the word outside the eight-bit window at `pos` never reach the
      field: the source is truncated to a `u8` before the mask applies. */
  lemma FieldIgnoresBitsOutsideWindow(word: bv16, pos: bv4, mask: U8Value)
    ensures Field(word, pos, mask) == Field(word & Shl(0xFF, pos), pos, mask)
  {
    FieldIsMaskedShift(word, pos, mask);
    FieldIsMaskedShift(word & Shl(0xFF, pos), pos, mask);
    ShrWindow(word, pos, mask);
  }

  /** Bits of `value` outside `mask` never reach the result. */
  lemma SetFieldIgnoresBitsOutsideMask(word: bv16, pos: bv4, mask: U8Value, value: U8Value)
    ensures SetField(word, pos, mask, value) == SetField(word, pos, mask, value & mask)
  {
    AndIdempotent(value, mask);
  }

  lemma AndIdempotent(value: bv16, mask: bv16)
    ensures (value & mask) & mask == value & mask
  {
  }

  /** Outside the shifted mask the result is the original word. */
  lemma SetFieldKeepsOtherBits(word: bv16, pos: bv4, mask: U8Value, value: U8Value)
    ensures SetField(word, pos, mask, value) & !Shl(mask, pos) == word & !Shl(mask, pos)
  {
    ShlWithinMask(value, mask, pos);
    OrOutside(Shl(value & mask, pos), word, Shl(mask, pos));
  }

  lemma OrOutside(x: bv16, w: bv16, y: bv16)
    requires x & !y == 0
    ensures (x | w) & !y == w & !y
  {
  }

  /** Writing a field that is clear in `word` and that fits in the word, then
      reading it back, gives the written value under the mask. */
  lemma FieldOfSetField(word: bv16, pos: bv4, mask: U8Value, value: U8Value)
    requires Field(word, pos, mask) == 0
    requires Shr(Shl(mask, pos), pos) == mask
    ensures Field(SetField(word, pos, mask, value), pos, mask) == value & mask
  {
    var v := value & mask;
    FieldIsMaskedShift(SetField(word, pos, mask, value), pos, mask);
    FieldIsMaskedShift(word, pos, mask);
    ShrOr(Shl(v, pos), word, pos, mask);
    ShlShrWithinMask(v, mask, pos);
  }

  /** Because the field is OR-ed in, a field already set in `word` cannot be
      cleared: writing 0 into a full three-bit field at 7 leaves it full. */
  lemma SetFieldCannotClearField()
    ensures Field(SetField(0xFFFF, 7, 7, 0), 7, 7) == 7
  {
  }

  /** `0b111111_101_1111111u16.field(7, 0b111u8) == 0b101` */
  lemma FieldExample()
    ensures Field(0xFEFF, 7, 7) == 5
  {
  }

  /** `0u16.set_field(7, 0b111u8, 0b101u8) == 0b101 << 7` */
  lemma SetFieldExample()
    ensures SetField(0, 7, 7, 5) == 0x0280
  {
  }
}

/** The extract-only `Field` trait of the utility module: the same
    shift-cast-mask expression. */
module UtilField {
  import F = Field
  import opened Shifts

  function Field(word: bv16, pos: bv4, mask: F.U8Value): (r: F.U8Value)
    ensures r & mask == r
    ensures mask == 0 ==> r == 0
  {
    F.Field(word, pos, mask)
  }

  /** The field, moved back to its position, is the part of the word under
      the shifted mask. */
  lemma FieldInPlace(word: bv16, pos: bv4, mask: F.U8Value)
    ensures Shl(Field(word, pos, mask), pos) == word & Shl(mask, pos)
  {
    F.FieldInPlace(word, pos, mask);
  }

  /** Reading through a `u8` mask at position 0 keeps only the low byte, and a
      byte-wide read at 8 is the high byte. */
  lemma ByteFields(word: bv16)
    ensures Field(word, 0, 0xFF) == word & 0xFF
    ensures Field(word, 8, 0xFF) == word >> 8
  {
  }
}
