/** The `Word` trait: the unsigned integer types an instruction stream is made
    of, with their width, their constants and their widening into `u64` and
    `usize`. `usize` is taken to be 64 bits wide. */
module Words {
  import IntCast

  datatype Width = U8 | U16 | U32 | U64

  function IntType(w: Width): IntCast.IntType {
    match w
    case U8 => IntCast.U8
    case U16 => IntCast.U16
    case U32 => IntCast.U32
    case U64 => IntCast.U64
  }

  /** `Word::BITS` */
  function Bits(w: Width): (n: nat)
    ensures n == IntCast.Bits(IntType(w))
  {
    match w
    case U8 => 8
    case U16 => 16
    case U32 => 32
    case U64 => 64
  }

  /** `Word::MAX`, written out as the source writes it. */
  function Max(w: Width): (m: nat)
    ensures m == IntCast.MaxValue(IntType(w))
    ensures m + 1 == IntCast.Modulus(IntType(w))
    ensures m + 1 == IntCast.Pow2(Bits(w))
  {
    match w
    case U8 => 0xFF
    case U16 => 0xFFFF
    case U32 => 0xFFFF_FFFF
    case U64 => 0xFFFF_FFFF_FFFF_FFFF
  }

  /** `Word::ZERO` */
  function Zero(w: Width): (z: nat)
    ensures z == 0
    ensures z <= Max(w) && z + 1 == One(w)
  {
    0
  }

  /** `Word::ONE` */
  function One(w: Width): (o: nat)
    ensures o == 1
    ensures 0 < o <= Max(w)
  {
    1
  }

  predicate IsWord(x: int, w: Width) {
    0 <= x <= Max(w)
  }

  /** `Word::to_u64`: `self as u64`, or `self` for `u64` itself. Every word
      type is at most 64 bits wide, so the conversion keeps the value. */
  function ToU64(x: int, w: Width): (r: int)
    requires IsWord(x, w)
    ensures r == x
    ensures IntCast.InRange(r, IntCast.U64)
  {
    if w == U64 then
      x
    else
      IntCast.WideningPreservesValue(x, IntType(w), IntCast.U64);
      IntCast.Cast(x, IntType(w), IntCast.U64)
  }

  /** `Word::to_usize`: `self as usize` on a 64-bit target. */
  function ToUsize(x: int, w: Width): (r: int)
    requires IsWord(x, w)
    ensures r == x
  {
    IntCast.WideningPreservesValue(x, IntType(w), IntCast.U64);
    IntCast.Cast(x, IntType(w), IntCast.U64)
  }
}
