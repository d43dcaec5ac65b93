/** Reinterpreting integer conversions: the `Cast` trait, whose every
    implementation is a Rust `as` expression between primitive integer types.
    A value is modelled by its mathematical integer; `as` keeps the low
    `Bits(dst)` bits of the two's complement representation and reads them in
    the destination's representation. */
module IntCast {

  datatype IntType = U8 | U16 | U32 | U64 | U128 | I8 | I16 | I32 | I64 | I128

  function Bits(t: IntType): nat {
    match t
    case U8 => 8     case I8 => 8
    case U16 => 16   case I16 => 16
    case U32 => 32   case I32 => 32
    case U64 => 64   case I64 => 64
    case U128 => 128 case I128 => 128
  }

  predicate Signed(t: IntType) {
    t.I8? || t.I16? || t.I32? || t.I64? || t.I128?
  }

  /** 2 to the power `n`. */
  function Pow2(n: nat): (p: nat)
    ensures p >= 1
  {
    if n == 0 then 1 else 2 * Pow2(n - 1)
  }

  lemma {:induction false} Pow2Add(a: nat, b: nat)
    ensures Pow2(a + b) == Pow2(a) * Pow2(b)
    decreases a
  {
    if a > 0 {
      Pow2Add(a - 1, b);
    }
  }

  /** The powers of two that are the widths' moduli. */
  lemma Pow2Widths()
    ensures Pow2(8) == 0x100 && Pow2(16) == 0x1_0000 && Pow2(32) == 0x1_0000_0000
    ensures Pow2(64) == 0x1_0000_0000_0000_0000
    ensures Pow2(128) == 0x1_0000_0000_0000_0000_0000_0000_0000_0000
  {
    assert Pow2(2) == 4;
    assert Pow2(4) == 16;
    assert Pow2(6) == 64;
    assert Pow2(8) == 0x100;
    Pow2Add(8, 8);
    Pow2Add(16, 16);
    Pow2Add(32, 32);
    Pow2Add(64, 64);
  }

  /** 2 to the power `Bits(t)`, written out. */
  function Modulus(t: IntType): (m: int)
    ensures m == Pow2(Bits(t))
    ensures m >= 0x100
  {
    Pow2Widths();
    match t
    case U8 | I8 => 0x100
    case U16 | I16 => 0x1_0000
    case U32 | I32 => 0x1_0000_0000
    case U64 | I64 => 0x1_0000_0000_0000_0000
    case U128 | I128 => 0x1_0000_0000_0000_0000_0000_0000_0000_0000
  }

  function MinValue(t: IntType): int {
    if Signed(t) then -(Modulus(t) / 2) else 0
  }

  function MaxValue(t: IntType): int {
    if Signed(t) then Modulus(t) / 2 - 1 else Modulus(t) - 1
  }

  predicate InRange(x: int, t: IntType) {
    MinValue(t) <= x <= MaxValue(t)
  }

  lemma RangeIsModulus(t: IntType)
    ensures MaxValue(t) - MinValue(t) + 1 == Modulus(t)
  {
  }

  /** `x as dst`, for an `x` of type `src`. The result lies in the range of
      `dst` and agrees with `x` in its low `Bits(dst)` bits, that is, modulo
      `Modulus(dst)`; these two facts determine it (see CastUnique). */
  function Cast(x: int, src: IntType, dst: IntType): (r: int)
    requires InRange(x, src)
    ensures InRange(r, dst)
    ensures (r - x) % Modulus(dst) == 0
  {
    var m := Modulus(dst);
    var low := x % m;
    ModFacts(x, m);
    if Signed(dst) && low > MaxValue(dst) then low - m else low
  }

  /** The remainder, and the remainder less the modulus, agree with `x`. */
  lemma ModFacts(x: int, m: int)
    requires m > 0
    ensures (x % m - x) % m == 0
    ensures (x % m - m - x) % m == 0
  {
    MulModZero(-(x / m), m);
    assert x % m - x == -(x / m) * m;
    MulModZero(-(x / m) - 1, m);
    assert x % m - m - x == (-(x / m) - 1) * m;
  }

  lemma ModOfSmall(x: int, m: int)
    requires 0 <= x < m
    ensures x % m == x
  {
    assert x == m * (x / m) + x % m;
  }

  lemma MulModZero(k: int, m: int)
    requires m > 0
    ensures (k * m) % m == 0
  {
    var a := k * m;
    assert a == m * (a / m) + a % m;
    var d := k - a / m;
    assert a % m == d * m;
  }

  /** Two values of `t` that agree modulo `Modulus(t)` are equal. */
  lemma CastUnique(a: int, b: int, t: IntType)
    requires InRange(a, t) && InRange(b, t)
    requires (a - b) % Modulus(t) == 0
    ensures a == b
  {
    var m := Modulus(t);
    var q := (a - b) / m;
    assert -m < a - b < m;
    assert a - b == q * m;
  }

  /** A value that `dst` can represent is unchanged by the conversion. */
  lemma {:induction false} CastRepresentable(x: int, src: IntType, dst: IntType)
    requires InRange(x, src) && InRange(x, dst)
    ensures Cast(x, src, dst) == x
  {
    CastUnique(Cast(x, src, dst), x, dst);
  }

  /** Unsigned to unsigned conversion is reduction modulo 2^Bits(dst),
      which truncates when `dst` is narrower. */
  lemma UnsignedCastIsModulo(x: int, src: IntType, dst: IntType)
    requires InRange(x, src) && !Signed(src) && !Signed(dst)
    ensures Cast(x, src, dst) == x % Modulus(dst)
  {
  }

  /** Widening keeps the value: zero extension from an unsigned source,
      sign extension from a signed source into a signed destination. */
  lemma {:induction false} WideningPreservesValue(x: int, src: IntType, dst: IntType)
    requires InRange(x, src)
    requires Bits(src) < Bits(dst) || (Bits(src) == Bits(dst) && Signed(src) == Signed(dst))
    requires !Signed(src) || Signed(dst)
    ensures Cast(x, src, dst) == x
  {
    assert InRange(x, dst);
    CastRepresentable(x, src, dst);
  }

  /** A same-width conversion from unsigned to signed reads the bits as a two's
      complement number. */
  lemma {:induction false} SameWidthReinterprets(x: int, src: IntType, dst: IntType)
    requires InRange(x, src) && !Signed(src) && Signed(dst) && Bits(src) == Bits(dst)
    ensures Cast(x, src, dst) == if x >= Modulus(dst) / 2 then x - Modulus(dst) else x
  {
    assert Modulus(src) == Modulus(dst);
    ModOfSmall(x, Modulus(dst));
  }

  lemma AllOnesU16IsMinusOne()
    ensures Cast(0xFFFF, U16, I16) == -1
  {
    SameWidthReinterprets(0xFFFF, U16, I16);
  }

  lemma {:induction false} ModulusDivides(small: IntType, big: IntType)
    requires Bits(small) <= Bits(big)
    ensures Modulus(big) % Modulus(small) == 0
  {
    var d := Bits(big) - Bits(small);
    Pow2Add(d, Bits(small));
    MulModZero(Pow2(d), Modulus(small));
  }

  lemma MultipleOfMultiple(a: int, m: int, k: int)
    requires m > 0 && k > 0 && k % m == 0 && a % k == 0
    ensures a % m == 0
  {
    var p := k / m;
    var q := a / k;
    assert k == p * m;
    assert a == q * k;
    assert a == (q * p) * m;
    MulModZero(q * p, m);
  }

  /** Converting to a type at least as wide and back again is the identity,
      whatever the signedness of the intermediate type. */
  lemma {:induction false} WidenThenNarrow(x: int, src: IntType, mid: IntType)
    requires InRange(x, src) && Bits(src) <= Bits(mid)
    ensures Cast(Cast(x, src, mid), mid, src) == x
  {
    var y := Cast(x, src, mid);
    var z := Cast(y, mid, src);
    ModulusDivides(src, mid);
    MultipleOfMultiple(y - x, Modulus(src), Modulus(mid));
    assert (z - x) % Modulus(src) == ((z - y) + (y - x)) % Modulus(src);
    SumOfMultiples(z - y, y - x, Modulus(src));
    CastUnique(z, x, src);
  }

  lemma SumOfMultiples(a: int, b: int, m: int)
    requires m > 0 && a % m == 0 && b % m == 0
    ensures (a + b) % m == 0
  {
    var p := a / m;
    var q := b / m;
    assert a == p * m && b == q * m;
    assert a + b == (p + q) * m;
    MulModZero(p + q, m);
  }

  /** `Wrapping<S>` converts by converting the wrapped value. */
  datatype Wrapping = Wrapping(value: int)

  function CastWrapping(w: Wrapping, src: IntType, dst: IntType): (r: Wrapping)
    requires InRange(w.value, src)
    ensures InRange(r.value, dst)
    ensures r == Wrapping(Cast(w.value, src, dst))
  {
    Wrapping(Cast(w.value, src, dst))
  }
}

/** The older `Cast` trait, implemented only among unsigned types and among
    signed types. */
module UtilCast {
  import opened IntCast

  function Cast(x: int, src: IntType, dst: IntType): (r: int)
    requires InRange(x, src) && Signed(src) == Signed(dst)
    ensures InRange(r, dst)
    ensures !Signed(dst) ==> r == x % Modulus(dst)
    ensures Bits(src) <= Bits(dst) ==> r == x
    ensures (r - x) % Modulus(dst) == 0
  {
    if Bits(src) <= Bits(dst) then
      WideningPreservesValue(x, src, dst);
      IntCast.Cast(x, src, dst)
    else
      IntCast.Cast(x, src, dst)
  }
}
