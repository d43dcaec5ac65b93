/** `CfFlags`: the arity of an instruction encoding in bits 2:0 of a `u16`
    and the hardware features that each suffice to support it in bits 15:3. */
module CfFlags {

  const ARITY_MASK: bv16 := 0x0007
  const FEATURES_MASK: bv16 := 0xFFF8

  /** Single features. */
  const ISA_A: bv16 := 1 << 3
  const ISA_A2: bv16 := 1 << 4
  const ISA_B: bv16 := 1 << 5
  const ISA_C: bv16 := 1 << 6
  const HWDIV: bv16 := 1 << 7
  const FPU: bv16 := 1 << 8
  const MAC: bv16 := 1 << 9
  const EMAC: bv16 := 1 << 10
  const EMAC_B: bv16 := 1 << 11
  const MMU: bv16 := 1 << 12
  const USP: bv16 := 1 << 13

  /** Composite features. */
  const ISA_A_UP: bv16 := ISA_A | ISA_A2 | ISA_B | ISA_C
  const ISA_A2_UP: bv16 := ISA_A2 | ISA_B | ISA_C
  const ISA_B_UP: bv16 := ISA_B | ISA_C

  datatype Flags = Flags(bits: bv16)

  /** `arity as u16 & ARITY_MASK`. Truncating a `usize` to `u16` keeps its
      value modulo 2^16, and 8 divides 2^16, so the three low bits are those of
      the arity modulo 8. */
  function ArityBits(arity: nat): (b: bv16)
    ensures b <= 7 && b as int == arity % 8
  {
    match arity % 8
    case 0 => 0 case 1 => 1 case 2 => 2 case 3 => 3
    case 4 => 4 case 5 => 5 case 6 => 6 case 7 => 7
  }

  /** `CfFlags::new(arity, features)` */
  function New(arity: nat, features: bv16): (f: Flags)
    requires arity < 0x1_0000_0000_0000_0000
    ensures f.bits & ARITY_MASK == ArityBits(arity)
    ensures f.bits & FEATURES_MASK == features & FEATURES_MASK
  {
    Flags(ArityBits(arity) | (features & FEATURES_MASK))
  }

  /** `CfFlags::arity` */
  function Arity(f: Flags): (n: nat)
    ensures n <= 7
  {
    (f.bits & ARITY_MASK) as int
  }

  /** `CfFlags::features` */
  function Features(f: Flags): (r: bv16)
    ensures r & ARITY_MASK == 0
  {
    f.bits & FEATURES_MASK
  }

  /** `CfFlags::has_any(features)` */
  predicate HasAny(f: Flags, features: bv16): (b: bool)
    ensures b ==> features & FEATURES_MASK != 0 && Features(f) != 0
  {
    Features(f) & features != 0
  }

  /** The arity packed by `new` reads back modulo 8, and unchanged for an
      arity below 8. */
  lemma ArityOfNew(arity: nat, features: bv16)
    requires arity < 0x1_0000_0000_0000_0000
    ensures Arity(New(arity, features)) == arity % 8
    ensures arity < 8 ==> Arity(New(arity, features)) == arity
  {
  }

  /** The features packed by `new` read back without their three low bits. */
  lemma FeaturesOfNew(arity: nat, features: bv16)
    requires arity < 0x1_0000_0000_0000_0000
    ensures Features(New(arity, features)) == features & 0xFFF8
  {
  }

  /** The two masks split the word: disjoint, and together all 16 bits. */
  lemma MasksPartition()
    ensures ARITY_MASK & FEATURES_MASK == 0
    ensures ARITY_MASK | FEATURES_MASK == 0xFFFF
  {
  }

  /** Every single feature lies within the features mask, and the eleven
      of them are the distinct bits 13:3. */
  lemma FeaturesFitMask()
    ensures ISA_A & FEATURES_MASK == ISA_A && ISA_A2 & FEATURES_MASK == ISA_A2
    ensures ISA_B & FEATURES_MASK == ISA_B && ISA_C & FEATURES_MASK == ISA_C
    ensures HWDIV & FEATURES_MASK == HWDIV && FPU & FEATURES_MASK == FPU
    ensures MAC & FEATURES_MASK == MAC && EMAC & FEATURES_MASK == EMAC
    ensures EMAC_B & FEATURES_MASK == EMAC_B && MMU & FEATURES_MASK == MMU
    ensures USP & FEATURES_MASK == USP
    ensures ISA_A | ISA_A2 | ISA_B | ISA_C | HWDIV | FPU | MAC | EMAC | EMAC_B | MMU | USP == 0x3FF8
  {
  }

  /** A feature set within the mask survives `new` unchanged. */
  lemma NewKeepsFeatures(arity: nat, features: bv16)
    requires arity < 0x1_0000_0000_0000_0000
    requires features & FEATURES_MASK == features
    ensures Features(New(arity, features)) == features
  {
  }

  /** An empty feature set is never supported. */
  lemma HasAnyNothing(f: Flags)
    ensures !HasAny(f, 0)
  {
  }

  /** Against features within the mask, `has_any` on packed flags is a
      test of the features given to `new`. */
  lemma HasAnyOfNew(arity: nat, features: bv16, query: bv16)
    requires arity < 0x1_0000_0000_0000_0000
    requires query & FEATURES_MASK == query
    ensures HasAny(New(arity, features), query) <==> features & query != 0
  {
  }

  /** The composite masks nest: ISA_B_UP within ISA_A2_UP within ISA_A_UP, and
      each step adds one feature. */
  lemma CompositesNest()
    ensures ISA_B_UP & ISA_A2_UP == ISA_B_UP && ISA_A2_UP & ISA_A_UP == ISA_A2_UP
    ensures ISA_A2_UP == ISA_B_UP | ISA_A2 && ISA_A_UP == ISA_A2_UP | ISA_A
    ensures ISA_B_UP != ISA_A2_UP && ISA_A2_UP != ISA_A_UP
  {
  }

  /** Support for a narrower group implies support for the wider one. */
  lemma HasAnyWidens(f: Flags)
    ensures HasAny(f, ISA_B_UP) ==> HasAny(f, ISA_A2_UP)
    ensures HasAny(f, ISA_A2_UP) ==> HasAny(f, ISA_A_UP)
  {
  }
}
