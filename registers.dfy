/** ColdFire data and address registers as enumerations `D0`..`D7` and
    `A0`..`A7` whose discriminants are the register numbers. `with_num`
    transmutes a checked `u8` into the enumeration. */
module CfRegisters {
  import opened Wrappers

  datatype DataReg = D0 | D1 | D2 | D3 | D4 | D5 | D6 | D7

  datatype AddrReg = A0 | A1 | A2 | A3 | A4 | A5 | A6 | A7

  /** `MAX_NUM`, for both register kinds. */
  const MAX_NUM: nat := 7

  const DATA_REG_NAMES: seq<string> := ["d0", "d1", "d2", "d3", "d4", "d5", "d6", "d7"]
  const ADDR_REG_NAMES: seq<string> := ["a0", "a1", "a2", "a3", "a4", "a5", "fp", "sp"]

  /** `AddrReg::FP` and `AddrReg::SP` */
  const FP: AddrReg := A6
  const SP: AddrReg := A7

  /** `DataReg::num`: the discriminant, `self as u8`. */
  function DataNum(r: DataReg): (n: nat)
    ensures n <= MAX_NUM
  {
    match r
    case D0 => 0 case D1 => 1 case D2 => 2 case D3 => 3
    case D4 => 4 case D5 => 5 case D6 => 6 case D7 => 7
  }

  function AddrNum(r: AddrReg): (n: nat)
    ensures n <= MAX_NUM
  {
    match r
    case A0 => 0 case A1 => 1 case A2 => 2 case A3 => 3
    case A4 => 4 case A5 => 5 case A6 => 6 case A7 => 7
  }

  /** `DataReg::with_num(n)` for a `u8`: the register numbered `n`, or `None`
      beyond `MAX_NUM`. */
  function DataWithNum(n: nat): (r: Option<DataReg>)
    requires n < 0x100
    ensures r.Some? <==> n <= MAX_NUM
    ensures r.Some? ==> DataNum(r.value) == n
  {
    if n <= MAX_NUM then
      Some([D0, D1, D2, D3, D4, D5, D6, D7][n])
    else
      None
  }

  function AddrWithNum(n: nat): (r: Option<AddrReg>)
    requires n < 0x100
    ensures r.Some? <==> n <= MAX_NUM
    ensures r.Some? ==> AddrNum(r.value) == n
  {
    if n <= MAX_NUM then
      Some([A0, A1, A2, A3, A4, A5, A6, A7][n])
    else
      None
  }

  /** `DataReg::name`, which `Display` writes: "d" and the number. */
  function DataName(r: DataReg): (s: string)
    ensures s == ['d', "01234567"[DataNum(r)]]
  {
    DATA_REG_NAMES[DataNum(r)]
  }

  /** `AddrReg::name`, which `Display` writes: "a" and the number, except
      that A6 is the frame pointer and A7 the stack pointer. */
  function AddrName(r: AddrReg): (s: string)
    ensures AddrNum(r) <= 5 ==> s == ['a', "012345"[AddrNum(r)]]
    ensures r == FP ==> s == "fp"
    ensures r == SP ==> s == "sp"
  {
    ADDR_REG_NAMES[AddrNum(r)]
  }

  /** The miscellaneous registers `PcReg`, `CcrReg` and `SrReg`: unit types
      whose `Display` writes a fixed name. */
  datatype MiscReg = PC | CCR | SR

  /** What `Display` writes for a miscellaneous register. No data or address
      register goes by the same name. */
  function MiscName(r: MiscReg): (s: string)
    ensures forall d: DataReg :: s != DataName(d)
    ensures forall a: AddrReg :: s != AddrName(a)
  {
    match r
    case PC => "pc"
    case CCR => "ccr"
    case SR => "sr"
  }

  /** Distinct miscellaneous registers are written differently. */
  lemma MiscNamesDistinct(r: MiscReg, q: MiscReg)
    ensures MiscName(r) == MiscName(q) ==> r == q
  {
  }

  /** The number identifies the register: `with_num` takes it back. */
  lemma DataNumIdentifies(r: DataReg)
    ensures DataWithNum(DataNum(r)) == Some(r)
  {
  }

  lemma AddrNumIdentifies(r: AddrReg)
    ensures AddrWithNum(AddrNum(r)) == Some(r)
  {
  }

  /** Distinct registers have distinct names. */
  lemma NamesDistinct(r: DataReg, q: DataReg, a: AddrReg, b: AddrReg)
    ensures DataName(r) == DataName(q) ==> r == q
    ensures AddrName(a) == AddrName(b) ==> a == b
    ensures DataName(r) != AddrName(a)
  {
  }

  /** The behaviour the test suite pins down. */
  lemma RegisterExamples()
    ensures DataWithNum(0) == Some(D0) && DataWithNum(7) == Some(D7) && DataWithNum(8) == None
    ensures AddrWithNum(0) == Some(A0) && AddrWithNum(7) == Some(A7) && AddrWithNum(8) == None
    ensures DataName(D3) == "d3" && AddrName(A5) == "a5"
    ensures AddrName(A6) == "fp" && AddrName(A7) == "sp"
    ensures FP == A6 && SP == A7
    ensures MiscName(PC) == "pc" && MiscName(CCR) == "ccr" && MiscName(SR) == "sr"
  {
  }
}

/** The older register types: tuple structs around a `u8` register number.
    Only `with_num` checks the number; `name` indexes an eight-entry table and
    panics on a larger number. */
module CfReg {
  import opened Wrappers
  import CfRegisters

  type U8 = n: nat | n < 0x100

  datatype DataReg = DataReg(num: U8)

  datatype AddrReg = AddrReg(num: U8)

  const MAX_NUM: nat := 7

  const DATA_REG_NAMES: seq<string> := ["d0", "d1", "d2", "d3", "d4", "d5", "d6", "d7"]
  const ADDR_REG_NAMES: seq<string> := ["a0", "a1", "a2", "a3", "a4", "a5", "fp", "sp"]

  /** `DataReg::with_num(n)`: a register whose `name` is defined, or `None`. */
  function DataWithNum(n: U8): (r: Option<DataReg>)
    ensures r.Some? <==> n <= MAX_NUM
    ensures r.Some? ==> r.value.num == n
  {
    if n <= MAX_NUM then Some(DataReg(n)) else None
  }

  function AddrWithNum(n: U8): (r: Option<AddrReg>)
    ensures r.Some? <==> n <= MAX_NUM
    ensures r.Some? ==> r.value.num == n
  {
    if n <= MAX_NUM then Some(AddrReg(n)) else None
  }

  /** `DataReg::name`, defined for the numbers `with_num` accepts. It is the
      name the enumeration-based register of the same number has. */
  function DataName(r: DataReg): (s: string)
    requires r.num <= MAX_NUM
    ensures s == CfRegisters.DataName(CfRegisters.DataWithNum(r.num).value)
  {
    DATA_REG_NAMES[r.num]
  }

  function AddrName(r: AddrReg): (s: string)
    requires r.num <= MAX_NUM
    ensures s == CfRegisters.AddrName(CfRegisters.AddrWithNum(r.num).value)
  {
    ADDR_REG_NAMES[r.num]
  }

  /** The miscellaneous registers, which this module declares as well, never
      share a name with a register `with_num` builds. */
  lemma MiscNamesUnshared(r: CfRegisters.MiscReg, n: U8)
    requires n <= MAX_NUM
    ensures CfRegisters.MiscName(r) != DataName(DataReg(n))
    ensures CfRegisters.MiscName(r) != AddrName(AddrReg(n))
  {
  }

  /** Every register `with_num` builds has a name. */
  lemma WithNumHasName(n: U8)
    requires DataWithNum(n).Some? || AddrWithNum(n).Some?
    ensures DataWithNum(n).value.num <= MAX_NUM && AddrWithNum(n).value.num <= MAX_NUM
  {
  }

  /** The behaviour the test suite pins down. */
  lemma RegisterExamples()
    ensures DataWithNum(7) == Some(DataReg(7)) && DataWithNum(8) == None
    ensures AddrWithNum(7) == Some(AddrReg(7)) && AddrWithNum(8) == None
    ensures DataReg(3).num == 3 && DataName(DataReg(3)) == "d3"
    ensures AddrReg(3).num == 3 && AddrName(AddrReg(3)) == "a3"
    ensures AddrName(AddrReg(6)) == "fp" && AddrName(AddrReg(7)) == "sp"
  {
  }
}
