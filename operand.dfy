/** ColdFire operand kinds, and the decoding of the kinds the decoder handles
    so far: register fields of the opword and 16- or 32-bit immediates from
    the extension words that follow it. */
module CfOperand {
  import opened Wrappers
  import opened Bytes
  import OrderedLoad
  import Field
  import CfRegisters

  datatype Operand =
    | NoOperand            // not used
    | ReadableEa           // readable addressing mode, 6 bits at 5:0
    | WritableMemoryEa     // writable memory addressing mode, 6 bits at 5:0
    | ExtensionSourceEa    // source mode for an op with extension word, 6 bits at 5:0
    | DataReg0             // data register, 3 bits at 2:0
    | DataReg9             // data register, 3 bits at 11:9
    | DataReg28            // data register, 3 bits at 30:28
    | AddrReg9             // address register, 3 bits at 11:9
    | Imm16                // immediate, 16 bits in extension words
    | Imm32                // immediate, 32 bits in extension words

  /** The decoded argument: a register, or an immediate held as the integer
      literal expression `Expr::LitInt(i64)`. */
  datatype Arg =
    | DataRegArg(data: CfRegisters.DataReg)
    | AddrRegArg(addr: CfRegisters.AddrReg)
    | Imm(value: int)

  /** `DataReg::decode(opword, pos)`: the data register numbered by the three
      bits of the opword whose least significant bit is at `pos`. */
  function DataRegAt(opword: bv16, pos: bv4): (r: CfRegisters.DataReg)
    ensures CfRegisters.DataNum(r) == Field.Field(opword, pos, 7) as int
  {
    CfRegisters.DataWithNum(Field.Field(opword, pos, 7) as int).value
  }

  /** `AddrReg::decode(opword, pos)` */
  function AddrRegAt(opword: bv16, pos: bv4): (r: CfRegisters.AddrReg)
    ensures CfRegisters.AddrNum(r) == Field.Field(opword, pos, 7) as int
  {
    CfRegisters.AddrWithNum(Field.Field(opword, pos, 7) as int).value
  }

  /** An immediate of `size` bytes read big-endian from the head of `buf`. */
  function ImmAt(buf: seq<Byte>, size: nat): (r: Option<(Arg, seq<Byte>)>)
    ensures r.Some? <==> |buf| >= size
    ensures r.Some? ==> r.value.0 == Imm(FromBe(buf[..size])) && r.value.1 == buf[size..]
  {
    match OrderedLoad.Load(buf, size, OrderedLoad.BE)
    case None => None
    case Some((ext, rest)) => Some((Imm(ext), rest))
  }

  /** `Operand::decode(buf, opword)`: the argument and the bytes not consumed,
      or `None` for a kind not yet decoded or an extension word missing. */
  function Decode(op: Operand, buf: seq<Byte>, opword: bv16): (r: Option<(Arg, seq<Byte>)>)
    ensures (op == DataReg0 || op == DataReg9 || op == AddrReg9) ==> r.Some? && r.value.1 == buf
    ensures op == DataReg0 ==> r.value.0 == DataRegArg(DataRegAt(opword, 0))
    ensures op == DataReg9 ==> r.value.0 == DataRegArg(DataRegAt(opword, 9))
    ensures op == AddrReg9 ==> r.value.0 == AddrRegArg(AddrRegAt(opword, 9))
    ensures op == Imm16 ==> (r.Some? <==> |buf| >= 2)
    ensures op == Imm32 ==> (r.Some? <==> |buf| >= 4)
    ensures !(op in {DataReg0, DataReg9, AddrReg9, Imm16, Imm32}) ==> r.None?
  {
    match op
    case DataReg0 => Some((DataRegArg(DataRegAt(opword, 0)), buf))
    case DataReg9 => Some((DataRegArg(DataRegAt(opword, 9)), buf))
    case AddrReg9 => Some((AddrRegArg(AddrRegAt(opword, 9)), buf))
    case Imm16 => ImmAt(buf, 2)
    case Imm32 => ImmAt(buf, 4)
    case _ => None
  }

  /** A 16-bit immediate consumes exactly two bytes, read big-endian, and its
      value is below 2^16. */
  lemma Imm16Consumes(buf: seq<Byte>, opword: bv16)
    requires |buf| >= 2
    ensures Decode(Imm16, buf, opword) == Some((Imm(buf[0] as int * 256 + buf[1] as int), buf[2..]))
    ensures 0 <= Decode(Imm16, buf, opword).value.0.value < 0x1_0000
  {
    OrderedLoad.LoadBe16(buf);
  }

  /** A 32-bit immediate consumes exactly four bytes, read big-endian; the
      `u32` is zero-extended, so the value is below 2^32 and not negative. */
  lemma Imm32Consumes(buf: seq<Byte>, opword: bv16)
    requires |buf| >= 4
    ensures Decode(Imm32, buf, opword) == Some((Imm(FromBe(buf[..4])), buf[4..]))
    ensures 0 <= Decode(Imm32, buf, opword).value.0.value < 0x1_0000_0000
  {
    assert Pow256(4) == 0x1_0000_0000;
  }
}
