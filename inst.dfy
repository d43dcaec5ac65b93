/** The instruction specifications the decode tables point at, each a static
    `Instruction` named by its preferred mnemonic. Only the instructions that
    a decode table or an encoding refers to are listed. */
module Instructions {

  datatype Mnemonic =
    | ADDL | ADDAL | ADDIL | ADDQL | ADDXL | ANDIL
    | BCHGB | BCHGL | BCLRB | BCLRL | BITREVL | BSETB | BSETL | BTSTB | BTSTL | BYTEREVL
    | CMPIB | CMPIW | CMPIL | DIVSW | DIVSL | DIVUW | DIVUL | EORIL | FF1L
    | MOVEB | MOVEW | MOVEL | MOVEAW | MOVEAL | MULSW | MULSL | MULUW | MULUL
    | ORIL | SUBL | SUBAL | SUBIL | SUBQL | SUBXL

  /** `Instruction::name` */
  function Name(m: Mnemonic): (s: string)
    ensures |s| >= 4 && s[|s| - 2] == '.' && s[|s| - 1] in "bwl"
  {
    match m
    case ADDL => "add.l"       case ADDAL => "adda.l"     case ADDIL => "addi.l"
    case ADDQL => "addq.l"     case ADDXL => "addx.l"     case ANDIL => "andi.l"
    case BCHGB => "bchg.b"     case BCHGL => "bchg.l"     case BCLRB => "bclr.b"
    case BCLRL => "bclr.l"     case BITREVL => "bitrev.l" case BSETB => "bset.b"
    case BSETL => "bset.l"     case BTSTB => "btst.b"     case BTSTL => "btst.l"
    case BYTEREVL => "byterev.l"
    case CMPIB => "cmpi.b"     case CMPIW => "cmpi.w"     case CMPIL => "cmpi.l"
    case DIVSW => "divs.w"     case DIVSL => "divs.l"     case DIVUW => "divu.w"
    case DIVUL => "divu.l"     case EORIL => "eori.l"     case FF1L => "ff1.l"
    case MOVEB => "move.b"     case MOVEW => "move.w"     case MOVEL => "move.l"
    case MOVEAW => "movea.w"   case MOVEAL => "movea.l"   case MULSW => "muls.w"
    case MULSL => "muls.l"     case MULUW => "mulu.w"     case MULUL => "mulu.l"
    case ORIL => "ori.l"       case SUBL => "sub.l"       case SUBAL => "suba.l"
    case SUBIL => "subi.l"     case SUBQL => "subq.l"     case SUBXL => "subx.l"
  }
}

/** The ColdFire encoding tables: for each encoding, the bits an opword must
    have under its mask, the operands padded with `None`, and flags giving the
    arity and the supporting features. A two-word encoding holds the extension
    word's bits in bits 31:16. */
module Encodings {
  import opened CfOperand
  import CfFlags
  import Context

  datatype WordEncoding = WordEncoding(bits: bv16, mask: bv16, operands: seq<Operand>, flags: CfFlags.Flags)

  datatype LongEncoding = LongEncoding(bits: bv32, mask: bv32, operands: seq<Operand>, flags: CfFlags.Flags)

  /** `opcode!((a, b))`: the opword in bits 15:0 and the extension word in
      bits 31:16. */
  function Opcode(a: Context.Word16, b: Context.Word16): (r: bv32)
    ensures r & 0xFFFF == a && r >> 16 == b
  {
    Context.AdvancePlacesWord(a, b);
    Context.AdvanceBits(a, b)
  }

  /** `operands2!` and `operands5!`: the listed operands followed by `None`
      up to the array's length. */
  function Padded(listed: seq<Operand>, len: nat): (r: seq<Operand>)
    requires |listed| <= len
    ensures |r| == len && r[..|listed|] == listed
    ensures forall i :: |listed| <= i < len ==> r[i] == NoOperand
  {
    listed + seq(len - |listed|, _ => NoOperand)
  }

  /** One row of `encodings!` with two operand slots; `count!` is the length
      of the operand list. */
  function Word(bits: bv16, mask: bv16, listed: seq<Operand>, features: bv16): (r: WordEncoding)
    requires |listed| <= 2
    ensures r.bits == bits && r.mask == mask
    ensures |r.operands| == 2 && r.operands[..|listed|] == listed
    ensures CfFlags.Arity(r.flags) == |listed|
    ensures CfFlags.Features(r.flags) == features & CfFlags.FEATURES_MASK
    ensures bits & !mask == 0 && (forall i :: 0 <= i < |listed| ==> listed[i] != NoOperand) ==>
      WordRowConsistent(r)
  {
    CfFlags.ArityOfNew(|listed|, features);
    CfFlags.FeaturesOfNew(|listed|, features);
    var r := WordEncoding(bits, mask, Padded(listed, 2), CfFlags.New(|listed|, features));
    if forall i :: 0 <= i < |listed| ==> listed[i] != NoOperand then
      (RowArity(listed, 2, features); r)
    else
      r
  }

  /** One row of `encodings!` with five operand slots. */
  function Long(bits: bv32, mask: bv32, listed: seq<Operand>, features: bv16): (r: LongEncoding)
    requires |listed| <= 5
    ensures r.bits == bits && r.mask == mask
    ensures |r.operands| == 5 && r.operands[..|listed|] == listed
    ensures CfFlags.Arity(r.flags) == |listed|
    ensures CfFlags.Features(r.flags) == features & CfFlags.FEATURES_MASK
    ensures bits & !mask == 0 && (forall i :: 0 <= i < |listed| ==> listed[i] != NoOperand) ==>
      LongRowConsistent(r)
  {
    CfFlags.ArityOfNew(|listed|, features);
    CfFlags.FeaturesOfNew(|listed|, features);
    var r := LongEncoding(bits, mask, Padded(listed, 5), CfFlags.New(|listed|, features));
    if forall i :: 0 <= i < |listed| ==> listed[i] != NoOperand then
      (RowArity(listed, 5, features); r)
    else
      r
  }

  const Addl0: WordEncoding := Word(0xD080, 0xF1C0, [ReadableEa, DataReg9], CfFlags.ISA_A_UP)
  const Addl1: WordEncoding := Word(0xD180, 0xF1C0, [DataReg9, WritableMemoryEa], CfFlags.ISA_A_UP)
  const Byterevl0: WordEncoding := Word(0x02C0, 0xFFF8, [DataReg0], CfFlags.ISA_C)

  const WORD_ENCODINGS: seq<WordEncoding> := [Addl0, Addl1, Byterevl0]

  const Mulul0: LongEncoding :=
    Long(Opcode(0x4C00, 0x0000), Opcode(0xFFC0, 0x8FFF), [ExtensionSourceEa, DataReg28], CfFlags.ISA_A_UP)
  const Mulsl0: LongEncoding :=
    Long(Opcode(0x4C00, 0x0800), Opcode(0xFFC0, 0x8FFF), [ExtensionSourceEa, DataReg28], CfFlags.ISA_A_UP)

  const LONG_ENCODINGS: seq<LongEncoding> := [Mulul0, Mulsl0]

  /** An opword has the encoding's required bits. */
  predicate MatchesWord(e: WordEncoding, opword: bv16): (b: bool)
    ensures b ==> e.bits & !e.mask == 0
  {
    opword & e.mask == e.bits
  }

  /** An opword and extension word, combined as the decode context holds them,
      have the encoding's required bits. */
  predicate MatchesLong(e: LongEncoding, bits: bv32): (b: bool)
    ensures b ==> e.bits & !e.mask == 0
  {
    bits & e.mask == e.bits
  }

  /** A row is consistent when its required bits lie under its mask, its arity
      is the number of operands listed, and the rest of its operand slots are
      `None`. */
  predicate WordRowConsistent(e: WordEncoding) {
    e.bits & !e.mask == 0 &&
    (forall i :: 0 <= i < |e.operands| ==> (e.operands[i] != NoOperand <==> i < CfFlags.Arity(e.flags)))
  }

  predicate LongRowConsistent(e: LongEncoding) {
    e.bits & !e.mask == 0 &&
    (forall i :: 0 <= i < |e.operands| ==> (e.operands[i] != NoOperand <==> i < CfFlags.Arity(e.flags)))
  }

  /** A row built from a list of real operands has as arity their number, and
      exactly that many slots filled. */
  lemma {:induction false} RowArity(listed: seq<Operand>, len: nat, features: bv16)
    requires |listed| <= len && len <= 5
    requires forall i :: 0 <= i < |listed| ==> listed[i] != NoOperand
    ensures CfFlags.Arity(CfFlags.New(|listed|, features)) == |listed|
    ensures forall i :: 0 <= i < len ==> (Padded(listed, len)[i] != NoOperand <==> i < |listed|)
  {
    CfFlags.ArityOfNew(|listed|, features);
    var r := Padded(listed, len);
    forall i | 0 <= i < len
      ensures r[i] != NoOperand <==> i < |listed|
    {
      if i < |listed| {
        assert r[i] == r[..|listed|][i];
      }
    }
  }

  /** Every listed encoding row is consistent. */
  lemma EncodingTablesConsistent()
    ensures forall i :: 0 <= i < |WORD_ENCODINGS| ==> WordRowConsistent(WORD_ENCODINGS[i])
    ensures forall i :: 0 <= i < |LONG_ENCODINGS| ==> LongRowConsistent(LONG_ENCODINGS[i])
  {
    RowArity([ReadableEa, DataReg9], 2, CfFlags.ISA_A_UP);
    RowArity([DataReg9, WritableMemoryEa], 2, CfFlags.ISA_A_UP);
    RowArity([DataReg0], 2, CfFlags.ISA_C);
    RowArity([ExtensionSourceEa, DataReg28], 5, CfFlags.ISA_A_UP);
    assert WordRowConsistent(Addl0);
    assert WordRowConsistent(Addl1);
    assert WordRowConsistent(Byterevl0);
    assert LongRowConsistent(Mulul0);
    assert LongRowConsistent(Mulsl0);
  }

  /** `Addl0` has two operands, `Byterevl0` one and `Mulul0` two. */
  lemma ArityExamples()
    ensures CfFlags.Arity(Addl0.flags) == 2 && CfFlags.Arity(Byterevl0.flags) == 1
    ensures CfFlags.Arity(Mulul0.flags) == 2
  {
    CfFlags.ArityOfNew(2, CfFlags.ISA_A_UP);
    CfFlags.ArityOfNew(1, CfFlags.ISA_C);
  }

  /** The two `add.l` encodings share a mask but require different bits under
      it, so no opword matches both. */
  lemma AddlExclusive(opword: bv16)
    ensures Addl0.mask == Addl1.mask && Addl0.bits != Addl1.bits
    ensures !(MatchesWord(Addl0, opword) && MatchesWord(Addl1, opword))
  {
  }

  /** `mulu.l` and `muls.l` differ only in extension-word bit 11 (bit 27 of the
      combined word), which both masks cover, so no word pair matches both. */
  lemma MulExclusive(bits: bv32)
    ensures Mulul0.mask == Mulsl0.mask
    ensures Mulul0.bits ^ Mulsl0.bits == 1 << 27 && Mulul0.mask & (1 << 27) != 0
    ensures !(MatchesLong(Mulul0, bits) && MatchesLong(Mulsl0, bits))
  {
  }

  /** Whether an opword matches `add.l <ea>,Dn` does not depend on its
      register field (bits 11:9) or its effective-address field (bits 5:0). */
  lemma AddlIgnoresOperandFields(opword: bv16, fields: bv16)
    requires fields & !0x0E3F == 0
    ensures MatchesWord(Addl0, opword) <==> MatchesWord(Addl0, opword ^ fields)
  {
  }
}
