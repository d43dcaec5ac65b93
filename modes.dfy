/** The ColdFire effective-addressing modes: six bits of an opword, the three
    mode bits above the three register bits. Each row of the table gives the
    bits a mode value must have under its mask, the number of extension words
    the mode takes for a byte, word and long operand, and its handler. */
module CfModes {

  /** The handler functions, all of which are still empty. */
  datatype Handler =
    | ModeData | ModeAddr | ModeAddrInd | ModeAddrIndInc | ModeAddrIndDec
    | ModeAddrDisp | ModeAddrIndex | ModeAbsShort | ModeAbsLong
    | ModePcDisp | ModePcIndex | ModeImm

  datatype Size = Byte | Word | Long

  datatype Mode = Mode(bits: bv8, mask: bv8, words: seq<nat>, f: Handler)

  const MODES: seq<Mode> := [
    Mode(0x00, 0x38, [0, 0, 0], ModeData),        // Dn
    Mode(0x08, 0x38, [0, 0, 0], ModeAddr),        // An
    Mode(0x10, 0x38, [0, 0, 0], ModeAddrInd),     // (An)
    Mode(0x18, 0x38, [0, 0, 0], ModeAddrIndInc),  // (An)+
    Mode(0x20, 0x38, [0, 0, 0], ModeAddrIndDec),  // -(An)
    Mode(0x28, 0x38, [1, 1, 1], ModeAddrDisp),    // (d16,An)
    Mode(0x30, 0x38, [1, 1, 1], ModeAddrIndex),   // (d8,An,Xi)
    Mode(0x38, 0x3F, [1, 1, 1], ModeAbsShort),    // (xxx).W
    Mode(0x39, 0x3F, [2, 2, 2], ModeAbsLong),     // (xxx).L
    Mode(0x3A, 0x3F, [1, 1, 1], ModePcDisp),      // (d16,PC)
    Mode(0x3B, 0x3F, [1, 1, 1], ModePcIndex),     // (d8,PC,Xi)
    Mode(0x3C, 0x3F, [1, 1, 2], ModeImm)          // #<data>
  ]

  /** A six-bit mode value selects a row when it has the row's bits under the
      row's mask. */
  predicate Matches(m: Mode, v: bv8) {
    v & m.mask == m.bits
  }

  /** The number of extension words a mode takes for an operand size. */
  function ExtensionWords(m: Mode, size: Size): (n: nat)
    requires |m.words| == 3
    ensures n in m.words
  {
    match size
    case Byte => m.words[0]
    case Word => m.words[1]
    case Long => m.words[2]
  }

  /** The row a mode value belongs to, computed from its fields: the mode
      number for modes 0 to 6, and for mode 7 seven plus the register number. */
  function RowOf(v: bv8): (i: nat)
    requires v <= 0x3C
    ensures i < |MODES|
  {
    if v < 0x38 then (v >> 3) as int else 7 + (v & 7) as int
  }

  /** Every row's bits lie under its mask, and every row has three word
      counts. */
  lemma RowsWithinMask()
    ensures |MODES| == 12
    ensures forall i :: 0 <= i < |MODES| ==> MODES[i].bits & !MODES[i].mask == 0 && |MODES[i].words| == 3
  {
  }

  /** A mode value that selects a row selects the row its fields name, so no
      value selects two rows. */
  lemma MatchIsRow(v: bv8, i: nat)
    requires v <= 0x3F && i < |MODES| && Matches(MODES[i], v)
    ensures v <= 0x3C && i == RowOf(v)
  {
    if i < 7 {
      assert v & 0x38 == (i as bv8) << 3;
    } else {
      assert v & 0x38 == 0x38;
    }
  }

  lemma RowsExclusive(v: bv8, i: nat, j: nat)
    requires v <= 0x3F && i < |MODES| && j < |MODES|
    requires Matches(MODES[i], v) && Matches(MODES[j], v)
    ensures i == j
  {
    MatchIsRow(v, i);
    MatchIsRow(v, j);
  }

  /** Modes 0 to 6 with any register, and mode 7 with registers 0 to 4,
      select a row; mode 7 with registers 5 to 7 selects none. */
  lemma RowsCover(v: bv8)
    requires v <= 0x3F
    ensures (exists i :: 0 <= i < |MODES| && Matches(MODES[i], v)) <==> v <= 0x3C
    ensures v <= 0x3C ==> Matches(MODES[RowOf(v)], v)
  {
    if v <= 0x3C {
      assert Matches(MODES[RowOf(v)], v);
    } else {
      forall i | 0 <= i < |MODES|
        ensures !Matches(MODES[i], v)
      {
        if Matches(MODES[i], v) {
          MatchIsRow(v, i);
        }
      }
    }
  }

  /** Register direct and register indirect modes take no extension word; the
      absolute long mode takes two; an immediate takes one for a byte or word
      operand and two for a long one; no mode takes more than two. */
  lemma ExtensionWordCounts(size: Size)
    ensures forall i :: 0 <= i < 5 ==> ExtensionWords(MODES[i], size) == 0
    ensures ExtensionWords(MODES[8], size) == 2
    ensures ExtensionWords(MODES[11], Byte) == 1 && ExtensionWords(MODES[11], Word) == 1
    ensures ExtensionWords(MODES[11], Long) == 2
    ensures forall i :: 0 <= i < |MODES| ==> ExtensionWords(MODES[i], size) <= 2
  {
    RowsWithinMask();
  }
}
