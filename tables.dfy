/** What the static decode tries have in common: their nodes name the static
    instruction items, and every table is a tree `get` can walk. */
module TrieFields {
  import opened DecodeIndex
  import Instructions

  /** A node of a static table: chain free, and every array of the length its
      type gives it. Declaring each table at this type checks it once. */
  type Table = n: Node<Instructions.Mnemonic> | Walkable(n) witness Empty

  /** Bits 15:12, the field the root trie selects by. */
  function Top(w: bv16): (i: nat)
    ensures i <= 15
  {
    Index(w, 12, 15)
  }

  /** Bits 8:6, the field the second-level tries select by. */
  function Mid(w: bv16): (i: nat)
    ensures i <= 7
  {
    Index(w, 6, 7)
  }

  /** Bits 11:9, the register field the immediate trie selects by. */
  function High(w: bv16): (i: nat)
    ensures i <= 7
  {
    Index(w, 9, 7)
  }

  /** The fields of an opword pin down which words an opword mask selects. */
  lemma TopOfMasked(w: bv16, bits: bv16)
    requires w & 0xF000 == bits & 0xF000
    ensures Top(w) == Top(bits)
  {
  }

  lemma MidOfMasked(w: bv16, bits: bv16)
    requires w & 0x01C0 == bits & 0x01C0
    ensures Mid(w) == Mid(bits)
  {
  }
}

/** The decode trie in the newer decode index (`DECODE_ROOT` with its
    sub-tables). Its items are all `Ins`, told apart by the static they
    refer to. */
module UtilDecodeTable {
  import opened Wrappers
  import opened DecodeIndex
  import opened Instructions
  import opened TrieFields
  import Encodings

  const DECODE_ROOT: Table := Trie16(DECODE_XXXXXX, 12)

  const DECODE_XXXXXX: seq<Table> := [
    Trie8(DECODE_00XXXX, 6),  // 00: bit manipulation, immediate
    Leaf(MOVEB),              // 01: move byte
    Scan2(DECODE_02XXXX),     // 02: move long
    Scan2(DECODE_03XXXX),     // 03: move word
    Empty, Empty, Empty, Empty, Empty,   // 04 .. 10
    Trie8(DECODE_11XXXX, 6),  // 11: sub, suba, subx
    Empty, Empty, Empty,      // 12 .. 14
    Trie8(DECODE_15XXXX, 6),  // 15: add, adda, addx
    Empty, Empty              // 16, 17
  ]

  const DECODE_00XXXX: seq<Table> := [
    Trie2(DECODE_00X0XX, 10),
    Empty, Empty, Empty,
    Scan2(DECODE_00X4XX),     // bit test
    Scan2(DECODE_00X5XX),     // bit change
    Scan2(DECODE_00X6XX),     // bit clear
    Scan2(DECODE_00X7XX)      // bit set
  ]

  const DECODE_00X0XX: seq<Table> := [Scan2(DECODE_0000XX), Leaf(CMPIB)]
  const DECODE_0000XX: seq<Table> := [Leaf(BTSTL), Leaf(BTSTB)]
  const DECODE_00X4XX: seq<Table> := [Leaf(BTSTL), Leaf(BTSTB)]
  const DECODE_00X5XX: seq<Table> := [Leaf(BCHGL), Leaf(BCHGB)]
  const DECODE_00X6XX: seq<Table> := [Leaf(BCLRL), Leaf(BCLRB)]
  const DECODE_00X7XX: seq<Table> := [Leaf(BSETL), Leaf(BSETB)]
  const DECODE_02XXXX: seq<Table> := [Leaf(MOVEL), Leaf(MOVEAL)]
  const DECODE_03XXXX: seq<Table> := [Leaf(MOVEW), Leaf(MOVEAW)]

  const DECODE_11XXXX: seq<Table> := [
    Empty, Empty, Leaf(SUBL), Empty, Empty, Empty, Scan2(DECODE_11X6XX), Leaf(SUBAL)
  ]
  const DECODE_11X6XX: seq<Table> := [Leaf(SUBL), Leaf(SUBXL)]

  const DECODE_15XXXX: seq<Table> := [
    Empty, Empty, Leaf(ADDL), Empty, Empty, Empty, Scan2(DECODE_15X6XX), Leaf(ADDAL)
  ]
  const DECODE_15X6XX: seq<Table> := [Leaf(ADDL), Leaf(ADDXL)]

  /** The root trie passes a word on to the slot its bits 15:12 select. */
  lemma RouteAtRoot(w: bv16)
    ensures DECODE_ROOT.Trie16? && DECODE_ROOT.shift == 12
    ensures Route(DECODE_ROOT, w) == Route(DECODE_XXXXXX[Top(w)], w)
  {
  }

  /** In the bit-manipulation slot, bits 8:6 select the next node. */
  lemma RouteIn00(w: bv16)
    requires Top(w) == 0
    ensures Route(DECODE_ROOT, w) == Route(DECODE_00XXXX[Mid(w)], w)
  {
    RouteAtRoot(w);
  }

  /** In the sub and add slots, bits 8:6 select a leaf or a scan. */
  lemma RouteIn11(w: bv16)
    requires Top(w) == 9
    ensures Route(DECODE_ROOT, w) == DECODE_11XXXX[Mid(w)]
  {
    RouteAtRoot(w);
    var mid := Mid(w);
    assert !DECODE_11XXXX[mid].IsTrie();
  }

  lemma RouteIn15(w: bv16)
    requires Top(w) == 13
    ensures Route(DECODE_ROOT, w) == DECODE_15XXXX[Mid(w)]
  {
    RouteAtRoot(w);
    var mid := Mid(w);
    assert !DECODE_15XXXX[mid].IsTrie();
  }

  /** Whether a lookup with always-succeeding items finds a leaf: the top
      nibble selects moves, bit operations, sub or add, and within those the
      bits 8:6 select a filled slot. */
  predicate Covered(w: bv16) {
    var top, mid := Top(w), Mid(w);
    (1 <= top <= 3) ||
    (top == 0 && !(1 <= mid <= 3)) ||
    ((top == 9 || top == 13) && (mid == 2 || mid == 6 || mid == 7))
  }

  /** A lookup ends at a scan only where that scan starts with a leaf. */
  predicate ScanStartsWithLeaf(r: Node<Mnemonic>) {
    r.IsScan() ==> |r.nodes| > 0 && r.nodes[0].Leaf?
  }

  lemma RouteShapeIn00(w: bv16)
    requires Top(w) == 0
    ensures ScanStartsWithLeaf(Route(DECODE_ROOT, w))
    ensures Route(DECODE_ROOT, w).Empty? <==> 1 <= Mid(w) <= 3
  {
    RouteIn00(w);
    var mid := Mid(w);
    if mid == 0 {
      assert Route(DECODE_ROOT, w) == Route(DECODE_00X0XX[Index(w, 10, 1)], w);
    }
  }

  lemma RouteShapeIn11(w: bv16)
    requires Top(w) == 9
    ensures ScanStartsWithLeaf(Route(DECODE_ROOT, w))
    ensures Route(DECODE_ROOT, w).Empty? <==> !(Mid(w) == 2 || Mid(w) == 6 || Mid(w) == 7)
  {
    RouteIn11(w);
  }

  lemma RouteShapeIn15(w: bv16)
    requires Top(w) == 13
    ensures ScanStartsWithLeaf(Route(DECODE_ROOT, w))
    ensures Route(DECODE_ROOT, w).Empty? <==> !(Mid(w) == 2 || Mid(w) == 6 || Mid(w) == 7)
  {
    RouteIn15(w);
  }

  lemma RouteShapeElsewhere(w: bv16)
    requires Top(w) != 0 && Top(w) != 9 && Top(w) != 13
    ensures ScanStartsWithLeaf(Route(DECODE_ROOT, w))
    ensures Route(DECODE_ROOT, w).Empty? <==> !(1 <= Top(w) <= 3)
  {
    RouteAtRoot(w);
    var top := Top(w);
    assert !DECODE_XXXXXX[top].IsTrie();
  }

  /** Every lookup ends at an empty leaf, a leaf, or a scan that starts with a
      leaf; it ends at an empty leaf exactly on the words not covered. */
  lemma RouteShape(w: bv16)
    ensures ScanStartsWithLeaf(Route(DECODE_ROOT, w))
    ensures Route(DECODE_ROOT, w).Empty? <==> !Covered(w)
  {
    var top := Top(w);
    if top == 0 {
      RouteShapeIn00(w);
    } else if top == 9 {
      RouteShapeIn11(w);
    } else if top == 13 {
      RouteShapeIn15(w);
    } else {
      RouteShapeElsewhere(w);
    }
  }

  /** The root selects by bits 15:12 and contains no chain node, so a lookup
      never panics; with `Ins` items it succeeds exactly on covered words. */
  lemma LookupSucceedsExactly(w: bv16)
    ensures DECODE_ROOT.Trie16? && DECODE_ROOT.shift == 12
    ensures Get(DECODE_ROOT, w, InsDecode).Some? <==> Covered(w)
  {
    RouteShape(w);
    InsRouteSucceeds(DECODE_ROOT, w);
  }

  /** Every opword of `add.l <ea>,Dn` is routed to the `add.l` leaf. */
  lemma Addl0ReachesAddl<O>(w: bv16, decode: (Mnemonic, bv16) -> Option<O>)
    requires Encodings.MatchesWord(Encodings.Addl0, w)
    ensures Route(DECODE_ROOT, w) == Leaf(ADDL)
    ensures Get(DECODE_ROOT, w, decode) == decode(ADDL, w)
  {
    TopOfMasked(w, 0xD080);
    MidOfMasked(w, 0xD080);
    RouteIn15(w);
    LeafRouteDecodes(DECODE_ROOT, w, ADDL, decode);
  }

  /** Every opword of `add.l Dn,<ea>` is routed to the scan that tries
      `add.l` before `addx.l`. */
  lemma Addl1ReachesAddlScan<O>(w: bv16, decode: (Mnemonic, bv16) -> Option<O>)
    requires Encodings.MatchesWord(Encodings.Addl1, w)
    ensures Route(DECODE_ROOT, w) == Scan2([Leaf(ADDL), Leaf(ADDXL)])
    ensures Get(DECODE_ROOT, w, decode) ==
      if decode(ADDL, w).Some? then decode(ADDL, w) else decode(ADDXL, w)
  {
    TopOfMasked(w, 0xD180);
    MidOfMasked(w, 0xD180);
    RouteIn15(w);
    GetFollowsRoute(DECODE_ROOT, w, decode);
    Scan2Order(Leaf(ADDL), Leaf(ADDXL), w, decode);
  }

  /** The empty slots: these words find nothing, whatever the items decode. */
  lemma EmptySlotsFail<O>(w: bv16, decode: (Mnemonic, bv16) -> Option<O>)
    requires (4 <= Top(w) <= 8) || (10 <= Top(w) <= 12) || Top(w) >= 14 ||
      ((Top(w) == 9 || Top(w) == 13) && (Mid(w) <= 1 || 3 <= Mid(w) <= 5)) ||
      (Top(w) == 0 && 1 <= Mid(w) <= 3)
    ensures Get(DECODE_ROOT, w, decode).None?
  {
    RouteShape(w);
    EmptyRouteFails(DECODE_ROOT, w, decode);
  }
}

/** The most complete decode trie, in the older ColdFire decoder. Beyond the
    newer trie it decodes the immediate-operand, bit-reverse, byte-reverse
    and find-first-one instructions of the bit-manipulation slot. */
module OldDecodeTable {
  import opened Wrappers
  import opened DecodeIndex
  import opened Instructions
  import opened TrieFields
  import Encodings

  const DECODE_ROOT: Table := Trie16(DECODE_XXXXXX, 12)

  const DECODE_XXXXXX: seq<Table> := [
    Trie8(DECODE_00XXXX, 6),  // 00: bit manipulation, immediate
    Leaf(MOVEB),              // 01: move byte
    Scan2(DECODE_02XXXX),     // 02: move long
    Scan2(DECODE_03XXXX),     // 03: move word
    Empty, Empty, Empty, Empty, Empty,   // 04 .. 10
    Trie8(DECODE_11XXXX, 6),  // 11: sub, suba, subx
    Empty, Empty, Empty,      // 12 .. 14
    Trie8(DECODE_15XXXX, 6),  // 15: add, adda, addx
    Empty, Empty              // 16, 17
  ]

  const DECODE_00XXXX: seq<Table> := [
    Trie2(DECODE_00X0XX, 10),
    Trie2(DECODE_00X1XX, 10),
    Trie8(DECODE_00X2XX, 9),
    Trie2(DECODE_00X3XX, 11),
    Scan2(DECODE_00X4XX),     // bit test
    Scan2(DECODE_00X5XX),     // bit change
    Scan2(DECODE_00X6XX),     // bit clear
    Scan2(DECODE_00X7XX)      // bit set
  ]

  /** Bit test immediate, or compare byte immediate. */
  const DECODE_00X0XX: seq<Table> := [Scan2(DECODE_0000XX), Leaf(CMPIB)]
  const DECODE_0000XX: seq<Table> := [Leaf(BTSTL), Leaf(BTSTB)]

  /** Bit change immediate, or compare word immediate. */
  const DECODE_00X1XX: seq<Table> := [Scan2(DECODE_0001XX), Leaf(CMPIW)]
  const DECODE_0001XX: seq<Table> := [Leaf(BCHGL), Leaf(BCHGB)]

  /** Bit clear immediate, or a long arithmetic immediate. */
  const DECODE_00X2XX: seq<Table> := [
    Leaf(ORIL), Leaf(ANDIL), Leaf(SUBIL), Leaf(ADDIL),
    Scan2(DECODE_0042XX), Leaf(EORIL), Leaf(CMPIL), Empty
  ]
  const DECODE_0042XX: seq<Table> := [Leaf(BCLRL), Leaf(BCLRB)]

  /** Bit set immediate, or reverse and find-first-one. */
  const DECODE_00X3XX: seq<Table> := [Trie4(DECODE_0003XX, 9), Scan2(DECODE_0043XX)]
  const DECODE_0003XX: seq<Table> := [Leaf(BITREVL), Leaf(BYTEREVL), Leaf(FF1L), Empty]
  const DECODE_0043XX: seq<Table> := [Leaf(BSETL), Leaf(BSETB)]

  const DECODE_00X4XX: seq<Table> := [Leaf(BTSTL), Leaf(BTSTB)]
  const DECODE_00X5XX: seq<Table> := [Leaf(BCHGL), Leaf(BCHGB)]
  const DECODE_00X6XX: seq<Table> := [Leaf(BCLRL), Leaf(BCLRB)]
  const DECODE_00X7XX: seq<Table> := [Leaf(BSETL), Leaf(BSETB)]
  const DECODE_02XXXX: seq<Table> := [Leaf(MOVEL), Leaf(MOVEAL)]
  const DECODE_03XXXX: seq<Table> := [Leaf(MOVEW), Leaf(MOVEAW)]

  const DECODE_11XXXX: seq<Table> := [
    Empty, Empty, Leaf(SUBL), Empty, Empty, Empty, Scan2(DECODE_11X6XX), Leaf(SUBAL)
  ]
  const DECODE_11X6XX: seq<Table> := [Leaf(SUBL), Leaf(SUBXL)]

  const DECODE_15XXXX: seq<Table> := [
    Empty, Empty, Leaf(ADDL), Empty, Empty, Empty, Scan2(DECODE_15X6XX), Leaf(ADDAL)
  ]
  const DECODE_15X6XX: seq<Table> := [Leaf(ADDL), Leaf(ADDXL)]

  lemma RouteAtRoot(w: bv16)
    ensures DECODE_ROOT.Trie16? && DECODE_ROOT.shift == 12
    ensures Route(DECODE_ROOT, w) == Route(DECODE_XXXXXX[Top(w)], w)
  {
  }

  lemma RouteIn00(w: bv16)
    requires Top(w) == 0
    ensures Route(DECODE_ROOT, w) == Route(DECODE_00XXXX[Mid(w)], w)
  {
    RouteAtRoot(w);
  }

  /** With bits 8:6 equal to 3 and bit 11 clear, bits 10:9 select among the
      reverse and find-first-one leaves. */
  lemma RouteIn0003(w: bv16)
    requires Top(w) == 0 && Mid(w) == 3 && Index(w, 11, 1) == 0
    ensures Route(DECODE_ROOT, w) == DECODE_0003XX[Index(w, 9, 3)]
  {
    RouteIn00(w);
    assert Route(DECODE_ROOT, w) == Route(DECODE_00X3XX[0], w);
    var low := Index(w, 9, 3);
    assert !DECODE_0003XX[low].IsTrie();
  }

  /** The bit-reverse, byte-reverse and find-first-one opwords reach their
      leaves, and the fourth slot of that trie is empty. */
  lemma ReverseFamily()
    ensures Route(DECODE_ROOT, 0x00C0) == Leaf(BITREVL)
    ensures Route(DECODE_ROOT, 0x02C0) == Leaf(BYTEREVL)
    ensures Route(DECODE_ROOT, 0x04C0) == Leaf(FF1L)
    ensures Route(DECODE_ROOT, 0x06C0) == Empty
  {
    RouteIn0003(0x00C0);
    RouteIn0003(0x02C0);
    RouteIn0003(0x04C0);
    RouteIn0003(0x06C0);
  }

  /** Every opword of `byterev.l Dn` is routed to the `byterev.l` leaf. */
  lemma Byterevl0ReachesByterev<O>(w: bv16, decode: (Mnemonic, bv16) -> Option<O>)
    requires Encodings.MatchesWord(Encodings.Byterevl0, w)
    ensures Route(DECODE_ROOT, w) == Leaf(BYTEREVL)
    ensures Get(DECODE_ROOT, w, decode) == decode(BYTEREVL, w)
  {
    ByterevFields(w);
    RouteIn0003(w);
    LeafRouteDecodes(DECODE_ROOT, w, BYTEREVL, decode);
  }

  /** The fields of a `byterev.l` opword. */
  lemma ByterevFields(w: bv16)
    requires Encodings.MatchesWord(Encodings.Byterevl0, w)
    ensures Top(w) == 0 && Mid(w) == 3 && Index(w, 11, 1) == 0 && Index(w, 9, 3) == 1
  {
    assert w & 0xFFF8 == 0x02C0;
  }

  /** In the long-immediate row, bits 11:9 select the operation in the order
      of the opcode map: ori, andi, subi, addi, the bit-clear scan, eori,
      cmpi, and nothing. */
  lemma ImmediateRow(w: bv16)
    requires Top(w) == 0 && Mid(w) == 2
    ensures High(w) == 0 ==> Route(DECODE_ROOT, w) == Leaf(ORIL)
    ensures High(w) == 1 ==> Route(DECODE_ROOT, w) == Leaf(ANDIL)
    ensures High(w) == 2 ==> Route(DECODE_ROOT, w) == Leaf(SUBIL)
    ensures High(w) == 3 ==> Route(DECODE_ROOT, w) == Leaf(ADDIL)
    ensures High(w) == 4 ==> Route(DECODE_ROOT, w) == Scan2([Leaf(BCLRL), Leaf(BCLRB)])
    ensures High(w) == 5 ==> Route(DECODE_ROOT, w) == Leaf(EORIL)
    ensures High(w) == 6 ==> Route(DECODE_ROOT, w) == Leaf(CMPIL)
    ensures High(w) == 7 ==> Route(DECODE_ROOT, w) == Empty
  {
    RouteIn00(w);
    var high := High(w);
    assert Route(DECODE_ROOT, w) == DECODE_00X2XX[high];
  }

  /** The long form of each bit operation, which its scan tries first. */
  function BitOpLong(mid: nat): (m: Mnemonic)
    requires 4 <= mid <= 7
    ensures Name(m)[|Name(m)| - 2..] == ".l"
  {
    [BTSTL, BCHGL, BCLRL, BSETL][mid - 4]
  }

  /** The byte form of each bit operation, which its scan falls back on. */
  function BitOpByte(mid: nat): (m: Mnemonic)
    requires 4 <= mid <= 7
    ensures Name(m)[|Name(m)| - 2..] == ".b"
    ensures Name(m)[..|Name(m)| - 2] == Name(BitOpLong(mid))[..|Name(BitOpLong(mid))| - 2]
  {
    [BTSTB, BCHGB, BCLRB, BSETB][mid - 4]
  }

  /** A dynamic bit operation reaches a scan that tries the long form of the
      operation before the byte form. */
  lemma BitOpScansLongFirst<O>(w: bv16, decode: (Mnemonic, bv16) -> Option<O>)
    requires Top(w) == 0 && 4 <= Mid(w)
    ensures Route(DECODE_ROOT, w) == Scan2([Leaf(BitOpLong(Mid(w))), Leaf(BitOpByte(Mid(w)))])
    ensures Get(DECODE_ROOT, w, decode) ==
      if decode(BitOpLong(Mid(w)), w).Some? then decode(BitOpLong(Mid(w)), w)
      else decode(BitOpByte(Mid(w)), w)
  {
    RouteIn00(w);
    GetFollowsRoute(DECODE_ROOT, w, decode);
    Scan2Order(Leaf(BitOpLong(Mid(w))), Leaf(BitOpByte(Mid(w))), w, decode);
  }

  /** The top-level slots without a subtree find nothing. */
  lemma EmptyTopSlots<O>(w: bv16, decode: (Mnemonic, bv16) -> Option<O>)
    requires (4 <= Top(w) <= 8) || (10 <= Top(w) <= 12) || Top(w) >= 14
    ensures Route(DECODE_ROOT, w) == Empty
    ensures Get(DECODE_ROOT, w, decode).None?
  {
    RouteAtRoot(w);
    var top := Top(w);
    assert DECODE_XXXXXX[top] == Empty;
    EmptyRouteFails(DECODE_ROOT, w, decode);
  }

  /** The opword shared by `mulu.l` and `muls.l` finds nothing: this trie
      does not decode the multiply instructions yet. */
  lemma MulOpwordFindsNothing<O>(decode: (Mnemonic, bv16) -> Option<O>)
    ensures Encodings.Mulul0.bits & 0xFFFF == 0x4C00 && Encodings.Mulsl0.bits & 0xFFFF == 0x4C00
    ensures Get(DECODE_ROOT, 0x4C00, decode).None?
  {
    EmptyTopSlots(0x4C00, decode);
  }
}

/** The partial decode trie of the ColdFire decoder, written out again with
    the same entries as the newer decode index. */
module CfDecodeTable {
  import opened Wrappers
  import opened DecodeIndex
  import opened Instructions
  import opened TrieFields
  import UtilDecodeTable

  const DECODE_ROOT: Table := Trie16(DECODE_XXXXXX, 12)

  const DECODE_XXXXXX: seq<Table> := [
    Trie8(DECODE_00XXXX, 6),  // 00: bit manipulation, immediate
    Leaf(MOVEB),              // 01: move byte
    Scan2(DECODE_02XXXX),     // 02: move long
    Scan2(DECODE_03XXXX),     // 03: move word
    Empty, Empty, Empty, Empty, Empty,   // 04 .. 10
    Trie8(DECODE_11XXXX, 6),  // 11: sub, suba, subx
    Empty, Empty, Empty,      // 12 .. 14
    Trie8(DECODE_15XXXX, 6),  // 15: add, adda, addx
    Empty, Empty              // 16, 17
  ]

  const DECODE_00XXXX: seq<Table> := [
    Trie2(DECODE_00X0XX, 10),
    Empty, Empty, Empty,
    Scan2(DECODE_00X4XX),     // bit test
    Scan2(DECODE_00X5XX),     // bit change
    Scan2(DECODE_00X6XX),     // bit clear
    Scan2(DECODE_00X7XX)      // bit set
  ]

  const DECODE_00X0XX: seq<Table> := [Scan2(DECODE_0000XX), Leaf(CMPIB)]
  const DECODE_0000XX: seq<Table> := [Leaf(BTSTL), Leaf(BTSTB)]
  const DECODE_00X4XX: seq<Table> := [Leaf(BTSTL), Leaf(BTSTB)]
  const DECODE_00X5XX: seq<Table> := [Leaf(BCHGL), Leaf(BCHGB)]
  const DECODE_00X6XX: seq<Table> := [Leaf(BCLRL), Leaf(BCLRB)]
  const DECODE_00X7XX: seq<Table> := [Leaf(BSETL), Leaf(BSETB)]
  const DECODE_02XXXX: seq<Table> := [Leaf(MOVEL), Leaf(MOVEAL)]
  const DECODE_03XXXX: seq<Table> := [Leaf(MOVEW), Leaf(MOVEAW)]

  const DECODE_11XXXX: seq<Table> := [
    Empty, Empty, Leaf(SUBL), Empty, Empty, Empty, Scan2(DECODE_11X6XX), Leaf(SUBAL)
  ]
  const DECODE_11X6XX: seq<Table> := [Leaf(SUBL), Leaf(SUBXL)]

  const DECODE_15XXXX: seq<Table> := [
    Empty, Empty, Leaf(ADDL), Empty, Empty, Empty, Scan2(DECODE_15X6XX), Leaf(ADDAL)
  ]
  const DECODE_15X6XX: seq<Table> := [Leaf(ADDL), Leaf(ADDXL)]

  /** The two tries are the same tree, so every lookup agrees with the
      newer decode index. */
  lemma SameAsUtil<O>(w: bv16, decode: (Mnemonic, bv16) -> Option<O>)
    ensures DECODE_ROOT == UtilDecodeTable.DECODE_ROOT
    ensures Route(DECODE_ROOT, w) == Route(UtilDecodeTable.DECODE_ROOT, w)
    ensures Get(DECODE_ROOT, w, decode) == Get(UtilDecodeTable.DECODE_ROOT, w, decode)
  {
    assert DECODE_00XXXX == UtilDecodeTable.DECODE_00XXXX;
    assert DECODE_11XXXX == UtilDecodeTable.DECODE_11XXXX;
    assert DECODE_15XXXX == UtilDecodeTable.DECODE_15XXXX;
    assert DECODE_XXXXXX == UtilDecodeTable.DECODE_XXXXXX;
  }

  /** Top index 1 is the `move.b` leaf; top index 2 tries `move.l` before
      `movea.l`, and top index 3 `move.w` before `movea.w`. */
  lemma MoveSlots(w: bv16)
    ensures Top(w) == 1 ==> Route(DECODE_ROOT, w) == Leaf(MOVEB)
    ensures Top(w) == 2 ==> Route(DECODE_ROOT, w) == Scan2([Leaf(MOVEL), Leaf(MOVEAL)])
    ensures Top(w) == 3 ==> Route(DECODE_ROOT, w) == Scan2([Leaf(MOVEW), Leaf(MOVEAW)])
  {
    UtilDecodeTable.RouteAtRoot(w);
    SameAsUtil(w, InsDecode);
  }

  /** In the bit-manipulation slot, bits 8:6 of 1, 2 or 3 find nothing here;
      bits 8:6 of 0 with bit 10 set reach the `cmpi.b` leaf. */
  lemma BitSlotFields(w: bv16)
    requires Top(w) == 0
    ensures 1 <= Mid(w) <= 3 ==> Route(DECODE_ROOT, w) == Empty
    ensures Mid(w) == 0 && Index(w, 10, 1) == 1 ==> Route(DECODE_ROOT, w) == Leaf(CMPIB)
  {
    SameAsUtil(w, InsDecode);
    UtilDecodeTable.RouteIn00(w);
    var mid := Mid(w);
    if mid == 0 {
      assert Route(DECODE_ROOT, w) == Route(DECODE_00X0XX[Index(w, 10, 1)], w);
    }
  }

  /** `cmpi.b` with the opword 0o006000 is decoded by the leaf. */
  lemma CmpibExample()
    ensures Top(0x0C00) == 0 && Mid(0x0C00) == 0 && Index(0x0C00, 10, 1) == 1
    ensures Route(DECODE_ROOT, 0x0C00) == Leaf(CMPIB)
  {
    BitSlotFields(0x0C00);
  }

  /** Bits 8:6 of 7 select `adda.l` under top index 13 and `suba.l` under
      top index 9. */
  lemma AddressArithmetic(w: bv16)
    requires Mid(w) == 7
    ensures Top(w) == 13 ==> Route(DECODE_ROOT, w) == Leaf(ADDAL)
    ensures Top(w) == 9 ==> Route(DECODE_ROOT, w) == Leaf(SUBAL)
  {
    SameAsUtil(w, InsDecode);
    if Top(w) == 13 {
      UtilDecodeTable.RouteIn15(w);
    } else if Top(w) == 9 {
      UtilDecodeTable.RouteIn11(w);
    }
  }

  /** No node below this one is a chain, a four-way or a sixteen-way trie. */
  predicate OnlyTwoAndEightWay(n: Node<Mnemonic>)
    decreases n
  {
    match n
    case Empty => true
    case Leaf(_) => true
    case Trie4(_, _) => false
    case Trie16(_, _) => false
    case Chain(_) => false
    case _ => forall i :: 0 <= i < |n.nodes| ==> OnlyTwoAndEightWay(n.nodes[i])
  }

  /** Below the root there are only two- and eight-way tries, and no chain, so
      every lookup reads only the opword. */
  lemma NarrowTriesBelowRoot()
    ensures |DECODE_XXXXXX| == 16
    ensures forall i :: 0 <= i < 16 ==> OnlyTwoAndEightWay(DECODE_XXXXXX[i])
  {
    NarrowBitManipulation();
    NarrowArithmetic();
    forall i | 0 <= i < 16
      ensures OnlyTwoAndEightWay(DECODE_XXXXXX[i])
    {
      if i != 0 && i != 9 && i != 13 {
        assert !DECODE_XXXXXX[i].IsTrie();
      }
    }
  }

  lemma NarrowBitManipulation()
    ensures OnlyTwoAndEightWay(DECODE_XXXXXX[0])
  {
    assert OnlyTwoAndEightWay(Scan2(DECODE_0000XX));
    assert OnlyTwoAndEightWay(Trie2(DECODE_00X0XX, 10));
    assert OnlyTwoAndEightWay(Scan2(DECODE_00X4XX));
    assert OnlyTwoAndEightWay(Scan2(DECODE_00X5XX));
    assert OnlyTwoAndEightWay(Scan2(DECODE_00X6XX));
    assert OnlyTwoAndEightWay(Scan2(DECODE_00X7XX));
  }

  lemma NarrowArithmetic()
    ensures OnlyTwoAndEightWay(DECODE_XXXXXX[9]) && OnlyTwoAndEightWay(DECODE_XXXXXX[13])
  {
    assert OnlyTwoAndEightWay(Scan2(DECODE_11X6XX));
    assert OnlyTwoAndEightWay(Scan2(DECODE_15X6XX));
  }
}
