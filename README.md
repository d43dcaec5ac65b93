# cfda ColdFire disassembler core, modelled in Dafny

cfda is an unfinished disassembler for the Freescale ColdFire processors.
This project models the parts of it that have behaviour and proves
properties of them:

- **Bit and word primitives.** Bit-field extraction and OR-insertion on
  16-bit words (`Field`, `UtilField`, with symbolic shifts in `Shifts`).
  The per-width `Word` constants (`Words`). The `as` conversions between the
  primitive integer types, written out as two's-complement arithmetic
  (`IntCast`, `UtilCast`).
- **Byte buffers.** `load` and `save` of a raw value at the head of a byte
  slice (`LoadSave`). `take` and `read` (`TakeCast`, whose `Reader` class
  owns the slice that `read` shortens). Big- and little-endian byte images
  (`Bytes`, `OrderedLoad`). Relocation arithmetic of a memory `Region`
  (`Mem`).
- **The opword accumulator.** `DecodeContext` is a class holding the bits
  and the remaining words. `Advance` ORs the next word into bits 31:16.
- **The decode index.** The bit-trie `Node` type and its `get`/`scan`/`seek`
  lookup, generic in the item and in the item's `try_decode`
  (`DecodeIndex`). The three static opword tries: the utility table
  (`UtilDecodeTable`), the older and most complete ColdFire table
  (`OldDecodeTable`) and the current partial one (`CfDecodeTable`).
- **Encoding metadata.** The word and long instruction encodings with the
  `opcode!`, operand-padding and `count!` macro expansions (`Encodings`).
  The `CfFlags` arity/feature packing (`CfFlags`). The table of
  effective-addressing modes (`CfModes`).
- **Operand and top-level decoding.** `Operand::decode` (`CfOperand`) and
  `CfDecoder::decode` with the `WordEncoding::decode` mask check
  (`CfDecoder`).
- **Small value types and text encoders.** Data and address registers in
  both register modules (`CfRegisters` for the enum form, `CfReg` for the
  tuple-struct form). Assembly `Slot` accessors (`AstSlot`). Character
  literal encoding into a buffer as UTF-8 (section 3 of RFC 3629), UTF-16
  (section 2.1 of RFC 2781) or UTF-32 (`CharLiteral`). Motorola-style
  escaping of string literals by a formatter (`MotoFormat`).

Code that works by changing state is modelled that way:

- `save` writes into an `array`.
- `read` and `advance` are methods of classes whose fields they reassign.
- `Char::encode` copies into the caller's `array` with a loop.
- `visit_str` and `fmt_esc_utf8` append to a `Formatter` object one piece
  at a time.

Each such method is proved against a specification function (`Saved`,
`Take`, `AdvanceBits`, `Encoded`, `Quoted`, `EscapeUtf8`). The pure parts
(the tables, lookups, bit arithmetic and accessors) are datatypes, functions
and lemmas.

Decisions worth knowing:

- The decode index is modelled over 16-bit words, the only width any table
  uses. A node's item decoder (`try_decode`) is a function parameter, so
  the routing lemmas hold for every item type.
- `Route` names the node without subtries that a lookup ends in. Most table
  lemmas are stated through it, and through `Get` with an arbitrary item
  decoder.
- Host memory is little-endian. A raw `load` of a `u16` therefore reads the
  byte image least significant byte first, which is what the tests of
  `load_save.rs` assume. So do the UTF-16 and UTF-32 tests of `char.rs`.
- `DecodeContext::advance` always ORs the new word in at bit 16, even when
  it is a third word (src/arch/cf/decode_context.rs:39). The model follows
  the code, not the idea of a "next free slot". `AdvanceTwiceSharesSlot`
  states the consequence: two advances OR both words into the same upper
  half.

## Model

| member | source | states |
|---|---|---|
| Field.Field | src/num/field.rs:38-40 | the field read through a mask lies under the mask, is at most the mask, and a zero mask reads 0 |
| Field.FieldIsMaskedShift | src/num/field.rs:38-40 | `field(w, pos, mask)` is the word shifted right by `pos`, cut to the mask's width, then masked |
| Field.LowByteUnderMask | src/num/field.rs:38-40 | cutting a u16 to its low byte before an 8-bit mask changes nothing under the mask |
| Field.FieldInPlace | src/num/field.rs:38-40 | shifting the field back to its position gives the word's bits under the shifted mask |
| Field.FieldIgnoresBitsOutsideWindow | src/num/field.rs:38-40 | bits of the word above the 8-bit window at `pos` never affect the field |
| Field.SetField | src/num/field.rs:49-51 | `set_field` never clears a bit of the word |
| Field.SetFieldIgnoresBitsOutsideMask | src/num/field.rs:49-51 | bits of the value outside the mask never reach the result |
| Field.SetFieldKeepsOtherBits | src/num/field.rs:49-51 | outside the shifted mask the result equals the word |
| Field.FieldOfSetField | src/num/field.rs:38-51 | if the field is clear and the mask fits at `pos`, reading the field after setting it gives the value under the mask |
| Field.SetFieldCannotClearField | src/num/field.rs:49-51 | setting a field of all ones to 0 leaves it all ones: the OR-merge cannot clear |
| Field.FieldExample | src/num/field.rs:59-66 | `0b111111_101_1111111.field(7, 0b111) == 0b101` |
| Field.SetFieldExample | src/num/field.rs:69-77 | `0.set_field(7, 0b111, 0b101) == 0b101 << 7` |
| Shifts.ShrIs | src/num/field.rs:38-40 | the symbolic shift used by the model equals the native right shift |
| Shifts.ShlIs | src/num/field.rs:49-51 | the symbolic shift used by the model equals the native left shift |
| UtilField.Field | src/util/field.rs:32-34 | the result lies under the mask, and a zero mask yields 0 |
| UtilField.FieldInPlace | src/util/field.rs:32-34 | the extracted field shifted back equals the word under the shifted mask |
| UtilField.ByteFields | src/util/field.rs:32-34 | a u16 read through a u8 mask loses its high byte: the low-byte field is `w & 0xFF`, the field at 8 is `w >> 8` |
| Words.Bits | src/util/word.rs:47-102 | `BITS` is 8, 16, 32 or 64, the width of the integer type |
| Words.Max | src/util/word.rs:47-102 | `MAX` is the type's largest value and `MAX + 1 == 2^BITS`, with `2^n` defined recursively |
| Words.Zero | src/util/word.rs:47-101 | `ZERO == 0` for every width, a word value with `ZERO + 1 == ONE` |
| Words.One | src/util/word.rs:47-101 | `ONE == 1` for every width, a word value |
| Words.ToU64 | src/util/word.rs:47-113 | `to_u64` preserves the value, which fits a u64 |
| Words.ToUsize | src/util/word.rs:47-107 | `to_usize` preserves the value |
| IntCast.Modulus | src/num/cast.rs:29-36 | the modulus of every integer type is `2^Bits(t)` (so at least 2^8) |
| IntCast.RangeIsModulus | src/num/cast.rs:38-50 | each type's range holds exactly `2^BITS` values |
| IntCast.Cast | src/num/cast.rs:29-50 | an `as` cast gives a value of the target type congruent to the input modulo 2^n |
| IntCast.CastUnique | src/num/cast.rs:29-50 | two in-range values that are congruent modulo 2^n are equal, so the cast's result is determined |
| IntCast.CastRepresentable | src/num/cast.rs:29-50 | a value the target type can hold passes through unchanged |
| IntCast.UnsignedCastIsModulo | src/num/cast.rs:38-43 | an unsigned-to-unsigned cast is `x mod 2^n` |
| IntCast.WideningPreservesValue | src/num/cast.rs:29-50 | zero-extension and sign-extension preserve the value |
| IntCast.SameWidthReinterprets | src/num/cast.rs:38-43 | a same-width unsigned-to-signed cast reads the bits as two's complement |
| IntCast.AllOnesU16IsMinusOne | src/num/cast.rs:38-43 | `0xFFFFu16 as i16 == -1` |
| IntCast.ModulusDivides | src/num/cast.rs:38-50 | a narrower type's modulus divides a wider type's |
| IntCast.WidenThenNarrow | src/num/cast.rs:29-50 | widening and then narrowing back is the identity |
| IntCast.CastWrapping | src/num/cast.rs:52-55 | `Wrapping` casts by casting its inner value |
| UtilCast.Cast | src/util/cast.rs:27-48 | casts stay within the unsigned types or within the signed types; unsigned narrowing is `mod 2^n`, widening preserves the value, signed narrowing keeps the low bits |
| Bytes.FromBeToBe | src/mem/load_save.rs:40-59 | reading a value's big-endian bytes gives the value back |
| Bytes.Pow256IsPow2 | src/mem/load_save.rs:40-59 | `n` bytes hold exactly as many values as `8 * n` bits, `256^n == 2^(8n)` |
| Bytes.ToBeFromBe | src/mem/load_save.rs:40-59 | writing a byte sequence's big-endian value gives the bytes back |
| Bytes.SwapBytes16 | src/mem/load_save.rs:66-73 | swapping the bytes of a u16 keeps it a u16 and swapping back gives the input |
| Bytes.FromBeOfLoad | src/mem/load_save.rs:66-73 | the host (little-endian) value of two bytes with its bytes swapped is their big-endian value |
| Bytes.StoreOfToBe | src/mem/load_save.rs:82-89 | the host value of a u16's big-endian bytes is the u16 with its bytes swapped |
| LoadSave.Load | src/mem/load_save.rs:40-48 | `load` succeeds iff the buffer holds `size` bytes; the value's image is the first `size` bytes and the rest is the remainder |
| LoadSave.Saved | src/mem/load_save.rs:51-59 | with room, the first `size` bytes become the value's image and the rest is untouched; without room, nothing changes |
| LoadSave.Save | src/mem/load_save.rs:51-59 | the array becomes `Saved` of its old contents; the result is `Some` iff there was room, and the remainder starts at `size` |
| LoadSave.LoadAfterSave | src/mem/load_save.rs:40-59 | `load` after a successful `save` gives back the saved image and the untouched remainder |
| LoadSave.LoadSomeExample | src/mem/load_save.rs:66-73 | `load::<u16>` of `[0x12, 0x34, 0x56]` yields a value whose `from_be` is 0x1234, and leaves `[0x56]` |
| LoadSave.LoadNoneExample | src/mem/load_save.rs:75-80 | `load::<u16>` of a one-byte buffer is `None` |
| LoadSave.SaveExamples | src/mem/load_save.rs:82-98 | saving 0x1234 into three bytes writes its two bytes first; a one-byte buffer is unchanged |
| TakeCast.Take | src/mem/cast.rs:30-40 | `take` succeeds iff `len >= size`, splitting the slice as `load` does: the value's image is the first `size` bytes and the remainder, `len - size` long, is the rest |
| TakeCast.TakeTwice | src/mem/cast.rs:30-40 | two successive takes read the same bytes, and leave the same tail, as one take of their total size |
| TakeCast.Reader.constructor | src/mem/cast.rs:52-53 | a reader starts with the whole slice left |
| TakeCast.Reader.Read | src/mem/cast.rs:53-57 | `read` fails iff fewer than `size` bytes remain, and then leaves the slice alone; on success it returns the first `size` bytes and advances past them |
| TakeCast.ReadTwoWords | src/mem/cast.rs:53-57 | two successive reads of two bytes return bytes 0-1 and 2-3; a buffer shorter than two bytes yields nothing, and one of two or three bytes yields the first pair and then nothing |
| Mem.Region.Reloc | src/mem.rs:32-34 | `lma + reloc == vma` modulo 2^32 |
| Mem.Region.EndLma | src/mem.rs:37-39 | `end_lma - lma == len` when the sum does not overflow |
| Mem.Region.EndVma | src/mem.rs:42-44 | `end_vma - vma == len` when the sum does not overflow |
| Mem.EndRelocates | src/mem.rs:32-44 | the relocation also carries the end of the load image to the end of the run image |
| Mem.RegionExamples | src/mem.rs:52-77 | `{0x2000, 0x3000, 0x100}` gives reloc 0x1000 and ends 0x2100 and 0x3100; `{0x2000, 0x1000}` wraps to `2^32 - 0x1000` |
| OrderedLoad.Load | src/arch/cf/operand.rs:156-163 | a load in a byte order succeeds iff the bytes are there; the value is the big- or little-endian reading of the first `size` bytes, and the remainder follows them |
| OrderedLoad.LoadBe16 | src/arch/cf/decode.rs:33 | a big-endian u16 load is `buf[0] * 256 + buf[1]` with remainder `buf[2..]` |
| Context.DecodeContext.constructor | src/arch/cf/decode_context.rs:26-32 | a context's bits and opword are the first word, and the other words are still to come |
| Context.DecodeContext.New | src/arch/cf/decode_context.rs:26-32 | `new` is `None` iff there is no word; otherwise the bits are the first word, zero-extended |
| Context.DecodeContext.Advance | src/arch/cf/decode_context.rs:34-41 | `advance` is true iff a word remains; it then consumes exactly that word and ORs it into bits 31:16; otherwise nothing changes |
| Context.DecodeContext.Bits | src/arch/cf/decode_context.rs:44 | `bits()` returns the accumulated bits, whose bits 15:0 are always the opword |
| Context.AdvanceKeepsOpword | src/arch/cf/decode_context.rs:39 | `advance` never changes bits 15:0 |
| Context.AdvanceBits | src/arch/cf/decode_context.rs:39 | the pulled word is OR-ed into bits 31:16 on top of what they already held |
| Context.AdvanceKeepsBits | src/arch/cf/decode_context.rs:39 | `advance` never clears a bit |
| Context.AdvancePlacesWord | src/arch/cf/decode_context.rs:28-40 | after the opword and one advance, bits 31:16 are the second word and bits 15:0 the first |
| Context.AdvanceTwiceSharesSlot | src/arch/cf/decode_context.rs:39 | a second advance ORs into the same upper half as the first |
| Context.OpwordWithExtension | src/arch/cf/decode_context.rs:26-44 | `new` followed by `advance` yields `w0 \| w1 << 16` for two words or more, and nothing for fewer |
| DecodeIndex.Node.Mask | src/util/decode_index.rs:278-281 | a trie's index mask is its arity minus one (1, 3, 7, 15) |
| DecodeIndex.SubnodesWalkable | src/old/util/decode_index.rs:69-93 | a scan or trie node has exactly its documented number of subnodes, and each is lookup-safe |
| DecodeIndex.Index | src/util/decode_index.rs:290-293 | `(word >> shift) & mask` is at most the mask, so the subnode access is in bounds |
| DecodeIndex.IndexIsField | src/old/util/decode_index.rs:80-93 | the trie index is the bit field whose least significant bit is at the stored position |
| DecodeIndex.Get | src/util/decode_index.rs:271-284 | `get` on Empty is `None`, and on a leaf it is the item's `try_decode` of the word |
| DecodeIndex.Scan | src/util/decode_index.rs:286-288 | an empty scan finds nothing; a first subnode that answers is the answer; any answer is some subnode's answer |
| DecodeIndex.Seek | src/util/decode_index.rs:290-294 | `seek` answers as the subnode numbered by the bit field `word >> shift & mask` that `Field::field` reads |
| DecodeIndex.ScanFindsFirst | src/util/decode_index.rs:286-288 | `scan` is `None` iff every subnode fails; otherwise it is the result of the first subnode that succeeds |
| DecodeIndex.Scan2Order | src/util/decode_index.rs:271-288 | a two-way scan answers from its first subnode when that succeeds, else from its second |
| DecodeIndex.Route | src/util/decode_index.rs:271-294 | following trie indexes from a lookup-safe node ends in a node that is no trie and no chain |
| DecodeIndex.GetFollowsRoute | src/util/decode_index.rs:271-294 | a lookup answers as the node its route ends in |
| DecodeIndex.EmptyRouteFails | src/util/decode_index.rs:273 | a route ending in Empty fails |
| DecodeIndex.LeafRouteDecodes | src/util/decode_index.rs:274 | a route ending in a leaf answers that item's `try_decode` |
| DecodeIndex.InsDecode | src/util/decode_index.rs:70 | `Ins::try_decode` always succeeds |
| DecodeIndex.InsRouteSucceeds | src/util/decode_index.rs:70-288 | over `Ins`, a lookup succeeds iff the route does not end in Empty, when any scan it ends in starts with a leaf |
| TrieFields.TopOfMasked | src/util/decode_index.rs:75 | the root trie index depends only on bits 15:12 |
| TrieFields.MidOfMasked | src/util/decode_index.rs:93-177 | the second-level trie index depends only on bits 8:6 |
| UtilDecodeTable.RouteAtRoot | src/util/decode_index.rs:74-96 | the root is a 16-way trie on bits 15:12 |
| UtilDecodeTable.RouteIn00 | src/util/decode_index.rs:74-108 | top index 0 continues in the 8-way trie on bits 8:6 |
| UtilDecodeTable.RouteIn11 | src/util/decode_index.rs:74-167 | top index 9 (0o11) ends in the subnode chosen by bits 8:6 |
| UtilDecodeTable.RouteIn15 | src/util/decode_index.rs:74-183 | top index 13 (0o15) ends in the subnode chosen by bits 8:6 |
| UtilDecodeTable.RouteShapeIn00 | src/util/decode_index.rs:99-144 | under top index 0, the lookup ends in Empty iff bits 8:6 are 1 to 3 |
| UtilDecodeTable.RouteShapeIn11 | src/util/decode_index.rs:158-172 | under top index 9, the lookup ends in Empty iff bits 8:6 are not 2, 6 or 7 |
| UtilDecodeTable.RouteShapeIn15 | src/util/decode_index.rs:174-188 | under top index 13, the lookup ends in Empty iff bits 8:6 are not 2, 6 or 7 |
| UtilDecodeTable.RouteShapeElsewhere | src/util/decode_index.rs:79-156 | at any other top index, the lookup ends in Empty iff the index is not 1 to 3 |
| UtilDecodeTable.RouteShape | src/util/decode_index.rs:74-188 | every lookup ends in Empty, a leaf or a scan whose first entry is a leaf, and in Empty exactly off the covered slots |
| UtilDecodeTable.LookupSucceedsExactly | src/util/decode_index.rs:74-294 | the table has no chain, so `get` is defined for every u16 word, and it succeeds exactly on the covered slots |
| UtilDecodeTable.Addl0ReachesAddl | src/util/decode_index.rs:74-183 | every opword matching `Addl0` reaches `Leaf(ADDL)` |
| UtilDecodeTable.Addl1ReachesAddlScan | src/util/decode_index.rs:174-188 | every opword matching `Addl1` reaches the Scan2 [ADDL, ADDXL] and answers ADDL's decode when it succeeds |
| UtilDecodeTable.EmptySlotsFail | src/util/decode_index.rs:79-183 | top index 4-8, 10-12 or 14-15, or 13 with bits 8:6 in {0,1,3,4,5}, finds nothing |
| OldDecodeTable.RouteAtRoot | src/old/cf/decode.rs:24-46 | the root is a 16-way trie on bits 15:12 |
| OldDecodeTable.RouteIn00 | src/old/cf/decode.rs:24-58 | top index 0 continues in the 8-way trie on bits 8:6 |
| OldDecodeTable.RouteIn0003 | src/old/cf/decode.rs:49-114 | with bits 8:6 = 3 and bit 11 clear, bits 10:9 pick BITREVL, BYTEREVL, FF1L or Empty |
| OldDecodeTable.ReverseFamily | src/old/cf/decode.rs:29-114 | 0o000300, 0o001300 and 0o002300 reach BITREVL, BYTEREVL and FF1L; 0o003300 reaches Empty |
| OldDecodeTable.ByterevFields | src/old/cf/decode.rs:103-111 | an opword matching `Byterevl0` has the trie fields that lead to BYTEREVL |
| OldDecodeTable.Byterevl0ReachesByterev | src/old/cf/decode.rs:24-114 | every opword matching `Byterevl0` reaches `Leaf(BYTEREVL)` |
| OldDecodeTable.ImmediateRow | src/old/cf/decode.rs:49-100 | for 0o00·2·· words, bits 11:9 = 0,1,2,3,5,6 reach ORIL, ANDIL, SUBIL, ADDIL, EORIL and CMPIL; 4 reaches the BCLR Scan2; 7 reaches Empty |
| OldDecodeTable.BitOpLong | src/old/cf/decode.rs:123-144 | the first leaf of each bit-operation scan is a `.l` instruction |
| OldDecodeTable.BitOpByte | src/old/cf/decode.rs:123-144 | the second leaf is the `.b` form of the same instruction |
| OldDecodeTable.BitOpScansLongFirst | src/old/cf/decode.rs:49-144 | with top index 0 and bits 8:6 in 4..7, the lookup reaches a Scan2 listing the `.l` variant before the `.b` one |
| OldDecodeTable.EmptyTopSlots | src/old/cf/decode.rs:34-45 | top slots 0o04-0o10, 0o12-0o14, 0o16 and 0o17 are Empty and find nothing |
| OldDecodeTable.MulOpwordFindsNothing | src/old/cf/decode.rs:29-46 | the `Mulul0`/`Mulsl0` opword 0o046000 finds no leaf |
| CfDecodeTable.SameAsUtil | src/cf/decode.rs:24-138 | the current ColdFire table is the utility table, node for node, so every lookup agrees |
| CfDecodeTable.MoveSlots | src/cf/decode.rs:29-106 | top index 1 reaches `Leaf(MOVEB)`, 2 the Scan2 [MOVEL, MOVEAL], 3 the Scan2 [MOVEW, MOVEAW] |
| CfDecodeTable.BitSlotFields | src/cf/decode.rs:49-64 | with top index 0, bits 8:6 in {1,2,3} reach Empty; bits 8:6 = 0 with bit 10 set reach `Leaf(CMPIB)` |
| CfDecodeTable.CmpibExample | src/cf/decode.rs:49-64 | 0o006000 reaches `Leaf(CMPIB)` |
| CfDecodeTable.AddressArithmetic | src/cf/decode.rs:108-133 | 0o15·7·· reaches ADDAL and 0o11·7·· reaches SUBAL |
| CfDecodeTable.NarrowTriesBelowRoot | src/cf/decode.rs:24-138 | below the root there is no chain and no 4- or 16-way trie, so every lookup inspects only the opword |
| CfDecodeTable.NarrowBitManipulation | src/cf/decode.rs:49-94 | the top-index-0 subtree holds only 2- and 8-way tries, scans and leaves |
| CfDecodeTable.NarrowArithmetic | src/cf/decode.rs:108-138 | the 0o11 and 0o15 subtrees hold only 8-way tries, scans and leaves |
| Instructions.Name | src/arch/cf/inst.rs:111-289 | every name the decode tables and encodings refer to is spelled as its record spells it and ends in a size suffix: a dot and `b`, `w` or `l` |
| Encodings.Opcode | src/arch/cf/inst.rs:80-83 | `opcode!((a, b))` puts `a` in bits 15:0 and `b` in bits 31:16 |
| Encodings.Padded | src/arch/cf/inst.rs:85-98 | operand arrays keep the listed operands and are padded with `None` to their length |
| Encodings.Word | src/arch/cf/inst.rs:61-78 | a one-word row keeps its bits and mask, lists exactly the given operands in its two slots, and its flags read back the operand count as arity and the features; a row whose bits lie under its mask and whose operands are real is consistent |
| Encodings.Long | src/arch/cf/inst.rs:61-78 | the same for a two-word row with five operand slots |
| Encodings.MatchesWord | src/arch/cf/decode.rs:55 | an opword can match an encoding only when the encoding's bits lie under its mask |
| Encodings.MatchesLong | src/arch/cf/inst.rs:311-313 | a combined word can match a two-word encoding only when its bits lie under its mask |
| Encodings.RowArity | src/arch/cf/inst.rs:61-106 | the arity packed into a row's flags is the number of listed operands, which are exactly the non-`None` entries |
| Encodings.EncodingTablesConsistent | src/arch/cf/inst.rs:293-316 | every word and long encoding has its bits under its mask, and its arity equals its number of operands |
| Encodings.ArityExamples | src/arch/cf/inst.rs:298-313 | `Addl0` has arity 2, `Byterevl0` 1 and `Mulul0` 2 |
| Encodings.AddlExclusive | src/arch/cf/inst.rs:298-299 | `Addl0` and `Addl1` share a mask with different bits under it, so no opword matches both |
| Encodings.MulExclusive | src/arch/cf/inst.rs:311-313 | `Mulul0` and `Mulsl0` differ only in bit 27, which both masks cover, so no word matches both |
| Encodings.AddlIgnoresOperandFields | src/arch/cf/inst.rs:298 | changing bits 11:9 or 5:0 never changes whether an opword matches `Addl0` |
| CfFlags.ArityBits | src/arch/cf/flags.rs:51 | `arity as u16 & ARITY_MASK` is the arity modulo 8 |
| CfFlags.New | src/arch/cf/flags.rs:49-54 | `new` puts the arity's low bits under `ARITY_MASK` and the features under `FEATURES_MASK` |
| CfFlags.Arity | src/arch/cf/flags.rs:57-59 | the arity is at most 7 |
| CfFlags.Features | src/arch/cf/flags.rs:62-64 | the features never include an arity bit |
| CfFlags.HasAny | src/arch/cf/flags.rs:67-69 | `has_any(g)` can hold only when `g` names a feature bit and the flags carry some feature |
| CfFlags.ArityOfNew | src/arch/cf/flags.rs:26-59 | `arity(new(a, f)) == a & 7` |
| CfFlags.FeaturesOfNew | src/arch/cf/flags.rs:27-64 | `features(new(a, f)) == f & 0xFFF8` |
| CfFlags.MasksPartition | src/arch/cf/flags.rs:26-27 | the two masks are disjoint and together cover 16 bits |
| CfFlags.FeaturesFitMask | src/arch/cf/flags.rs:30-40 | every feature constant lies within `FEATURES_MASK` |
| CfFlags.NewKeepsFeatures | src/arch/cf/flags.rs:30-54 | `new` preserves any set of feature constants |
| CfFlags.HasAnyNothing | src/arch/cf/flags.rs:67-69 | `has_any(0)` is always false |
| CfFlags.HasAnyOfNew | src/arch/cf/flags.rs:67-69 | `has_any(g)` of a new flag word is true iff the features share a bit with `g` |
| CfFlags.CompositesNest | src/arch/cf/flags.rs:43-45 | `ISA_B_UP` ⊂ `ISA_A2_UP` ⊂ `ISA_A_UP`, each adding one ISA level |
| CfFlags.HasAnyWidens | src/arch/cf/flags.rs:43-69 | support for a higher composite implies support for each lower one |
| CfModes.ExtensionWords | src/cf/mode.rs:47-53 | a mode's extension-word count for a size is one of its three counts |
| CfModes.RowOf | src/cf/mode.rs:32-45 | a value up to 0b111100 names a row of the table |
| CfModes.RowsWithinMask | src/cf/mode.rs:32-45 | each of the 12 rows has its bits under its mask and three word counts |
| CfModes.MatchIsRow | src/cf/mode.rs:33-44 | a six-bit value that matches a row is at most 0b111100 and matches the row its fields name |
| CfModes.RowsExclusive | src/cf/mode.rs:33-44 | no six-bit mode value matches two rows |
| CfModes.RowsCover | src/cf/mode.rs:33-44 | a six-bit value matches some row iff it is at most 0b111100 |
| CfModes.ExtensionWordCounts | src/cf/mode.rs:32-53 | rows 0-4 take no extension word; absolute long takes 2; immediate takes 1 for byte and word and 2 for long; none takes more than 2 |
| CfRegisters.DataNum | src/arch/cf/ast.rs:63-65 | a data register's number is at most `MAX_NUM` |
| CfRegisters.AddrNum | src/arch/cf/ast.rs:111-113 | an address register's number is at most `MAX_NUM` |
| CfRegisters.DataWithNum | src/arch/cf/ast.rs:52-60 | `with_num(n)` is `Some` iff `n <= 7`, and then has number `n` |
| CfRegisters.AddrWithNum | src/arch/cf/ast.rs:100-108 | `with_num(n)` is `Some` iff `n <= 7`, and then has number `n` |
| CfRegisters.DataName | src/arch/cf/ast.rs:44-70 | data register `n` is named `dn` |
| CfRegisters.AddrName | src/arch/cf/ast.rs:89-118 | address registers 0-5 are named `a0`..`a5`; FP is `fp` and SP is `sp` |
| CfRegisters.DataNumIdentifies | src/arch/cf/ast.rs:52-65 | `with_num(num(r)) == Some(r)` for every data register |
| CfRegisters.AddrNumIdentifies | src/arch/cf/ast.rs:100-113 | `with_num(num(r)) == Some(r)` for every address register |
| CfRegisters.NamesDistinct | src/arch/cf/ast.rs:44-91 | no two registers share a name |
| CfRegisters.MiscName | src/arch/cf/ast.rs:130-158 | `pc`, `ccr` and `sr` are written by fixed names that no data or address register goes by |
| CfRegisters.MiscNamesDistinct | src/arch/cf/ast.rs:130-158 | the three miscellaneous registers are written differently |
| CfRegisters.RegisterExamples | src/arch/cf/ast.rs:170-286 | the tests: `with_num` at 0, 7 and 8, the names `d3` and `a5`, `fp` and `sp`, `FP == A6` and `SP == A7`, and `pc`, `ccr`, `sr` |
| CfReg.DataWithNum | src/cf/reg.rs:34-40 | `with_num(n)` is `Some` iff `n <= 7`, with number `n` |
| CfReg.AddrWithNum | src/cf/reg.rs:74-80 | `with_num(n)` is `Some` iff `n <= 7`, with number `n` |
| CfReg.DataName | src/cf/reg.rs:24-50 | the name of a data register is that of the enum register with its number |
| CfReg.AddrName | src/cf/reg.rs:64-90 | the name of an address register is that of the enum register with its number |
| CfReg.WithNumHasName | src/cf/reg.rs:26-50 | every register `with_num` builds has a name in the table |
| CfReg.MiscNamesUnshared | src/cf/reg.rs:102-127 | the fixed names of `PcReg`, `CcrReg` and `SrReg` differ from the name of every register `with_num` builds |
| CfReg.RegisterExamples | src/cf/reg.rs:137-189 | the tests: `with_num` at 7 and 8, `d3`, `a3`, `fp`, `sp` |
| CfOperand.DataRegAt | src/arch/cf/operand.rs:147-151 | the data register decoded is the one numbered by the 3-bit field at the position |
| CfOperand.AddrRegAt | src/arch/cf/operand.rs:153-155 | the address register decoded is the one numbered by the 3-bit field at the position |
| CfOperand.ImmAt | src/arch/cf/operand.rs:156-163 | an immediate of `size` bytes succeeds iff they are there, reads them big-endian and leaves the rest |
| CfOperand.Decode | src/arch/cf/operand.rs:142-167 | the register kinds read bits 2:0 or 11:9 and consume nothing; Imm16/Imm32 succeed iff 2/4 bytes remain; every other kind is `None` |
| CfOperand.Imm16Consumes | src/arch/cf/operand.rs:156-159 | Imm16 consumes exactly 2 bytes and yields `buf[0] * 256 + buf[1]`, below 2^16 |
| CfOperand.Imm32Consumes | src/arch/cf/operand.rs:160-163 | Imm32 consumes exactly 4 bytes and yields their big-endian value, below 2^32 |
| CfDecoder.WordDecode | src/arch/cf/decode.rs:50-60 | an opword without the encoding's bits under its mask is refused, and so, for now, is every other one |
| CfDecoder.DecodeWith | src/arch/cf/decode.rs:32-36 | a buffer shorter than 2 bytes decodes to nothing, and, whatever index is used, so does every other buffer |
| CfDecoder.IndexDecode | src/arch/cf/decode.rs:35 | looking the opword up in any index of word encodings yields no statement |
| CfDecoder.DecodeReadsOpword | src/arch/cf/decode.rs:32-36 | otherwise the opword is the first two bytes big-endian, and the bytes after them are passed on |
| CfDecoder.NothingDecodes | src/arch/cf/decode.rs:50-60 | whatever the tree of word encodings holds, no lookup succeeds when the items refuse every opword, as `WordEncoding::decode` now does |
| CfDecoder.Decode | src/arch/cf/decode.rs:32-36 | the top-level decoder yields no statement for any input |
| AstSlot.IdentOf | src/ast/slot.rs:35-41 | `ident` is `Some` exactly for `Ident` and `Resolved`, with the slot's identifier |
| AstSlot.ValueOf | src/ast/slot.rs:45-51 | `value` is `Some` exactly for `Resolved` and `Value`, with the slot's value |
| AstSlot.ValueCopy | src/ast/slot.rs:55-61 | `value_copy` agrees with `value` on every slot |
| AstSlot.FromParts | src/ast/slot.rs:21-30 | for any identifier and value, at least one present, there is a slot whose accessors return them |
| AstSlot.SlotFromAccessors | src/ast/slot.rs:35-61 | every slot has an identifier or a value or both, and is determined by the two accessors |
| AstSlot.ResolvedYieldsBoth | src/ast/slot.rs:35-61 | `Resolved(i, v)` yields identifier `i` and value `v`, also by copy |
| CharLiteral.CharIsScalar | src/old/ast/char.rs:24 | a `char` is a Unicode scalar value |
| CharLiteral.Utf8Bytes | src/old/ast/char.rs:42-44 | UTF-8 takes 1, 2, 3 or 4 bytes by the value's range |
| CharLiteral.DecodeUtf8 | src/old/ast/char.rs:42-44 | a UTF-8 sequence that reads back has 1 to 4 bytes |
| CharLiteral.Utf8RoundTrip | src/old/ast/char.rs:42-44 | every scalar value's UTF-8 bytes read back as the value |
| CharLiteral.Utf16Units | src/old/ast/char.rs:45-47 | UTF-16 takes one unit in the basic multilingual plane and two otherwise, each below 2^16 |
| CharLiteral.Utf16RoundTrip | src/old/ast/char.rs:45-47 | beyond the BMP the units are a high then a low surrogate; the units read back as the value |
| CharLiteral.UnitBytes | src/old/ast/char.rs:48-53 | the units' host bytes are two per unit, each unit's low byte first and its high byte second |
| CharLiteral.Units | src/old/ast/char.rs:48-53 | reading bytes two at a time, low byte first, gives half as many units, each below 2^16 |
| CharLiteral.UnitsOfUnitBytes | src/old/ast/char.rs:48-53 | the bytes of any code units read back as those units |
| CharLiteral.Utf32Bytes | src/old/ast/char.rs:57-65 | UTF-32 is always 4 bytes |
| CharLiteral.Utf32RoundTrip | src/old/ast/char.rs:59-65 | the four bytes, read as the host reads a `u32`, are the value |
| CharLiteral.Encoded | src/old/ast/char.rs:40-70 | UTF-8 in the shortest form, 1 to 4 bytes by the value's range, that reads back as the value; UTF-16 of 2 bytes iff the value is in the BMP and 4 otherwise, whose units read back as the value; or exactly 4 bytes of UTF-32 whose host value is the value |
| CharLiteral.Encode | src/old/ast/char.rs:40-70 | `encode` writes the encoded bytes at the head of `dst`, returns their number (always 4 for UTF-32) and leaves the rest of `dst` untouched |
| CharLiteral.Utf8Examples | src/old/ast/char.rs:78-95 | 'a' → `61`; U+211D9 → `F0 A1 87 99` |
| CharLiteral.Utf16Examples | src/old/ast/char.rs:98-115 | 'a' → `61 00`; U+211D9 → `44 D8 D9 DD` |
| CharLiteral.Utf32Examples | src/old/ast/char.rs:117-135 | 'a' → `61 00 00 00`; U+211D9 → `D9 11 02 00` |
| MotoFormat.HexDigit | src/old/fmt/moto.rs:73 | `{:02X}` uses the digits 0-9 and uppercase A-F |
| MotoFormat.HexByte | src/old/fmt/moto.rs:73 | one byte's escape is a backslash, an `x` and two hex digits |
| MotoFormat.EscapeBytes | src/old/fmt/moto.rs:72-74 | the escapes of n bytes take 4n characters |
| MotoFormat.EscapeUtf8 | src/old/fmt/moto.rs:69-76 | a character's hex escape takes 4 to 16 characters, one escape per UTF-8 byte |
| MotoFormat.Escape | src/old/fmt/moto.rs:56-67 | a character appears as itself iff it is printable ASCII other than `"` and `\`; the quote and backslash arms come before the printable range |
| MotoFormat.EscapeAll | src/old/fmt/moto.rs:47-49 | escaping never shortens a string |
| MotoFormat.Quoted | src/old/fmt/moto.rs:44-52 | the literal starts and ends with a double quote and is at least two characters longer than the string |
| MotoFormat.EscapePrintable | src/old/fmt/moto.rs:56-76 | every character's escape is printable ASCII |
| MotoFormat.EscapeBytesPrintable | src/old/fmt/moto.rs:72-74 | a run of hex escapes is printable ASCII |
| MotoFormat.EscapeAllPrintable | src/old/fmt/moto.rs:44-76 | the escaped string is printable ASCII |
| MotoFormat.QuotedPrintable | src/old/fmt/moto.rs:44-76 | the whole literal is printable ASCII |
| MotoFormat.Formatter.constructor | src/old/fmt/moto.rs:38-40 | a new formatter has written nothing |
| MotoFormat.Formatter.WriteChar | src/old/fmt/moto.rs:44-52 | `write_char` appends the character |
| MotoFormat.Formatter.WriteStr | src/old/fmt/moto.rs:57-63 | `write_str` appends the string |
| MotoFormat.FmtChar | src/old/fmt/moto.rs:55-67 | `fmt_char` appends exactly the character's escape |
| MotoFormat.FmtEscUtf8 | src/old/fmt/moto.rs:69-76 | `fmt_esc_utf8` appends the hex escape of each UTF-8 byte in turn |
| MotoFormat.VisitStr | src/old/fmt/moto.rs:44-52 | `visit_str` appends exactly the quoted, escaped literal |
| MotoFormat.FormatLiteral | src/old/fmt/moto.rs:38-52 | `visit_str` on a new formatter writes exactly the quoted literal, which is printable ASCII |
| MotoFormat.HexValue | src/old/fmt/moto.rs:73 | a hex digit's value is below 16 |
| MotoFormat.HexDigitValue | src/old/fmt/moto.rs:73 | each hex digit reads back as its value |
| MotoFormat.HexByteReadsBack | src/old/fmt/moto.rs:73 | one `\xHH` escape reads back as its byte |
| MotoFormat.EscapeBytesReadBack | src/old/fmt/moto.rs:72-74 | a run of hex escapes reads back as its bytes |
| MotoFormat.EscapeReadsBack | src/old/fmt/moto.rs:56-76 | every character's escape reads back as its UTF-8 bytes |
| MotoFormat.EscapeAllReadsBack | src/old/fmt/moto.rs:44-76 | the escaped string reads back as the string's UTF-8 bytes, so escaping loses nothing |
| MotoFormat.QuotedReadsBack | src/old/fmt/moto.rs:44-52 | the text between the quotes reads back as the string's UTF-8 bytes |
| MotoFormat.QuotedEh | src/old/fmt/moto.rs:83-100 | `"eh"` is written as `"\"eh\""` |
| MotoFormat.QuotedControl | src/old/fmt/moto.rs:57-63 | a tab becomes `\t`, the quote `\"` and the backslash `\\` |
| MotoFormat.EscapeHexExamples | src/old/fmt/moto.rs:55-76 | 0x0B → `\x0B`, 0x7F → `\x7F`, U+00E9 → `\xC3\xA9` |

## Left out

- `Node::lookup` and `get2` (src/util/decode_index.rs:243-269): `lookup` is `panic!()`, so `get2` has no defined behaviour.
- `Node::get` on `Chain` panics (src/util/decode_index.rs:282). The model makes lookups that meet a chain a precondition (`Walkable`), and no table contains one. The documented meaning of `Chain`, a lookup of the single subnode with the next input word (src/old/util/decode_index.rs:97-99), is therefore not modelled: no lookup reads a second word.
- `DecodeIndex::decode` in src/old/util/decode_index.rs:115-117 is `panic!()`. Only the node type and its documented meaning are modelled, by `DecodeIndex`.
- The Rust array lengths of the node variants are modelled by the `Shaped` predicate, not by the types.
- DecodeIndex.Seek and the trie nodes hold the field position as a `bv4`, where the source's `shift` is a `u8` (src/util/decode_index.rs:290). A node with a position of 16 or more, whose `word >> shift` panics in a debug build, cannot be represented; every table in the source uses positions below 16.
- The `size_of` tests (src/util/decode_index.rs:302-310) concern memory layout and have no Dafny counterpart.
- src/util/decode_index2.rs has no lookup function, and its tables are a subset of the utility table. They are not modelled.
- src/arch/cf/encoding.rs duplicates the tables in src/arch/cf/inst.rs and is not compiled, so it is not modelled.
- The static `Instruction` records of src/arch/cf/inst.rs (lines 108-289) hold only a `name` (the struct at lines 22-25); the encoding tables are separate (lines 293-316) and are modelled by `Encodings`. Only the 40 of the 166 records that a decode table or an encoding refers to are modelled, as the `Mnemonic` datatype and its `Name`; the other 126 are left out, among them the 15 without a size suffix, such as `cpushl`, `halt`, `nop` and `rts`. No property of the names is proved beyond the size suffix and the `.l`/`.b` suffixes used by `OldDecodeTable`.
- Encodings.WordEncoding and Encodings.LongEncoding list only the encoding rows present in the source (`Addl0`, `Addl1`, `Byterevl0`, `Mulul0`, `Mulsl0`). The operand kinds of the effective-address operands are kept as opaque constructors, because their letter codes name mode sets that no code decodes.
- Declaration-only files are mirrored only where a modelled operation needs their types: `CfStmt` and `Ident`. They include src/ast/node.rs, src/ast/mod.rs, src/ast.rs, src/cf/ast.rs, src/arch/cf/arg.rs, src/cf/ops.rs, src/arch/mod.rs, src/decode.rs, src/arch/cf/mod.rs, src/util/bit_trie.rs and src/old/ops.rs.
- The `Arg` type that `Operand::decode` returns is mirrored as `CfOperand.Arg`: registers and an immediate value.
- src/ast/visitor.rs is not modelled: its default methods return `R::default()`.
- src/old/cf/disasm.rs is not modelled: its dispatch target is empty.
- The commented-out code is not modelled: addressing-mode dispatch, the `Mode` enum, the opcode records, the quick-immediate remap and register constraints.
- The mode handler functions of src/cf/mode.rs (lines 55-66) are empty, so `CfModes.Handler` only names them.
- CfModes.RowOf and CfModes.Matches have no counterpart function in the source, which only declares the table. They are the model's reading of how a mode value selects a row.
- The `Display` implementations of the data and address registers are not modelled as formatters; they write `name()`, which is modelled. Those of `PcReg`, `CcrReg` and `SrReg` (src/arch/cf/ast.rs:130-158, src/cf/reg.rs:102-127) write fixed names, modelled by `CfRegisters.MiscName`; both files declare the three types alike, so the model declares them once.
- src/mem/prim.rs (`read_u16` and relatives) is not modelled: it wraps `ByteOrdered` and `Endian`, which are not part of this model. Neither are `u16::load(buf, BE)`, `DataReg::decode` and `AddrReg::decode`, so `OrderedLoad.Load`, `CfOperand.DataRegAt` and `CfOperand.AddrRegAt` give them the meaning their names and doc comments state: a big- or little-endian read, and the register numbered by the 3-bit field at the given position.
- Raw pointer loads and stores, `transmute` and `slice::from_raw_parts` are modelled as their byte-level meaning on a little-endian host.
- Field.Field and Field.SetField are modelled for a `u16` word with a `u8` mask and a shift below 16. Those are the instantiations the tables and tests use; other widths are not modelled.
- Words.ToUsize assumes a 64-bit `usize`.
- Mem.Region.EndLma and Mem.Region.EndVma require that the sum fits a `u32`: `lma + len` and `vma + len` respectively. On overflow the source's plain `+` (src/mem.rs:37-44) panics in a debug build and wraps in a release build. Neither outcome is modelled.
- CfDecoder.Opword states no relation to the byte values in its own contract. `CfDecoder.DecodeReadsOpword` states the big-endian value through `OrderedLoad.LoadBe16` instead.
- CfDecoder.WordDecode does not decode operands or assemble a statement, because the source does neither yet (src/arch/cf/decode.rs:56-58).
- Formatter errors are not modelled: `write_char`, `write_str` and `write!` always succeed in the model. A formatter error would stop `visit_str` early.
- `MotoStyled` and its `Display` impl (src/old/fmt/moto.rs:26-30) are not modelled. Its `fmt` calls `visit_stmts`, which the `Visitor` trait of src/ast/visitor.rs does not define. The test at src/old/fmt/moto.rs:83-100 goes through that path, and no default visitor method reaches `visit_str`. `MotoFormat.FormatLiteral` therefore models `visit_str` called directly on a new formatter (`MotoFormatter::new`, src/old/fmt/moto.rs:38-40). `MotoFormat.QuotedEh` states the output that test expects for the string `eh`.
- CharLiteral.DecodeUtf8 and MotoFormat.Unescape are reference readers, used only to state the round trips. They accept some byte sequences that are not well-formed UTF-8, such as overlong three-byte forms, and do not reject every malformed input.
- CharLiteral.Encode requires room in `dst` for the encoded bytes, because the source panics (`encode_utf8` and `copy_from_slice` into a shorter slice).
- CfReg.DataName and CfReg.AddrName require a register number of at most 7, because `name()` indexes an eight-entry table and panics beyond it (src/cf/reg.rs:47-49, 87-89). Only `with_num` builds registers that meet this; a register built directly from a larger number is not modelled.
- Context.DecodeContext holds the words still to come as a finite `seq`, where the source takes any `Iterator<Item = u16>` (src/arch/cf/decode_context.rs:19-22). An iterator that yields `Some` again after `None`, or never ends, cannot be represented.

