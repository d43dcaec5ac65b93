/** Bytes, and the two byte orders a value can be laid out in. The host the
    raw loads run on is taken to be little-endian; a value read from memory
    is therefore its bytes read in little-endian order. */
module Bytes {
  import IntCast

  newtype Byte = b: int | 0 <= b < 256

  /** The number of values `n` bytes can hold. */
  function Pow256(n: nat): (p: nat)
    ensures p >= 1
  {
    if n == 0 then 1 else 256 * Pow256(n - 1)
  }

  /** `n` bytes hold as many values as `8 * n` bits. */
  lemma {:induction false} Pow256IsPow2(n: nat)
    ensures Pow256(n) == IntCast.Pow2(8 * n)
  {
    if n > 0 {
      Pow256IsPow2(n - 1);
      IntCast.Pow2Widths();
      IntCast.Pow2Add(8, 8 * (n - 1));
      assert 8 + 8 * (n - 1) == 8 * n;
    }
  }

  /** The value of `bs` read most significant byte first. */
  function FromBe(bs: seq<Byte>): (v: nat)
    ensures v < Pow256(|bs|)
  {
    if |bs| == 0 then 0 else FromBe(bs[..|bs| - 1]) * 256 + bs[|bs| - 1] as nat
  }

  /** The `n` bytes of `v`, most significant first. */
  function ToBe(v: nat, n: nat): (bs: seq<Byte>)
    requires v < Pow256(n)
    ensures |bs| == n
  {
    if n == 0 then [] else ToBe(v / 256, n - 1) + [(v % 256) as Byte]
  }

  function Reverse(bs: seq<Byte>): (r: seq<Byte>)
    ensures |r| == |bs|
    ensures forall i :: 0 <= i < |bs| ==> r[i] == bs[|bs| - 1 - i]
  {
    if |bs| == 0 then [] else [bs[|bs| - 1]] + Reverse(bs[..|bs| - 1])
  }

  /** The value of `bs` read least significant byte first: the value a load
      from memory produces on the host. */
  function FromLe(bs: seq<Byte>): (v: nat)
    ensures v < Pow256(|bs|)
  {
    FromBe(Reverse(bs))
  }

  /** Reading the big-endian bytes of a value gives the value back. */
  lemma {:induction false} FromBeToBe(v: nat, n: nat)
    requires v < Pow256(n)
    ensures FromBe(ToBe(v, n)) == v
  {
    if n > 0 {
      var bs := ToBe(v, n);
      assert bs[..n - 1] == ToBe(v / 256, n - 1);
      FromBeToBe(v / 256, n - 1);
    }
  }

  /** Writing the value of a byte sequence gives the sequence back. */
  lemma {:induction false} ToBeFromBe(bs: seq<Byte>)
    ensures ToBe(FromBe(bs), |bs|) == bs
  {
    if |bs| > 0 {
      var init := bs[..|bs| - 1];
      var v := FromBe(bs);
      assert v / 256 == FromBe(init);
      assert v % 256 == bs[|bs| - 1] as nat;
      ToBeFromBe(init);
      assert bs == init + [bs[|bs| - 1]];
    }
  }

  /** `u16::from_be` and `u16::to_be` on a little-endian host: both swap the
      two bytes of the value. */
  function SwapBytes16(v: nat): (r: nat)
    requires v < 0x1_0000
    ensures r < 0x1_0000
    ensures v == (r % 256) * 256 + r / 256
  {
    (v % 256) * 256 + v / 256
  }

  /** A `u16` loaded on the host and passed through `from_be` is the
      big-endian reading of its two bytes. */
  lemma FromBeOfLoad(b0: Byte, b1: Byte)
    ensures SwapBytes16(FromLe([b0, b1])) == FromBe([b0, b1])
  {
    assert Reverse([b0, b1]) == [b1, b0];
    assert [b1, b0][..1] == [b1];
    assert [b0, b1][..1] == [b0];
    assert FromBe([b1]) == b1 as nat by { assert [b1][..0] == []; }
    assert FromBe([b0]) == b0 as nat by { assert [b0][..0] == []; }
    assert FromLe([b0, b1]) == b1 as nat * 256 + b0 as nat;
  }

  /** A value passed through `to_be` and stored on the host lies in memory
      most significant byte first. */
  lemma StoreOfToBe(v: nat)
    requires v < 0x1_0000
    ensures FromLe(ToBe(v, 2)) == SwapBytes16(v)
  {
    assert Pow256(2) == 0x1_0000 && Pow256(1) == 256;
    var bs := ToBe(v, 2);
    assert ToBe(v / 256, 1) == [((v / 256) % 256) as Byte];
    assert bs == [((v / 256) % 256) as Byte, (v % 256) as Byte];
    assert Reverse(bs) == [bs[1], bs[0]];
    assert Reverse(bs)[..1] == [bs[1]];
    assert (v / 256) % 256 == v / 256;
    assert FromBe([bs[1]]) == bs[1] as nat;
  }
}

/** The `LoadSaveRaw` trait on byte slices: a value of a `Copy` type `T` is
    loaded from, or saved into, the first `size_of::<T>()` bytes. A value is
    represented here by its byte image in memory, of length `size`. */
module LoadSave {
  import opened Wrappers
  import opened Bytes

  /** `buf.load::<T>()`: the leading `size` bytes and the rest of the buffer,
      or `None` when the buffer is shorter than `size`. */
  function Load(buf: seq<Byte>, size: nat): (r: Option<(seq<Byte>, seq<Byte>)>)
    ensures r.Some? <==> |buf| >= size
    ensures r.Some? ==> |r.value.0| == size && r.value.0 + r.value.1 == buf
  {
    if |buf| >= size then
      assert buf[..size] + buf[size..] == buf;
      Some((buf[..size], buf[size..]))
    else
      None
  }

  /** The buffer after `save`: the image over its leading bytes, or the buffer
      unchanged when it is too short. */
  function Saved(buf: seq<Byte>, image: seq<Byte>): (r: seq<Byte>)
    ensures |r| == |buf|
    ensures |buf| >= |image| ==> r[..|image|] == image && r[|image|..] == buf[|image|..]
    ensures |buf| < |image| ==> r == buf
  {
    if |buf| >= |image| then image + buf[|image|..] else buf
  }

  /** `buf.save(val)`, for a value whose byte image is `image`. On success the
      result is the offset at which the remaining slice starts. */
  method Save(buf: array<Byte>, image: seq<Byte>) returns (rest: Option<nat>)
    modifies buf
    ensures buf[..] == Saved(old(buf[..]), image)
    ensures rest.Some? <==> buf.Length >= |image|
    ensures rest.Some? ==> rest.value == |image|
  {
    if buf.Length >= |image| {
      forall i | 0 <= i < |image| {
        buf[i] := image[i];
      }
      rest := Some(|image|);
    } else {
      rest := None;
    }
  }

  /** Loading right after saving gives back the saved image, followed by the
      untouched rest of the buffer. */
  lemma LoadAfterSave(buf: seq<Byte>, image: seq<Byte>)
    requires |buf| >= |image|
    ensures Load(Saved(buf, image), |image|) == Some((image, buf[|image|..]))
  {
  }

  /** `load_some`: `[0x12, 0x34, 0x56]` yields `0x1234` through `from_be` and
      leaves `[0x56]`. */
  lemma LoadSomeExample()
    ensures Load([0x12, 0x34, 0x56], 2).Some?
    ensures SwapBytes16(FromLe(Load([0x12, 0x34, 0x56], 2).value.0)) == 0x1234
    ensures Load([0x12, 0x34, 0x56], 2).value.1 == [0x56]
  {
    var r := Load([0x12, 0x34, 0x56], 2);
    assert r.value.0 == [0x12, 0x34];
    FromBeOfLoad(0x12, 0x34);
    assert [0x12 as Byte, 0x34][..1] == [0x12];
  }

  /** `load_none`: a one-byte buffer holds no `u16`. */
  lemma LoadNoneExample()
    ensures Load([0x12], 2) == None
  {
  }

  /** `save_some` and `save_none`: `0x1234u16.to_be()` saved into
      `[0, 0, 0x56]` gives `[0x12, 0x34, 0x56]`; into `[0]` it changes
      nothing. */
  lemma SaveExamples()
    ensures FromLe([0x12, 0x34]) == SwapBytes16(0x1234)
    ensures Saved([0, 0, 0x56], [0x12, 0x34]) == [0x12, 0x34, 0x56]
    ensures Saved([0], [0x12, 0x34]) == [0]
  {
    StoreOfToBe(0x1234);
    assert ToBe(0x1234, 2) == [0x12, 0x34];
  }
}

/** The `TakeCast` trait: `take` splits a value's image off the front of an
    immutable byte slice, and `ReadCast::read` advances a slice reference past
    it. */
module TakeCast {
  import opened Wrappers
  import opened Bytes
  import LoadSave

  /** `take` splits a value's image off the front exactly as `load` does;
      the remainder is the suffix after `size` bytes, `len - size` long. */
  function Take(buf: seq<Byte>, size: nat): (r: Option<(seq<Byte>, seq<Byte>)>)
    ensures r.Some? <==> |buf| >= size
    ensures r.Some? ==> r.value.0 == buf[..size] && r.value.1 == buf[size..]
    ensures r.Some? ==> |r.value.1| == |buf| - size
  {
    LoadSave.Load(buf, size)
  }

  /** Taking `a` bytes and then `b` bytes is taking `a + b` bytes and
      splitting them. */
  lemma {:induction false} TakeTwice(buf: seq<Byte>, a: nat, b: nat)
    requires |buf| >= a + b
    ensures Take(buf, a).Some? && Take(Take(buf, a).value.1, b).Some?
    ensures Take(buf, a).value.0 + Take(Take(buf, a).value.1, b).value.0
            == Take(buf, a + b).value.0
    ensures Take(Take(buf, a).value.1, b).value.1 == Take(buf, a + b).value.1
  {
    var first := Take(buf, a).value;
    var second := Take(first.1, b).value;
    var both := Take(buf, a + b).value;
    assert first.0 + second.0 + second.1 == both.0 + both.1;
  }

  /** A `&[u8]` that `read` advances. */
  class Reader {
    var rest: seq<Byte>

    constructor (buf: seq<Byte>)
      ensures rest == buf
    {
      rest := buf;
    }

    /** `read::<T>()` for a `T` of `size` bytes: the value's image, with the
        slice advanced past it, or `None` with the slice unchanged. */
    method Read(size: nat) returns (value: Option<seq<Byte>>)
      modifies this
      ensures value.None? <==> |old(rest)| < size
      ensures value.None? ==> rest == old(rest)
      ensures value.Some? ==> |value.value| == size && value.value + rest == old(rest)
    {
      var taken := Take(rest, size);
      if taken.None? {
        return None;
      }
      rest := taken.value.1;
      value := Some(taken.value.0);
    }
  }

  /** Two successive reads consume the bytes in order. */
  method ReadTwoWords(buf: seq<Byte>) returns (first: Option<seq<Byte>>, second: Option<seq<Byte>>)
    ensures |buf| >= 4 ==> first == Some(buf[..2]) && second == Some(buf[2..4])
    ensures |buf| < 2 ==> first == None && second == None
    ensures 2 <= |buf| < 4 ==> first == Some(buf[..2]) && second == None
  {
    var reader := new Reader(buf);
    first := reader.Read(2);
    second := reader.Read(2);
    if |buf| >= 4 {
      assert first.value == buf[..2];
      assert reader.rest == buf[4..];
      assert buf[..2] + second.value + buf[4..] == buf;
    }
  }
}

/** A memory region: where it is loaded (LMA), where it runs (VMA), and its
    length, all `u32`. */
module Mem {

  const U32_MODULUS: int := 0x1_0000_0000

  type U32 = x: int | 0 <= x < U32_MODULUS

  datatype Region = Region(lma: U32, vma: U32, len: U32) {

    /** `self.vma.wrapping_sub(self.lma)`: LMA + relocation = VMA, modulo
        2^32. */
    function Reloc(): (r: U32)
      ensures (lma + r) % U32_MODULUS == vma
    {
      (vma - lma) % U32_MODULUS
    }

    /** `self.lma + self.len`, which panics on overflow. */
    function EndLma(): (r: U32)
      requires lma + len < U32_MODULUS
      ensures r - lma == len
    {
      lma + len
    }

    /** `self.vma + self.len`, which panics on overflow. */
    function EndVma(): (r: U32)
      requires vma + len < U32_MODULUS
      ensures r - vma == len
    {
      vma + len
    }
  }

  /** The end of the region relocates like its start. */
  lemma EndRelocates(region: Region)
    requires region.lma + region.len < U32_MODULUS
    requires region.vma + region.len < U32_MODULUS
    ensures (region.EndLma() + region.Reloc()) % U32_MODULUS == region.EndVma()
  {
    var r := region.Reloc();
    assert (region.lma + r) % U32_MODULUS == region.vma;
    assert region.EndLma() + r == (region.lma + r) + region.len;
  }

  /** `reloc_positive`, `reloc_negative`, `end_lma` and `end_vma`. */
  lemma RegionExamples()
    ensures Region(0x2000, 0x3000, 0x100).Reloc() == 0x1000
    ensures Region(0x2000, 0x1000, 0x100).Reloc() == U32_MODULUS - 0x1000
    ensures Region(0x2000, 0x3000, 0x100).EndLma() == 0x2100
    ensures Region(0x2000, 0x3000, 0x100).EndVma() == 0x3100
  {
  }
}

/** The `Load` trait with an explicit byte order, as `u16::load(buf, BE)`
    uses it. Its implementation is not part of this model; it is specified as
    splitting off the first `size` bytes and reading them in that order. */
module OrderedLoad {
  import opened Wrappers
  import opened Bytes
  import LoadSave

  datatype ByteOrder = BE | LE

  function Load(buf: seq<Byte>, size: nat, order: ByteOrder): (r: Option<(nat, seq<Byte>)>)
    ensures r.Some? <==> |buf| >= size
    ensures r.Some? ==> r.value.0 < Pow256(size) && r.value.1 == buf[size..]
    ensures r.Some? && order == BE ==> r.value.0 == FromBe(buf[..size])
    ensures r.Some? && order == LE ==> r.value.0 == FromLe(buf[..size])
  {
    match LoadSave.Load(buf, size)
    case None => None
    case Some((image, rest)) =>
      Some((if order == BE then FromBe(image) else FromLe(image), rest))
  }

  /** A big-endian `u16` is the first byte times 256 plus the second. */
  lemma LoadBe16(buf: seq<Byte>)
    requires |buf| >= 2
    ensures Load(buf, 2, BE) == Some((buf[0] as nat * 256 + buf[1] as nat, buf[2..]))
  {
    var image := buf[..2];
    assert image == [buf[0], buf[1]];
    assert image[..1] == [buf[0]];
    assert [buf[0]][..0] == [];
    assert FromBe([buf[0]]) == buf[0] as nat;
  }
}
