/** Character literals of the older assembly syntax tree, and their encoding
    into a byte buffer as UTF-8 (section 3 of RFC 3629), UTF-16 (section 2.1
    of RFC 2781) or UTF-32. The UTF-16 code units and the UTF-32 value are
    copied out of host memory, so they lie in little-endian byte order. */
module CharLiteral {
  import opened Wrappers
  import opened Bytes

  datatype Encoding = Utf8 | Utf16 | Utf32

  /** `Char { value, encoding }` */
  datatype Char = Char(value: char, encoding: Encoding)

  /** A Unicode scalar value: a code point that is not a surrogate. */
  predicate IsScalar(c: nat) {
    c <= 0x10FFFF && !(0xD800 <= c <= 0xDFFF)
  }

  lemma CharIsScalar(ch: char)
    ensures IsScalar(ch as nat)
  {
  }

  /** The UTF-8 form of a scalar value: one byte below 0x80, two below 0x800,
      three below 0x10000 and four otherwise. */
  function Utf8Bytes(c: nat): (bs: seq<Byte>)
    requires IsScalar(c)
    ensures |bs| == (if c < 0x80 then 1 else if c < 0x800 then 2 else if c < 0x1_0000 then 3 else 4)
  {
    var q1 := c / 0x40;
    var q2 := q1 / 0x40;
    var q3 := q2 / 0x40;
    if c < 0x80 then
      [c as Byte]
    else if c < 0x800 then
      [(0xC0 + q1) as Byte, (0x80 + c % 0x40) as Byte]
    else if c < 0x1_0000 then
      [(0xE0 + q2) as Byte, (0x80 + q1 % 0x40) as Byte, (0x80 + c % 0x40) as Byte]
    else
      [(0xF0 + q3) as Byte, (0x80 + q2 % 0x40) as Byte, (0x80 + q1 % 0x40) as Byte, (0x80 + c % 0x40) as Byte]
  }

  /** A byte that continues a UTF-8 sequence, and its six payload bits. */
  predicate IsContinuation(b: Byte) {
    0x80 <= b < 0xC0
  }

  /** Reading back a UTF-8 sequence of one to four bytes: the lead byte says
      how many continuation bytes follow, and each of them carries six more
      bits; `None` for a sequence of any other shape. */
  function DecodeUtf8(bs: seq<Byte>): (r: Option<nat>)
    ensures r.Some? ==> 1 <= |bs| <= 4
  {
    if |bs| == 1 && bs[0] < 0x80 then
      Some(bs[0] as nat)
    else if |bs| == 2 && 0xC2 <= bs[0] < 0xE0 && IsContinuation(bs[1]) then
      Some((bs[0] as nat - 0xC0) * 0x40 + (bs[1] as nat - 0x80))
    else if |bs| == 3 && 0xE0 <= bs[0] < 0xF0 && IsContinuation(bs[1]) && IsContinuation(bs[2]) then
      Some(((bs[0] as nat - 0xE0) * 0x40 + (bs[1] as nat - 0x80)) * 0x40 + (bs[2] as nat - 0x80))
    else if |bs| == 4 && 0xF0 <= bs[0] < 0xF5 && IsContinuation(bs[1]) && IsContinuation(bs[2]) &&
            IsContinuation(bs[3]) then
      Some((((bs[0] as nat - 0xF0) * 0x40 + (bs[1] as nat - 0x80)) * 0x40 + (bs[2] as nat - 0x80)) * 0x40 +
           (bs[3] as nat - 0x80))
    else
      None
  }

  /** Every scalar value's UTF-8 form has the shape its length calls for and
      reads back as the value. */
  lemma Utf8RoundTrip(c: nat)
    requires IsScalar(c)
    ensures DecodeUtf8(Utf8Bytes(c)) == Some(c)
  {
    var q1 := c / 0x40;
    var q2 := q1 / 0x40;
    var q3 := q2 / 0x40;
    assert c == q1 * 0x40 + c % 0x40;
    assert q1 == q2 * 0x40 + q1 % 0x40;
    assert q2 == q3 * 0x40 + q2 % 0x40;
    var bs := Utf8Bytes(c);
    if c < 0x80 {
    } else if c < 0x800 {
      assert 2 <= q1 < 0x20;
      assert DecodeUtf8(bs) == Some(q1 * 0x40 + c % 0x40);
    } else if c < 0x1_0000 {
      assert q2 < 0x10;
      assert DecodeUtf8(bs) == Some((q2 * 0x40 + q1 % 0x40) * 0x40 + c % 0x40);
    } else {
      assert q3 <= 4;
      assert DecodeUtf8(bs) == Some(((q3 * 0x40 + q2 % 0x40) * 0x40 + q1 % 0x40) * 0x40 + c % 0x40);
    }
  }

  /** The UTF-16 code units of a scalar value: the value itself in the basic
      multilingual plane, otherwise a high and a low surrogate carrying the
      20 bits of `c - 0x10000`. */
  function Utf16Units(c: nat): (us: seq<nat>)
    requires IsScalar(c)
    ensures |us| == (if c < 0x1_0000 then 1 else 2)
    ensures forall i :: 0 <= i < |us| ==> us[i] < 0x1_0000
  {
    if c < 0x1_0000 then
      [c]
    else
      [0xD800 + (c - 0x1_0000) / 0x400, 0xDC00 + (c - 0x1_0000) % 0x400]
  }

  /** Reading back one or two UTF-16 code units. */
  function DecodeUtf16(us: seq<nat>): (r: Option<nat>)
  {
    if |us| == 1 && us[0] < 0x1_0000 && !(0xD800 <= us[0] <= 0xDFFF) then
      Some(us[0])
    else if |us| == 2 && 0xD800 <= us[0] < 0xDC00 && 0xDC00 <= us[1] < 0xE000 then
      Some(0x1_0000 + (us[0] - 0xD800) * 0x400 + (us[1] - 0xDC00))
    else
      None
  }

  /** A value outside the basic multilingual plane becomes a high surrogate
      followed by a low one, and the units read back as the value. */
  lemma Utf16RoundTrip(c: nat)
    requires IsScalar(c)
    ensures c >= 0x1_0000 ==>
      0xD800 <= Utf16Units(c)[0] < 0xDC00 && 0xDC00 <= Utf16Units(c)[1] < 0xE000
    ensures DecodeUtf16(Utf16Units(c)) == Some(c)
  {
  }

  /** The bytes of the code units, each unit least significant byte first. */
  function UnitBytes(us: seq<nat>): (bs: seq<Byte>)
    requires forall i :: 0 <= i < |us| ==> us[i] < 0x1_0000
    ensures |bs| == 2 * |us|
    ensures forall i :: 0 <= i < |us| ==> bs[2 * i] as nat == us[i] % 0x100 && bs[2 * i + 1] as nat == us[i] / 0x100
  {
    if us == [] then [] else [(us[0] % 0x100) as Byte, (us[0] / 0x100) as Byte] + UnitBytes(us[1..])
  }

  /** Reading the bytes back two at a time, each pair least significant byte
      first, as the host reads a `u16`. */
  function Units(bs: seq<Byte>): (us: seq<nat>)
    ensures |us| == |bs| / 2
    ensures forall i :: 0 <= i < |us| ==> us[i] < 0x1_0000
  {
    if |bs| < 2 then [] else [bs[0] as nat + 0x100 * bs[1] as nat] + Units(bs[2..])
  }

  /** The code units' bytes read back as the code units. */
  lemma {:induction false} UnitsOfUnitBytes(us: seq<nat>)
    requires forall i :: 0 <= i < |us| ==> us[i] < 0x1_0000
    ensures Units(UnitBytes(us)) == us
  {
    if us != [] {
      var bs := UnitBytes(us);
      assert bs[2..] == UnitBytes(us[1..]);
      UnitsOfUnitBytes(us[1..]);
      assert (us[0] % 0x100) + 0x100 * (us[0] / 0x100) == us[0];
      assert us == [us[0]] + us[1..];
    }
  }

  /** The four bytes of the scalar value, least significant first. */
  function Utf32Bytes(c: nat): (bs: seq<Byte>)
    requires IsScalar(c)
    ensures |bs| == 4
  {
    assert Pow256(4) == 0x1_0000_0000;
    Reverse(ToBe(c, 4))
  }

  /** The UTF-32 bytes, read as the host reads a `u32`, give the value back. */
  lemma Utf32RoundTrip(c: nat)
    requires IsScalar(c)
    ensures FromLe(Utf32Bytes(c)) == c
  {
    assert Pow256(4) == 0x1_0000_0000;
    var be := ToBe(c, 4);
    assert Reverse(Reverse(be)) == be;
    FromBeToBe(c, 4);
  }

  /** The bytes `encode` writes for a character literal. */
  function Encoded(ch: Char): (bs: seq<Byte>)
    ensures 1 <= |bs| <= 4
    ensures ch.encoding == Utf8 ==> DecodeUtf8(bs) == Some(ch.value as nat)
    ensures ch.encoding == Utf8 ==>
      |bs| == (if ch.value as nat < 0x80 then 1 else if ch.value as nat < 0x800 then 2
               else if ch.value as nat < 0x1_0000 then 3 else 4)
    ensures ch.encoding == Utf16 ==> (|bs| == 2 <==> ch.value as nat < 0x1_0000) && (|bs| == 2 || |bs| == 4)
    ensures ch.encoding == Utf16 ==> DecodeUtf16(Units(bs)) == Some(ch.value as nat)
    ensures ch.encoding == Utf32 ==> FromLe(bs) == ch.value as nat && |bs| == 4
  {
    var c := ch.value as nat;
    match ch.encoding
    case Utf8 => Utf8RoundTrip(c); Utf8Bytes(c)
    case Utf16 => Utf16RoundTrip(c); UnitsOfUnitBytes(Utf16Units(c)); UnitBytes(Utf16Units(c))
    case Utf32 => Utf32RoundTrip(c); Utf32Bytes(c)
  }

  /** `Char::encode(dst)`: writes the encoded bytes into the head of `dst`
      and answers their number. The destination must have room for them,
      since copying into a shorter slice panics. */
  method Encode(ch: Char, dst: array<Byte>) returns (n: nat)
    requires |Encoded(ch)| <= dst.Length
    modifies dst
    ensures n == |Encoded(ch)|
    ensures ch.encoding == Utf32 ==> n == 4
    ensures dst[..n] == Encoded(ch)
    ensures dst[n..] == old(dst[n..])
  {
    var bytes := Encoded(ch);
    n := |bytes|;
    var i := 0;
    while i < n
      invariant 0 <= i <= n
      invariant dst[..i] == bytes[..i]
      invariant forall j :: i <= j < dst.Length ==> dst[j] == old(dst[j])
    {
      dst[i] := bytes[i];
      i := i + 1;
    }
  }

  /** The encodings the test suite pins down: one byte for 'a' and four for
      U+211D9 in UTF-8; in UTF-16 a single unit for 'a' and a surrogate pair
      for U+211D9. */
  lemma Utf8Examples()
    ensures Encoded(Char('a', Utf8)) == [0x61]
    ensures Encoded(Char('\U{211D9}', Utf8)) == [0xF0, 0xA1, 0x87, 0x99]
  {
    assert Utf8Bytes(0x211D9) == [0xF0, 0xA1, 0x87, 0x99];
  }

  lemma Utf16Examples()
    ensures Encoded(Char('a', Utf16)) == [0x61, 0x00]
    ensures Encoded(Char('\U{211D9}', Utf16)) == [0x44, 0xD8, 0xD9, 0xDD]
  {
    assert Utf16Units(0x61) == [0x61];
    assert UnitBytes([0x61]) == [0x61, 0x00] by {
      assert [0x61][1..] == [];
    }
    var us := Utf16Units(0x211D9);
    assert us == [0xD844, 0xDDD9];
    assert us[1..][1..] == [];
    assert UnitBytes(us) == [0x44, 0xD8] + UnitBytes([0xDDD9]);
  }

  /** In UTF-32 every character takes four bytes, least significant first. */
  lemma Utf32Examples()
    ensures Encoded(Char('a', Utf32)) == [0x61, 0x00, 0x00, 0x00]
    ensures Encoded(Char('\U{211D9}', Utf32)) == [0xD9, 0x11, 0x02, 0x00]
  {
    assert Pow256(4) == 0x1_0000_0000;
    assert ToBe(0, 1) == [0];
    assert ToBe(0, 2) == [0, 0];
    assert ToBe(0, 3) == [0, 0, 0];
    var a := ToBe(0x61, 4);
    assert a == [0, 0, 0, 0x61];
    assert Reverse(a) == [a[3], a[2], a[1], a[0]];
    assert ToBe(2, 2) == [0, 2];
    assert ToBe(0x211, 3) == [0, 2, 0x11];
    var b := ToBe(0x211D9, 4);
    assert b == [0, 2, 0x11, 0xD9];
    assert Reverse(b) == [b[3], b[2], b[1], b[0]];
  }
}
