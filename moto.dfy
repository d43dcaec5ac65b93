/** The Motorola-style formatting of string literals: a string is written
    between double quotes, with the printable ASCII characters as they are,
    backslash escapes for the usual control characters, the quote and the
    backslash, and every other character as the `\xHH` escapes of its UTF-8
    bytes. */
module MotoFormat {
  import opened Wrappers
  import opened Bytes
  import CharLiteral

  /** A string made only of printable ASCII characters, 0x20 to 0x7E. */
  predicate Printable(s: string) {
    forall i :: 0 <= i < |s| ==> 0x20 <= s[i] as int <= 0x7E
  }

  /** The uppercase hexadecimal digit of a value below sixteen. */
  function HexDigit(n: nat): (d: char)
    requires n < 16
    ensures 0x30 <= d as int <= 0x39 || 0x41 <= d as int <= 0x46
  {
    if n < 10 then (0x30 + n) as char else (0x41 + n - 10) as char
  }

  /** `write!(f, "\\x{:02X}", b)`: a backslash, an `x` and two uppercase
      hexadecimal digits. */
  function HexByte(b: Byte): (s: string)
    ensures |s| == 4 && s[0] == '\\' && s[1] == 'x'
    ensures 0x30 <= s[2] as int <= 0x46 && 0x30 <= s[3] as int <= 0x46
  {
    ['\\', 'x', HexDigit(b as nat / 16), HexDigit(b as nat % 16)]
  }

  /** The `\xHH` escapes of a sequence of bytes, in order. */
  function EscapeBytes(bs: seq<Byte>): (s: string)
    ensures |s| == 4 * |bs|
  {
    if bs == [] then [] else HexByte(bs[0]) + EscapeBytes(bs[1..])
  }

  /** The UTF-8 bytes of a character. */
  function Utf8Of(c: char): (bs: seq<Byte>)
    ensures 1 <= |bs| <= 4
  {
    CharLiteral.CharIsScalar(c);
    CharLiteral.Utf8Bytes(c as nat)
  }

  /** `fmt_esc_utf8`: a character as the escapes of its UTF-8 bytes. */
  function EscapeUtf8(c: char): (s: string)
    ensures 4 <= |s| <= 16
  {
    EscapeBytes(Utf8Of(c))
  }

  /** `fmt_char`: the text one character of a string literal becomes. A
      character that is not printable ASCII never appears as itself. */
  function Escape(c: char): (s: string)
    ensures s == [c] <==> 0x20 <= c as int <= 0x7E && c != '"' && c != '\\'
  {
    if c as int == 0x08 then "\\b"
    else if c as int == 0x09 then "\\t"
    else if c as int == 0x0A then "\\n"
    else if c as int == 0x0C then "\\f"
    else if c as int == 0x0D then "\\r"
    else if c == '"' then "\\\""
    else if c == '\\' then "\\\\"
    else if 0x20 <= c as int <= 0x7E then [c]
    else EscapeUtf8(c)
  }

  /** The escaped characters of a whole string, in order. */
  function EscapeAll(s: string): (r: string)
    ensures |r| >= |s|
  {
    if s == [] then [] else Escape(s[0]) + EscapeAll(s[1..])
  }

  /** `visit_str`: the escaped string between double quotes. */
  function Quoted(s: string): (r: string)
    ensures |r| >= |s| + 2 && r[0] == '"' && r[|r| - 1] == '"'
  {
    "\"" + EscapeAll(s) + "\""
  }

  lemma PrintableConcat(a: string, b: string)
    requires Printable(a) && Printable(b)
    ensures Printable(a + b)
  {
    assert forall i :: 0 <= i < |a + b| ==> (a + b)[i] == if i < |a| then a[i] else b[i - |a|];
  }

  lemma {:induction false} EscapeBytesPrintable(bs: seq<Byte>)
    ensures Printable(EscapeBytes(bs))
  {
    if bs != [] {
      EscapeBytesPrintable(bs[1..]);
      PrintableConcat(HexByte(bs[0]), EscapeBytes(bs[1..]));
    }
  }

  /** Whatever the character, its escape is printable ASCII. */
  lemma EscapePrintable(c: char)
    ensures Printable(Escape(c))
  {
    if !(c as int in {0x08, 0x09, 0x0A, 0x0C, 0x0D} || c == '"' || c == '\\' || 0x20 <= c as int <= 0x7E) {
      EscapeBytesPrintable(Utf8Of(c));
    }
  }

  lemma {:induction false} EscapeAllPrintable(s: string)
    ensures Printable(EscapeAll(s))
  {
    if s != [] {
      EscapePrintable(s[0]);
      EscapeAllPrintable(s[1..]);
      PrintableConcat(Escape(s[0]), EscapeAll(s[1..]));
    }
  }

  /** The quoted literal holds nothing but printable ASCII. */
  lemma QuotedPrintable(s: string)
    ensures Printable(Quoted(s))
  {
    EscapeAllPrintable(s);
    PrintableConcat("\"", EscapeAll(s));
    PrintableConcat("\"" + EscapeAll(s), "\"");
  }

  /** The formatter's output: what has been written so far. Writing does not
      fail in this model. */
  class Formatter {
    var written: string

    constructor ()
      ensures written == []
    {
      written := [];
    }

    /** `write_char` */
    method WriteChar(c: char)
      modifies this
      ensures written == old(written) + [c]
    {
      written := written + [c];
    }

    /** `write_str` */
    method WriteStr(s: string)
      modifies this
      ensures written == old(written) + s
    {
      written := written + s;
    }
  }

  /** `fmt_char(c, f)` */
  method FmtChar(c: char, f: Formatter)
    modifies f
    ensures f.written == old(f.written) + Escape(c)
  {
    if c as int == 0x08 {
      f.WriteStr("\\b");
    } else if c as int == 0x09 {
      f.WriteStr("\\t");
    } else if c as int == 0x0A {
      f.WriteStr("\\n");
    } else if c as int == 0x0C {
      f.WriteStr("\\f");
    } else if c as int == 0x0D {
      f.WriteStr("\\r");
    } else if c == '"' {
      f.WriteStr("\\\"");
    } else if c == '\\' {
      f.WriteStr("\\\\");
    } else if 0x20 <= c as int <= 0x7E {
      f.WriteChar(c);
    } else {
      FmtEscUtf8(c, f);
    }
  }

  lemma TakeOneMore<T>(s: seq<T>, i: nat)
    requires i < |s|
    ensures s[..i + 1] == s[..i] + [s[i]]
  {
  }

  lemma Associative<T>(a: seq<T>, b: seq<T>, c: seq<T>)
    ensures a + b + c == a + (b + c)
  {
  }

  lemma {:induction false} EscapeBytesAppend(bs: seq<Byte>, b: Byte)
    ensures EscapeBytes(bs + [b]) == EscapeBytes(bs) + HexByte(b)
  {
    if bs == [] {
      assert [b][1..] == [];
    } else {
      assert (bs + [b])[1..] == bs[1..] + [b];
      EscapeBytesAppend(bs[1..], b);
    }
  }

  lemma EscapeBytesStep(start: string, bs: seq<Byte>, i: nat, w: string)
    requires i < |bs| && w == start + EscapeBytes(bs[..i]) + HexByte(bs[i])
    ensures w == start + EscapeBytes(bs[..i + 1])
  {
    TakeOneMore(bs, i);
    EscapeBytesAppend(bs[..i], bs[i]);
    Associative(start, EscapeBytes(bs[..i]), HexByte(bs[i]));
  }

  /** `fmt_esc_utf8(c, f)`: the character's UTF-8 bytes are written one
      escape at a time. */
  method FmtEscUtf8(c: char, f: Formatter)
    modifies f
    ensures f.written == old(f.written) + EscapeUtf8(c)
  {
    var bytes := Utf8Of(c);
    ghost var start := f.written;
    var i := 0;
    while i < |bytes|
      invariant 0 <= i <= |bytes|
      invariant f.written == start + EscapeBytes(bytes[..i])
    {
      f.WriteStr(HexByte(bytes[i]));
      EscapeBytesStep(start, bytes, i, f.written);
      i := i + 1;
    }
    assert bytes[..i] == bytes;
  }

  lemma {:induction false} EscapeAllAppend(s: string, c: char)
    ensures EscapeAll(s + [c]) == EscapeAll(s) + Escape(c)
  {
    if s == [] {
      assert [c][1..] == [];
    } else {
      assert (s + [c])[1..] == s[1..] + [c];
      EscapeAllAppend(s[1..], c);
    }
  }

  /** Escaping one more character of a string extends what has been written
      for its head by that character's escape. */
  lemma EscapeAllStep(start: string, s: string, i: nat, w: string)
    requires i < |s| && w == start + EscapeAll(s[..i]) + Escape(s[i])
    ensures w == start + EscapeAll(s[..i + 1])
  {
    TakeOneMore(s, i);
    EscapeAllAppend(s[..i], s[i]);
    Associative(start, EscapeAll(s[..i]), Escape(s[i]));
  }

  lemma CloseQuote(orig: string, s: string, w: string)
    requires w == orig + ['"'] + EscapeAll(s[..|s|]) + ['"']
    ensures w == orig + Quoted(s)
  {
    assert s[..|s|] == s;
    assert orig + ['"'] + EscapeAll(s) + ['"'] == orig + (['"'] + EscapeAll(s) + ['"']);
  }

  /** `MotoFormatter::visit_str(node)`: an opening quote, each character
      escaped in turn, and a closing quote. */
  method VisitStr(node: string, f: Formatter)
    modifies f
    ensures f.written == old(f.written) + Quoted(node)
  {
    ghost var orig := f.written;
    f.WriteChar('"');
    ghost var start := f.written;
    var i := 0;
    while i < |node|
      invariant 0 <= i <= |node|
      invariant f.written == start + EscapeAll(node[..i])
    {
      FmtChar(node[i], f);
      EscapeAllStep(start, node, i, f.written);
      i := i + 1;
    }
    f.WriteChar('"');
    CloseQuote(orig, node, f.written);
  }

  // Reading the escaped text back. This is not part of the formatter; it is
  // the reference that shows the escaping loses nothing.

  /** The byte a one-letter backslash escape stands for. */
  function SimpleEscape(e: char): Option<Byte> {
    if e == 'b' then Some(0x08)
    else if e == 't' then Some(0x09)
    else if e == 'n' then Some(0x0A)
    else if e == 'f' then Some(0x0C)
    else if e == 'r' then Some(0x0D)
    else if e == '"' then Some(0x22)
    else if e == '\\' then Some(0x5C)
    else None
  }

  /** The value of an uppercase hexadecimal digit. */
  function HexValue(d: char): (r: Option<nat>)
    ensures r.Some? ==> r.value < 16
  {
    if 0x30 <= d as int <= 0x39 then Some(d as int - 0x30)
    else if 0x41 <= d as int <= 0x46 then Some(d as int - 0x41 + 10)
    else None
  }

  function PrependAll(bs: seq<Byte>, o: Option<seq<Byte>>): Option<seq<Byte>> {
    match o
    case None => None
    case Some(u) => Some(bs + u)
  }

  /** The bytes an escaped text stands for, or `None` when it holds a bare
      backslash, a bare quote, a malformed escape or a character that is not
      printable ASCII. */
  function Unescape(t: string): Option<seq<Byte>>
    decreases |t|
  {
    if t == [] then Some([])
    else if t[0] == '\\' then
      if |t| >= 2 && SimpleEscape(t[1]).Some? then
        PrependAll([SimpleEscape(t[1]).value], Unescape(t[2..]))
      else if |t| >= 4 && t[1] == 'x' && HexValue(t[2]).Some? && HexValue(t[3]).Some? then
        PrependAll([(HexValue(t[2]).value * 16 + HexValue(t[3]).value) as Byte], Unescape(t[4..]))
      else
        None
    else if 0x20 <= t[0] as int <= 0x7E && t[0] != '"' then
      PrependAll([t[0] as int as Byte], Unescape(t[1..]))
    else
      None
  }

  /** The UTF-8 bytes of a whole string, in order. */
  function Utf8String(s: string): seq<Byte> {
    if s == [] then [] else Utf8Of(s[0]) + Utf8String(s[1..])
  }

  lemma HexDigitValue(n: nat)
    requires n < 16
    ensures HexValue(HexDigit(n)) == Some(n)
  {
  }

  /** One `\xHH` escape reads back as its byte. */
  lemma HexByteReadsBack(b: Byte, t: string)
    ensures Unescape(HexByte(b) + t) == PrependAll([b], Unescape(t))
  {
    var s := HexByte(b) + t;
    HexDigitValue(b as nat / 16);
    HexDigitValue(b as nat % 16);
    assert s[1] == 'x' && s[4..] == t;
  }

  lemma PrependAllCons(b: Byte, bs: seq<Byte>, o: Option<seq<Byte>>)
    ensures PrependAll([b], PrependAll(bs, o)) == PrependAll([b] + bs, o)
  {
    if o.Some? {
      assert [b] + (bs + o.value) == ([b] + bs) + o.value;
    }
  }

  lemma EscapeNoBytesReadsBack(t: string)
    ensures Unescape(EscapeBytes([]) + t) == PrependAll([], Unescape(t))
  {
    assert EscapeBytes([]) + t == t;
    if Unescape(t).Some? {
      assert [] + Unescape(t).value == Unescape(t).value;
    }
  }

  lemma EscapeMoreBytesReadBack(bs: seq<Byte>, t: string)
    requires bs != []
    requires Unescape(EscapeBytes(bs[1..]) + t) == PrependAll(bs[1..], Unescape(t))
    ensures Unescape(EscapeBytes(bs) + t) == PrependAll(bs, Unescape(t))
  {
    Associative(HexByte(bs[0]), EscapeBytes(bs[1..]), t);
    HexByteReadsBack(bs[0], EscapeBytes(bs[1..]) + t);
    PrependAllCons(bs[0], bs[1..], Unescape(t));
    assert [bs[0]] + bs[1..] == bs;
  }

  /** A run of `\xHH` escapes reads back as its bytes. */
  lemma {:induction false} EscapeBytesReadBack(bs: seq<Byte>, t: string)
    ensures Unescape(EscapeBytes(bs) + t) == PrependAll(bs, Unescape(t))
  {
    if bs == [] {
      EscapeNoBytesReadsBack(t);
    } else {
      EscapeBytesReadBack(bs[1..], t);
      EscapeMoreBytesReadBack(bs, t);
    }
  }

  /** A character's escape reads back as its UTF-8 bytes. */
  lemma EscapeReadsBack(c: char, t: string)
    ensures Unescape(Escape(c) + t) == PrependAll(Utf8Of(c), Unescape(t))
  {
    var s := Escape(c) + t;
    if c as int < 0x80 {
      assert Utf8Of(c) == [c as int as Byte];
    }
    if c as int in {0x08, 0x09, 0x0A, 0x0C, 0x0D} || c == '"' || c == '\\' {
      assert s[2..] == t;
    } else if 0x20 <= c as int <= 0x7E {
      assert s[1..] == t;
    } else {
      EscapeBytesReadBack(Utf8Of(c), t);
    }
  }

  /** The escaped text of a string reads back as the string's UTF-8 bytes:
      the escaping is lossless. */
  lemma {:induction false} EscapeAllReadsBack(s: string)
    ensures Unescape(EscapeAll(s)) == Some(Utf8String(s))
  {
    if s != [] {
      EscapeAllReadsBack(s[1..]);
      EscapeReadsBack(s[0], EscapeAll(s[1..]));
    }
  }

  /** The literal between the quotes `visit_str` writes reads back as the
      string's UTF-8 bytes. */
  lemma QuotedReadsBack(s: string)
    ensures Unescape(Quoted(s)[1..|Quoted(s)| - 1]) == Some(Utf8String(s))
  {
    assert Quoted(s)[1..|Quoted(s)| - 1] == EscapeAll(s);
    EscapeAllReadsBack(s);
  }

  /** The formatter's test: `eh` is written as `"eh"`. */
  lemma QuotedEh()
    ensures Quoted("eh") == "\"eh\""
  {
    assert "eh"[1..] == "h" && "h"[1..] == [];
    assert EscapeAll("eh") == "eh";
  }

  /** A control character, the quote and the backslash take a backslash
      escape. */
  lemma QuotedControl()
    ensures Quoted("a\tb") == "\"a\\tb\""
    ensures Quoted("\"\\") == "\"\\\"\\\\\""
  {
    assert "a\tb"[1..] == "\tb" && "\tb"[1..] == "b" && "b"[1..] == [];
    assert EscapeAll("a\tb") == "a\\tb";
    assert "\"\\"[1..] == "\\" && "\\"[1..] == [];
    assert EscapeAll("\"\\") == "\\\"\\\\";
  }

  /** Vertical tab and DEL are escaped as their byte, a non-ASCII character
      as each of its UTF-8 bytes. */
  lemma EscapeHexExamples()
    ensures Escape('\U{0B}') == "\\x0B" && Escape('\U{7F}') == "\\x7F"
    ensures Escape('\U{E9}') == "\\xC3\\xA9"
  {
    assert Utf8Of('\U{0B}') == [0x0B];
    assert EscapeBytes([0x0B]) == HexByte(0x0B) + EscapeBytes([]);
    assert Utf8Of('\U{7F}') == [0x7F];
    assert EscapeBytes([0x7F]) == HexByte(0x7F) + EscapeBytes([]);
    assert Utf8Of('\U{E9}') == [0xC3, 0xA9];
    assert [0xC3 as Byte, 0xA9][1..] == [0xA9 as Byte];
    assert [0xA9 as Byte][1..] == [];
    assert EscapeBytes([0xC3, 0xA9]) == HexByte(0xC3) + HexByte(0xA9);
  }

  /** The formatter writes exactly the quoted literal, and nothing but
      printable ASCII. */
  method FormatLiteral(s: string) returns (out: string)
    ensures out == Quoted(s)
    ensures Printable(out)
  {
    var f := new Formatter();
    VisitStr(s, f);
    out := f.written;
    QuotedPrintable(s);
  }
}
