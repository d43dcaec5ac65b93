/** The top-level ColdFire decoder: it reads a big-endian opword from the
    head of the byte buffer and hands the rest, with the opword as context,
    to the decode index of word encodings. That index is still empty. */
module CfDecoder {
  import opened Wrappers
  import opened Bytes
  import OrderedLoad
  import opened DecodeIndex
  import Encodings
  import CfOperand

  /** A decoded statement: an instruction's arguments. The decoder does not
      assemble one yet. */
  datatype CfStmt = CfStmt(args: seq<CfOperand.Arg>)

  /** The `u16` the first two bytes spell, most significant byte first. */
  function Opword(b0: Byte, b1: Byte): bv16 {
    (b0 as int * 256 + b1 as int) as bv16
  }

  /** `WordEncoding::decode`: an opword without the encoding's bits under its
      mask is refused; operand decoding and assembly are still to be written,
      so a matching opword is refused as well. */
  function WordDecode(e: Encodings.WordEncoding, buf: seq<Byte>, opword: bv16): (r: Option<(CfStmt, seq<Byte>)>)
    ensures !Encodings.MatchesWord(e, opword) ==> r.None?
    ensures r.None?
  {
    if opword & e.mask != e.bits then None else None
  }

  /** The decode index of word encodings: empty. */
  const DECODE_ROOT: Node<Encodings.WordEncoding> := Empty

  /** `DECODE_ROOT.decode(rest, ctx)`: the opword is looked up in the index and
      the encoding found decodes the rest of the buffer. */
  function IndexDecode(root: Node<Encodings.WordEncoding>, rest: seq<Byte>, opword: bv16): (r: Option<(CfStmt, seq<Byte>)>)
    requires Walkable(root)
    ensures r.None?
  {
    var decode := (e, w) => WordDecode(e, rest, w);
    NothingDecodes(root, opword, decode);
    Get(root, opword, decode)
  }

  /** `CfDecoder::decode(buf)` over a given index. */
  function DecodeWith(root: Node<Encodings.WordEncoding>, buf: seq<Byte>): (r: Option<(CfStmt, seq<Byte>)>)
    requires Walkable(root)
    ensures |buf| < 2 ==> r.None?
    ensures r.None?
  {
    match OrderedLoad.Load(buf, 2, OrderedLoad.BE)
    case None => None
    case Some(_) => IndexDecode(root, buf[2..], Opword(buf[0], buf[1]))
  }

  /** `CfDecoder::decode(buf)`: no statement for any buffer, since the index
      is empty and no encoding decodes yet. */
  function Decode(buf: seq<Byte>): (r: Option<(CfStmt, seq<Byte>)>)
    ensures r.None?
  {
    DecodeWith(DECODE_ROOT, buf)
  }

  /** A buffer of two bytes or more is looked up with the opword its first two
      bytes spell, and the bytes after them are what the encoding decodes. */
  lemma DecodeReadsOpword(root: Node<Encodings.WordEncoding>, buf: seq<Byte>)
    requires Walkable(root) && |buf| >= 2
    ensures OrderedLoad.Load(buf, 2, OrderedLoad.BE) ==
      Some((buf[0] as int * 256 + buf[1] as int, buf[2..]))
    ensures DecodeWith(root, buf) == IndexDecode(root, buf[2..], Opword(buf[0], buf[1]))
  {
    OrderedLoad.LoadBe16(buf);
  }

  /** No lookup in an index of word encodings succeeds when the items refuse
      every opword, whatever the tree holds. */
  lemma {:induction false} NothingDecodes(root: Node<Encodings.WordEncoding>, opword: bv16,
                                          decode: (Encodings.WordEncoding, bv16) -> Option<(CfStmt, seq<Byte>)>)
    requires Walkable(root)
    requires forall e, w :: decode(e, w).None?
    ensures Get(root, opword, decode).None?
    decreases root
  {
    if root.IsScan() {
      SubnodesWalkable(root);
      forall i | 0 <= i < |root.nodes|
        ensures Get(root.nodes[i], opword, decode).None?
      {
        NothingDecodes(root.nodes[i], opword, decode);
      }
      ScanFindsFirst(root.nodes, opword, decode);
    } else if root.IsTrie() {
      SubnodesWalkable(root);
      var next := root.nodes[Index(opword, root.shift, root.Mask())];
      NothingDecodes(next, opword, decode);
      assert Get(root, opword, decode) == Get(next, opword, decode);
    }
  }
}
