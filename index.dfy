/** The decode index: an immutable tree of static nodes that routes a 16-bit
    word to the items that may decode it.

    A leaf is empty or holds one item. A scan node holds 2, 3 or 4 subnodes
    that are tried in order. A trie node holds 2, 4, 8 or 16 subnodes and
    picks one by the 1-, 2-, 3- or 4-bit field whose least significant bit is
    at the stored position. A chain node holds one subnode that is to be
    looked up with the next input word.

    A Rust `&'static [Node<T>; K]` is a `seq` whose length the shape fixes
    (Shaped). The position is a `u8` in the source; it is a `bv4` here,
    because shifting a `u16` by 16 or more panics. Items are compared by
    identity, so `T` is whatever names the static item. The item's
    `try_decode` is passed in as `decode`. */
module DecodeIndex {
  import opened Wrappers
  import opened Shifts
  import Field

  datatype Node<T> =
    | Empty
    | Leaf(item: T)
    | Scan2(nodes: seq<Node<T>>)
    | Scan3(nodes: seq<Node<T>>)
    | Scan4(nodes: seq<Node<T>>)
    | Trie2(nodes: seq<Node<T>>, shift: bv4)
    | Trie4(nodes: seq<Node<T>>, shift: bv4)
    | Trie8(nodes: seq<Node<T>>, shift: bv4)
    | Trie16(nodes: seq<Node<T>>, shift: bv4)
    | Chain(next: Node<T>)
  {
    predicate IsScan() {
      Scan2? || Scan3? || Scan4?
    }

    predicate IsTrie() {
      Trie2? || Trie4? || Trie8? || Trie16?
    }

    /** The length of the subnode array in the shape's type. */
    function Width(): nat {
      match this
      case Empty => 0
      case Leaf(_) => 0
      case Scan2(_) => 2
      case Scan3(_) => 3
      case Scan4(_) => 4
      case Trie2(_, _) => 2
      case Trie4(_, _) => 4
      case Trie8(_, _) => 8
      case Trie16(_, _) => 16
      case Chain(_) => 1
    }

    /** The selector mask a trie shape passes to `seek`. */
    function Mask(): (m: bv16)
      requires IsTrie()
      ensures m as int + 1 == Width()
    {
      match this
      case Trie2(_, _) => 1
      case Trie4(_, _) => 3
      case Trie8(_, _) => 7
      case Trie16(_, _) => 15
    }
  }

  /** Every subnode array has the length its shape's type gives it. */
  predicate Shaped<T>(node: Node<T>)
    decreases node
  {
    if node.Empty? || node.Leaf? then
      true
    else if node.Chain? then
      Shaped(node.next)
    else
      |node.nodes| == node.Width() &&
      forall i :: 0 <= i < |node.nodes| ==> Shaped(node.nodes[i])
  }

  /** No chain node occurs anywhere in the tree. */
  predicate ChainFree<T>(node: Node<T>)
    decreases node
  {
    if node.Empty? || node.Leaf? then
      true
    else if node.Chain? then
      false
    else
      forall i :: 0 <= i < |node.nodes| ==> ChainFree(node.nodes[i])
  }

  /** A tree `get` can walk with a single word. */
  predicate Walkable<T>(node: Node<T>) {
    Shaped(node) && ChainFree(node)
  }

  predicate AllWalkable<T>(nodes: seq<Node<T>>) {
    forall i :: 0 <= i < |nodes| ==> Walkable(nodes[i])
  }

  lemma SubnodesWalkable<T>(node: Node<T>)
    requires Walkable(node) && (node.IsScan() || node.IsTrie())
    ensures AllWalkable(node.nodes) && |node.nodes| == node.Width()
  {
  }

  /** `word >> shift & mask`, the index `seek` reads. It never exceeds the
      mask, so the array access is in bounds. */
  function Index(word: bv16, shift: bv4, mask: bv16): (i: nat)
    requires mask <= 15
    ensures i <= mask as int
  {
    var bits := Shr(word, shift) & mask;
    assert bits <= mask;
    bits as int
  }

  /** The index is the bit field that `Field::field` reads at the same
      position through the same mask. */
  lemma IndexIsField(word: bv16, shift: bv4, mask: bv16)
    requires mask <= 15
    ensures Index(word, shift, mask) == Field.Field(word, shift, mask) as int
  {
    Field.FieldIsMaskedShift(word, shift, mask);
  }

  /** `Node::get`. A chain node panics, so the tree must be chain free. */
  function Get<T, O>(node: Node<T>, word: bv16, decode: (T, bv16) -> Option<O>): (r: Option<O>)
    requires Walkable(node)
    ensures node.Empty? ==> r.None?
    ensures node.Leaf? ==> r == decode(node.item, word)
    decreases node
  {
    match node
    case Empty => None
    case Leaf(item) => decode(item, word)
    case Scan2(nodes) => Scan(nodes, word, decode)
    case Scan3(nodes) => Scan(nodes, word, decode)
    case Scan4(nodes) => Scan(nodes, word, decode)
    case Trie2(nodes, shift) => Seek(nodes, word, shift, 1, decode)
    case Trie4(nodes, shift) => Seek(nodes, word, shift, 3, decode)
    case Trie8(nodes, shift) => Seek(nodes, word, shift, 7, decode)
    case Trie16(nodes, shift) => Seek(nodes, word, shift, 15, decode)
  }

  /** `Node::scan`: `nodes.iter().find_map(|n| n.get(word))`. */
  function Scan<T, O>(nodes: seq<Node<T>>, word: bv16, decode: (T, bv16) -> Option<O>): (r: Option<O>)
    requires AllWalkable(nodes)
    ensures nodes == [] ==> r.None?
    ensures nodes != [] && Get(nodes[0], word, decode).Some? ==> r == Get(nodes[0], word, decode)
    ensures r.Some? ==> exists i :: 0 <= i < |nodes| && r == Get(nodes[i], word, decode)
    decreases nodes
  {
    if nodes == [] then
      None
    else
      var first := Get(nodes[0], word, decode);
      if first.Some? then
        first
      else
        var rest := Scan(nodes[1..], word, decode);
        assert rest.Some? ==> exists i :: 1 <= i < |nodes| && rest == Get(nodes[i], word, decode) by {
          if rest.Some? {
            var k :| 0 <= k < |nodes| - 1 && rest == Get(nodes[1..][k], word, decode);
            assert nodes[1..][k] == nodes[k + 1];
          }
        }
        rest
  }

  /** `Node::seek`: the subnode at `word >> shift & mask`, which is the bit
      field at the position through the mask. */
  function Seek<T, O>(nodes: seq<Node<T>>, word: bv16, shift: bv4, mask: bv16,
                      decode: (T, bv16) -> Option<O>): (r: Option<O>)
    requires mask <= 15 && |nodes| == mask as int + 1
    requires AllWalkable(nodes)
    ensures r == Get(nodes[Field.Field(word, shift, mask) as int], word, decode)
    decreases nodes
  {
    IndexIsField(word, shift, mask);
    Get(nodes[Index(word, shift, mask)], word, decode)
  }

  /** The scan answers with the first subnode that answers, in array order,
      and fails only when every subnode fails. */
  lemma {:induction false} ScanFindsFirst<T, O>(nodes: seq<Node<T>>, word: bv16, decode: (T, bv16) -> Option<O>)
    requires AllWalkable(nodes)
    ensures Scan(nodes, word, decode).None? <==>
      forall i :: 0 <= i < |nodes| ==> Get(nodes[i], word, decode).None?
    ensures Scan(nodes, word, decode).Some? ==>
      exists i :: 0 <= i < |nodes| && Scan(nodes, word, decode) == Get(nodes[i], word, decode) &&
        forall j :: 0 <= j < i ==> Get(nodes[j], word, decode).None?
    decreases nodes
  {
    if nodes != [] {
      var rest := nodes[1..];
      assert AllWalkable(rest);
      ScanFindsFirst(rest, word, decode);
      if Get(nodes[0], word, decode).None? && Scan(rest, word, decode).Some? {
        var k :| 0 <= k < |rest| && Scan(rest, word, decode) == Get(rest[k], word, decode) &&
          forall j :: 0 <= j < k ==> Get(rest[j], word, decode).None?;
        assert nodes[k + 1] == rest[k];
        assert forall j :: 1 <= j < k + 1 ==> nodes[j] == rest[j - 1];
      }
      if Scan(nodes, word, decode).None? {
        assert forall i :: 1 <= i < |nodes| ==> nodes[i] == rest[i - 1];
      }
    }
  }

  /** A two-node scan tries its first subnode and falls back on its second. */
  lemma Scan2Order<T, O>(a: Node<T>, b: Node<T>, word: bv16, decode: (T, bv16) -> Option<O>)
    requires Walkable(a) && Walkable(b)
    ensures Get(Scan2([a, b]), word, decode) ==
      if Get(a, word, decode).Some? then Get(a, word, decode) else Get(b, word, decode)
  {
    assert [a, b][1..] == [b];
    assert [b][1..] == [];
    assert Get(Scan2([a, b]), word, decode) == Scan([a, b], word, decode);
    assert Scan([b], word, decode) == if Get(b, word, decode).Some? then Get(b, word, decode) else None;
  }

  /** The node a lookup stops at once every trie on the way has picked its
      subnode: an empty leaf, a leaf or a scan in a chain-free tree. */
  function Route<T>(node: Node<T>, word: bv16): (r: Node<T>)
    requires Walkable(node)
    ensures Walkable(r) && !r.IsTrie() && !r.Chain?
    decreases node
  {
    if node.IsTrie() then
      Route(node.nodes[Index(word, node.shift, node.Mask())], word)
    else
      node
  }

  /** Looking a word up is looking it up at the node its route ends at. */
  lemma {:induction false} GetFollowsRoute<T, O>(node: Node<T>, word: bv16, decode: (T, bv16) -> Option<O>)
    requires Walkable(node)
    ensures Get(node, word, decode) == Get(Route(node, word), word, decode)
    decreases node
  {
    if node.IsTrie() {
      GetFollowsRoute(node.nodes[Index(word, node.shift, node.Mask())], word, decode);
    }
  }

  /** A lookup that ends at an empty leaf fails whatever the items decode. */
  lemma EmptyRouteFails<T, O>(node: Node<T>, word: bv16, decode: (T, bv16) -> Option<O>)
    requires Walkable(node) && Route(node, word).Empty?
    ensures Get(node, word, decode).None?
  {
    GetFollowsRoute(node, word, decode);
  }

  /** A lookup that ends at a leaf is that item's `try_decode`. */
  lemma LeafRouteDecodes<T, O>(node: Node<T>, word: bv16, item: T, decode: (T, bv16) -> Option<O>)
    requires Walkable(node) && Route(node, word) == Leaf(item)
    ensures Get(node, word, decode) == decode(item, word)
  {
    GetFollowsRoute(node, word, decode);
  }

  /** `Ins`, the item type whose `try_decode` always succeeds. */
  datatype Ins = Ins

  function InsDecode<T>(item: T, word: bv16): (r: Option<Ins>)
    ensures r.Some?
  {
    Some(Ins)
  }

  /** With `Ins` items a lookup succeeds exactly when some leaf is reachable:
      its route does not end at an empty leaf, and a scan it ends at has a
      subnode that succeeds. On a scan whose subnodes are leaves, that is any
      scan. */
  lemma {:induction false} InsRouteSucceeds<T>(node: Node<T>, word: bv16)
    requires Walkable(node)
    requires var r := Route(node, word); r.IsScan() ==> r.nodes[0].Leaf?
    ensures Get(node, word, InsDecode).Some? <==> !Route(node, word).Empty?
  {
    GetFollowsRoute(node, word, InsDecode);
    var r := Route(node, word);
    if r.IsScan() {
      SubnodesWalkable(r);
      ScanFindsFirst(r.nodes, word, InsDecode);
      assert Get(r.nodes[0], word, InsDecode).Some?;
    }
  }
}
