/** An operand slot of the assembly syntax tree: an identifier not yet
    resolved, an identifier resolved to a value, or a value without one. */
module AstSlot {
  import opened Wrappers

  /** `Ident(usize)`: an assembly identifier, by number. */
  type Ident = n: nat | n < 0x1_0000_0000_0000_0000

  datatype Slot<V> =
    | IdentSlot(ident: Ident)
    | Resolved(ident: Ident, value: V)
    | ValueSlot(value: V)

  /** `Slot::ident`: the identifier, if the slot has one. */
  function IdentOf<V>(s: Slot<V>): (r: Option<Ident>)
    ensures r.Some? <==> !s.ValueSlot?
    ensures r.Some? ==> r.value == s.ident
  {
    match s
    case IdentSlot(i) => Some(i)
    case Resolved(i, _) => Some(i)
    case ValueSlot(_) => None
  }

  /** `Slot::value`: the resolved value, if the slot has one. */
  function ValueOf<V>(s: Slot<V>): (r: Option<V>)
    ensures r.Some? <==> !s.IdentSlot?
    ensures r.Some? ==> r.value == s.value
  {
    match s
    case IdentSlot(_) => None
    case Resolved(_, v) => Some(v)
    case ValueSlot(v) => Some(v)
  }

  /** `Slot::value_copy`: the same answer as `value`, by copy rather than by
      reference. */
  function ValueCopy<V>(s: Slot<V>): (r: Option<V>)
    ensures r == ValueOf(s)
  {
    match s
    case IdentSlot(_) => None
    case Resolved(_, v) => Some(v)
    case ValueSlot(v) => Some(v)
  }

  /** The slot holding the given identifier and value, at least one of which
      is present. */
  function FromParts<V>(ident: Option<Ident>, value: Option<V>): (s: Slot<V>)
    requires ident.Some? || value.Some?
    ensures IdentOf(s) == ident && ValueOf(s) == value
  {
    if ident.None? then ValueSlot(value.value)
    else if value.None? then IdentSlot(ident.value)
    else Resolved(ident.value, value.value)
  }

  /** Every slot has an identifier or a value or both, and is rebuilt from
      them: the two accessors lose nothing. */
  lemma SlotFromAccessors<V>(s: Slot<V>)
    ensures IdentOf(s).Some? || ValueOf(s).Some?
    ensures FromParts(IdentOf(s), ValueOf(s)) == s
  {
  }

  /** A resolved slot yields both of its parts. */
  lemma ResolvedYieldsBoth<V>(i: Ident, v: V)
    ensures IdentOf(Resolved(i, v)) == Some(i) && ValueOf(Resolved(i, v)) == Some(v)
    ensures ValueCopy(Resolved(i, v)) == Some(v)
  {
  }
}
