/** The accumulator a ColdFire decode works on: the opword in bits 15:0 of a
    `u32`, with an extension word OR-ed into bits 31:16 when the decode needs
    one. The word iterator is the sequence of words it has not yet yielded. */
module Context {
  import opened Wrappers

  /** A `u16` word, held in the `u32` carrier that `word as u32` produces. */
  type Word16 = w: bv32 | w <= 0xFFFF

  /** The new value of the accumulator once `word` has been pulled:
      `bits |= (word as u32) << 16`. */
  function AdvanceBits(bits: bv32, word: Word16): (r: bv32)
    ensures r >> 16 == (bits >> 16) | word
  {
    bits | ((word as bv32) << 16)
  }

  class DecodeContext {
    var bits: bv32
    var more: seq<Word16>
    /** The opword the context was created from. */
    ghost var opword: Word16

    ghost predicate Valid()
      reads this
    {
      bits & 0xFFFF == opword
    }

    constructor (first: Word16, rest: seq<Word16>)
      ensures bits == first && more == rest && opword == first
      ensures Valid()
    {
      bits := first;
      more := rest;
      opword := first;
    }

    /** `DecodeContext::new(words)`: `None` when there is no word, otherwise
        a context whose bits are the first word. */
    static method New(words: seq<Word16>) returns (ctx: Option<DecodeContext>)
      ensures ctx.None? <==> words == []
      ensures ctx.Some? ==> fresh(ctx.value) && ctx.value.Valid()
      ensures ctx.Some? ==> ctx.value.bits == words[0] && ctx.value.more == words[1..]
    {
      if words == [] {
        return None;
      }
      var c := new DecodeContext(words[0], words[1..]);
      ctx := Some(c);
    }

    /** `advance()`: pulls the next word into bits 31:16 and answers `true`,
        or answers `false` and changes nothing when the words are exhausted. */
    method Advance() returns (ok: bool)
      requires Valid()
      modifies this
      ensures Valid() && opword == old(opword)
      ensures ok <==> old(more) != []
      ensures ok ==> bits == AdvanceBits(old(bits), old(more)[0]) && more == old(more)[1..]
      ensures !ok ==> bits == old(bits) && more == old(more)
    {
      if more == [] {
        return false;
      }
      AdvanceKeepsOpword(bits, more[0]);
      bits := AdvanceBits(bits, more[0]);
      more := more[1..];
      ok := true;
    }

    /** `bits()` */
    function Bits(): (r: bv32)
      reads this
      requires Valid()
      ensures r == bits
      ensures r & 0xFFFF == opword
    {
      bits
    }
  }

  /** Pulling a word never disturbs the opword in bits 15:0. */
  lemma AdvanceKeepsOpword(bits: bv32, word: Word16)
    ensures AdvanceBits(bits, word) & 0xFFFF == bits & 0xFFFF
  {
  }

  /** Pulling a word never clears a bit. */
  lemma AdvanceKeepsBits(bits: bv32, word: Word16)
    ensures AdvanceBits(bits, word) & bits == bits
  {
  }

  /** On a context holding only its opword, the pulled word lands in bits
      31:16 exactly. */
  lemma AdvancePlacesWord(opword: Word16, word: Word16)
    ensures AdvanceBits(opword, word) >> 16 == word as bv32
    ensures AdvanceBits(opword, word) & 0xFFFF == opword
  {
  }

  /** A further word is OR-ed into the same bits 31:16, not into a fresh slot. */
  lemma AdvanceTwiceSharesSlot(bits: bv32, w1: Word16, w2: Word16)
    ensures AdvanceBits(AdvanceBits(bits, w1), w2) == AdvanceBits(bits, w1 | w2)
  {
  }

  /** Creating a context from a word stream and advancing once: the bits hold
      the opword below the first extension word, or `None` when the stream is
      too short for either step. */
  method OpwordWithExtension(words: seq<Word16>) returns (bits: Option<bv32>)
    ensures |words| >= 2 ==> bits == Some(words[0] as bv32 | ((words[1] as bv32) << 16))
    ensures |words| < 2 ==> bits == None
  {
    var ctx := DecodeContext.New(words);
    if ctx.None? {
      return None;
    }
    var c := ctx.value;
    assert c.more == words[1..];
    var ok := c.Advance();
    if !ok {
      return None;
    }
    bits := Some(c.Bits());
  }
}
