/** The tagged-memory side table: one tag bit per 32-byte granule of physical
    memory (`sizeof(cheri_reg_t)`), packed into 64-bit words.

    These are the functions on the table's contents that the imperative
    `CheriExt.SetTag`, `GetTag`, `ClearTag` and `CreateTaggedMemory` are proved
    against, and the properties of those functions. Physical addresses are
    64-bit words; the index arithmetic is done as in the source, by unsigned
    subtraction, shifts and masks, with the word index truncated to 32 bits
    (`uint32_t wordIndex`). */
module TagMemory {
  import opened CheriTypes
  import opened CheriDefs

  /** Bit position inside a 64-bit table word. */
  type BitPos = b: bv32 | b < 64

  /** Which word of the table (as an array index), and which bit of that
      word, holds a tag. */
  datatype Slot = Slot(word: nat, bit: BitPos)

  /** `log2(sizeof(cheri_reg_t))`: the granule shift used by set and get. */
  const GRANULE_SHIFT: bv32 := 5
  /** `log2(sizeof(cheri_reg_t) * 8)`: the shift used by clear. */
  const CLEAR_SHIFT: bv32 := 8
  /** `log2(sizeof(uint64_t) * 8)`: bits per table word, as a shift. */
  const WORD_SHIFT: bv32 := 6

  /** The word index of a granule: `>> 6`, truncated to 32 bits. */
  function WordOfGranule(g: bv64): bv32
  {
    ((g >> WORD_SHIFT) & 0xFFFF_FFFF) as bv32
  }

  /** The bit position of a granule inside its word: `& MASK(6)`. */
  function BitOfGranule(g: bv64): BitPos
  {
    (g & Mask(WORD_SHIFT)) as bv32
  }

  /** Split a granule index into its word index and bit position. */
  function SlotOfGranule(g: bv64): Slot
  {
    Slot(WordOfGranule(g) as int, BitOfGranule(g))
  }

  /** The slot `cheriMem_setTag` and `cheriMem_getTag` address for a physical
      address: granule `(paddr - DRAM_BASE) >> 5`. */
  function GranuleSlot(dramBase: bv64, paddr: bv64): (r: Slot)
    ensures r.word < 0x1_0000_0000
  {
    SlotOfGranule(GranuleIndex(dramBase, paddr))
  }

  /** The granule index `(paddr - DRAM_BASE) >> 5`. */
  function GranuleIndex(dramBase: bv64, paddr: bv64): bv64
  {
    (paddr - dramBase) >> GRANULE_SHIFT
  }

  /** The slot `cheriMem_clearTag` addresses: granule `(paddr - DRAM_BASE) >> 8`. */
  function ClearGranuleSlot(dramBase: bv64, paddr: bv64): (r: Slot)
    ensures r.word < 0x1_0000_0000
  {
    SlotOfGranule((paddr - dramBase) >> CLEAR_SHIFT)
  }

  /** The table has a word for the slot. The source never checks this; an
      index outside the allocation is undefined behaviour. */
  predicate InTable(tags: seq<bv64>, s: Slot)
  {
    s.word < |tags|
  }

  /** One table word with bit b set: `w | BIT(b)`. */
  function WithBit(w: bv64, b: BitPos): bv64
  {
    w | Bit(b)
  }

  /** One table word with bit b cleared: `w & ~BIT(b)`. */
  function WithoutBit(w: bv64, b: BitPos): bv64
  {
    w & !Bit(b)
  }

  /** Bit b of one table word is set: `!!(w & BIT(b))`. */
  predicate HasBit(w: bv64, b: BitPos)
  {
    w & Bit(b) != 0
  }

  /** `tag_bits[word] |= BIT(bit)`. */
  function SetBit(tags: seq<bv64>, s: Slot): (r: seq<bv64>)
    requires InTable(tags, s)
    ensures |r| == |tags|
  {
    tags[s.word := WithBit(tags[s.word], s.bit)]
  }

  /** `tag_bits[word] &= ~BIT(bit)`. */
  function ClearBit(tags: seq<bv64>, s: Slot): (r: seq<bv64>)
    requires InTable(tags, s)
    ensures |r| == |tags|
  {
    tags[s.word := WithoutBit(tags[s.word], s.bit)]
  }

  /** `!!(tag_bits[word] & BIT(bit))`. */
  predicate TestBit(tags: seq<bv64>, s: Slot)
    requires InTable(tags, s)
  {
    HasBit(tags[s.word], s.bit)
  }

  /** The word count `create_tagged_memory(memsz)` allocates:
      `((memsz / sizeof(cheri_reg_t)) / 8) / sizeof(uint64_t)`. */
  function TagWords(memsz: bv64): (r: bv64)
    ensures r == memsz >> 11
  {
    ((memsz / 32) / 8) / 8
  }

  /** A freshly `calloc`-ed table of n words. */
  function ZeroTable(n: nat): (r: seq<bv64>)
    ensures |r| == n
  {
    seq(n, _ => 0)
  }

  // ---------------------------------------------------------------------------
  // Index arithmetic

  /** The constructor sizes the table for 2 GiB of memory: 2^20 words. */
  lemma TwoGiBTableSize()
    ensures TagWords(Bit(31)) == 0x10_0000
    ensures TagWords(Bit(31)) == (Bit(31) >> GRANULE_SHIFT) >> WORD_SHIFT
  {
  }

  /** Every byte of a 32-byte granule has the same slot: byte k of granule g
      (the address dramBase + 32 * g + k, with k < 32 and 32 * g below 2^64)
      shares the slot of the granule's first byte. */
  lemma {:induction false} SameGranuleSameSlot(dramBase: bv64, g: bv64, k: bv64)
    requires g < 0x800_0000_0000_0000 && k < 32
    ensures GranuleSlot(dramBase, dramBase + (g << 5) + k) == GranuleSlot(dramBase, dramBase + (g << 5))
  {
    assert GranuleIndex(dramBase, dramBase + (g << 5) + k) == GranuleIndex(dramBase, dramBase + (g << 5)) by {
      GranuleOfByte(dramBase, g, k);
    }
    SameIndexSameSlot(dramBase, dramBase + (g << 5) + k, dramBase + (g << 5));
  }

  lemma SameIndexSameSlot(dramBase: bv64, p: bv64, q: bv64)
    requires GranuleIndex(dramBase, p) == GranuleIndex(dramBase, q)
    ensures GranuleSlot(dramBase, p) == GranuleSlot(dramBase, q)
  {
  }

  /** Byte k of granule g lies in granule g. */
  lemma GranuleOfByte(dramBase: bv64, g: bv64, k: bv64)
    requires g < 0x800_0000_0000_0000 && k < 32
    ensures ((dramBase + (g << 5) + k) - dramBase) >> GRANULE_SHIFT == ((dramBase + (g << 5)) - dramBase) >> GRANULE_SHIFT
  {
  }

  /** Conversely, addresses in different granules (within 2^43 bytes of the
      base, where no word index is truncated) have different slots. */
  lemma {:induction false} DistinctGranulesDistinctSlots(dramBase: bv64, p: bv64, q: bv64)
    requires p - dramBase < 0x800_0000_0000 && q - dramBase < 0x800_0000_0000
    requires (p - dramBase) >> GRANULE_SHIFT != (q - dramBase) >> GRANULE_SHIFT
    ensures GranuleSlot(dramBase, p) != GranuleSlot(dramBase, q)
  {
    var gp, gq := (p - dramBase) >> GRANULE_SHIFT, (q - dramBase) >> GRANULE_SHIFT;
    SlotDecomposesGranule(dramBase, p);
    SlotDecomposesGranule(dramBase, q);
    IndexConversionInjective(WordOfGranule(gp), WordOfGranule(gq));
  }

  /** For an address within 2^43 bytes of the base (where no word index is
      truncated), the slot is exactly the granule's word and bit:
      granule = 64 * word + bit. */
  lemma SlotDecomposesGranule(dramBase: bv64, p: bv64)
    requires p - dramBase < 0x800_0000_0000
    ensures var g := (p - dramBase) >> GRANULE_SHIFT;
            (WordOfGranule(g) as bv64) * 64 + (BitOfGranule(g) as bv64) == g
  {
  }

  /** The table covers every granule below `64 * TagWords(memsz)`: an address
      in those granules has its word inside the allocation. */
  lemma TableCoversWholeWords(dramBase: bv64, p: bv64, memsz: bv64)
    requires memsz < 0x800_0000_0000
    requires (p - dramBase) >> 11 < TagWords(memsz)
    ensures WordOfGranule((p - dramBase) >> GRANULE_SHIFT) as bv64 < TagWords(memsz)
  {
  }

  /** The allocation rounds the bit count down to whole words, so up to 63
      complete granules at the end of memory have no bit: with 2080 bytes of
      memory the complete granule at offset 2048 falls in word 1 of a one-word
      table. */
  lemma TrailingGranulesHaveNoBit(dramBase: bv64)
    ensures TagWords(2080) == 1
    ensures 2048 + 32 <= 2080
    ensures GranuleSlot(dramBase, dramBase + 2048) == Slot(1, 0)
  {
  }

  /** Converting a 32-bit word index to an array index is one-to-one. */
  lemma IndexConversionInjective(a: bv32, b: bv32)
    ensures a as int == b as int ==> a == b
  {
    assert (a as int) as bv32 == a;
    assert (b as int) as bv32 == b;
  }

  /** `cheriMem_clearTag` shifts by 8 where set and get shift by 5: for every
      address at least one granule above the base (and within 2^43 bytes, so
      that no word index is truncated) clear addresses a different bit. */
  lemma ClearSlotDiffersFromSetSlot(dramBase: bv64, p: bv64)
    requires 32 <= p - dramBase < 0x800_0000_0000
    ensures ClearGranuleSlot(dramBase, p) != GranuleSlot(dramBase, p)
  {
    var g5, g8 := (p - dramBase) >> GRANULE_SHIFT, (p - dramBase) >> CLEAR_SHIFT;
    assert WordOfGranule(g5) != WordOfGranule(g8) || BitOfGranule(g5) != BitOfGranule(g8);
    IndexConversionInjective(WordOfGranule(g5), WordOfGranule(g8));
  }

  /** In the first granule the two shifts agree. */
  lemma ClearSlotAgreesInFirstGranule(dramBase: bv64, p: bv64)
    requires p - dramBase < 32
    ensures ClearGranuleSlot(dramBase, p) == GranuleSlot(dramBase, p) == Slot(0, 0)
  {
  }

  // ---------------------------------------------------------------------------
  // Bit operations on one word

  lemma OrSetsBit(x: bv64, b: BitPos)
    ensures HasBit(WithBit(x, b), b)
  {
  }

  lemma OrKeepsOtherBits(x: bv64, b: BitPos, c: BitPos)
    requires b != c
    ensures HasBit(WithBit(x, b), c) == HasBit(x, c)
  {
    assert (x | Bit(b)) & Bit(c) == x & Bit(c);
  }

  lemma AndNotClearsBit(x: bv64, b: BitPos)
    ensures !HasBit(WithoutBit(x, b), b)
  {
  }

  lemma AndNotKeepsOtherBits(x: bv64, b: BitPos, c: BitPos)
    requires b != c
    ensures HasBit(WithoutBit(x, b), c) == HasBit(x, c)
  {
    assert (x & !Bit(b)) & Bit(c) == x & Bit(c);
  }

  lemma AndNotUndoesOr(x: bv64, b: BitPos)
    requires !HasBit(x, b)
    ensures WithoutBit(WithBit(x, b), b) == x
  {
  }

  // ---------------------------------------------------------------------------
  // Table properties

  /** A fresh table reports no tag anywhere. */
  lemma FreshTableUntagged(n: nat, s: Slot)
    requires InTable(ZeroTable(n), s)
    ensures !TestBit(ZeroTable(n), s)
  {
  }

  /** After setting a slot, getting it reports a tag. */
  lemma {:induction false} GetAfterSet(tags: seq<bv64>, s: Slot)
    requires InTable(tags, s)
    ensures TestBit(SetBit(tags, s), s)
  {
    OrSetsBit(tags[s.word], s.bit);
  }

  /** Setting a slot changes one bit of one word: every other word is
      unchanged, and in its word every other bit keeps its value. */
  lemma {:induction false} SetChangesOneBit(tags: seq<bv64>, s: Slot, t: Slot)
    requires InTable(tags, s) && InTable(tags, t) && t != s
    ensures TestBit(SetBit(tags, s), t) == TestBit(tags, t)
    ensures t.word != s.word ==> SetBit(tags, s)[t.word] == tags[t.word]
  {
    if t.word == s.word {
      OrKeepsOtherBits(tags[s.word], s.bit, t.bit);
    }
  }

  /** After clearing a slot, getting it reports no tag. */
  lemma {:induction false} GetAfterClear(tags: seq<bv64>, s: Slot)
    requires InTable(tags, s)
    ensures !TestBit(ClearBit(tags, s), s)
  {
    AndNotClearsBit(tags[s.word], s.bit);
  }

  /** Clearing a slot changes no other slot. */
  lemma {:induction false} ClearChangesOneBit(tags: seq<bv64>, s: Slot, t: Slot)
    requires InTable(tags, s) && InTable(tags, t) && t != s
    ensures TestBit(ClearBit(tags, s), t) == TestBit(tags, t)
  {
    if t.word == s.word {
      AndNotKeepsOtherBits(tags[s.word], s.bit, t.bit);
    }
  }

  /** `|=` is idempotent. */
  lemma SetIdempotent(tags: seq<bv64>, s: Slot)
    requires InTable(tags, s)
    ensures SetBit(SetBit(tags, s), s) == SetBit(tags, s)
  {
  }

  /** `&= ~` is idempotent. */
  lemma ClearIdempotent(tags: seq<bv64>, s: Slot)
    requires InTable(tags, s)
    ensures ClearBit(ClearBit(tags, s), s) == ClearBit(tags, s)
  {
  }

  /** n further sets of the same slot after a first one. */
  function SetRepeatedly(tags: seq<bv64>, s: Slot, n: nat): (r: seq<bv64>)
    requires InTable(tags, s)
    ensures |r| == |tags|
  {
    if n == 0 then tags else SetBit(SetRepeatedly(tags, s, n - 1), s)
  }

  /** Any number of sets of a slot leaves the table as one set does, and
      the slot reads as tagged. */
  lemma {:induction false} SetRepeatedlyIsSetOnce(tags: seq<bv64>, s: Slot, n: nat)
    requires InTable(tags, s) && n >= 1
    ensures SetRepeatedly(tags, s, n) == SetBit(tags, s)
    ensures TestBit(SetRepeatedly(tags, s, n), s)
  {
    if n > 1 {
      SetRepeatedlyIsSetOnce(tags, s, n - 1);
      SetIdempotent(tags, s);
    }
    GetAfterSet(tags, s);
  }

  /** Because of the different shift, clearing the tag of an address does not
      undo setting it: the tag stays set, for every address at least one
      granule above the base (within 2^43 bytes). */
  lemma {:induction false} ClearDoesNotUndoSet(tags: seq<bv64>, dramBase: bv64, p: bv64)
    requires 32 <= p - dramBase < 0x800_0000_0000
    requires InTable(tags, GranuleSlot(dramBase, p)) && InTable(tags, ClearGranuleSlot(dramBase, p))
    ensures TestBit(ClearBit(SetBit(tags, GranuleSlot(dramBase, p)), ClearGranuleSlot(dramBase, p)),
                    GranuleSlot(dramBase, p))
  {
    var s, c := GranuleSlot(dramBase, p), ClearGranuleSlot(dramBase, p);
    ClearSlotDiffersFromSetSlot(dramBase, p);
    GetAfterSet(tags, s);
    ClearChangesOneBit(SetBit(tags, s), c, s);
  }

  /** Clearing with the granule index set and get use (shift 5), as the
      clear operation evidently intends: clearing an address right after
      setting it leaves its tag clear, and when the tag was clear before, it
      restores the table exactly. */
  lemma {:induction false} IntendedClearUndoesSet(tags: seq<bv64>, dramBase: bv64, p: bv64)
    requires InTable(tags, GranuleSlot(dramBase, p))
    ensures !TestBit(ClearBit(SetBit(tags, GranuleSlot(dramBase, p)), GranuleSlot(dramBase, p)), GranuleSlot(dramBase, p))
    ensures !TestBit(tags, GranuleSlot(dramBase, p)) ==>
              ClearBit(SetBit(tags, GranuleSlot(dramBase, p)), GranuleSlot(dramBase, p)) == tags
  {
    ClearUndoesSet(tags, GranuleSlot(dramBase, p));
  }

  /** Clearing a slot right after setting it leaves it clear, and restores a
      table in which it was clear. */
  lemma {:induction false} ClearUndoesSet(tags: seq<bv64>, s: Slot)
    requires InTable(tags, s)
    ensures !TestBit(ClearBit(SetBit(tags, s), s), s)
    ensures !TestBit(tags, s) ==> ClearBit(SetBit(tags, s), s) == tags
  {
    GetAfterClear(SetBit(tags, s), s);
    if !TestBit(tags, s) {
      AndNotUndoesOr(tags[s.word], s.bit);
    }
  }
}
