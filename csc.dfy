/** `csc cs2, imm(scrs)`: store capability register cs2 to memory. The address
    is integer register scrs plus the sign-extended immediate, translated for
    a store. A tagged capability sets the tag bit of the target granule and
    is written with its tag field cleared; an untagged one raises the tag
    fault with cs2 as the register number. */
module Csc {
  import opened CheriTypes
  import opened CheriDefs
  import opened TagMemory
  import opened Host
  import opened Cheri
  import opened Machine

  /** `translate(READ_REG(scrs) + s_imm, STORE)`, from the value of scrs. */
  function StoreTarget(mmu: Translate, base: bv64, imm: SImm): bv64
  {
    mmu(base + imm, Store)
  }

  /** The physical address a store through scrs writes. */
  function StoreAddr(s: State, mmu: Translate, scrs: RegIdx, imm: SImm): bv64
    requires WellFormed(s)
  {
    StoreTarget(mmu, s.xpr[scrs], imm)
  }

  /** The slot `cheriMem_setTag(paddr)` sets: it translates paddr again. */
  function StoreSlot(s: State, dramBase: bv64, mmu: Translate, scrs: RegIdx, imm: SImm): Slot
    requires WellFormed(s)
  {
    GranuleSlot(dramBase, mmu(StoreAddr(s, mmu, scrs, imm), Load))
  }

  /** The tag table has a word for the slot a tagged store sets. */
  predicate CanStore(s: State, dramBase: bv64, mmu: Translate, scrs: RegIdx, cs2: RegIdx, imm: SImm)
  {
    WellFormed(s) && (s.gpr[cs2].tag == 1 ==> InTable(s.tags, StoreSlot(s, dramBase, mmu, scrs, imm)))
  }

  /** The instruction on the state: it faults exactly when cs2 is untagged,
      and a store changes neither register file. */
  function Spec(s: State, dramBase: bv64, mmu: Translate, scrs: RegIdx, cs2: RegIdx, imm: SImm): (r: Result)
    requires CanStore(s, dramBase, mmu, scrs, cs2, imm)
    ensures r.Fault? <==> s.gpr[cs2].tag == 0
    ensures r.Fault? ==> r == Fault(TagViolation, cs2)
    ensures r.Ok? ==> WellFormed(r.next) && r.next.gpr == s.gpr && r.next.csr == s.csr && r.next.xpr == s.xpr
  {
    var cs := s.gpr[cs2];
    var paddr := StoreAddr(s, mmu, scrs, imm);
    if cs.tag == 1 then
      Ok(s.(tags := SetBit(s.tags, StoreSlot(s, dramBase, mmu, scrs, imm)),
            caps := StoreCapAt(s.caps, paddr, cs.(tag := 0))))
    else
      Fault(TagViolation, cs2)
  }

  /** The handler. The cause is written directly (`CAPCAUSE`), not through
      `raise_trap`, with the same value. */
  method Execute(ext: CheriExt, hart: Hart, mem: Memory, mmu: Translate, scrs: RegIdx, cs2: RegIdx, imm: SImm)
    returns (o: Outcome)
    requires Ready(ext, hart) && CanStore(View(ext, hart, mem), ext.dramBase, mmu, scrs, cs2, imm)
    modifies ext`capcause, ext.tagBits, mem`caps
    ensures Ready(ext, hart)
    ensures View(ext, hart, mem) ==
            Commit(old(View(ext, hart, mem)), Spec(old(View(ext, hart, mem)), ext.dramBase, mmu, scrs, cs2, imm))
    ensures o == Signal(Spec(old(View(ext, hart, mem)), ext.dramBase, mmu, scrs, cs2, imm))
  {
    ghost var s := View(ext, hart, mem);
    var base := hart.Read(scrs);
    var cs := ext.regFile[cs2];
    var paddr := StoreTarget(mmu, base, imm);
    if cs.tag != 0 {
      ext.SetTag(mmu, paddr);
      cs := cs.(tag := 0);
    } else {
      ext.SetCause((Code(TagViolation) << 8) | (cs2 as bv64));
      o := Trapped(TagViolation, cs2);
      return;
    }
    mem.StoreCap(paddr, cs);
    o := Retired;
    assert ext.tagBits[..] == Spec(s, ext.dramBase, mmu, scrs, cs2, imm).next.tags;
    assert mem.caps == Spec(s, ext.dramBase, mmu, scrs, cs2, imm).next.caps;
    assert ext.regFile[..] == s.gpr && ext.csrFile[..] == s.csr;
  }

  // ---------------------------------------------------------------------------
  // Properties

  /** An untagged capability is not stored: the tag fault is raised with cs2,
      and memory and the tag table are unchanged. */
  lemma {:induction false} UntaggedStoreFaults(s: State, dramBase: bv64, mmu: Translate, scrs: RegIdx, cs2: RegIdx, imm: SImm)
    requires CanStore(s, dramBase, mmu, scrs, cs2, imm) && s.gpr[cs2].tag == 0
    ensures Spec(s, dramBase, mmu, scrs, cs2, imm) == Fault(TagViolation, cs2)
    ensures var t := Commit(s, Spec(s, dramBase, mmu, scrs, cs2, imm));
            t.caps == s.caps && t.tags == s.tags && t.cause == Cause(TagViolation, cs2)
  {
  }

  /** A tagged capability is stored with its tag field cleared and every other
      field as in cs2; the tag bit of its granule is set and no other tag bit
      changes; the register files and integer registers are unchanged, so cs2
      keeps its tag. */
  lemma {:induction false} TaggedStoreEffect(s: State, dramBase: bv64, mmu: Translate, scrs: RegIdx, cs2: RegIdx, imm: SImm, other: Slot)
    requires CanStore(s, dramBase, mmu, scrs, cs2, imm) && s.gpr[cs2].tag == 1
    requires InTable(s.tags, other) && other != StoreSlot(s, dramBase, mmu, scrs, imm)
    ensures Spec(s, dramBase, mmu, scrs, cs2, imm).Ok?
    ensures var t := Spec(s, dramBase, mmu, scrs, cs2, imm).next;
            var paddr := StoreAddr(s, mmu, scrs, imm);
            CapAt(t.caps, paddr) == s.gpr[cs2].(tag := 0) &&
            CapAt(t.caps, paddr).tag == 0 &&
            TestBit(t.tags, StoreSlot(s, dramBase, mmu, scrs, imm)) &&
            InTable(t.tags, other) && TestBit(t.tags, other) == TestBit(s.tags, other) &&
            t.gpr == s.gpr && t.gpr[cs2].tag == 1 && t.csr == s.csr && t.xpr == s.xpr &&
            t.cause == s.cause && t.halves == s.halves
  {
    var slot := StoreSlot(s, dramBase, mmu, scrs, imm);
    CapAtAfterStore(s.caps, StoreAddr(s, mmu, scrs, imm), 0, s.gpr[cs2].(tag := 0));
    GetAfterSet(s.tags, slot);
    SetChangesOneBit(s.tags, slot, other);
  }

  /** In storage, the record written by a tagged store has a zero tag bit and
      the same first bit-field word as cs2. */
  lemma {:induction false} StoredImageUntagged(s: State, dramBase: bv64, mmu: Translate, scrs: RegIdx, cs2: RegIdx, imm: SImm)
    requires CanStore(s, dramBase, mmu, scrs, cs2, imm) && s.gpr[cs2].tag == 1
    ensures var t := Spec(s, dramBase, mmu, scrs, cs2, imm).next;
            var stored := CapAt(t.caps, StoreAddr(s, mmu, scrs, imm));
            Pack(stored).w1 & 0x8000_0000 == 0 && Pack(stored).w0 == Pack(s.gpr[cs2]).w0
  {
    CapAtAfterStore(s.caps, StoreAddr(s, mmu, scrs, imm), 0, s.gpr[cs2].(tag := 0));
    UntaggedImageHasZeroTagBit(s.gpr[cs2]);
  }
}
