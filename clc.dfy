/** `clc cd, imm(cs1)`: load a capability from memory into capability
    register cd. The address is integer register cs1 plus the sign-extended
    immediate, translated for a load. The record is read first; if the tag
    table has no bit for its granule the tag fault is raised with the cs2
    field of the instruction as the register number and cd is not written,
    otherwise cd receives the record with its tag set. */
module Clc {
  import opened CheriTypes
  import opened CheriDefs
  import opened TagMemory
  import opened Host
  import opened Cheri
  import opened Machine
  import Csc

  /** `translate(READ_REG(cs1) + s_imm, LOAD)`, from the value of cs1. */
  function LoadTarget(mmu: Translate, base: bv64, imm: SImm): bv64
  {
    mmu(base + imm, Load)
  }

  /** The physical address a load through cs1 reads. */
  function LoadAddr(s: State, mmu: Translate, cs1: RegIdx, imm: SImm): bv64
    requires WellFormed(s)
  {
    LoadTarget(mmu, s.xpr[cs1], imm)
  }

  /** The slot `cheriMem_getTag(paddr)` tests: it translates paddr again. */
  function LoadSlot(s: State, dramBase: bv64, mmu: Translate, cs1: RegIdx, imm: SImm): Slot
    requires WellFormed(s)
  {
    GranuleSlot(dramBase, mmu(LoadAddr(s, mmu, cs1, imm), Load))
  }

  /** The tag table has a word for the slot the load tests. */
  predicate CanLoad(s: State, dramBase: bv64, mmu: Translate, cs1: RegIdx, imm: SImm)
  {
    WellFormed(s) && InTable(s.tags, LoadSlot(s, dramBase, mmu, cs1, imm))
  }

  /** The instruction on the state: it faults exactly when the tag bit is
      clear, and a load writes cd with a tagged record and leaves the table. */
  function Spec(s: State, dramBase: bv64, mmu: Translate, cd: RegIdx, cs1: RegIdx, cs2: RegIdx, imm: SImm): (r: Result)
    requires CanLoad(s, dramBase, mmu, cs1, imm)
    ensures r.Fault? <==> !TestBit(s.tags, LoadSlot(s, dramBase, mmu, cs1, imm))
    ensures r.Fault? ==> r == Fault(TagViolation, cs2)
    ensures r.Ok? ==> WellFormed(r.next) && r.next.gpr[cd].tag == 1 && r.next.tags == s.tags
  {
    var loaded := CapAt(s.caps, LoadAddr(s, mmu, cs1, imm));
    if !TestBit(s.tags, LoadSlot(s, dramBase, mmu, cs1, imm)) then
      Fault(TagViolation, cs2)
    else
      Ok(s.(gpr := s.gpr[cd := loaded.(tag := 1)]))
  }

  /** The handler. The cause is written directly (`CAPCAUSE`), not through
      `raise_trap`, with the same value. */
  method Execute(ext: CheriExt, hart: Hart, mem: Memory, mmu: Translate, cd: RegIdx, cs1: RegIdx, cs2: RegIdx, imm: SImm)
    returns (o: Outcome)
    requires Ready(ext, hart) && CanLoad(View(ext, hart, mem), ext.dramBase, mmu, cs1, imm)
    modifies ext`capcause, ext.regFile
    ensures Ready(ext, hart)
    ensures View(ext, hart, mem) ==
            Commit(old(View(ext, hart, mem)), Spec(old(View(ext, hart, mem)), ext.dramBase, mmu, cd, cs1, cs2, imm))
    ensures o == Signal(Spec(old(View(ext, hart, mem)), ext.dramBase, mmu, cd, cs1, cs2, imm))
  {
    ghost var s := View(ext, hart, mem);
    var base := hart.Read(cs1);
    var paddr := LoadTarget(mmu, base, imm);
    var c := mem.LoadCap(paddr);
    var tagged := ext.GetTag(mmu, paddr);
    if !tagged {
      ext.SetCause((Code(TagViolation) << 8) | (cs2 as bv64));
      o := Trapped(TagViolation, cs2);
      return;
    }
    c := c.(tag := 1);
    ext.regFile[cd] := c;
    o := Retired;
  }

  // ---------------------------------------------------------------------------
  // Properties

  /** Without a tag bit the load faults with cs2 (not cd) and changes nothing
      but the cause: in particular cd keeps its value. */
  lemma {:induction false} UntaggedLoadFaults(s: State, dramBase: bv64, mmu: Translate, cd: RegIdx, cs1: RegIdx, cs2: RegIdx, imm: SImm)
    requires CanLoad(s, dramBase, mmu, cs1, imm) && !TestBit(s.tags, LoadSlot(s, dramBase, mmu, cs1, imm))
    ensures Spec(s, dramBase, mmu, cd, cs1, cs2, imm) == Fault(TagViolation, cs2)
    ensures var t := Commit(s, Spec(s, dramBase, mmu, cd, cs1, cs2, imm));
            t == s.(cause := Cause(TagViolation, cs2)) && t.gpr[cd] == s.gpr[cd]
  {
  }

  /** With the tag bit set, cd receives the record at the address with its tag
      set and every other field as stored; nothing else changes. */
  lemma {:induction false} TaggedLoadEffect(s: State, dramBase: bv64, mmu: Translate, cd: RegIdx, cs1: RegIdx, cs2: RegIdx, imm: SImm)
    requires CanLoad(s, dramBase, mmu, cs1, imm) && TestBit(s.tags, LoadSlot(s, dramBase, mmu, cs1, imm))
    ensures Spec(s, dramBase, mmu, cd, cs1, cs2, imm).Ok?
    ensures var t := Spec(s, dramBase, mmu, cd, cs1, cs2, imm).next;
            var stored := CapAt(s.caps, LoadAddr(s, mmu, cs1, imm));
            t.gpr[cd].tag == 1 && t.gpr[cd].(tag := stored.tag) == stored &&
            (forall j :: 0 <= j < NUM_CHERI_REGS && j != cd ==> t.gpr[j] == s.gpr[j]) &&
            t.(gpr := s.gpr) == s
  {
  }

  /** Whether the load faults is decided by the tag table alone: two states
      with the same integer registers and tag table agree on it, whatever
      memory and the capability registers hold. */
  lemma {:induction false} FaultDependsOnlyOnTags(s: State, u: State, dramBase: bv64, mmu: Translate, cd: RegIdx, cs1: RegIdx, cs2: RegIdx, imm: SImm)
    requires CanLoad(s, dramBase, mmu, cs1, imm) && WellFormed(u)
    requires u.tags == s.tags && u.xpr[cs1] == s.xpr[cs1]
    ensures CanLoad(u, dramBase, mmu, cs1, imm)
    ensures Spec(s, dramBase, mmu, cd, cs1, cs2, imm).Fault? <==> Spec(u, dramBase, mmu, cd, cs1, cs2, imm).Fault?
  {
    assert LoadSlot(u, dramBase, mmu, cs1, imm) == LoadSlot(s, dramBase, mmu, cs1, imm);
  }

  /** The load never changes the tag table, memory or the integer registers. */
  lemma {:induction false} TagsUnchanged(s: State, dramBase: bv64, mmu: Translate, cd: RegIdx, cs1: RegIdx, cs2: RegIdx, imm: SImm)
    requires CanLoad(s, dramBase, mmu, cs1, imm)
    ensures var t := Commit(s, Spec(s, dramBase, mmu, cd, cs1, cs2, imm));
            t.tags == s.tags && t.caps == s.caps && t.xpr == s.xpr && t.csr == s.csr
  {
  }

  /** Storing a tagged capability and loading it back from the same physical
      address gives back the capability exactly, tag included. */
  lemma {:induction false} StoreThenLoad(s: State, dramBase: bv64, mmu: Translate, scrs: RegIdx, cs2: RegIdx, imm: SImm,
                                         cd: RegIdx, cs1: RegIdx, cs2L: RegIdx, immL: SImm)
    requires Csc.CanStore(s, dramBase, mmu, scrs, cs2, imm) && s.gpr[cs2].tag == 1
    requires LoadTarget(mmu, s.xpr[cs1], immL) == Csc.StoreAddr(s, mmu, scrs, imm)
    ensures var t := Csc.Spec(s, dramBase, mmu, scrs, cs2, imm).next;
            CanLoad(t, dramBase, mmu, cs1, immL) &&
            Spec(t, dramBase, mmu, cd, cs1, cs2L, immL).Ok? &&
            Spec(t, dramBase, mmu, cd, cs1, cs2L, immL).next.gpr[cd] == s.gpr[cs2]
  {
    var t := Csc.Spec(s, dramBase, mmu, scrs, cs2, imm).next;
    var slot := Csc.StoreSlot(s, dramBase, mmu, scrs, imm);
    assert LoadSlot(t, dramBase, mmu, cs1, immL) == slot;
    GetAfterSet(s.tags, slot);
    CapAtAfterStore(s.caps, Csc.StoreAddr(s, mmu, scrs, imm), 0, s.gpr[cs2].(tag := 0));
  }

  /** The same with one register and immediate for both, when translating
      that address for a load and for a store gives the same physical address. */
  lemma {:induction false} StoreThenLoadSameOperand(s: State, dramBase: bv64, mmu: Translate, r: RegIdx, imm: SImm,
                                                    cs2: RegIdx, cd: RegIdx)
    requires Csc.CanStore(s, dramBase, mmu, r, cs2, imm) && s.gpr[cs2].tag == 1
    requires mmu(s.xpr[r] + imm, Load) == mmu(s.xpr[r] + imm, Store)
    ensures var t := Csc.Spec(s, dramBase, mmu, r, cs2, imm).next;
            CanLoad(t, dramBase, mmu, r, imm) &&
            Spec(t, dramBase, mmu, cd, r, cs2, imm) == Ok(t.(gpr := t.gpr[cd := s.gpr[cs2]]))
  {
    var t := Csc.Spec(s, dramBase, mmu, r, cs2, imm).next;
    assert LoadTarget(mmu, s.xpr[r], imm) == Csc.StoreAddr(s, mmu, r, imm);
    StoreThenLoad(s, dramBase, mmu, r, cs2, imm, cd, r, cs2, imm);
    assert t.gpr == s.gpr;
  }
}
