/** `ccall cs1, cd`: jump to the offset of capability register cd. PCC's
    offset becomes cd's offset and nothing else about PCC changes; integer
    register x1 receives pc + 4, as `jalr` would write ra. No check of any
    kind is made, so the instruction never faults. The handler returns the
    new PCC offset, which the host uses as the next pc. */
module Ccall {
  import opened CheriTypes
  import opened CheriDefs
  import opened Host
  import opened Cheri
  import opened Machine

  /** The return address written to x1: pc + 4, wrapping at 2^64. */
  function ReturnAddress(pc: bv64): bv64
  {
    pc + 4
  }

  /** The instruction on the state: PCC takes cd's offset, and the
      capability registers are untouched. */
  function Spec(s: State, cd: RegIdx, pc: bv64): (r: State)
    requires WellFormed(s)
    ensures WellFormed(r) && r.gpr == s.gpr && r.csr[CHERI_CSR_PCC].offset == s.gpr[cd].offset
  {
    var pcc := s.csr[CHERI_CSR_PCC];
    s.(csr := s.csr[CHERI_CSR_PCC := pcc.(offset := s.gpr[cd].offset)],
       xpr := WriteX(s.xpr, 1, ReturnAddress(pc)))
  }

  /** The pc the handler returns. */
  function NextPc(s: State, cd: RegIdx, pc: bv64): (r: u64)
    requires WellFormed(s)
    ensures r == s.gpr[cd].offset
  {
    Spec(s, cd, pc).csr[CHERI_CSR_PCC].offset
  }

  /** The handler. */
  method Execute(ext: CheriExt, hart: Hart, mem: Memory, cd: RegIdx, pc: bv64) returns (npc: u64)
    requires Ready(ext, hart)
    modifies ext.csrFile, hart`xpr
    ensures Ready(ext, hart)
    ensures View(ext, hart, mem) == Spec(old(View(ext, hart, mem)), cd, pc)
    ensures npc == NextPc(old(View(ext, hart, mem)), cd, pc)
  {
    ghost var s := View(ext, hart, mem);
    ext.csrFile[CHERI_CSR_PCC] := ext.csrFile[CHERI_CSR_PCC].(offset := ext.regFile[cd].offset);
    hart.Write(1, ReturnAddress(pc));
    npc := ext.csrFile[CHERI_CSR_PCC].offset;
  }

  // ---------------------------------------------------------------------------
  // Properties

  /** PCC's offset becomes cd's offset and its authority (base, length,
      permissions, seal, type, tag) is unchanged; the returned pc is that
      offset. */
  lemma {:induction false} JumpKeepsAuthority(s: State, cd: RegIdx, pc: bv64)
    requires WellFormed(s)
    ensures var t := Spec(s, cd, pc);
            t.csr[CHERI_CSR_PCC].offset == s.gpr[cd].offset &&
            t.csr[CHERI_CSR_PCC].(offset := s.csr[CHERI_CSR_PCC].offset) == s.csr[CHERI_CSR_PCC] &&
            NextPc(s, cd, pc) == s.gpr[cd].offset
  {
  }

  /** x1 receives pc + 4 and no other integer register changes. */
  lemma {:induction false} LinkRegister(s: State, cd: RegIdx, pc: bv64)
    requires WellFormed(s)
    ensures var t := Spec(s, cd, pc);
            t.xpr[1] == pc + 4 &&
            forall j :: 0 <= j < 32 && j != 1 ==> t.xpr[j] == s.xpr[j]
  {
  }

  /** No check is made: the result is the same for every capability in cd
      with the same offset, tagged or not, sealed or not. Only PCC and x1
      change: the capability registers, the other special registers, the
      tag table, the cause and memory are as before. */
  lemma {:induction false} NoChecksAndFrame(s: State, cd: RegIdx, pc: bv64, c: Cap)
    requires WellFormed(s) && c.offset == s.gpr[cd].offset
    ensures Spec(s.(gpr := s.gpr[cd := c]), cd, pc) == Spec(s, cd, pc).(gpr := s.gpr[cd := c])
    ensures var t := Spec(s, cd, pc);
            t.gpr == s.gpr && t.tags == s.tags && t.cause == s.cause &&
            t.caps == s.caps && t.halves == s.halves &&
            forall j :: 0 <= j < NUM_CHERI_CSR_REGS && j != CHERI_CSR_PCC ==> t.csr[j] == s.csr[j]
  {
  }

  /** A call through the capability reset leaves in a general-purpose
      register jumps to 0 with PCC's authority untouched. */
  lemma {:induction false} CallAfterReset(s: State, cd: RegIdx, pc: bv64)
    requires WellFormed(s) && s.gpr == ResetGprFile() && s.csr == ResetCsrFile()
    ensures Spec(s, cd, pc).csr[CHERI_CSR_PCC] == RootCap()
  {
    ResetCsrs(CHERI_CSR_PCC);
    assert s.csr[CHERI_CSR_PCC] == RootCap();
  }
}
