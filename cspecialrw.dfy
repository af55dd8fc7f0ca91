/** `cspecialrw cd, chs, cs1`: read and/or write special capability register
    chs. The old value of chs is taken first; then, unless cs1 is c0, chs
    receives capability register cs1; then, unless cd is c0, cd receives the
    old value of chs. With cs1 = c0 the instruction only reads, with cd = c0
    it only writes, and with cs1 = cd it exchanges the two registers. */
module Cspecialrw {
  import opened CheriTypes
  import opened CheriDefs
  import opened Host
  import opened Cheri
  import opened Machine

  /** The instruction on the state: cd, unless c0, receives chs's value from
      before the write. */
  function Spec(s: State, cd: RegIdx, chs: RegIdx, cs1: RegIdx): (r: State)
    requires WellFormed(s)
    ensures WellFormed(r) && (cd != 0 ==> r.gpr[cd] == s.csr[chs])
  {
    var old_csr := s.csr[chs];
    s.(csr := if cs1 != 0 then s.csr[chs := s.gpr[cs1]] else s.csr,
       gpr := if cd != 0 then s.gpr[cd := old_csr] else s.gpr)
  }

  /** The handler. */
  method Execute(ext: CheriExt, hart: Hart, mem: Memory, cd: RegIdx, chs: RegIdx, cs1: RegIdx)
    requires Ready(ext, hart)
    modifies ext.regFile, ext.csrFile
    ensures Ready(ext, hart)
    ensures View(ext, hart, mem) == Spec(old(View(ext, hart, mem)), cd, chs, cs1)
  {
    var temp := ext.csrFile[chs];
    if cs1 != 0 {
      ext.csrFile[chs] := ext.regFile[cs1];
    }
    if cd != 0 {
      ext.regFile[cd] := temp;
    }
  }

  // ---------------------------------------------------------------------------
  // Properties

  /** The special register: it receives cs1 when cs1 is not c0 and is
      unchanged otherwise; no other special register changes. */
  lemma {:induction false} SpecialRegisterEffect(s: State, cd: RegIdx, chs: RegIdx, cs1: RegIdx)
    requires WellFormed(s)
    ensures var t := Spec(s, cd, chs, cs1);
            |t.csr| == NUM_CHERI_CSR_REGS &&
            t.csr[chs] == (if cs1 != 0 then s.gpr[cs1] else s.csr[chs]) &&
            forall j :: 0 <= j < NUM_CHERI_CSR_REGS && j != chs ==> t.csr[j] == s.csr[j]
  {
  }

  /** The destination: cd receives the value chs held BEFORE the write, even
      when cs1 is the same register, unless cd is c0; no other capability
      register changes, and c0 never does. */
  lemma {:induction false} DestinationEffect(s: State, cd: RegIdx, chs: RegIdx, cs1: RegIdx)
    requires WellFormed(s)
    ensures var t := Spec(s, cd, chs, cs1);
            |t.gpr| == NUM_CHERI_REGS &&
            (cd != 0 ==> t.gpr[cd] == s.csr[chs]) &&
            t.gpr[0] == s.gpr[0] &&
            forall j :: 0 <= j < NUM_CHERI_REGS && j != cd ==> t.gpr[j] == s.gpr[j]
  {
  }

  /** Only the two register files can change. */
  lemma {:induction false} Frame(s: State, cd: RegIdx, chs: RegIdx, cs1: RegIdx)
    requires WellFormed(s)
    ensures var t := Spec(s, cd, chs, cs1);
            WellFormed(t) && t.(gpr := s.gpr, csr := s.csr) == s
  {
  }

  /** With cs1 = c0 the instruction is a pure read of chs. */
  lemma {:induction false} ReadOnly(s: State, cd: RegIdx, chs: RegIdx)
    requires WellFormed(s) && cd != 0
    ensures Spec(s, cd, chs, 0) == s.(gpr := s.gpr[cd := s.csr[chs]])
  {
  }

  /** With cd = c0 the instruction is a pure write of chs. */
  lemma {:induction false} WriteOnly(s: State, chs: RegIdx, cs1: RegIdx)
    requires WellFormed(s) && cs1 != 0
    ensures Spec(s, 0, chs, cs1) == s.(csr := s.csr[chs := s.gpr[cs1]])
  {
  }

  /** With both fields c0 nothing changes. */
  lemma {:induction false} BothZeroIsNop(s: State, chs: RegIdx)
    requires WellFormed(s)
    ensures Spec(s, 0, chs, 0) == s
  {
  }

  /** With cs1 = cd (not c0) the two registers are exchanged. */
  lemma {:induction false} Exchange(s: State, r: RegIdx, chs: RegIdx)
    requires WellFormed(s) && r != 0
    ensures Spec(s, r, chs, r).gpr[r] == s.csr[chs]
    ensures Spec(s, r, chs, r).csr[chs] == s.gpr[r]
  {
  }

  /** Exchanging twice restores the state. */
  lemma {:induction false} ExchangeTwiceRestores(s: State, r: RegIdx, chs: RegIdx)
    requires WellFormed(s) && r != 0
    ensures WellFormed(Spec(s, r, chs, r))
    ensures Spec(Spec(s, r, chs, r), r, chs, r) == s
  {
    var t := Spec(s, r, chs, r);
    var u := Spec(t, r, chs, r);
    assert u.gpr == s.gpr;
    assert u.csr == s.csr;
  }

  /** Reading a special register right after writing it through the same
      instruction's destination gives back the written value. */
  lemma {:induction false} WriteThenRead(s: State, chs: RegIdx, cs1: RegIdx, cd: RegIdx)
    requires WellFormed(s) && cs1 != 0 && cd != 0
    ensures WellFormed(Spec(s, 0, chs, cs1))
    ensures Spec(Spec(s, 0, chs, cs1), cd, chs, 0).gpr[cd] == s.gpr[cs1]
  {
  }
}
