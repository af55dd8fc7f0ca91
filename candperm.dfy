/** `candperm cd, cs1, rs2`: capability register cd receives a copy of cs1
    whose permission fields are narrowed by integer register rs2. The
    handler ANDs the mask into the permissions cd held before the write, not
    into those of cs1; every other field comes from cs1. No check is made and
    c0 is written like any other register. */
module Candperm {
  import opened CheriTypes
  import opened CheriDefs
  import opened Host
  import opened Cheri
  import opened Machine

  /** `perms & (RS2 & MASK(CHERI_PERM_BITS))`: the low eleven bits of rs2
      mask the architectural permissions. */
  function NarrowPerms(perms: bv11, rs2: bv64): bv11
  {
    MaskInstances();
    perms & ((rs2 & Mask(CHERI_PERM_BITS)) as bv11)
  }

  /** `uperms & ((RS2 >> CHERI_PERM_BITS) & MASK(CHERI_USER_PERM_BITS))`: the
      next twenty bits of rs2 mask the user permissions. */
  function NarrowUperms(uperms: bv20, rs2: bv64): bv20
  {
    MaskInstances();
    uperms & (((rs2 >> CHERI_PERM_BITS) & Mask(CHERI_USER_PERM_BITS)) as bv20)
  }

  /** The value written to cd: cs1 with the permissions of `from` narrowed. */
  function Narrowed(c: Cap, from: Cap, rs2: bv64): (r: Cap)
    ensures r.(perms := c.perms, uperms := c.uperms) == c
  {
    c.(perms := NarrowPerms(from.perms, rs2), uperms := NarrowUperms(from.uperms, rs2))
  }

  /** The instruction on the state: only cd is written. */
  function Spec(s: State, cd: RegIdx, cs1: RegIdx, rs2: RegIdx): (r: State)
    requires WellFormed(s)
    ensures WellFormed(r) && r.(gpr := s.gpr) == s
  {
    s.(gpr := s.gpr[cd := Narrowed(s.gpr[cs1], s.gpr[cd], s.xpr[rs2])])
  }

  /** The handler. */
  method Execute(ext: CheriExt, hart: Hart, mem: Memory, cd: RegIdx, cs1: RegIdx, rs2: RegIdx)
    requires Ready(ext, hart)
    modifies ext.regFile
    ensures Ready(ext, hart)
    ensures View(ext, hart, mem) == Spec(old(View(ext, hart, mem)), cd, cs1, rs2)
  {
    var mask := hart.Read(rs2);
    var temp := ext.regFile[cs1];
    temp := temp.(perms := NarrowPerms(ext.regFile[cd].perms, mask));
    temp := temp.(uperms := NarrowUperms(ext.regFile[cd].uperms, mask));
    ext.regFile[cd] := temp;
  }

  // ---------------------------------------------------------------------------
  // Properties

  /** Narrowing computed on the field loses nothing: it equals the source's
      64-bit expression, which is then stored into the eleven-bit field. */
  lemma PermsAs64(perms: bv11, rs2: bv64)
    ensures NarrowPerms(perms, rs2) as bv64 == (perms as bv64) & rs2 & 0x7FF
  {
    MaskInstances();
  }

  /** The same for the twenty-bit user permissions. */
  lemma UpermsAs64(uperms: bv20, rs2: bv64)
    ensures NarrowUperms(uperms, rs2) as bv64 == (uperms as bv64) & (rs2 >> 11) & 0xF_FFFF
  {
    MaskInstances();
  }

  /** Narrowed permissions are a bitwise subset of the old ones and of the mask. */
  lemma PermsSubset(perms: bv11, rs2: bv64)
    ensures NarrowPerms(perms, rs2) & !perms == 0
    ensures (NarrowPerms(perms, rs2) as bv64) & !rs2 == 0
  {
    PermsAs64(perms, rs2);
  }

  /** Narrowed user permissions are a bitwise subset of the old ones and of
      the mask shifted down by eleven bits. */
  lemma UpermsSubset(uperms: bv20, rs2: bv64)
    ensures NarrowUperms(uperms, rs2) & !uperms == 0
    ensures (NarrowUperms(uperms, rs2) as bv64) & !(rs2 >> 11) == 0
  {
    UpermsAs64(uperms, rs2);
  }

  /** The result's permissions are a bitwise subset of cd's old permissions,
      and of the mask in rs2. */
  lemma {:induction false} NarrowsCdPermissions(s: State, cd: RegIdx, cs1: RegIdx, rs2: RegIdx)
    requires WellFormed(s)
    ensures var r := Spec(s, cd, cs1, rs2).gpr[cd];
            r.perms & !s.gpr[cd].perms == 0 && r.uperms & !s.gpr[cd].uperms == 0 &&
            (r.perms as bv64) & !s.xpr[rs2] == 0 && (r.uperms as bv64) & !(s.xpr[rs2] >> 11) == 0
  {
    PermsSubset(s.gpr[cd].perms, s.xpr[rs2]);
    UpermsSubset(s.gpr[cd].uperms, s.xpr[rs2]);
  }

  /** cs1's permissions do not bound the result: with cs1 holding no
      permission, cd holding all of them and an all-ones mask, the result
      holds every permission. */
  lemma {:induction false} Cs1DoesNotBound(s: State, cd: RegIdx, cs1: RegIdx, rs2: RegIdx)
    requires WellFormed(s) && cd != cs1
    requires s.gpr[cs1].perms == 0 && s.gpr[cd].perms == 0x7FF && s.xpr[rs2] == 0xFFFF_FFFF_FFFF_FFFF
    ensures Spec(s, cd, cs1, rs2).gpr[cd].perms == 0x7FF
    ensures Spec(s, cd, cs1, rs2).gpr[cd].perms & !s.gpr[cs1].perms != 0
  {
    MaskInstances();
  }

  /** The instruction as it is evidently meant: cs1's permissions narrowed
      by the mask, so that the result never holds a permission cs1 lacks. */
  function IntendedSpec(s: State, cd: RegIdx, cs1: RegIdx, rs2: RegIdx): (r: State)
    requires WellFormed(s)
    ensures WellFormed(r) && r.(gpr := s.gpr) == s
  {
    s.(gpr := s.gpr[cd := Narrowed(s.gpr[cs1], s.gpr[cs1], s.xpr[rs2])])
  }

  /** The intended instruction is monotone in cs1's permissions, ignores what
      cd held, and agrees with the handler whenever cd is cs1. */
  lemma {:induction false} IntendedNarrowsCs1(s: State, cd: RegIdx, cs1: RegIdx, rs2: RegIdx, c: Cap)
    requires WellFormed(s)
    ensures var r := IntendedSpec(s, cd, cs1, rs2).gpr[cd];
            r.perms & !s.gpr[cs1].perms == 0 && r.uperms & !s.gpr[cs1].uperms == 0 &&
            r.(perms := s.gpr[cs1].perms, uperms := s.gpr[cs1].uperms) == s.gpr[cs1]
    ensures cd != cs1 ==> IntendedSpec(s.(gpr := s.gpr[cd := c]), cd, cs1, rs2) == IntendedSpec(s, cd, cs1, rs2)
    ensures cd == cs1 ==> IntendedSpec(s, cd, cs1, rs2) == Spec(s, cd, cs1, rs2)
  {
    var n := Narrowed(s.gpr[cs1], s.gpr[cs1], s.xpr[rs2]);
    assert IntendedSpec(s, cd, cs1, rs2).gpr[cd] == n;
    NarrowedWithin(s.gpr[cs1], s.xpr[rs2]);
    if cd != cs1 {
      assert s.gpr[cd := c][cd := n] == s.gpr[cd := n];
    }
  }

  /** A capability narrowed by its own permissions keeps a subset of them. */
  lemma NarrowedWithin(c: Cap, rs2: bv64)
    ensures Narrowed(c, c, rs2).perms & !c.perms == 0 && Narrowed(c, c, rs2).uperms & !c.uperms == 0
  {
    PermsSubset(c.perms, rs2);
    UpermsSubset(c.uperms, rs2);
  }

  /** Every field other than the permissions is cs1's. */
  lemma {:induction false} CopiesCs1(s: State, cd: RegIdx, cs1: RegIdx, rs2: RegIdx)
    requires WellFormed(s)
    ensures var r := Spec(s, cd, cs1, rs2).gpr[cd];
            r.(perms := s.gpr[cs1].perms, uperms := s.gpr[cs1].uperms) == s.gpr[cs1]
  {
  }

  /** Only cd changes, c0 included when cd is c0. */
  lemma {:induction false} WritesOnlyCd(s: State, cd: RegIdx, cs1: RegIdx, rs2: RegIdx)
    requires WellFormed(s)
    ensures var t := Spec(s, cd, cs1, rs2);
            |t.gpr| == NUM_CHERI_REGS && t.(gpr := s.gpr) == s &&
            forall j :: 0 <= j < NUM_CHERI_REGS && j != cd ==> t.gpr[j] == s.gpr[j]
  {
  }

  /** With cd = cs1, narrowing twice by the same mask is narrowing once. */
  lemma {:induction false} NarrowTwiceIsOnce(s: State, r: RegIdx, rs2: RegIdx)
    requires WellFormed(s)
    ensures WellFormed(Spec(s, r, r, rs2))
    ensures Spec(Spec(s, r, r, rs2), r, r, rs2) == Spec(s, r, r, rs2)
  {
    var c, m := s.gpr[r], s.xpr[rs2];
    assert NarrowPerms(NarrowPerms(c.perms, m), m) == NarrowPerms(c.perms, m);
    assert NarrowUperms(NarrowUperms(c.uperms, m), m) == NarrowUperms(c.uperms, m);
    assert Narrowed(Narrowed(c, c, m), Narrowed(c, c, m), m) == Narrowed(c, c, m);
  }

  /** An all-ones mask keeps cd's permissions. */
  lemma {:induction false} FullMaskKeepsCdPermissions(s: State, cd: RegIdx, cs1: RegIdx, rs2: RegIdx)
    requires WellFormed(s) && s.xpr[rs2] == 0xFFFF_FFFF_FFFF_FFFF
    ensures Spec(s, cd, cs1, rs2).gpr[cd].perms == s.gpr[cd].perms
    ensures Spec(s, cd, cs1, rs2).gpr[cd].uperms == s.gpr[cd].uperms
  {
    MaskInstances();
  }
}
