/** `lhucap rd, cs1`: load an unsigned halfword through capability register
    cs1. The capability must be tagged, unsealed and carry the load
    permission, and the two bytes at base + offset must lie in
    [base, base + length), all computed with 64-bit wrap-around. The first
    failing check raises its fault with cs1 as the register number. */
module Lhucap {
  import opened CheriTypes
  import opened CheriDefs
  import opened Host
  import opened Cheri
  import opened Machine

  /** `CS1.base + CS1.offset`, the address the load reads. */
  function Cursor(c: Cap): u64
  {
    Add64(c.base, c.offset)
  }

  /** Whether a capability fails the check for one fault kind. */
  predicate Violates(c: Cap, k: FaultKind)
  {
    match k
    case TagViolation => c.tag == 0
    case SealViolation => c.sealed == 1
    case PermitLoadViolation => (c.perms as bv64) & Bit(CHERI_PERMIT_LOAD) != Bit(CHERI_PERMIT_LOAD)
    case LengthViolation =>
      Add64(Cursor(c), 2) > Add64(c.base, c.length) || Cursor(c) < c.base
  }

  /** The order in which the handler checks. */
  function Rank(k: FaultKind): nat
  {
    match k
    case TagViolation => 0
    case SealViolation => 1
    case PermitLoadViolation => 2
    case LengthViolation => 3
  }

  /** The handler's chain of checks: the fault it raises, if any. It raises
      nothing exactly when the capability fails no check, and otherwise the
      fault of the first check, in handler order, that fails. */
  function LoadCheck(c: Cap): (r: Option<FaultKind>)
    ensures r == None <==> forall k :: !Violates(c, k)
    ensures r.Some? ==> Violates(c, r.value) && forall k :: Rank(k) < Rank(r.value) ==> !Violates(c, k)
  {
    if c.tag == 0 then
      assert Violates(c, TagViolation); Some(TagViolation)
    else if c.sealed == 1 then
      assert Violates(c, SealViolation); Some(SealViolation)
    else if (c.perms as bv64) & Bit(CHERI_PERMIT_LOAD) != Bit(CHERI_PERMIT_LOAD) then
      assert Violates(c, PermitLoadViolation); Some(PermitLoadViolation)
    else if Add64(Cursor(c), 2) > Add64(c.base, c.length) then
      assert Violates(c, LengthViolation); Some(LengthViolation)
    else if Cursor(c) < c.base then
      assert Violates(c, LengthViolation); Some(LengthViolation)
    else None
  }

  /** The instruction on the state: fault with cs1, or write the zero-extended
      halfword at the cursor to integer register rd. */
  function Spec(s: State, rd: RegIdx, cs1: RegIdx): (r: Result)
    requires WellFormed(s)
    ensures r.Ok? <==> forall k :: !Violates(s.gpr[cs1], k)
    ensures r.Fault? ==> r.reg == cs1 && Violates(s.gpr[cs1], r.kind)
  {
    var c := s.gpr[cs1];
    match LoadCheck(c)
    case Some(k) => Fault(k, cs1)
    case None => Ok(s.(xpr := WriteX(s.xpr, rd, HalfAt(s.halves, Cursor(c)) as bv64)))
  }

  /** The handler, on the extension, the hart and memory. */
  method Execute(ext: CheriExt, hart: Hart, mem: Memory, rd: RegIdx, cs1: RegIdx) returns (o: Outcome)
    requires Ready(ext, hart)
    modifies ext`capcause, hart`xpr
    ensures Ready(ext, hart)
    ensures View(ext, hart, mem) == Commit(old(View(ext, hart, mem)), Spec(old(View(ext, hart, mem)), rd, cs1))
    ensures o == Signal(Spec(old(View(ext, hart, mem)), rd, cs1))
  {
    ghost var s := View(ext, hart, mem);
    var c := ext.regFile[cs1];
    assert c == s.gpr[cs1];
    if c.tag == 0 {
      o := ext.RaiseTrap(TagViolation, cs1);
      return;
    } else if c.sealed == 1 {
      o := ext.RaiseTrap(SealViolation, cs1);
      return;
    } else if (c.perms as bv64) & Bit(CHERI_PERMIT_LOAD) != Bit(CHERI_PERMIT_LOAD) {
      o := ext.RaiseTrap(PermitLoadViolation, cs1);
      return;
    }
    var addr := Add64(c.base, c.offset);
    if Add64(addr, 2) > Add64(c.base, c.length) {
      o := ext.RaiseTrap(LengthViolation, cs1);
    } else if addr < c.base {
      o := ext.RaiseTrap(LengthViolation, cs1);
    } else {
      var h := mem.LoadHalf(addr);
      hart.Write(rd, h as bv64);
      o := Retired;
    }
  }

  // ---------------------------------------------------------------------------
  // Properties

  /** A fault reports register cs1 and changes nothing but the cause. */
  lemma {:induction false} FaultChangesOnlyCause(s: State, rd: RegIdx, cs1: RegIdx)
    requires WellFormed(s) && Spec(s, rd, cs1).Fault?
    ensures Spec(s, rd, cs1).reg == cs1
    ensures Spec(s, rd, cs1).kind == LoadCheck(s.gpr[cs1]).value
    ensures Commit(s, Spec(s, rd, cs1)) == s.(cause := Cause(LoadCheck(s.gpr[cs1]).value, cs1))
  {
  }

  /** A load that passes its checks changes integer register rd alone, to
      the halfword at the cursor, zero-extended. */
  lemma {:induction false} LoadChangesOnlyRd(s: State, rd: RegIdx, cs1: RegIdx)
    requires WellFormed(s) && Spec(s, rd, cs1).Ok?
    ensures Spec(s, rd, cs1).next.(xpr := s.xpr) == s
    ensures forall j :: 0 <= j < 32 && j != rd ==> Spec(s, rd, cs1).next.xpr[j] == s.xpr[j]
    ensures rd != 0 ==> Spec(s, rd, cs1).next.xpr[rd] == HalfAt(s.halves, Cursor(s.gpr[cs1])) as bv64
    ensures Spec(s, rd, cs1).next.xpr[rd] < 0x1_0000
  {
  }

  /** An untagged capability always raises the tag fault, whatever else is
      wrong with it: the tag check comes first. */
  lemma UntaggedFaultsWithTag(s: State, rd: RegIdx, cs1: RegIdx)
    requires WellFormed(s) && s.gpr[cs1].tag == 0
    ensures Spec(s, rd, cs1) == Fault(TagViolation, cs1)
  {
  }

  /** A tagged, sealed capability raises the seal fault. */
  lemma SealedFaultsWithSeal(s: State, rd: RegIdx, cs1: RegIdx)
    requires WellFormed(s) && s.gpr[cs1].tag == 1 && s.gpr[cs1].sealed == 1
    ensures Spec(s, rd, cs1) == Fault(SealViolation, cs1)
  {
  }

  /** A tagged, unsealed capability without permission bit 2 raises the
      permit-load fault. */
  lemma NoLoadPermFaultsWithPermitLoad(s: State, rd: RegIdx, cs1: RegIdx)
    requires WellFormed(s) && s.gpr[cs1].tag == 1 && s.gpr[cs1].sealed == 0
    requires s.gpr[cs1].perms & 4 == 0
    ensures Spec(s, rd, cs1) == Fault(PermitLoadViolation, cs1)
  {
    assert (s.gpr[cs1].perms as bv64) & Bit(CHERI_PERMIT_LOAD) == 0;
  }

  /** Where no sum wraps, the bounds checks pass exactly when the two bytes
      at the cursor lie inside the capability: offset + 2 <= length. */
  lemma {:induction false} BoundsWithoutWrap(c: Cap)
    requires c.base + c.offset + 2 < TWO64 && c.base + c.length < TWO64
    ensures !Violates(c, LengthViolation) <==> c.offset + 2 <= c.length
  {
  }

  /** The boundary case: a 16-byte capability at 0x1000 loads at offset 0xE
      and faults at offset 0xF. */
  lemma {:induction false} BoundaryExample(s: State, rd: RegIdx, cs1: RegIdx, c: Cap)
    requires WellFormed(s)
    requires c.tag == 1 && c.sealed == 0 && c.perms == 0x7FF
    requires c.base == 0x1000 && c.length == 0x10
    ensures Spec(s.(gpr := s.gpr[cs1 := c.(offset := 0xE)]), rd, cs1).Ok?
    ensures Spec(s.(gpr := s.gpr[cs1 := c.(offset := 0xF)]), rd, cs1) == Fault(LengthViolation, cs1)
  {
    assert (0x7FF as bv11 as bv64) & Bit(CHERI_PERMIT_LOAD) == Bit(CHERI_PERMIT_LOAD);
    BoundsWithoutWrap(c.(offset := 0xE));
    BoundsWithoutWrap(c.(offset := 0xF));
  }

  /** When the cursor wraps past 2^64 the second check catches it: a cursor
      below the base always faults. */
  lemma {:induction false} WrappedCursorFaults(c: Cap)
    requires c.tag == 1 && c.sealed == 0
    requires c.base + c.offset >= TWO64
    ensures LoadCheck(c) != None
  {
    assert Cursor(c) < c.base;
  }

  /** The checks compare wrapped sums, so they admit loads far outside the
      capability: the reset DDC capability (length 2^63 - 1) with offset
      2^64 - 2 passes every check, because the cursor plus 2 wraps to 0. */
  lemma {:induction false} WrapAdmitsLoadOutsideBounds(c: Cap)
    requires c == RootCap().(offset := TWO64 - 2)
    ensures LoadCheck(c) == None
    ensures Cursor(c) >= c.base + c.length
  {
    assert (c.perms as bv64) & Bit(CHERI_PERMIT_LOAD) == Bit(CHERI_PERMIT_LOAD);
    assert Add64(Cursor(c), 2) == 0;
  }

  /** The bounds check the handler evidently intends: the two bytes at
      base + offset lie inside [base, base + length), computed without
      wrap-around. */
  predicate WithinBounds(c: Cap)
  {
    c.base <= c.base + c.offset && c.base + c.offset + 2 <= c.base + c.length
  }

  /** The handler's chain of checks with that bounds check in place of the
      wrapped comparisons. */
  function IntendedLoadCheck(c: Cap): (r: Option<FaultKind>)
    ensures r == None <==> !Violates(c, TagViolation) && !Violates(c, SealViolation) &&
                           !Violates(c, PermitLoadViolation) && WithinBounds(c)
  {
    if c.tag == 0 then Some(TagViolation)
    else if c.sealed == 1 then Some(SealViolation)
    else if (c.perms as bv64) & Bit(CHERI_PERMIT_LOAD) != Bit(CHERI_PERMIT_LOAD) then Some(PermitLoadViolation)
    else if !WithinBounds(c) then Some(LengthViolation)
    else None
  }

  /** The intended check admits only loads inside the capability, and it
      refuses the load the wrapped check lets through; where no sum wraps the
      two checks agree. */
  lemma {:induction false} IntendedCheckCorrect(c: Cap)
    ensures IntendedLoadCheck(c) == None ==> c.offset + 2 <= c.length
    ensures c.base + c.offset + 2 < TWO64 && c.base + c.length < TWO64 ==> IntendedLoadCheck(c) == LoadCheck(c)
    ensures c == RootCap().(offset := TWO64 - 2) ==> IntendedLoadCheck(c) == Some(LengthViolation) && LoadCheck(c) == None
  {
    if c.base + c.offset + 2 < TWO64 && c.base + c.length < TWO64 {
      BoundsWithoutWrap(c);
    }
    if c == RootCap().(offset := TWO64 - 2) {
      WrapAdmitsLoadOutsideBounds(c);
    }
  }

  /** Right after reset no general-purpose capability can be loaded through:
      each is untagged. */
  lemma ResetGprsFault(s: State, rd: RegIdx, cs1: RegIdx)
    requires WellFormed(s) && s.gpr == ResetGprFile()
    ensures Spec(s, rd, cs1) == Fault(TagViolation, cs1)
  {
  }

  /** The capability reset installs in DDC, placed in a general-purpose
      register, loads at exactly those offsets whose two bytes lie below
      2^63 - 1, and also at the last two offsets, where cursor + 2 wraps to
      0 or 1. */
  lemma {:induction false} RootCapLoads(s: State, rd: RegIdx, cs1: RegIdx, off: u64)
    requires WellFormed(s) && s.gpr[cs1] == RootCap().(offset := off)
    ensures Spec(s, rd, cs1).Ok? <==> off + 2 <= TWO64 / 2 - 1 || off >= TWO64 - 2
  {
    var c := s.gpr[cs1];
    assert (c.perms as bv64) & Bit(CHERI_PERMIT_LOAD) == Bit(CHERI_PERMIT_LOAD);
    if off + 2 < TWO64 {
      BoundsWithoutWrap(c);
    } else {
      assert Add64(Cursor(c), 2) == off + 2 - TWO64;
      assert !Violates(c, LengthViolation);
    }
  }
}
