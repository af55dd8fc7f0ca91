/** The parts of the host simulator the capability extension calls into:
    the hart's integer register file, the MMU's address translation and the
    MMU's memory access routines. Their internals are not part of this model;
    each is reduced to the behaviour the handlers rely on. */
module Host {
  import opened CheriTypes

  /** The access type passed to `translate`. */
  datatype Access = Load | Store

  /** `mmu_t::translate(addr, len, type)`: a virtual address and an access
      type give a physical address. Page faults raised by translation are not
      part of this model, so the function is total. */
  type Translate = (bv64, Access) -> bv64

  /** A 12-bit instruction immediate sign-extended to 64 bits (`insn.s_imm()`):
      bits 11 to 63 are all equal. */
  type SImm = i: bv64 | i < 0x800 || i >= 0xFFFF_FFFF_FFFF_F800

  /** An integer register file of 32 registers whose register 0 reads as zero. */
  predicate XprValid(xpr: seq<bv64>)
  {
    |xpr| == 32 && xpr[0] == 0
  }

  /** A write to integer register i: a write to register 0 is dropped, as the
      host's register file does for its hard-wired zero register. */
  function WriteX(xpr: seq<bv64>, i: nat, v: bv64): (r: seq<bv64>)
    requires XprValid(xpr) && i < 32
    ensures XprValid(r)
    ensures i != 0 ==> r[i] == v
    ensures forall j :: 0 <= j < 32 && j != i ==> r[j] == xpr[j]
    ensures i == 0 ==> r == xpr
  {
    if i == 0 then xpr else xpr[i := v]
  }

  /** The 16-bit value `load_uint16` returns for an address: memory starts
      zeroed, so an address never written reads as zero. */
  function HalfAt(halves: map<u64, bv16>, a: u64): bv16
  {
    if a in halves then halves[a] else 0
  }

  /** The record `load_cheri_reg` returns for an address: an address never
      written reads as the all-zero record. Memory is indexed by the address's
      value as a number. */
  function CapAt(caps: map<u64, Cap>, a: bv64): Cap
  {
    if a as int in caps then caps[a as int] else NullCap
  }

  /** Memory after `store_cheri_reg(a, c)`. */
  function StoreCapAt(caps: map<u64, Cap>, a: bv64, c: Cap): map<u64, Cap>
  {
    caps[a as int := c]
  }

  /** Reading a record back after storing it at the same address gives it back,
      and a store at one address leaves every other address as it was. */
  lemma {:induction false} CapAtAfterStore(caps: map<u64, Cap>, a: bv64, b: bv64, c: Cap)
    ensures CapAt(StoreCapAt(caps, a, c), a) == c
    ensures b != a ==> CapAt(StoreCapAt(caps, a, c), b) == CapAt(caps, b)
  {
    IndexInjective(a, b);
  }

  /** Distinct addresses are distinct numbers. */
  lemma IndexInjective(a: bv64, b: bv64)
    ensures a as int == b as int ==> a == b
  {
    assert (a as int) as bv64 == a;
    assert (b as int) as bv64 == b;
  }

  /** The hart: its integer register file (`STATE.XPR`). */
  class Hart {
    var xpr: seq<bv64>

    ghost predicate Valid()
      reads this
    {
      XprValid(xpr)
    }

    constructor ()
      ensures Valid() && xpr == seq(32, _ => 0)
    {
      xpr := seq(32, _ => 0);
    }

    /** `READ_REG(i)`. */
    method Read(i: nat) returns (v: bv64)
      requires Valid() && i < 32
      ensures v == xpr[i]
      ensures i == 0 ==> v == 0
    {
      v := xpr[i];
    }

    /** `WRITE_REG(i, v)` and `WRITE_RD(v)`. */
    method Write(i: nat, v: bv64)
      requires Valid() && i < 32
      modifies this`xpr
      ensures Valid()
      ensures xpr == WriteX(old(xpr), i, v)
    {
      if i != 0 {
        xpr := xpr[i := v];
      }
    }
  }

  /** Physical memory as seen through the MMU's access routines. Capability
      records and halfwords are kept apart: the byte-level overlap of the two
      views is not modelled. */
  class Memory {
    var caps: map<u64, Cap>
    var halves: map<u64, bv16>

    constructor ()
      ensures caps == map[] && halves == map[]
    {
      caps := map[];
      halves := map[];
    }

    /** `load_uint16(addr)`. */
    method LoadHalf(a: u64) returns (h: bv16)
      ensures h == HalfAt(halves, a)
    {
      h := if a in halves then halves[a] else 0;
    }

    /** `load_cheri_reg(addr)`. */
    method LoadCap(a: bv64) returns (c: Cap)
      ensures c == CapAt(caps, a)
    {
      c := if a as int in caps then caps[a as int] else NullCap;
    }

    /** `store_cheri_reg(addr, cap)`. */
    method StoreCap(a: bv64, c: InMemoryCap)
      modifies this`caps
      ensures caps == StoreCapAt(old(caps), a, c)
    {
      caps := caps[a as int := c];
    }
  }
}
