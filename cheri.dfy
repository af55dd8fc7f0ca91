/** The capability extension object `cheri_t`: the two capability register
    files, the tag table, the cause register and the capability length, with
    the operations that create, reset and query them. */
module Cheri {
  import opened CheriTypes
  import opened CheriDefs
  import opened TagMemory
  import opened Host

  /** `MASK(sizeof(length) * 8 - 1)`: 63 one bits, the largest length reset
      gives a capability (not the full 64-bit range). */
  function LengthMask(): (m: u64)
    ensures m == TWO64 / 2 - 1
  {
    MaskInstances();
    Mask(63) as int
  }

  /** The permissions reset grants PCC and DDC: all eleven architectural bits. */
  const ROOT_PERMS: bv11 := 0x7FF

  /** A general-purpose register after reset: zeroed, then given the length mask. */
  function ResetGpr(): Cap
  {
    NullCap.(length := LengthMask())
  }

  /** The value reset installs in PCC and in DDC. */
  function RootCap(): Cap
  {
    Cap(0, LengthMask(), 0, 0, ROOT_PERMS, 0, 0, 0, 1)
  }

  /** The capability register file after reset. */
  function ResetGprFile(): (r: seq<Cap>)
    ensures |r| == NUM_CHERI_REGS
  {
    seq(NUM_CHERI_REGS, _ => ResetGpr())
  }

  /** The special capability register file after reset. */
  function ResetCsrFile(): (r: seq<Cap>)
    ensures |r| == NUM_CHERI_CSR_REGS
  {
    seq(NUM_CHERI_CSR_REGS, i => if i == CHERI_CSR_PCC || i == CHERI_CSR_DDC then RootCap() else NullCap)
  }

  /** `clen` after reset, in bits: twice XLEN in the 128-bit build, four
      times XLEN otherwise. */
  function ResetClen(cheri128: bool, xlen: nat): nat
  {
    if cheri128 then 2 * xlen else 4 * xlen
  }

  /** After reset every general-purpose register is untagged, unsealed, has no
      permissions, base and offset 0, and length 2^63 - 1. */
  lemma ResetGprsAreNull(i: nat)
    requires i < NUM_CHERI_REGS
    ensures var c := ResetGprFile()[i];
            c.tag == 0 && c.sealed == 0 && c.perms == 0 && c.uperms == 0 &&
            c.base == 0 && c.offset == 0 && c.otype == 0 && c.reserved == 0 &&
            c.length == TWO64 / 2 - 1
  {
  }

  /** After reset PCC and DDC cover [0, 2^63 - 1) with every architectural
      permission, tagged and unsealed; every other special register is the
      all-zero record. */
  lemma ResetCsrs(i: nat)
    requires i < NUM_CHERI_CSR_REGS
    ensures i == CHERI_CSR_PCC || i == CHERI_CSR_DDC ==>
              var c := ResetCsrFile()[i];
              c.tag == 1 && c.sealed == 0 && c.base == 0 && c.offset == 0 &&
              c.length == TWO64 / 2 - 1 && c.perms == 0x7FF && c.uperms == 0 &&
              c.otype == 0 && c.reserved == 0
    ensures i != CHERI_CSR_PCC && i != CHERI_CSR_DDC ==> ResetCsrFile()[i] == NullCap
  {
    if i == CHERI_CSR_PCC || i == CHERI_CSR_DDC {
      assert ResetCsrFile()[i] == RootCap();
    }
  }

  /** On RV64 the reset capability length matches the in-memory size of a
      capability in both builds: 128 bits compressed, 256 bits otherwise. */
  lemma ResetClenMatchesCapsize(cheri128: bool)
    ensures ResetClen(cheri128, 64) == CapsizeBytes(cheri128) * 8
    ensures ResetClen(true, 32) == 64 && ResetClen(false, 32) == 128
  {
  }

  /** The extension object. The register files are fixed arrays of 32
      records; the tag table is allocated by `CreateTaggedMemory`. */
  class CheriExt {
    /** `DRAM_BASE`, the host's first physical memory address. */
    const dramBase: bv64
    /** Whether the extension is built for 128-bit (compressed) capabilities. */
    const cheri128: bool
    /** `state.reg_file`. */
    const regFile: array<Cap>
    /** `state.csrs_reg_file`. */
    const csrFile: array<Cap>
    /** `state.tag_bits`. */
    var tagBits: array<bv64>
    /** `capcause`, the cause register `raise_trap` and `CAPCAUSE` write. */
    var capcause: bv64
    /** `clen`, the capability length in bits. */
    var clen: nat

    ghost predicate Valid()
      reads this
    {
      regFile.Length == NUM_CHERI_REGS && csrFile.Length == NUM_CHERI_CSR_REGS && regFile != csrFile &&
      regFile as object != tagBits && csrFile as object != tagBits
    }

    /** The constructor sizes the tag table for 2 GiB of memory. The register
        files start as all-zero records until `Reset` runs. */
    constructor (dramBase: bv64, cheri128: bool)
      ensures Valid()
      ensures this.dramBase == dramBase && this.cheri128 == cheri128
      ensures fresh(regFile) && fresh(csrFile) && fresh(tagBits)
      ensures regFile[..] == seq(NUM_CHERI_REGS, _ => NullCap)
      ensures csrFile[..] == seq(NUM_CHERI_CSR_REGS, _ => NullCap)
      ensures tagBits[..] == ZeroTable(0x10_0000)
      ensures capcause == 0 && clen == 0
    {
      this.dramBase := dramBase;
      this.cheri128 := cheri128;
      regFile := new Cap[NUM_CHERI_REGS](_ => NullCap);
      csrFile := new Cap[NUM_CHERI_CSR_REGS](_ => NullCap);
      tagBits := new bv64[0];
      capcause := 0;
      clen := 0;
      new;
      CreateTaggedMemory(Bit(31));
      TwoGiBTableSize();
    }

    /** `create_tagged_memory(memsz)`: a zeroed table of one bit per whole
        32-byte granule, rounded down to whole 64-bit words. */
    method CreateTaggedMemory(memsz: bv64)
      modifies this`tagBits
      ensures fresh(tagBits)
      ensures tagBits[..] == ZeroTable(TagWords(memsz) as int)
    {
      var neededBits := memsz / 32;
      tagBits := new bv64[((neededBits / 8) / 8) as int](_ => 0);
    }

    /** `cheriMem_setTag(addr)`: translate for a load, then set the bit of
        the granule's slot. */
    method SetTag(mmu: Translate, addr: bv64)
      requires InTable(tagBits[..], GranuleSlot(dramBase, mmu(addr, Load)))
      modifies tagBits
      ensures tagBits[..] == SetBit(old(tagBits[..]), GranuleSlot(dramBase, mmu(addr, Load)))
    {
      var paddr := mmu(addr, Load);
      var slot := GranuleSlot(dramBase, paddr);
      tagBits[slot.word] := WithBit(tagBits[slot.word], slot.bit);
    }

    /** `cheriMem_getTag(addr)`: translate for a load, then test the bit of
        the granule's slot. */
    method GetTag(mmu: Translate, addr: bv64) returns (tagged: bool)
      requires InTable(tagBits[..], GranuleSlot(dramBase, mmu(addr, Load)))
      ensures tagged == TestBit(tagBits[..], GranuleSlot(dramBase, mmu(addr, Load)))
    {
      var paddr := mmu(addr, Load);
      var slot := GranuleSlot(dramBase, paddr);
      tagged := HasBit(tagBits[slot.word], slot.bit);
    }

    /** `cheriMem_clearTag(addr)`: translate for a store, then clear the bit
        of the slot of granule `(paddr - DRAM_BASE) >> 8`. */
    method ClearTag(mmu: Translate, addr: bv64)
      requires InTable(tagBits[..], ClearGranuleSlot(dramBase, mmu(addr, Store)))
      modifies tagBits
      ensures tagBits[..] == ClearBit(old(tagBits[..]), ClearGranuleSlot(dramBase, mmu(addr, Store)))
    {
      var paddr := mmu(addr, Store);
      var slot := ClearGranuleSlot(dramBase, paddr);
      tagBits[slot.word] := WithoutBit(tagBits[slot.word], slot.bit);
    }

    /** `reset()`: zero both register files, give every general-purpose
        register the length mask, install PCC and DDC, and set `clen` from
        XLEN. The tag table is left as it is. */
    method Reset(xlen: nat)
      requires Valid() && (xlen == 32 || xlen == 64)
      modifies regFile, csrFile, this`clen
      ensures Valid()
      ensures regFile[..] == ResetGprFile()
      ensures csrFile[..] == ResetCsrFile()
      ensures clen == ResetClen(cheri128, xlen)
    {
      var lengthMask := LengthMask();
      forall i | 0 <= i < regFile.Length {
        regFile[i] := NullCap;
      }
      forall i | 0 <= i < csrFile.Length {
        csrFile[i] := NullCap;
      }
      for i := 0 to NUM_CHERI_REGS
        invariant forall j :: 0 <= j < i ==> regFile[j] == ResetGpr()
        invariant forall j :: i <= j < NUM_CHERI_REGS ==> regFile[j] == NullCap
        invariant forall j :: 0 <= j < NUM_CHERI_CSR_REGS ==> csrFile[j] == NullCap
      {
        regFile[i] := regFile[i].(length := lengthMask);
      }
      csrFile[CHERI_CSR_PCC] := Cap(0, lengthMask, 0, 0, 0x7FF, 0, 0, 0, 1);
      csrFile[CHERI_CSR_DDC] := Cap(0, lengthMask, 0, 0, 0x7FF, 0, 0, 0, 1);
      forall j | 0 <= j < NUM_CHERI_CSR_REGS
        ensures csrFile[j] == ResetCsrFile()[j]
      {
        ResetCsrs(j);
      }
      clen := if cheri128 then 2 * xlen else 4 * xlen;
    }

    /** `get_clen()`. */
    method GetClen() returns (c: nat)
      ensures c == clen
    {
      c := clen;
    }

    /** `get_cause()`: the value last stored by `SetCause`. */
    method GetCause() returns (c: bv64)
      ensures c == capcause
    {
      c := capcause;
    }

    /** `set_cause(c)`. */
    method SetCause(c: bv64)
      modifies this`capcause
      ensures capcause == c
    {
      capcause := c;
    }

    /** `raise_trap(code, reg)`: record `(code << 8) | reg` and abort the
        instruction, which the handler reports by returning `Trapped`. */
    method RaiseTrap(k: FaultKind, reg: RegIdx) returns (o: Outcome)
      modifies this`capcause
      ensures capcause == Cause(k, reg)
      ensures o == Trapped(k, reg)
    {
      SetCause((Code(k) << 8) | (reg as bv64));
      o := Trapped(k, reg);
    }
  }
}
