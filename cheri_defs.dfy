/** The definitions of the capability extension's header: the BIT/MASK macros,
    the register-file and permission-width constants, the fault kinds and the
    composite fault cause that `raise_trap` records. */
module CheriDefs {
  import opened CheriTypes

  /** `BIT(x)`: the 64-bit word whose only set bit is bit x. */
  function Bit(x: bv32): bv64
    requires x < 64
  {
    1 << x
  }

  /** `MASK(n)`: `BIT(n) - 1`, the 64-bit word with bits 0 .. n-1 set. */
  function Mask(n: bv32): (r: bv64)
    requires n < 64
    ensures r & (r + 1) == 0 && (r + 1) >> n == 1
  {
    Bit(n) - 1
  }

  /** BIT(x) is 2^x: it has bit y set exactly when y is x. */
  lemma BitIsSingleBit(x: bv32, y: bv32)
    requires x < 64 && y < 64
    ensures Bit(x) & Bit(y) != 0 <==> x == y
  {
  }

  /** MASK(n) is 2^n - 1: it has bit k set exactly when k is below n. */
  lemma MaskIsLowBits(n: bv32, k: bv32)
    requires n < 64 && k < 64
    ensures Mask(n) & Bit(k) != 0 <==> k < n
  {
  }

  /** The instances the source uses, as numbers. */
  lemma MaskInstances()
    ensures Mask(6) == 63
    ensures Mask(11) == 0x7FF && Mask(20) == 0xF_FFFF
    ensures Mask(63) as int == 0x7FFF_FFFF_FFFF_FFFF
    ensures Bit(31) == 0x8000_0000
  {
  }

  /** Number of general-purpose capability registers (separate register file). */
  const NUM_CHERI_REGS: nat := 32
  /** Number of special capability registers. */
  const NUM_CHERI_CSR_REGS: nat := 32

  /** A 5-bit register-number field of an instruction; it indexes either file. */
  type RegIdx = i: nat | i < 32

  /** Width of the software-defined permission field. */
  const CHERI_USER_PERM_BITS: bv32 := 20
  /** Width of the architectural permission field. */
  const CHERI_PERM_BITS: bv32 := 11

  /** `CHERI_CAPSIZE_BYTES` for the 128-bit (compressed) and the full build. */
  function CapsizeBytes(cheri128: bool): nat
  {
    if cheri128 then 16 else 32
  }

  /** Special capability register numbers: the program-counter capability and
      the default data capability. */
  const CHERI_CSR_PCC: RegIdx := 0
  const CHERI_CSR_DDC: RegIdx := 1

  /** Architectural permission bit that authorises loads. */
  const CHERI_PERMIT_LOAD: bv32 := 2

  /** The capability fault kinds raised by the modelled handlers. */
  datatype FaultKind = LengthViolation | TagViolation | SealViolation | PermitLoadViolation

  /** `CAUSE_CHERI_*`: the exception code recorded for each fault kind. */
  function Code(k: FaultKind): (c: bv64)
    ensures 0 < c < 0x100
  {
    match k
    case LengthViolation => 0x01
    case TagViolation => 0x02
    case SealViolation => 0x03
    case PermitLoadViolation => 0x12
  }

  /** Distinct fault kinds have distinct codes. */
  lemma CodeInjective(k1: FaultKind, k2: FaultKind)
    ensures Code(k1) == Code(k2) <==> k1 == k2
  {
  }

  /** The cause value `(code << 8) | reg`: the code sits above the low byte
      and the faulting register number in it, so both can be read back. */
  function Cause(k: FaultKind, reg: RegIdx): (c: bv64)
    ensures c >> 8 == Code(k)
    ensures c & 0xFF == reg as bv64
  {
    (Code(k) << 8) | (reg as bv64)
  }

  /** What a handler signals to the dispatcher: it retired, or it raised the
      capability trap (after recording the cause). */
  datatype Outcome = Retired | Trapped(kind: FaultKind, reg: RegIdx)
}
