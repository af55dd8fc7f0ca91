/** The architectural state the instruction handlers read and write, as a
    value, and what a handler produces: either the next state, or the fault
    it raised. A fault aborts the handler before any of its side effects, so
    committing a fault changes the cause register and nothing else. */
module Machine {
  import opened CheriTypes
  import opened CheriDefs
  import opened Host
  import opened Cheri

  datatype Option<T> = None | Some(value: T)

  /** Everything a handler can observe or change: the capability register
      files, the tag table, the cause register, the integer registers and
      memory. */
  datatype State = State(
    gpr: seq<Cap>,
    csr: seq<Cap>,
    tags: seq<bv64>,
    cause: bv64,
    xpr: seq<bv64>,
    caps: map<u64, Cap>,
    halves: map<u64, bv16>)

  predicate WellFormed(s: State)
  {
    |s.gpr| == NUM_CHERI_REGS && |s.csr| == NUM_CHERI_CSR_REGS && XprValid(s.xpr)
  }

  /** The effect of one handler: it ran to completion, or it raised the
      capability trap with a fault kind and a register number. */
  datatype Result = Ok(next: State) | Fault(kind: FaultKind, reg: RegIdx)

  /** The state after a handler: its next state, or on a fault the state
      before it with the cause recorded. */
  function Commit(s: State, r: Result): State
  {
    match r
    case Ok(t) => t
    case Fault(k, reg) => s.(cause := Cause(k, reg))
  }

  /** What the handler reports to the dispatcher. */
  function Signal(r: Result): Outcome
  {
    match r
    case Ok(_) => Retired
    case Fault(k, reg) => Trapped(k, reg)
  }

  /** The state held by the extension, the hart and memory. */
  ghost function View(ext: CheriExt, hart: Hart, mem: Memory): State
    reads ext, ext.regFile, ext.csrFile, ext.tagBits, hart, mem
  {
    State(ext.regFile[..], ext.csrFile[..], ext.tagBits[..], ext.capcause, hart.xpr, mem.caps, mem.halves)
  }

  /** The handlers' common requirement on the objects. */
  ghost predicate Ready(ext: CheriExt, hart: Hart)
    reads ext, hart
  {
    ext.Valid() && hart.Valid()
  }

  /** Committing a fault records a cause from which the fault kind and the
      register can be read back, and changes nothing else. */
  lemma {:induction false} CommitFault(s: State, k: FaultKind, reg: RegIdx)
    ensures Commit(s, Fault(k, reg)).cause >> 8 == Code(k)
    ensures Commit(s, Fault(k, reg)).cause & 0xFF == reg as bv64
    ensures Commit(s, Fault(k, reg)).(cause := s.cause) == s
  {
  }
}
