# CHERI capability engine of the Spike RISC-V simulator, in Dafny

This project models the capability extension (`cheri_t`) that the Spike
RISC-V simulator loads to run CHERI code, and proves properties of it.

- **Capability record** (`cheri_reg_t`). Three 64-bit fields: base, length and offset. They are integers below 2^64 and sums of them wrap explicitly. The packed fields are bit-vectors of their declared widths: uperms 20, perms 11, sealed 1, otype 24, reserved 7, tag 1. The record's 32-byte storage layout is modelled as an `Image`.
- **Extension object** (`class CheriExt`). It holds the general-purpose and special capability register files (arrays of 32 records), the tag table (an array of 64-bit words), the cause register and `clen`. Its operations are `create_tagged_memory`, `cheriMem_setTag` / `getTag` / `clearTag`, `reset`, `get_clen`, `get_cause`, `set_cause` and `raise_trap`. Each method is proved against functions on sequences in `TagMemory` and `Cheri`.
- **Host collaborators** (`Host`).
  - The hart's integer registers are a class whose x0 reads as zero.
  - Address translation is a function parameter.
  - Memory is a class with two maps: address to capability record, and address to halfword. An address never written reads as zero.
- **Instruction handlers** (`lhucap`, `csc`, `clc`, `ccall`, `cspecialrw`, `candperm`).
  - Each one is an imperative `Execute` method on the extension, the hart and memory.
  - Each is proved equal to a pure `Spec` on a value `State`.
  - Where a handler can fault, `Spec` returns `Ok(next)` or `Fault(kind, reg)`. Committing a fault changes only the cause register, so "nothing changes before the trap" is part of every handler's contract.

The instruction-level properties are lemmas about the `Spec` functions.

Constants the handlers use but whose headers are not part of this model come from version 7 of the CHERI Instruction-Set Architecture:
- the cause codes: length 0x01, tag 0x02, seal 0x03, permit-load 0x12;
- the permit-load permission bit: 2;
- the special register numbers: PCC 0, DDC 1.

Where the design description and the code differ, the model follows the code:
- **Cause register.** The description records the cause per privilege level. The model has one cause register, the member `capcause` (cheri/cheri.h:151) that `get_cause`, `set_cause` and `raise_trap` use. The handlers' `CAPCAUSE` writes are modelled as writes to that same register. The macro is defined outside the modelled files, so whether it names the per-privilege array instead is not settled here.
- **Tag granule.** A tag covers `sizeof(cheri_reg_t)` = 32 bytes in both builds, as the code computes it, not `CHERI_CAPSIZE_BYTES`.
- **Permission widths.** The layout comment says uperms 16 and perms 15. The struct declares 20 and 11, and the model uses 20 and 11.

## Model

| member | source | states |
|---|---|---|
| CheriTypes.Add64 | cheri/cheri_types.h:48-50 | the sum of two 64-bit fields is the integer sum, less 2^64 when it reaches 2^64 |
| CheriTypes.Pack | cheri/cheri_types.h:46-59 | each field of the record sits at its declared position and width in the two bit-field words |
| CheriTypes.Word0Tiles | cheri/cheri_types.h:52-54 | uperms, perms and sealed cover the first bit-field word with no gap or overlap |
| CheriTypes.Word1Tiles | cheri/cheri_types.h:56-58 | otype, reserved and tag cover the second bit-field word with no gap or overlap |
| CheriTypes.UnpackPack | cheri/cheri_types.h:46-59 | reading the fields back from a record's storage gives the record |
| CheriTypes.PackUnpack | cheri/cheri_types.h:46-59 | every 32-byte storage image is the image of the record read from it |
| CheriTypes.UntaggedImageHasZeroTagBit | cheri/cheri_types.h:71-73 | a record stored with its tag cleared has tag bit 31 of the second word zero and the same first word |
| CheriDefs.Bit | cheri/cheri.h:44 | `BIT(x)` is 1 shifted left by x in 64 bits |
| CheriDefs.Mask | cheri/cheri.h:45 | `MASK(n)` is a run of ones in the low bits: one more than it is a single bit above them, at position n |
| CheriDefs.BitIsSingleBit | cheri/cheri.h:44 | `BIT(x)` has exactly bit x set |
| CheriDefs.MaskIsLowBits | cheri/cheri.h:45 | `MASK(n)` has exactly bits 0 to n-1 set |
| CheriDefs.MaskInstances | cheri/cheri.h:44-45 | the masks the source uses are 63, 0x7FF, 0xFFFFF and 2^63 - 1, and `BIT(31)` is 2^31 |
| CheriDefs.Code | cheri/insns/lhucap.h:34-63 | each fault kind's exception code is nonzero and fits below the register byte |
| CheriDefs.CodeInjective | cheri/insns/lhucap.h:34-63 | distinct fault kinds have distinct codes |
| CheriDefs.Cause | cheri/cheri.h:139-140 | the cause holds the code above bit 8 and the register number in the low byte, both recoverable |
| TagMemory.GranuleIndex | cheri/cheri.cc:48-49 | the granule of an address is `(paddr - DRAM_BASE) >> 5`, in 64-bit unsigned arithmetic |
| TagMemory.GranuleSlot | cheri/cheri.cc:48-53 | set and get address word `granule >> 6` (truncated to 32 bits) and bit `granule & 63`, so the word index is below 2^32 |
| TagMemory.ClearGranuleSlot | cheri/cheri.cc:90-95 | clear addresses the same split of `(paddr - DRAM_BASE) >> 8`, with a word index below 2^32 |
| TagMemory.SetBit | cheri/cheri.cc:60 | `tag_bits[word] OR= BIT(bit)`, on a table whose length is kept |
| TagMemory.ClearBit | cheri/cheri.cc:101 | `tag_bits[word] AND= NOT BIT(bit)`, on a table whose length is kept |
| TagMemory.TestBit | cheri/cheri.cc:84 | the tag is `tag_bits[word] AND BIT(bit)` tested for nonzero |
| TagMemory.TagWords | cheri/cheri.cc:150-158 | the allocated word count `((memsz / 32) / 8) / 8` equals `memsz >> 11` |
| TagMemory.TwoGiBTableSize | cheri/cheri.h:109-112 | the constructor's 2^31-byte memory needs 2^20 table words |
| TagMemory.SameGranuleSameSlot | cheri/cheri.cc:48-53 | byte k < 32 of granule g, the address base + 32g + k, has the same tag bit as the granule's first byte |
| TagMemory.DistinctGranulesDistinctSlots | cheri/cheri.cc:48-53 | addresses in different granules within 2^43 bytes of the base have different tag bits |
| TagMemory.SlotDecomposesGranule | cheri/cheri.cc:48-53 | for addresses within 2^43 bytes of the base, the granule index is 64 * word + bit |
| TagMemory.TableCoversWholeWords | cheri/cheri.cc:148-158 | every granule below 64 times the allocated word count has its word inside the table |
| TagMemory.TrailingGranulesHaveNoBit | cheri/cheri.cc:149-158 | rounding down to whole words leaves complete trailing granules without a bit (2080 bytes give one word; the granule at 2048 falls in word 1) |
| TagMemory.ClearSlotDiffersFromSetSlot | cheri/cheri.cc:87-101 | the shift by 8 in clear addresses a different bit from set and get for every address one granule or more above the base |
| TagMemory.ClearSlotAgreesInFirstGranule | cheri/cheri.cc:87-101 | in the first granule clear and set address the same bit, word 0 bit 0 |
| TagMemory.OrSetsBit | cheri/cheri.cc:60 | `w OR BIT(b)` has bit b set |
| TagMemory.OrKeepsOtherBits | cheri/cheri.cc:60 | `w OR BIT(b)` keeps every other bit of w |
| TagMemory.AndNotClearsBit | cheri/cheri.cc:101 | `w AND NOT BIT(b)` has bit b clear |
| TagMemory.AndNotKeepsOtherBits | cheri/cheri.cc:101 | `w AND NOT BIT(b)` keeps every other bit of w |
| TagMemory.AndNotUndoesOr | cheri/cheri.cc:60-101 | clearing a bit that setting turned on gives back the word |
| TagMemory.FreshTableUntagged | cheri/cheri.cc:158 | a freshly zeroed table reports no tag anywhere |
| TagMemory.GetAfterSet | cheri/cheri.cc:44-84 | after setting a slot, getting it reports a tag |
| TagMemory.SetChangesOneBit | cheri/cheri.cc:44-62 | setting changes one bit: every other slot reads as before and every other word is unchanged |
| TagMemory.GetAfterClear | cheri/cheri.cc:87-102 | after clearing a slot, getting it reports no tag |
| TagMemory.ClearChangesOneBit | cheri/cheri.cc:87-102 | clearing a slot leaves every other slot as it was |
| TagMemory.SetIdempotent | cheri/cheri.cc:60 | setting twice is setting once |
| TagMemory.ClearIdempotent | cheri/cheri.cc:101 | clearing twice is clearing once |
| TagMemory.SetRepeatedlyIsSetOnce | cheri/cheri.cc:60 | any positive number of sets of a slot equals one set, and the slot reads as tagged |
| TagMemory.ClearDoesNotUndoSet | cheri/cheri.cc:87-101 | clearing an address after setting it leaves its tag set (one granule or more above the base) |
| TagMemory.ClearUndoesSet | cheri/cheri.cc:60-101 | clearing the slot that was set leaves it clear, and restores a table in which it was clear |
| TagMemory.IntendedClearUndoesSet | cheri/cheri.cc:87-101 | with the granule shift of 5, clearing an address after setting it undoes the set |
| Host.WriteX | cheri/insns/ccall.h:19 | a register write changes that register alone, and a write to x0 is dropped |
| Host.CapAtAfterStore | cheri/insns/csc.h:23 | a record stored at an address reads back from it, and other addresses are unchanged |
| Host.Hart.Read | cheri/insns/csc.h:3 | `READ_REG(i)` returns register i, zero for x0 |
| Host.Hart.Write | cheri/insns/ccall.h:19 | `WRITE_REG(i, v)` leaves the file as `WriteX` describes |
| Host.Memory.LoadHalf | cheri/insns/lhucap.h:68 | `load_uint16` returns the halfword at the address, or zero |
| Host.Memory.LoadCap | cheri/insns/clc.h:7 | `load_cheri_reg` returns the record at the address, or the all-zero record |
| Host.Memory.StoreCap | cheri/insns/csc.h:23 | `store_cheri_reg` replaces the record at that address and nothing else |
| Cheri.RootCap | cheri/cheri.cc:179-181 | PCC and DDC after reset: `{0, length_mask, 0, 0, 0x7ff, 0, 0, 0, 1}` in field order |
| Cheri.ResetGprFile | cheri/cheri.cc:169-175 | the 32 general-purpose registers after reset: zeroed, then given the length mask |
| Cheri.ResetCsrFile | cheri/cheri.cc:170-181 | the 32 special registers after reset: zeroed, then PCC and DDC installed |
| Cheri.ResetClen | cheri/cheri.cc:183-188 | `clen` is 2 * XLEN in the 128-bit build and 4 * XLEN otherwise |
| Cheri.LengthMask | cheri/cheri.cc:168 | the reset length mask is 2^63 - 1, not 2^64 - 1 |
| Cheri.ResetGprsAreNull | cheri/cheri.cc:168-175 | after reset every general-purpose register is all zero except its length, 2^63 - 1 |
| Cheri.ResetCsrs | cheri/cheri.cc:170-181 | after reset PCC and DDC are tagged and unsealed, with base 0, length 2^63 - 1 and perms 0x7FF; every other special register is all zero |
| Cheri.ResetClenMatchesCapsize | cheri/cheri.cc:183-188 | reset `clen` is 2 or 4 times XLEN, which on RV64 is the capability size in bits of each build |
| Cheri.CheriExt.constructor | cheri/cheri.h:109-112 | the constructor allocates a zeroed table of 2^20 words |
| Cheri.CheriExt.CreateTaggedMemory | cheri/cheri.cc:148-164 | the new table is zeroed, with `(memsz / 32) / 64` words, rounded down |
| Cheri.CheriExt.SetTag | cheri/cheri.cc:44-62 | the table becomes `SetBit` of the old table at the slot of the load-translated address |
| Cheri.CheriExt.GetTag | cheri/cheri.cc:64-85 | the result is the bit at the slot of the load-translated address |
| Cheri.CheriExt.ClearTag | cheri/cheri.cc:87-102 | the table becomes `ClearBit` of the old table at the shift-8 slot of the store-translated address |
| Cheri.CheriExt.Reset | cheri/cheri.cc:167-189 | the register files become the reset files and `clen` is set from XLEN; the tag table is untouched |
| Cheri.CheriExt.GetClen | cheri/cheri.h:130-132 | returns `clen` |
| Cheri.CheriExt.GetCause | cheri/cheri.h:133-135 | returns the value last passed to `SetCause` |
| Cheri.CheriExt.SetCause | cheri/cheri.h:136-138 | the cause becomes the value passed |
| Cheri.CheriExt.RaiseTrap | cheri/cheri.h:139-142 | the cause becomes `(code << 8) OR reg` and the instruction is reported as trapped with that kind and register |
| Machine.Commit | cheri/cheri.h:139-142 | a completed handler gives its next state; a trap leaves the state before the handler with only the cause set, since `raise_trap` throws before any later write |
| Machine.CommitFault | cheri/cheri.h:139-142 | committing a fault records a cause that gives back its code and register, and changes nothing else |
| Lhucap.LoadCheck | cheri/insns/lhucap.h:34-63 | no fault exactly when no check fails, else the first failing check in handler order |
| Lhucap.Spec | cheri/insns/lhucap.h:34-69 | the load succeeds exactly when no check fails, and a fault names cs1 and a failing check |
| Lhucap.Execute | cheri/insns/lhucap.h:34-69 | the handler's new state and outcome are those of the specification |
| Lhucap.FaultChangesOnlyCause | cheri/insns/lhucap.h:34-63 | a fault names cs1 and the first failing check, and changes only the cause |
| Lhucap.LoadChangesOnlyRd | cheri/insns/lhucap.h:64-68 | a successful load changes only rd, to the zero-extended halfword at the cursor |
| Lhucap.UntaggedFaultsWithTag | cheri/insns/lhucap.h:34-39 | an untagged cs1 raises the tag fault whatever else is wrong with it |
| Lhucap.SealedFaultsWithSeal | cheri/insns/lhucap.h:40-44 | a tagged sealed cs1 raises the seal fault |
| Lhucap.NoLoadPermFaultsWithPermitLoad | cheri/insns/lhucap.h:45-49 | a tagged unsealed cs1 without permission bit 2 raises the permit-load fault |
| Lhucap.BoundsWithoutWrap | cheri/insns/lhucap.h:52-63 | where no sum wraps, the bounds checks pass exactly when offset + 2 <= length |
| Lhucap.BoundaryExample | cheri/insns/lhucap.h:52-58 | base 0x1000, length 0x10 loads at offset 0xE and faults with the length fault at 0xF |
| Lhucap.WrappedCursorFaults | cheri/insns/lhucap.h:59-63 | a cursor that wraps past 2^64 always faults |
| Lhucap.WrapAdmitsLoadOutsideBounds | cheri/insns/lhucap.h:52-63 | the reset DDC capability with offset 2^64 - 2 passes every check although the cursor lies outside it |
| Lhucap.IntendedLoadCheck | cheri/insns/lhucap.h:34-63 | the check chain with unwrapped bounds accepts exactly the in-bounds loads that pass tag, seal and permission |
| Lhucap.IntendedCheckCorrect | cheri/insns/lhucap.h:52-63 | the unwrapped check admits only offset + 2 <= length, agrees with the handler where nothing wraps, and refuses the wrapped example |
| Lhucap.ResetGprsFault | cheri/cheri.cc:169-175 | after reset a load through any general-purpose register raises the tag fault |
| Lhucap.RootCapLoads | cheri/cheri.cc:179-181 | the reset DDC capability loads exactly at the offsets whose two bytes lie below 2^63 - 1 and at the last two offsets, 2^64 - 2 and 2^64 - 1, where the cursor wraps |
| Csc.Spec | cheri/insns/csc.h:3-23 | the store faults with the tag fault on cs2 exactly when cs2 is untagged; a store leaves every register unchanged |
| Csc.Execute | cheri/insns/csc.h:3-23 | the handler's new state and outcome are those of the specification |
| Csc.UntaggedStoreFaults | cheri/insns/csc.h:8-20 | an untagged cs2 faults with cause `(TAG << 8) OR cs2` and leaves memory and tags unchanged |
| Csc.TaggedStoreEffect | cheri/insns/csc.h:4-23 | a tagged store writes cs2 with tag 0 at the store-translated address, sets its granule's bit, keeps every other bit, and leaves cs2 tagged |
| Csc.StoredImageUntagged | cheri/insns/csc.h:11-23 | the stored record's image has a zero tag bit and cs2's first bit-field word |
| Clc.Spec | cheri/insns/clc.h:3-20 | the load faults with the tag fault on cs2 exactly when the granule's tag bit is clear; a load writes cd with tag 1 and leaves the table |
| Clc.Execute | cheri/insns/clc.h:3-20 | the handler's new state and outcome are those of the specification |
| Clc.UntaggedLoadFaults | cheri/insns/clc.h:9-16 | without a tag bit the fault names cs2, not cd, and cd is not written |
| Clc.TaggedLoadEffect | cheri/insns/clc.h:19-20 | with the tag bit set cd receives the stored record with tag 1, and nothing else changes |
| Clc.FaultDependsOnlyOnTags | cheri/insns/clc.h:7-16 | whether the load faults depends on the tag table and cs1 only, never on memory |
| Clc.TagsUnchanged | cheri/insns/clc.h:3-20 | the load never changes the tag table, memory, integer or special registers |
| Clc.StoreThenLoad | cheri/insns/clc.h:3-20 | loading back from the physical address a tagged store wrote returns the stored capability exactly |
| Clc.StoreThenLoadSameOperand | cheri/insns/csc.h:3-23 | with the same register and immediate, and the same translation for load and store, load after store writes cs2 into cd |
| Ccall.Spec | cheri/insns/ccall.h:6-19 | PCC's offset becomes cd's offset and the general-purpose capability registers are unchanged |
| Ccall.NextPc | cheri/insns/ccall.h:21 | the handler returns cd's offset, the new PCC offset |
| Ccall.Execute | cheri/insns/ccall.h:6-21 | the handler's new state is the specification's, and it returns the new PCC offset |
| Ccall.JumpKeepsAuthority | cheri/insns/ccall.h:6 | PCC's offset becomes cd's, every other PCC field is unchanged, and the returned pc is that offset |
| Ccall.LinkRegister | cheri/insns/ccall.h:19 | x1 becomes pc + 4 and no other integer register changes |
| Ccall.NoChecksAndFrame | cheri/insns/ccall.h:3-21 | no check is made, so any cd with the same offset gives the same result; only PCC and x1 change |
| Ccall.CallAfterReset | cheri/insns/ccall.h:6 | a call through a reset register leaves PCC equal to the reset PCC |
| Cspecialrw.Spec | cheri/insns/cspecialrw.h:3-14 | cd, unless c0, receives the value chs held before the write |
| Cspecialrw.Execute | cheri/insns/cspecialrw.h:3-14 | the handler's new state is that of the specification |
| Cspecialrw.SpecialRegisterEffect | cheri/insns/cspecialrw.h:9-10 | chs receives cs1 unless cs1 is c0, and no other special register changes |
| Cspecialrw.DestinationEffect | cheri/insns/cspecialrw.h:6-14 | cd receives chs's value from before the write unless cd is c0, and no other register changes |
| Cspecialrw.Frame | cheri/insns/cspecialrw.h:3-14 | only the two capability register files can change |
| Cspecialrw.ReadOnly | cheri/insns/cspecialrw.h:9 | with cs1 = c0 the instruction only copies chs into cd |
| Cspecialrw.WriteOnly | cheri/insns/cspecialrw.h:13 | with cd = c0 the instruction only copies cs1 into chs |
| Cspecialrw.BothZeroIsNop | cheri/insns/cspecialrw.h:9-14 | with both fields c0 nothing changes |
| Cspecialrw.Exchange | cheri/insns/cspecialrw.h:6-14 | with cs1 = cd not c0 the two registers are swapped |
| Cspecialrw.ExchangeTwiceRestores | cheri/insns/cspecialrw.h:6-14 | swapping twice restores the state |
| Cspecialrw.WriteThenRead | cheri/insns/cspecialrw.h:6-14 | reading chs after writing it returns the written capability |
| Candperm.Spec | cheri/insns/candperm.h:3-6 | only register cd is written |
| Candperm.Narrowed | cheri/insns/candperm.h:3-5 | the written capability is cs1 in every field but the two permission fields |
| Candperm.IntendedSpec | cheri/insns/candperm.h:3-6 | the corrected instruction also writes only cd |
| Candperm.Execute | cheri/insns/candperm.h:3-6 | the handler's new state is that of the specification |
| Candperm.PermsAs64 | cheri/insns/candperm.h:4 | the new perms equal the 64-bit `CD.perms & RS2 & MASK(11)`, with nothing lost in the 11-bit field |
| Candperm.UpermsAs64 | cheri/insns/candperm.h:5 | the new uperms equal the 64-bit `CD.uperms & (RS2 >> 11) & MASK(20)`, with nothing lost in the 20-bit field |
| Candperm.PermsSubset | cheri/insns/candperm.h:4 | the new perms are a bitwise subset of the old perms and of the mask |
| Candperm.UpermsSubset | cheri/insns/candperm.h:5 | the new uperms are a bitwise subset of the old uperms and of the shifted mask |
| Candperm.NarrowsCdPermissions | cheri/insns/candperm.h:4-5 | the result's permissions are bitwise subsets of cd's prior permissions and of rs2 |
| Candperm.Cs1DoesNotBound | cheri/insns/candperm.h:3-5 | cs1's permissions do not bound the result: cs1 with none can yield all eleven |
| Candperm.IntendedNarrowsCs1 | cheri/insns/candperm.h:3-6 | narrowing cs1's own permissions gives a subset of cs1's, ignores cd's prior value, and agrees with the handler when cd = cs1 |
| Candperm.CopiesCs1 | cheri/insns/candperm.h:3 | every field other than the permissions comes from cs1 |
| Candperm.WritesOnlyCd | cheri/insns/candperm.h:6 | only register cd changes, c0 included |
| Candperm.NarrowTwiceIsOnce | cheri/insns/candperm.h:3-6 | with cd = cs1, narrowing twice by the same mask equals narrowing once |
| Candperm.FullMaskKeepsCdPermissions | cheri/insns/candperm.h:4-5 | an all-ones mask keeps cd's prior permissions |

## Left out

- Address translation is a total function parameter. Translation faults, TLBs and page walks are not modelled, and neither are `load_cheri_reg`, `store_cheri_reg` and `load_uint16` beyond a map from address to value.
- Memory keeps capability records and halfwords in separate maps. The bytes the two views share are not modelled, so a capability store does not change the halfwords a later `lhucap` reads.
- The 128-bit compressed in-memory format is not modelled; its header is not part of this model. The build option only selects the reset `clen` and `CHERI_CAPSIZE_BYTES`.
- The merged register file variant (`CHERI_MERGED_RF`) is not modelled; only the separate capability register file is.
- The `DEBUG` printf blocks, the instruction registry (`get_instructions`, `register_insn`, `get_disasms`), `poweroff` and the destructor are not modelled.
- The per-privilege cause array in the state is not modelled. The handlers' `CAPCAUSE` and `set_cause` are modelled as one cause register.
- `create_tagged_memory` exits when `calloc` fails. The model allocates without failing.
- The immediate is taken already sign-extended (`SImm`): instruction decoding is not modelled. The host's dropping of writes to x0 is taken as the integer register file's behaviour.
- The handler's throw is modelled by returning `Trapped`. The host's trap delivery is not modelled.
- `ccall` declares a local `temp` and never uses it, and its IDC update is commented out. Neither has any effect, so neither is modelled.
- `ccall` takes the current pc as a parameter, since the dispatcher supplies it.
- Cheri.CheriExt.constructor: fills both register files with the all-zero record. The source leaves them uninitialised until `reset` runs, so this part of the contract has no counterpart in the source.
- Host.CapAtAfterStore and Host.Memory.StoreCap: a record is keyed by its address alone, so records less than 32 bytes apart are independent. In the source, `store_cheri_reg` at address a overwrites bytes that a later `load_cheri_reg` at a + 8 reads.
- Cheri.CheriExt.SetTag: requires the slot to lie inside the table. The source indexes the array unchecked, which is undefined behaviour outside it.
- Cheri.CheriExt.GetTag: requires the slot to lie inside the table, for the same reason.
- Cheri.CheriExt.ClearTag: requires the slot to lie inside the table, for the same reason.
- Csc.Execute: requires, for a tagged cs2, that the slot it sets lies inside the table, for the same reason.
- Clc.Execute: requires the slot it tests to lie inside the table, for the same reason.

## Findings

| source | as written | input that shows it | evidently intended | confidence | as-written member | corrected member |
|---|---|---|---|---|---|---|
| cheri/cheri.cc:91 | clear shifts the granule offset by `log2(sizeof(cheri_reg_t) * 8)` = 8 | DRAM_BASE + 32: set and get use word 0 bit 1, clear uses word 0 bit 0, so the tag stays set | shift by `log2(sizeof(cheri_reg_t))` = 5, as set and get do | high, not executed | TagMemory.ClearDoesNotUndoSet | TagMemory.IntendedClearUndoesSet |
| cheri/insns/lhucap.h:52-63 | bounds compared on 64-bit sums that wrap | the reset DDC capability (base 0, length 2^63 - 1, all permissions) with offset 2^64 - 2: cursor + 2 wraps to 0 and every check passes | a load only when its two bytes lie in [base, base + length) | medium, not executed | Lhucap.WrapAdmitsLoadOutsideBounds | Lhucap.IntendedCheckCorrect |
| cheri/insns/candperm.h:4-5 | permissions are narrowed from CD's prior value | cs1 with no permissions, cd (another register) with all 11, rs2 all ones: the result holds all 11 | narrow cs1's permissions, so the result never exceeds cs1 | medium, not executed | Candperm.Cs1DoesNotBound | Candperm.IntendedNarrowsCs1 |

The handlers keep the source's behaviour, since they model it. The corrected definitions are `ClearBit` at `GranuleSlot`, `Lhucap.IntendedLoadCheck` and `Candperm.IntendedSpec`. Each stands beside its handler, with its intended property proved.
