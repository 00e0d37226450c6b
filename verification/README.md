# VarEMU verification

VarEMU is QEMU for ARM with per-class accounting of cycles, time and energy, which a guest kernel reads and divides
among its processes. This project models four parts of it in Dafny and proves what they keep over whole runs.

* **Address translation** (`Vmsa`, `ShortDescriptor`, `ShortDescriptorLaws`, `ShortDescriptorExact`,
  `LongDescriptor`, `LongDescriptorLaws`, `Translation`, `Tlb`, `TlbMaintenance`). The v5, v6 and LPAE table walks
  of the ARM Architecture Reference Manual (DDI 0406C), and the TLB as a cache of 1 KB granules. Words are
  bit-vectors, memory is a function. Each OR-built address is proved to be a sum, every walk is decided from the
  descriptor words by quotients and remainders, and after any run of fills, CP15 writes and TLB maintenance a
  cached entry agrees with a fresh walk for every address of its granule and every kind of access exactly when the
  walks it was filled from are still what they were.
* **Privileged state** (`Cpsr`, `Banks`, `ArmCpu`, `ArmExceptions`, `ArmNesting`, `ArmCore`, `V7m`, `V7mNesting`,
  `CpRegs`). The CPSR kept in pieces and the registers kept in banks are together one status word and one flat
  register file; exceptions nested to any depth restore what they interrupt, on A-profile CPUs and on M-profile
  ones (sections B1.5.6 to B1.5.8 of DDI 0403); the coprocessor table answers as a scan of its history does.
* **Accounting** (`Words`, `Registers`, `Cycles`, `Energy`, `HwModule`, `Driver`, `Accounting`). Conservation of
  time, energy as an integral of power that does not depend on when it is read, snapshots, the division of counters
  among processes, and all of it as one machine, from the instruction to the process it is billed to. `double` is
  `real`, and power is any function of the parameters. Machine words wrap where the source's do.
* **Monitor** (`Wrappers`, `FdSets`, `FdViews`, `Throttle`, `ExprParser`, `ExprTrees`, `ExprOperators`,
  `ExprExact`, `ExprAst`, `ExprEvaluator`). Ownership of file descriptors, rate limiting of events, and the
  expression evaluator with its exact language.

Pure code is modelled as functions. Code that changes state is a class whose methods change its fields or arrays in
place, each proved equal to a step function, and the theorems over runs are about the step functions. The clock,
the contents of memory and devices, and the registers that the monitor knows by name are parameters.

Where code and its comments or the architecture part ways, the model follows the code, and a lemma says exactly
when the code does what is wanted: `Tlb.UnflushedExact` (writes that do not flush; `Tlb.Ttbr0WriteLeavesStaleEntry`
is one that should), `Tlb.FillExact` (FCSE ids that are not multiples of 1 KB),
`ShortDescriptorExact.SmallPageFieldExact` (the AP field of an ARMv5 small page), `Banks.GetUserRegReads`,
`Banks.SetUserRegWrites` and `Banks.SetR13BankedWrites` (User and System mode share a bank),
`ArmCpu.WriteModeExact` (masks that cut the mode field), `ArmExceptions.ReturnExact` (no return to Monitor mode),
`Cycles.TimeConserved` (cycles charged while asleep), `Cycles.ReportFallsExactly` (reported sleep time that falls;
`Cycles.SleepReportCanFall` is a run), `Energy.PokeExact` (frequency and voltage written to the device),
`Driver.OutAgainExact` (switches that do not alternate).

## Model

| member | source | states |
|---|---|---|
| `ShortDescriptor.CheckApMeaning` | varemu/target-arm/helper.c:1986-2034 | the protection returned is the AP table's whole grant when the grant covers the access and nothing otherwise; a manager domain grants everything |
| `ShortDescriptor.WalkV5Coherent` | varemu/target-arm/helper.c:2049-2142 | an ARMv5 walk that succeeds for one access type permits it, and succeeds for another type at the same address and privilege, with the same place, protection and size, exactly when that protection contains it |
| `ShortDescriptor.WalkV6Coherent` | varemu/target-arm/helper.c:2144-2254 | the same for ARMv6 walks, with execute-never, privileged execute-never, the access flag and both AP models |
| `ShortDescriptor.WalkV5Granule` | varemu/target-arm/helper.c:2049-2142 | walks at two addresses of one 1 KB granule give the same fault, or the same protection and size and physical addresses that differ only in the offset |
| `ShortDescriptor.WalkV6Granule` | varemu/target-arm/helper.c:2144-2254 | the same for ARMv6 walks |
| `ShortDescriptorLaws.Level1Arithmetic` | varemu/target-arm/helper.c:2036-2047 | for every TTBCR.N the OR-built first-level address is the table base plus four times the megabyte number; the table is aligned to its size, 4096 / 2^N entries at TTBR0 and 4096 at TTBR1, and the entry lies inside it |
| `ShortDescriptorLaws.CoarseArithmetic` | varemu/target-arm/helper.c:2089-2091 | the OR-built second-level address of a coarse table is base plus four times the page number |
| `ShortDescriptorLaws.FineArithmetic` | varemu/target-arm/helper.c:2092-2095 | the same for a fine table, with 1 KB pages |
| `ShortDescriptorLaws.FrameArithmetic` | varemu/target-arm/helper.c:2078-2131 | frame and offset composed with masks are the multiple of the page size that the descriptor names plus the remainder of the address, for all five page sizes |
| `ShortDescriptorExact.FirstWordExact` | varemu/target-arm/helper.c:2036-2047 | the first word read is that of the megabyte in the table that TTBCR.N selects: TTBR0's, rounded down to 2^(14 - N) bytes, for the lowest 2^(32 - N) addresses, and TTBR1's for the others |
| `ShortDescriptorExact.WalkV6Exact` | varemu/target-arm/helper.c:2144-2254 | the whole answer of an ARMv6 walk from its two descriptor words, read by division and remainder: mapped exactly when the words translate the address and the domain is a manager's, or a client's with XN, PXN, access flag and AP in favour; 16 MB or 1 MB by bit 18 of the first word, 64 KB or 4 KB by the low bits of the second; the frame, the protection, and the status of every fault |
| `ShortDescriptorExact.WalkV5Exact` | varemu/target-arm/helper.c:2049-2142 | the same for an ARMv5 walk, with coarse and fine tables, 1 KB pages and the XScale extended small page |
| `ShortDescriptorExact.SmallPageFieldExact` | varemu/target-arm/helper.c:2106-2110 | the AP field taken for a 4 KB page is the architecture's, one for each 1 KB, at every address exactly when all four fields are the same |
| `LongDescriptor.RegionsPartition` | varemu/target-arm/helper.c:2283-2305 | the bit tests that choose TTBR0, TTBR1 or neither split the address space exactly at 2^(32 - T0SZ) and 2^32 - 2^(32 - T1SZ) |
| `LongDescriptor.FirstCarryFree` | varemu/target-arm/helper.c:2335-2351 | the first descriptor address, built with OR, is the aligned table base plus eight times the index, for every region size |
| `LongDescriptor.NextCarryFree` | varemu/target-arm/helper.c:2353-2383 | so is the address at every later level |
| `LongDescriptor.FirstTableSize` | varemu/target-arm/helper.c:2325-2351 | the shortened first table has one entry for each block of its region |
| `LongDescriptor.FirstEntryInTable` | varemu/target-arm/helper.c:2335-2351 | the first descriptor read lies inside that table |
| `LongDescriptor.TableBaseExact` | varemu/target-arm/helper.c:2336-2351 | the first table is at the last multiple of its size at or below the TTBR, cut to forty bits |
| `LongDescriptor.InRegionExact` | varemu/target-arm/helper.c:2343-2347 | the address inside its region is the remainder by the size of the region |
| `LongDescriptor.LdqWords` | varemu/target-arm/helper.c:2358 | a descriptor is the word at its address and the next, least significant first |
| `LongDescriptor.BlockSum` | varemu/target-arm/helper.c:2376-2381 | with its reserved bits zero, a block descriptor maps its base plus the offset of the address |
| `LongDescriptor.CheckAttrsMeaning` | varemu/target-arm/helper.c:2382-2423 | checking the leaf's attributes merged with the gathered table attributes is intersecting the permission of the leaf with that of every table passed |
| `LongDescriptor.WalkTables` | varemu/target-arm/helper.c:2353-2432 | the loop over levels, with OR-built addresses and gathered attributes, finds what the recursive arithmetic lookup finds and permits what the intersection permits; it ends because 3 - level falls |
| `LongDescriptor.GetPhysAddrLpae` | varemu/target-arm/helper.c:2265-2432 | the whole walk with the fields extracted as the code does, from the choice of region on, equals a specification written with sums, quotients and remainders: TTBR, EPD and size of each region, table and block descriptors, frames, permissions and fault status |
| `LongDescriptorLaws.WalkLpaeCoherent` | varemu/target-arm/helper.c:2265-2432 | the protection of a long-descriptor walk answers for every access type |
| `LongDescriptorLaws.WalkLpaeGranule` | varemu/target-arm/helper.c:2265-2432 | a long-descriptor walk is constant across a 1 KB granule, the offset apart |
| `LongDescriptorLaws.TableAttributesRestrict` | varemu/target-arm/helper.c:2353-2423 | adding PXNTable, XNTable or APTable bits to any descriptors in memory never permits an access that was refused and never moves the physical address |
| `Translation.MvaOffset` | varemu/target-arm/helper.c:2518-2528 | an address keeps its offset under the FCSE process id exactly when it is not moved or the id is a multiple of 1 KB |
| `Translation.TranslateGranule` | varemu/target-arm/helper.c:2518-2547 | whatever the format, a translation is that of the granule's base moved by the offset |
| `Translation.TranslateCoherent` | varemu/target-arm/helper.c:2518-2547 | whatever the format, one access type's answer decides those of the others |
| `Translation.GetPhysAddr` | varemu/target-arm/helper.c:2518-2547 | the dispatch on the MMU, LPAE and XP bits gives the translation that coherence and granule laws are about, the LPAE loop included |
| `Translation.TranslateExact` | varemu/target-arm/helper.c:2518-2547 | every translation from words alone: SCTLR.M off maps the address to itself with all access, TTBCR.EAE selects the long format, SCTLR.XP the ARMv6 one over the ARMv5 one, and addresses below 32 MB are moved by the FCSE id |
| `Tlb.CoversExact` | varemu/target-arm/helper.c:2549-2580 | an entry agrees with fresh walks over its whole granule and for every access type exactly when it matches the walks of one address of it and the FCSE does not move that address by part of a granule |
| `Tlb.FillExact` | varemu/target-arm/helper.c:2549-2580 | an entry filled by one access does so exactly when the address is at or above 32 MB or the process id is a multiple of 1 KB |
| `Tlb.StepInv` | varemu/target-arm/helper.c:67-129 | fills, CP15 writes with any value, TLB maintenance and memory writes each keep every entry on record as the one its fill gave |
| `Tlb.RunExact` | varemu/target-arm/helper.c:67-129 | TLB soundness over every finite run of those steps, exactly: all entries agree with fresh walks if and only if the walks of the addresses that were filled are what they were, and the FCSE moves none of them by part of a granule |
| `Tlb.QuietCoherent` | varemu/target-arm/helper.c:67-129 | so from an empty TLB they agree through every run without unflushed writes, with process ids multiples of 1 KB |
| `Tlb.RunCoherent` | varemu/target-arm/helper.c:67-129 | and after any steps at all, once something flushes |
| `Tlb.TlbSound` | varemu/target-arm/helper.c:2549-2580 | at the end of any run, through an entry whose fill is still what walks give, a hit goes where a walk would go and a refusal is a fault of the walk |
| `Tlb.ChangeExact` | varemu/target-arm/helper.c:67-129 | whatever registers and memory change to, a coherent table stays coherent exactly when at the base of every cached granule walks answer every kind of access as before |
| `Tlb.UnflushedExact` | varemu/target-arm/helper.c:690-732 | so for each write that does not flush: TTBR0 and TTBR1 in 32 bits, TTBR1 in 64, TTBCR without LPAE, and memory |
| `Tlb.Ttbr0WriteLeavesStaleEntry` | varemu/target-arm/helper.c:727-732 | a concrete 32-bit TTBR0 write for which that condition fails |
| `Tlb.ResetSplit` | varemu/target-arm/helper.c:713-718 | reset leaves the masks of TTBCR.N = 0 |
| `Tlb.RunSplit` | varemu/target-arm/helper.c:690-720 | whatever a run from reset writes, the two masks are those of TTBCR.N, as the arithmetic of the walks needs |
| `Tlb.MmuCpu.constructor` | varemu/target-arm/helper.c:713-718 | a CPU from reset: c2_base_mask 0xffffc000, everything else zero, an empty TLB |
| `Tlb.MmuCpu.HandleMmuFault` | varemu/target-arm/helper.c:2549-2580 | fills the granule's entry or reports the fault in the right fault status and address registers, with bit 11 of the DFSR for a store from ARMv6 on |
| `Tlb.MmuCpu.WriteAndFlush` | varemu/target-arm/helper.c:67-72 | DACR, SCTLR and 64-bit TTBR0 writes empty the TLB |
| `Tlb.MmuCpu.WriteUnflushed` | varemu/target-arm/helper.c:727-732 | 32-bit TTBR writes and 64-bit TTBR1 writes do not |
| `Tlb.MmuCpu.FcseWrite` | varemu/target-arm/helper.c:74-83 | any process id: a changed one flushes, an unchanged one does nothing |
| `Tlb.MmuCpu.ContextidrWrite` | varemu/target-arm/helper.c:85-97 | a changed context id flushes, whatever the table format |
| `Tlb.MmuCpu.TtbcrWrite` | varemu/target-arm/helper.c:690-711 | the two masks derived from TTBCR.N, and the flush only with LPAE |
| `Tlb.MmuCpu.TlbiAllWrite` | varemu/target-arm/helper.c:99-105 | empties the TLB |
| `Tlb.MmuCpu.TlbiMvaWrite` | varemu/target-arm/helper.c:107-113 | drops the entries of that granule for both privileges and no others |
| `TlbMaintenance.InvalidationsLeave` | varemu/target-arm/helper.c:107-129 | any number of invalidations by address remove the entries of those granules for user and privileged accesses, and no others |
| `TlbMaintenance.MaintenanceExact` | varemu/target-arm/helper.c:107-129 | after any write that does not flush, they make a coherent TLB coherent again exactly when they cover every cached granule whose walks the write changed |
| `TlbMaintenance.StepKeys` | varemu/target-arm/helper.c:67-129 | which keys every operation leaves in the table: a miss that maps adds its own, invalidation takes what it names, the writes that flush take all, the others nothing |
| `TlbMaintenance.StepEntries` | varemu/target-arm/helper.c:67-129 | and those keys keep their entries, but for what a miss fills |
| `TlbMaintenance.RegistersHoldLastStored` | varemu/target-arm/helper.c:67-97 | after any run every translation register holds the last value stored in it, 64-bit writes in halves and TTBCR without its reserved bits |
| `V7m.WriteRead` | varemu/target-arm/cpu.h:298-333 | reading xPSR and writing it back, with the alignment bit in between, gives the same flags, condition-execution state, Thumb bit and exception number |
| `V7m.SamePsrReads` | varemu/target-arm/cpu.h:298-307 | status fields restored in the sense of WriteRead read as the same xPSR word |
| `V7m.XpsrReads` | varemu/target-arm/cpu.h:298-307 | every field of xPSR at its place: flags in bits 31 to 27, IT in two parts, T, the exception number, and nothing else |
| `V7m.EntryFrame` | varemu/target-arm/helper.c:1814-1843 | exception entry puts the eight words in the frame, the lowest address first r0, and changes no other memory |
| `V7m.EntryStacks` | varemu/target-arm/helper.c:1814-1843 | after entry the main stack is active and the frame lies at the top of the stack that was, adjusted to eight bytes |
| `V7m.EntryLayout` | varemu/target-arm/helper.c:1814-1834 | the frame by address: r0 to r3, r12, LR, PC with the Thumb bit, xPSR with the alignment bit, upwards from 32 bytes below the stack pointer aligned down to eight |
| `V7m.EntryJumps` | varemu/target-arm/helper.c:1835-1843 | the handler's PC and Thumb bit are the word at vecbase plus four times the exception number, which is new; the IT bits are clear, flags and registers are as before, and the vector is what it was unless the frame went there |
| `V7m.ExcReturnValues` | varemu/target-arm/helper.c:1771-1775 | the four EXC_RETURN values |
| `V7m.ExitRestores` | varemu/target-arm/helper.c:1728-1761 | returning with the EXC_RETURN value that entry gave, from memory that still holds the frame, restores r0-r3, r12, LR, PC, Thumb, xPSR, the active stack and both stack pointers |
| `V7m.V7mCpu.DoExceptionExit` | varemu/target-arm/helper.c:1728-1761 | the pops in place come to the exit that ExitRestores is about, and complete the interrupt unless none is active |
| `V7m.V7mCpu.DoInterrupt` | varemu/target-arm/helper.c:1763-1843 | faults and calls only set a pending exception: 6 undefined, 11 call, 4 aborts, 12 breakpoint; an interrupt is acknowledged and does the entry of EntryFrame; an exception exit does the exit of ExitRestores and completes the interrupt if one is active |
| `V7m.V7mCpu.PushWord` | varemu/target-arm/helper.c:1702-1706 | one word pushed |
| `V7m.V7mCpu.PopWord` | varemu/target-arm/helper.c:1708-1714 | one word popped |
| `V7m.V7mCpu.SwitchStack` | varemu/target-arm/helper.c:1717-1726 | the stack pointers are exchanged exactly when the other stack is asked for |
| `V7mNesting.ExceptionIsInvisible` | varemu/target-arm/helper.c:1728-1843 | for exceptions nested to any depth, if each handler spares the live frames, restores SP and r4-r11 and returns with its EXC_RETURN value, the interrupted code is restored |
| `V7mNesting.BodyKeeps` | varemu/target-arm/helper.c:1728-1843 | any sequence of code and exceptions under that discipline keeps every live frame |
| `V7mNesting.DisciplineKeepsFrames` | varemu/target-arm/helper.c:1728-1843 | on stacks that do not overlap, writing only below one's own frame is enough for that discipline |
| `V7mNesting.NestedExceptionsRestore` | varemu/target-arm/helper.c:1702-1843 | so the outermost return restores everything, on either stack and with or without the alignment adjustment |
| `Cpsr.ReadGroups` | varemu/target-arm/helper.c:1494-1503 | while uncached_cpsr holds no cached bit, the word read shows in each group of bits what the flag cache holds |
| `Cpsr.WriteSplit` | varemu/target-arm/helper.c:1505-1542 | every write keeps cached bits out of uncached_cpsr |
| `Cpsr.WriteThenRead` | varemu/target-arm/helper.c:1494-1542 | the word read after a write is the old word with the new bits of every group that the mask touches |
| `Cpsr.WholeExact` | varemu/target-arm/helper.c:1505-1542 | which is what the mask says exactly when old and new word agree on the bits added to complete its groups |
| `Banks.SwitchKeepsFlat` | varemu/target-arm/helper.c:1674-1700 | switch_mode with the mode-field update changes no register of the flat file of all modes' registers |
| `Banks.RegsAreVisible` | varemu/target-arm/helper.c:1674-1700 | regs[] and spsr show the current mode's registers of that file |
| `Banks.GetUserRegReads` | varemu/target-arm/op_helper.c:284-300 | get_user_reg reads the user register exactly outside the modes that share the user bank, or for r0-r12, or when the copy put away happens to agree |
| `Banks.SetUserRegWrites` | varemu/target-arm/op_helper.c:302-313 | set_user_reg writes the user register, and nothing else, exactly in those cases or when the value is there already |
| `Banks.SetR13BankedWrites` | varemu/target-arm/helper.c:2596-2603 | set_r13_banked writes that mode's stack pointer exactly when the modes are one or have different banks, or the value is there already |
| `Banks.StepRefines` | varemu/target-arm/helper.c:1674-1700 | each register write and mode change does to the flat file what the architecture does |
| `Banks.RunRefines` | varemu/target-arm/helper.c:1652-1700 | over any run of mode changes and register writes the banks hold what one flat file would, and regs[] shows the last mode's registers |
| `Banks.BankExact` | varemu/target-arm/helper.c:1652-1671 | two modes have one bank exactly when they are the same or both of User and System |
| `Banks.RunStores` | varemu/target-arm/helper.c:1652-1700 | over any run every mode, when switched to, finds in each register and in its SPSR what was last stored there from whatever mode: User and System share r13, r14 and SPSR, all but FIQ share r8 to r12 |
| `ArmCpu.WriteModeExact` | varemu/target-arm/helper.c:1505-1542 | after cpsr_write the mode field names the mode whose registers are in regs[] exactly when the mask takes the mode bits whole or those left out agree; a mode that may not be asked for leaves it alone |
| `ArmCpu.WriteKeepsFlat` | varemu/target-arm/helper.c:1505-1542 | whatever the mask, a write moves no register of any mode |
| `ArmCpu.WriteReads` | varemu/target-arm/helper.c:1505-1542 | with a complete mask the word read back is the masked combination, the mode field apart when the mode is invalid |
| `ArmCpu.WriteRefines` | varemu/target-arm/helper.c:1505-1542 | so on the flat file and one status word, cpsr_write writes the word and nothing else |
| `ArmExceptions.EntryReads` | varemu/target-arm/helper.c:1966-1977 | entry keeps cached bits out of uncached_cpsr, and the word read after it is the old one with mode, masks, IT and Thumb set |
| `ArmExceptions.ModeExact` | varemu/target-arm/cpu.h:339-348 | the mode of a status word, by its number in the low five bits |
| `ArmExceptions.EntryWordFields` | varemu/target-arm/helper.c:1856-1977 | the word after entry field by field: the mode's number, I set, F set by fast interrupts and monitor calls, A set by all but undefined instructions and supervisor calls, T from SCTLR.TE, IT clear, and E, GE, J and flags as before |
| `ArmExceptions.EntryVector` | varemu/target-arm/helper.c:1856-1980 | the PC is vector 1 to 7 of the table at MVBAR, the top of memory, VBAR or 0; a breakpoint leaves 2 in the IFSR, and a call from Monitor mode clears SCR.NS |
| `ArmExceptions.EnterRefines` | varemu/target-arm/helper.c:1846-1981 | entry saves the status word in the handler's SPSR and the return address in its link register, and changes no other register of any mode but the PC |
| `ArmExceptions.EntryResumes` | varemu/target-arm/helper.c:1858-1978 | from what entry leaves in the link register, the architecture's return instruction goes back to the interrupted instruction after aborts and interrupts, and on to the next after undefined instructions and calls |
| `ArmExceptions.EnterExact` | varemu/target-arm/helper.c:1846-1981 | it leaves the interrupted mode's link register and SPSR exactly when the handler has another mode, or they held what entry writes |
| `ArmExceptions.ReturnRefines` | varemu/target-arm/helper.c:1505-1542 | cpsr_write(spsr, 0xffffffff) on the flat file and status word |
| `ArmExceptions.ReturnExact` | varemu/target-arm/helper.c:1474-1542 | it restores the saved word exactly when that word's mode is not Monitor, or the handler is in Monitor mode too |
| `ArmNesting.TakeRestores` | varemu/target-arm/helper.c:1846-1981 | an exception and all nested in its handler gives back CPSR, mode and the interrupted mode's r13, r14 and SPSR, and keeps those of every mode in use, for handlers that may change mode, write the SPSR and other modes' registers and be entered again, if mode and SPSR are put back before the return |
| `ArmNesting.BodyKeeps` | varemu/target-arm/helper.c:1846-1981 | so any sequence of code and exceptions keeps the registers of the modes interrupted further out |
| `ArmNesting.PlainHandlerPutsBack` | varemu/target-arm/helper.c:1846-1981 | a handler that itself stays in its mode and leaves the SPSR alone has nothing to put back, however it is interrupted |
| `ArmNesting.RegKeeps` | varemu/target-arm/helper.c:1674-1700 | what such code may do: write a register of a mode that shares none with those |
| `ArmNesting.SpsrKeeps` | varemu/target-arm/helper.c:1674-1700 | write the SPSR of such a mode |
| `ArmNesting.WordKeeps` | varemu/target-arm/helper.c:1505-1542 | write the status word, mode included |
| `ArmNesting.UserRegKeeps` | varemu/target-arm/op_helper.c:302-313 | write user registers, when those of User mode may change |
| `ArmNesting.NestedReturnRestores` | varemu/target-arm/helper.c:1474-1981 | the interrupted code finds CPSR, r13, r14 and SPSR as they were at any depth of nesting, and r8-r12 too where only FIQ mode wrote its own |
| `ArmCore.Copy` | varemu/target-arm/helper.c:1683-1688 | the memory copy replaces exactly the destination range |
| `ArmCore.RegisterFile.SwitchMode` | varemu/target-arm/helper.c:1674-1700 | copies and stores on the arrays come to the switch that moves no register of the flat file, and after which every mode finds what was last stored |
| `ArmCore.RegisterFile.ReadUserReg` | varemu/target-arm/op_helper.c:284-300 | returns the user register of the flat file wherever that is reached |
| `ArmCore.RegisterFile.WriteUserReg` | varemu/target-arm/op_helper.c:302-313 | wherever it is reached, changes the user register of the flat file and no other |
| `ArmCore.RegisterFile.WriteBankedR13` | varemu/target-arm/helper.c:2596-2603 | wherever it is reached, changes that mode's stack pointer in the flat file and no other register |
| `ArmCore.Cpu.WriteCpsr` | varemu/target-arm/helper.c:1505-1542 | flags under the mask as given, then the mode, then what is left of the mask, come to the write that is one masked write of the status word |
| `ArmCore.Cpu.DoInterrupt` | varemu/target-arm/helper.c:1846-1981 | entry on the arrays and fields is the entry that saves word and return address and moves nothing else, and keeps the CPU valid |
| `CpRegs.EncodeInjective` | varemu/target-arm/cpu.h:435-437 | no two registers with fields in range have the same key |
| `CpRegs.KeyInjective` | varemu/target-arm/cpu.h:435-437 | the OR of the shifted fields, each in its range, determines every field |
| `CpRegs.KeyArithmetic` | varemu/target-arm/cpu.h:435-437 | it is their sum, each times the place it has in the key |
| `CpRegs.KindBits` | varemu/target-arm/cpu.h:450-454 | which bits of the type make a register 64-bit and a definition an override |
| `CpRegs.WellFormedExact` | varemu/target-arm/helper.c:1394-1408 | the checks on a definition by arithmetic on its type and access bits |
| `CpRegs.EntryCoversOne` | varemu/target-arm/helper.c:1413-1426 | the entry made for a register covers that register and no other |
| `CpRegs.DefineEntry` | varemu/target-arm/helper.c:1413-1438 | one entry: refused exactly when both definitions lack OVERRIDE, otherwise visible under its own register and no other |
| `CpRegs.DefineCrm` | varemu/target-arm/helper.c:1409-1441 | the three loops make an entry for every covered register and change no other, or stop because one is refused |
| `CpRegs.LatestIs` | varemu/target-arm/helper.c:1373-1441 | the scan from the latest definition back finds the last that covers the register |
| `CpRegs.AcceptedIsGuarded` | varemu/target-arm/helper.c:1427-1438 | an accepted definition keeps: every replacement had OVERRIDE on the new or the replaced definition |
| `CpRegs.CpTable.Define` | varemu/target-arm/helper.c:1373-1441 | a definition aborts exactly when it is malformed or replaces an entry without OVERRIDE; otherwise the table still answers as the scan over the whole history does |
| `CpRegs.CpTable.DefineList` | varemu/target-arm/helper.c:1443-1453 | a list is defined up to its sentinel |
| `CpRegs.CpTable.Get` | varemu/target-arm/helper.c:1455-1458 | a lookup returns the latest definition that covers the register, with concrete crm, opc1 and opc2 |
| `CpRegs.SentinelInvalid` | varemu/target-arm/cpu.h:456-472 | the sentinel is not a valid type |
| `Cycles.WfiMoment` | varemu/vemu/vemu_cycles.c:118-127 | the moment of falling asleep is the last wake-up plus the active time since, modulo 2^64, whenever WFI is called |
| `Cycles.WfiIdempotent` | varemu/vemu/vemu_cycles.c:118-127 | WFI again without wake-up or charge changes nothing |
| `Cycles.StepLaw` | varemu/vemu/vemu_cycles.c:79-127 | charges, WFI and wake-ups keep: sleep plus active time is the clock plus what was charged while asleep, modulo 2^64 |
| `Cycles.RunCharges` | varemu/vemu/vemu_cycles.c:79-94 | over any run each class's cycles and active time are those before plus the sums, over its instructions, of cycles and of cycles times period |
| `Cycles.DiaryNotes` | varemu/vemu/vemu_cycles.c:97-127 | whether the CPU sleeps, when it woke, and the active time by the last WFI and wake-up are what the list of events says |
| `Cycles.TimeConserved` | varemu/vemu/vemu_cycles.c:97-140 | at each wake-up of any run from init, sleep time plus active time equals the time since init exactly when no active time was charged between a WFI and its wake-up, all told from the list of events |
| `Cycles.SleepReport` | varemu/vemu/vemu_cycles.c:64-76 | the reported sleep time is the greater of zero and elapsed minus active time, by the clock of now and the active time of the WFI while asleep, and by those of the last wake-up while awake |
| `Cycles.ReportFallsExactly` | varemu/vemu/vemu_cycles.c:64-76 | the later of two reports of a run is smaller exactly when the earlier is not zero and the active time counted grew by more than the clock |
| `Cycles.SleepReportCanFall` | varemu/vemu/vemu_cycles.c:64-76 | a run in which the reported sleep time falls from ten to nothing |
| `Cycles.TotalBeyondSum` | varemu/vemu/vemu_cycles.c:38-62 | the total active time, truncated once, exceeds the sum of the classes' truncated times by less than the number of classes |
| `Cycles.Counters.IncrementCycles` | varemu/vemu/vemu_cycles.c:79-94 | the charge of the time law in place: cycles and cycles times period, in one class |
| `Cycles.Counters.ActiveStart` | varemu/vemu/vemu_cycles.c:97-116 | the wake-up of the time law in place; nothing when awake |
| `Cycles.Counters.SleepStart` | varemu/vemu/vemu_cycles.c:118-127 | the WFI of the time law in place |
| `Cycles.Counters.SlpTime` | varemu/vemu/vemu_cycles.c:64-76 | reports the sleep time of SleepReport, never negative |
| `Cycles.Counters.ActTimeAllClasses` | varemu/vemu/vemu_cycles.c:54-62 | the loop adds all classes and truncates once |
| `Cycles.Counters.CyclesAllClasses` | varemu/vemu/vemu_cycles.c:38-46 | the loop truncates at every class |
| `Cycles.Counters.Reset` | varemu/vemu/vemu_cycles.c:129-140 | resets everything but the active time |
| `Energy.SettleToAll` | varemu/vemu/vemu_energy.c:37-45 | settling classes moves their checkpoints and changes what no class has used |
| `Energy.EnergyIsIntegral` | varemu/vemu/vemu_energy.c:25-81 | over any run, energy used is the integral of power over growth of truncated active time plus the skew of unsettled parameter changes |
| `Energy.PokeExact` | varemu/vemu/vemu_hw_module.c:82-87 | a parameter change by the device keeps the account straight exactly when the class was settled or its power stays the same |
| `Energy.SettledNoSkew` | varemu/vemu/vemu_hw_module.c:82-103 | device changes made only when everything is settled leave no skew |
| `Energy.ReadAllSettles` | varemu/vemu/vemu_energy.c:37-45 | a read of all classes settles everything |
| `Energy.ReadScheduleIrrelevant` | varemu/vemu/vemu_energy.c:25-81 | two runs that differ only in when they are read end with the same energy, if the device changes parameters only when everything is settled |
| `Energy.SleepEnergyRises` | varemu/vemu/vemu_energy.c:47-61 | the sleep checkpoint is the running maximum of the sampled sleep times and sleep energy never falls |
| `Energy.SleepEnergyIsSum` | varemu/vemu/vemu_energy.c:47-81 | over every run sleep energy is the sum, sample by sample, of the sleep power in force times the growth of that maximum |
| `Energy.SleepEnergyAtConstantPower` | varemu/vemu/vemu_energy.c:47-81 | at one sleep power throughout, it grows by that power times the growth of the maximum |
| `HwModule.ReadIdempotent` | varemu/vemu/vemu_hw_module.c:88-103 | a second READ_CMD at the same moment changes neither meter nor registers |
| `HwModule.Device.GetActEnergy` | varemu/vemu/vemu_energy.c:25-35 | settles one class in place, which changes what no class has used, and no other class's energy |
| `HwModule.Device.GetActEnergyAll` | varemu/vemu/vemu_energy.c:37-45 | settles all, and returns the sum of the classes' truncated energies |
| `HwModule.Device.GetSlpEnergy` | varemu/vemu/vemu_energy.c:47-61 | settles sleep in place up to the sample, or waits when the sample is behind the running maximum |
| `HwModule.Device.EnergyChangeParameter` | varemu/vemu/vemu_energy.c:74-81 | settles everything before the parameter changes |
| `HwModule.Device.ReadCmd` | varemu/vemu/vemu_hw_module.c:88-103 | the registers show each class's time, all the energy it has used and its cycles; energy and cycle totals are the sums of those registers; the meter is settled |
| `HwModule.Device.ModWrite` | varemu/vemu/vemu_hw_module.c:75-109 | what each offset does: snapshot, fault flag, unsettled frequency or voltage change, or nothing |
| `Driver.OutShare` | linux/linux-3.6.3-variability/drivers/misc/variability.c:56-81 | the share of the process that ran grows by what the counters grew while it did, modulo 2^64 |
| `Driver.StepConserves` | linux/linux-3.6.3-variability/drivers/misc/variability.c:56-111 | every switch, read, fault write and fork keeps system share plus process shares equal to the latest snapshot |
| `Driver.CountersConserved` | linux/linux-3.6.3-variability/drivers/misc/variability.c:56-139 | so for every counter in every alternating run over any number of processes |
| `Driver.OutAgainExact` | linux/linux-3.6.3-variability/drivers/misc/variability.c:73-81 | a second out in a row keeps the balance exactly when the counters stood still while the process last ran |
| `Driver.ShareIsGrowth` | linux/linux-3.6.3-variability/drivers/misc/variability.c:56-81 | a process's share is the growth of the counters summed over the intervals in which it ran |
| `Driver.SharesAreTold` | linux/linux-3.6.3-variability/drivers/misc/variability.c:22-111 | after any run, from the events alone: shares of processes and system are the growth over the intervals that the switches mark, modulo 2^64, and each process is left with the frequency and voltage shown when it was last switched out |
| `Driver.FaultsIsolated` | linux/linux-3.6.3-variability/drivers/misc/variability.c:49-81 | while a process runs the device's fault flag is the value that process last wrote, cut to 32 bits, or zero |
| `Accounting.ValuesAreSnapshot` | varemu/vemu/vemu_hw_module.c:88-103 | the registers that the kernel reads have the meaning of the device's snapshot |
| `Accounting.SnapshotIsValues` | varemu/vemu/vemu_hw_module.c:88-103 | and that meaning fixes every one of them |
| `Accounting.StepInv` | linux/linux-3.6.3-variability/drivers/misc/variability.c:22-111 | instructions, WFI, wake-ups, device reads, switches, faults, forks and parameter changes keep: the meter holds the integral of power, and the latest snapshot shows it as of the latest switch |
| `Accounting.RunTracked` | linux/linux-3.6.3-variability/drivers/misc/variability.c:22-111 | the machine after a run is what the events say: counters, parameters, and for each class the integral of power over cycles times period, so far and at the latest switch |
| `Accounting.EnergyBilled` | linux/linux-3.6.3-variability/drivers/misc/variability.c:22-111 | over every run of the whole machine, the energy shares of system and processes add up, class by class and in total, to that integral at the latest switch, truncated, modulo 2^64 |
| `Driver.AddDeltaTo` | linux/linux-3.6.3-variability/drivers/misc/variability.c:56-63 | the loop adds the growth of the seventeen counters in place, modulo 2^64, and leaves the rest |
| `Driver.Variability.constructor` | linux/linux-3.6.3-variability/drivers/misc/variability.c:130-139 | everything zero, the boot task current |
| `Driver.Variability.ProcessOut` | linux/linux-3.6.3-variability/drivers/misc/variability.c:73-81 | the switch out of the conservation law on the arrays: the growth goes to the current process, with the flag, frequency and voltage the device shows |
| `Driver.Variability.ProcessIn` | linux/linux-3.6.3-variability/drivers/misc/variability.c:65-70 | the switch in on the arrays: the growth goes to the system, and the process's fault flag to the device |
| `Driver.Variability.ReadProcess` | linux/linux-3.6.3-variability/drivers/misc/variability.c:84-111 | out and in again, and the process's share brought up to date |
| `Driver.Variability.ForkTask` | linux/linux-3.6.3-variability/kernel/fork.c:336 | a new task starts with a zeroed share |
| `FdSets.KeptOrClosed` | varemu/monitor.c:2118-2137 | cleanup neither loses nor doubles a descriptor: each is kept or closed |
| `FdSets.UnmarkedKept` | varemu/monitor.c:2118-2405 | a descriptor not marked removed stays with its set through any event but its own removal, if the set still has a duplicate after it or a monitor is still connected |
| `FdSets.InUseKept` | varemu/monitor.c:2118-2405 | and through any run along which that holds |
| `FdSets.StepInv` | varemu/monitor.c:2118-2405 | every operation keeps ids non-negative and ascending, no set empty, descriptors accounted for and closes justified |
| `FdSets.RunInv` | varemu/monitor.c:2118-2405 | so does every sequence of operations |
| `FdSets.Ownership` | varemu/monitor.c:2118-2405 | from the empty list, a descriptor accepted once is held once or closed once, never both or neither; and one held unmarked at any point is held for as long as it is in use |
| `FdSets.SmallestUnused` | varemu/monitor.c:2290-2300 | an unnamed add gets the smallest id not in use |
| `FdViews.StepBecomes` | varemu/monitor.c:2118-2405 | every operation does to every id what it does on a registry of live, marked and duplicate descriptors: adds go to the named or smallest unused id, removal marks, and cleanup closes while the machine runs what is marked, and all that has neither duplicate nor monitor |
| `FdViews.RunBecomes` | varemu/monitor.c:2118-2405 | so in every state of every run from the empty list |
| `FdSets.FdMonitor.CleanupSet` | varemu/monitor.c:2118-2137 | the loop closes what it may and drops the set when nothing is left |
| `FdSets.FdMonitor.CleanupAll` | varemu/monitor.c:2139-2148 | every set is cleaned although sets vanish on the way |
| `FdSets.FdMonitor.AddFd` | varemu/monitor.c:2253-2333 | the two searches find the set, or the place that keeps the list ordered; a negative id is refused |
| `FdSets.FdMonitor.FindFree` | varemu/monitor.c:2290-2300 | the scan for a gap gives the first free id, which is also the new set's place |
| `FdSets.FdMonitor.Remove` | varemu/monitor.c:2175-2212 | marks one descriptor or all, and fails exactly when there is no such set or descriptor |
| `FdSets.FdMonitor.AddDup` | varemu/monitor.c:2364-2384 | adds the duplicate exactly when the set exists and does not have it |
| `FdSets.FdMonitor.RemoveDup` | varemu/monitor.c:2386-2405 | removes the first such duplicate and cleans up when it was the set's last; the id returned is read after that, and is defined exactly unless every descriptor of the set was closed with it |
| `FdSets.FdMonitor.MonitorClosed` | varemu/monitor.c:4723-4726 | the close step of the ownership theorem in place: one monitor less, then cleanup of all sets |
| `FdSets.FdMonitor.MonitorOpened` | varemu/monitor.c:4713-4721 | the open step in place: one monitor more |
| `Throttle.TakeInv` | varemu/monitor.c:518-585 | queueing and the timer keep the invariant below |
| `Throttle.Throttled` | varemu/monitor.c:518-614 | over any run with a clock that does not go back and timers that are not early, emissions are at least the rate apart, payloads are a subsequence of those queued, the latest is emitted or pending, and pending means a timer armed at last + rate |
| `Throttle.Unthrottled` | varemu/monitor.c:535-538 | without a rate every payload is emitted at once, in order |
| `Throttle.EventState.constructor` | varemu/monitor.c:596-614 | a rate in milliseconds, nothing pending |
| `Throttle.EventState.QueueEvent` | varemu/monitor.c:518-560 | queues, replaces or emits in place, and keeps the invariant of Throttled |
| `Throttle.EventState.Handle` | varemu/monitor.c:567-585 | emits what was pending and disarms the timer |
| `ExprParser.DivisionLaw` | varemu/monitor.c:3337-3345 | quotient and remainder truncate: x == q * y + r, r smaller than y and of x's sign |
| `ExprOperators.InfixDenotes` | varemu/monitor.c:3320-3397 | each operator on two words: + - * modulo 2^64, / the quotient and % the remainder of the division law or a trap, & | ^ bit by bit of two's complement |
| `ExprOperators.DenotesUnique` | varemu/monitor.c:3320-3397 | and no other result is meant |
| `ExprOperators.PrefixDenotes` | varemu/monitor.c:3244-3255 | minus modulo 2^64, and ~ bit by bit |
| `ExprOperators.SymbolLevel` | varemu/monitor.c:3320-3397 | the grammar's levels are the precedence of sums, logic and products |
| `ExprTrees.ParseTree` | varemu/monitor.c:3226-3397 | every tree of the grammar, with any space after tokens and any redundant parentheses, is read as itself: value or first error from the left, and the rest left alone |
| `ExprExact.ParseSound` | varemu/monitor.c:3226-3397 | whatever is accepted at a level spells a tree of that level with that value |
| `ExprExact.AcceptsExactly` | varemu/monitor.c:3226-3411 | a text has a value and a rest exactly when it spells a tree with that value before that rest |
| `ExprExact.ValueFits` | varemu/monitor.c:3226-3411 | every value is one of 64 signed bits |
| `ExprAst.NumberReads` | varemu/monitor.c:3302-3314 | a number written in decimal, octal after 0 or hexadecimal after 0x or 0X is read whole and for what it is |
| `ExprAst.PrintEvaluates` | varemu/monitor.c:3226-3411 | the text of an expression, with no more parentheses than precedence asks for, evaluates to an outcome with all text used exactly when the expression means it: a value, or the first error from the left |
| `ExprAst.UnclosedParen` | varemu/monitor.c:3256-3263 | an expression after an unclosed parenthesis is that error |
| `ExprAst.Malformed` | varemu/monitor.c:3264-3314 | so are an empty text, a quote without a character, one without its second quote, and a character that starts nothing |
| `ExprAst.MeaningWraps` | varemu/monitor.c:3226-3397 | for sums, differences, products and prefix operators an expression means exactly the integer computed without a word size, wrapped once to 64 bits |
| `ExprAst.DivisionByZeroIsError` | varemu/monitor.c:3337-3340 | a zero divisor is an error |
| `ExprEvaluator.Evaluator.NextToken` | varemu/monitor.c:3226-3233 | one character and the space after it |
| `ExprEvaluator.Evaluator.ReadNumber` | varemu/monitor.c:3302-3314 | the number with its base from its prefix, as far as its digits go |
| `ExprEvaluator.Evaluator.ReadName` | varemu/monitor.c:3279-3291 | the name as far as it goes, and the first 127 characters of it |
| `ExprEvaluator.Evaluator.ExprUnary` | varemu/monitor.c:3237-3317 | the descent along the text gives the result that AcceptsExactly characterises; it ends because the position or the level moves |
| `ExprEvaluator.Evaluator.ExprLevel` | varemu/monitor.c:3320-3397 | so does each level's loop, from left to right |
| `ExprEvaluator.Evaluator.GetValue` | varemu/monitor.c:3399-3411 | leading space, then a sum |

## Left out

- Translation.Translate: cores with an MPU are not modelled, because `get_phys_addr_mpu` can return success for a write that its protection forbids.
- Tlb.Step: QEMU's own TLB is a map here. Victim entries, large-page flushing and per-CPU copies are left out, and a flush empties the map.
- Tlb.MmuCpu.TtbcrWrite: a shift by more than 31 takes the count modulo 32, which C leaves undefined.
- V7m.V7mCpu.DoInterrupt: the interrupt controller is a log of the calls made to it, and semihosting is off.
- ArmExceptions.Enter: semihosting is off, and the request to leave the translated block is left out.
- ArmNesting.NestedReturnRestores: the PC after a return is what the handler puts there, because the return instruction that computes it is generated code.
- CpRegs.CpTable.Define: definitions have fields in range, as all tables of the repository do; the functions behind a definition are an identity.
- Accounting.Step: the device changes parameters only when settled; `Energy.EnergyIsIntegral` says what another change adds.
- Cycles.Step: floating-point rounding is left out, and so are active times and cycle counts of 2^64 and more, whose conversion C leaves undefined.
- Energy.Step: the power models themselves are left out; power is a parameter, non-negative where that matters.
- HwModule.Device.ModWrite: EXIT_CMD ends the program and is treated as an offset without effect.
- Driver.Step: reading the device's registers in two halves and copying to user space are left out; a snapshot is one read.
- FdSets.Step: the names given to descriptors, `query-fdsets` and the choice of a descriptor by its flags are left out.
- Throttle.Take: the nanosecond clock does not overflow; emission to several monitors is one entry in a log.
- ExprEvaluator.Evaluator.GetValue: the position reported with an error is left out; characters are their code points, where a C `char` above 127 may be negative.
- ExprParser.ApplyInfix: the smallest number divided by minus one is a distinct outcome, because C leaves it undefined and processors trap.
- Floating-point and vector helpers, `vemu_arm.c` (an instruction table), the power models' arithmetic, `vemu_user_io.c`, start-up in `vl.c` and the Stellaris board.
