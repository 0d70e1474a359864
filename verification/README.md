# Qinglong core: machine-checked model

A Dafny model of a from-scratch RV32IMA Linux-capable SoC written in SystemVerilog, with proofs about
every run of its clocked state machines. Each component is modelled the same way: a datatype holds its
registers, functions give the wires and the next state of one clock cycle, a class carries the registers
and is clocked imperatively (`Clock`) to exactly that next state, and lemmas by induction over the input
sequence say what holds in every reachable state, for any environment allowed by the statement.

| file | component |
|---|---|
| Rv32.dfy | machine words, decoded instructions, byte lanes, register file and data memory; ALU, multiplier, immediate and divide results are symbolic functions, so the core theorems hold for all of them |
| Pipeline.dfy, PipelineRefinement.dfy, PipelineRedirect.dfy, PipelineEscape.dfy | five-stage core; refinement to a sequential RV32IMA machine with traps and interrupts, and progress; what a trap fails to hold back |
| Multicycle.dfy, MulticycleRefinement.dfy | multicycle core; refinement to sequential RV32IMA with traps, stale-fetch safety, LR/SC history |
| CoresAgree.dfy | both cores retire the same instructions |
| Isa.dfy | both sequential machines and both cores' logs against the instruction set: numbers modulo 2^32, bytes of memory, last write to a register |
| Divider.dfy | restoring divider against the definition of division |
| Mmu.dfy, MmuReuse.dfy, Sv32.dfy | Sv32 walker, TLBs, SFENCE.VMA, PMP gate; requests served from an old walk result; what the bits of the page-table words let through |
| Csr.dfy, Pmp.dfy, CsrRules.dfy, PmpRules.dfy, Protection.dfy | CSR file and PMP checker, by state machine and bit by bit; what locked entries guarantee through the MMU |
| CacheArray.dfy, Dcache.dfy | write-through data cache against flat memory |
| Icache.dfy, IcacheFreshness.dfy, IcacheStale.dfy | instruction cache; how fresh its words are, and exactly when an invalidate leaves stale ones |
| FenceI.dfy, SfenceVma.dfy | pipelined core, instruction cache or MMU, and memory wired together: FENCE.I and SFENCE.VMA |
| Axi.dfy, Arbiter.dfy, FlatMemory.dfy | AXI master, router and memory against an atomic memory; the arbiters in front; loads as last stores by address |
| Plic.dfy, PlicRules.dfy | interrupt controller; what each offset of its window does |
| Arithmetic.dfy | division facts |

Set counts, line lengths, source and context counts, memory sizes, latencies and run lengths are symbolic.
`dafny verify dfyconfig.toml` checks the whole project.

The refinement theorems compare two machines that share their decision functions (which target a jump
has, what a page grants, which word an address stands for). Isa, Sv32, PmpRules, CsrRules, FlatMemory and
PlicRules say what those decisions are, on the numbers and bits of the registers, inputs and logs.

## Where the code and its comments disagree

The model follows the code.

- `rtl/core/mmu.sv:920-922` says a TLB fill wins over an SFENCE in the same cycle; the fence's later
  assignment to the valid bit wins whenever the entry being replaced matches the fence.
- `rtl/core/csr.sv:369-370` says only SSIP of mip is writable; the mask used is SSIP, STIP and SEIP.
- `rtl/cache/icache.sv:254-257` says no request is mid-flight in the invalidate cycle because ready is low;
  the cache takes a request presented in that cycle all the same (`IcacheFreshness.FetchDuringInvalidateIsStale`;
  the pipelined core presents none, since FENCE.I's own redirect holds its request low, `rtl/core/core_pipeline.sv:299-303`),
  and a fill may well be under way, in which case its line outlives the invalidate.
- `rtl/core/core_pipeline.sv:1484-1487` argues that IF is drained when FENCE.I retires; a fetch accepted as
  FENCE.I leaves ID may still be filling a line then. What saves it is that every read of that fill comes
  after the core's last store (`FenceI.CodeIsSettled`).

## Model

| member | source | states |
|---|---|---|
| `PipelineRefinement.PipelineRefinesSequential` | rtl/core/core_pipeline.sv:292-1516 | For any program and any fetch, data and divider latency, interrupts and CSR answers, as long as no trap retires while a divide waits in EX and no access younger than a trap is handed to the bus: the retirement log is exactly that of the sequential RV32IMA machine in as many steps (pc, rd, value, trap; once each, in order, nothing from a wrong path or behind a trap), traps, interrupts, returns, fences, CSR accesses, LR/SC and AMOs included, with a system instruction trapping exactly if it was denied as it left ID and an interrupt retiring exactly where one was injected; the register file is the sequential one, memory is the sequential one counting accesses already performed, and served cycles exceed 15 n by at most 14 |
| `PipelineRefinement.TrapsArePrecise` | rtl/core/core_pipeline.sv:1459-1508 | What reaches WB is the next instruction of the sequential machine and traps exactly if that does; a trap leaves the registers as they stand in front of it, drops the reservation and sends the fetch to the vector, whether or not a divide waits in EX; and if nothing younger is handed to the bus in that cycle, memory stands so too with nothing on its way |
| `PipelineRefinement.BusAlways` | rtl/core/core_pipeline.sv:1208-1246 | As long as no access younger than a trap escapes, the bus holds at most the one access MEM waits for, so an answer is always for the instruction that takes it |
| `PipelineRefinement.MemoryIndex` | rtl/core/core_pipeline.sv:1070-1160 | The memory of that theorem is the sequential memory after n plus the instructions in WB and MEM whose access is done: never torn or reordered |
| `PipelineRefinement.RunCoupled` | rtl/core/core_pipeline.sv:292-1516 | In every reachable state all pipeline registers are coupled to the sequential state, and served cycles plus the distance of the oldest instruction from WB stay within 15 per retirement plus 14 |
| `PipelineRefinement.CycleRestarts` | rtl/core/core_pipeline.sv:1459-1481 | A trap, return, FENCE.I, SFENCE.VMA or satp write in WB leaves a pipeline coupled to the state in which the sequential machine goes on |
| `PipelineRefinement.CycleDrains` | rtl/core/core_pipeline.sv:606-617 | A CSR access retires with its value while what follows waits unread in ID |
| `PipelineRefinement.CycleMemStalled` | rtl/core/core_pipeline.sv:596-617 | A cycle in which MEM waits keeps the coupling with the sequential run |
| `PipelineRefinement.CycleDivStalled` | rtl/core/core_pipeline.sv:588-617 | A cycle in which a divide holds EX keeps the coupling |
| `PipelineRefinement.CycleFlowing` | rtl/core/core_pipeline.sv:683-1161 | A cycle in which every stage moves keeps the coupling: taken branches, traps and faults on their way to WB, interrupts displacing ID |
| `PipelineRefinement.MemoryWaits` | rtl/core/core_pipeline.sv:1203-1322 | While MEM waits, loads, stores, LR, SC and both beats of an AMO keep the stage invariant, and memory takes the sequential effect exactly when the last answer comes |
| `PipelineRefinement.MemoryLeaves` | rtl/core/core_pipeline.sv:1203-1322 | When MEM moves, WB holds the sequential result, or a trap exactly if the instruction traps, and the reservation is the sequential one |
| `PipelineRefinement.ExecuteStage` | rtl/core/core_pipeline.sv:835-1000 | What EX hands to MEM (result, address, lanes, trap, SC success) and the redirect decision and target are the sequential ones |
| `PipelineRefinement.DispatchStage` | rtl/core/core_pipeline.sv:630-806 | ID to EX keeps pc, instruction, fault and register snapshot; a waiting divide keeps its captured operands and latched result |
| `PipelineRefinement.FetchStage` | rtl/core/core_pipeline.sv:292-398 | The fetcher delivers to ID exactly the instruction after the youngest one held, across redirects and squashed responses, until an interrupt takes its place |
| `PipelineRefinement.RetireStage` | rtl/core/core_pipeline.sv:1416-1428 | WB writes the register file as the sequential step does, and what leaves the core is its retirement |
| `Pipeline.SerialAloneStep` | rtl/core/core_pipeline.sv:606-617 | A serializing instruction past ID has EX, MEM and WB to itself: kept by every cycle |
| `Pipeline.DrainsAlone` | rtl/core/core_pipeline.sv:606-617 | In every reachable state a CSR or other system instruction, a fence or an atomic past ID has EX, MEM and WB to itself |
| `Pipeline.HazardLogicSuffices` | rtl/core/core_pipeline.sv:576-617 | In every reachable state, under any bus, interrupt and CSR behaviour: a fetch in flight means ID is empty, ID and EX are both full only behind a DIV, a stalled MEM has an empty EX behind it, a load in EX has nothing in ID, and ID is empty whenever a branch redirects |
| `Pipeline.FetchIsWanted` | rtl/core/core_pipeline.sv:299-303 | A fetch that is accepted is not squashed in the same cycle, and is for the current pc |
| `Pipeline.SatpWaitsForFetch` | rtl/core/core_pipeline.sv:576-587 | In every reachable state a CSR access leaves MEM at once, but a satp write waits exactly as long as a fetch is in flight |
| `Pipeline.DividerWorksOn` | rtl/core/core_pipeline.sv:912-948 | A divider at work keeps its operands until it is done, whatever is started, stalled or flushed meanwhile |
| `Pipeline.SpacedAlways` | rtl/core/core_pipeline.sv:292-347 | The spacing invariant behind the hazard logic holds after any sequence of cycles from reset |
| `PipelineRedirect.OnlyWaitingDivideRetires` | rtl/core/core_pipeline.sv:594-685 | After a write-back redirect in any run from reset, for any inputs: nothing fetched before it ever retires, except a divide that was waiting in EX, which is then the first to retire, with its register write unless its own fetch faulted |
| `PipelineRedirect.EarlierRetiresExactlyIfDivideWaits` | rtl/core/core_pipeline.sv:594-685 | Once the divider has answered and three more cycles have passed, an instruction fetched before the redirect has retired if and only if a divide was waiting in EX at the redirect |
| `PipelineRedirect.YoungerThanTrapRetires` | rtl/core/core_pipeline.sv:683-685 | A run from reset in which this happens: a load at 0 faults, and the divide at 4 behind it retires and writes its register after the trap |
| `PipelineEscape.EscapesExactlyIf` | rtl/core/core_pipeline.sv:588-617 | In every run from reset: an access younger than a redirect is handed to the bus in its cycle if and only if, two cycles before, a faulting fetch whose word looks like a divide was about to leave EX with the divider's answer, nothing ahead of it trapped or stalled, an instruction other than a divide left ID behind it, that instruction has an access to make, and the bus is ready |
| `PipelineEscape.EscapedStoreHappens` | rtl/core/core_pipeline.sv:1208-1212 | An escaped store is performed with the next fault-free answer, whatever the pipeline does meanwhile, though its instruction has been dropped |
| `PipelineEscape.StoreOutrunsTrap` | rtl/core/core_pipeline.sv:1208-1212 | A run from reset: the fetch at 0 faults with the word of a divide, the bus takes the store at 4 in the cycle the trap retires, a later answer performs it, and all that ever retires is the trap |
| `PipelineEscape.OrphanAnswersLoad` | rtl/core/core_pipeline.sv:1244-1246 | The run goes on: the orphaned answer completes the handler's first load before the load's own request is taken, and the load retires with a value memory never held |
| `PipelineEscape.FenceMeetsStore` | rtl/core/core_pipeline.sv:606-617 | Or a FENCE.I in the handler retires while the escaped store is still on the bus |
| `PipelineRedirect.DivideStep` | rtl/core/core_pipeline.sv:926-948 | The spared divide moves a stage nearer to retirement in every cycle but those in which it waits for the divider |
| `PipelineRefinement.OperandsArrive` | rtl/core/core_pipeline.sv:811-833 | A register snapshot taken on the way into EX, repaired by the two forwarding paths, is the operand the sequential machine reads after the instructions still in WB and MEM |
| `Pipeline.PipelinedCore.FetchTracker` | rtl/core/core_pipeline.sv:330-347 | The in-flight, in-flight pc and squash registers after response, acceptance and redirect, in that order |
| `Pipeline.PipelinedCore.IdEx` | rtl/core/core_pipeline.sv:638-806 | The ID/EX register with the WB bypass on both operands |
| `Pipeline.PipelinedCore.ExMem` | rtl/core/core_pipeline.sv:1070-1165 | The EX/MEM register: bus handshake while stalled, bubble, or the EX payload, cleared by a write-back redirect |
| `Pipeline.PipelinedCore.DivTracker` | rtl/core/core_pipeline.sv:926-948 | The divide start, done-latch and result registers |
| `Pipeline.PipelinedCore.ReservationUpdate` | rtl/core/core_pipeline.sv:1755-1770 | The LR/SC reservation register |
| `Pipeline.PipelinedCore.Clock` | rtl/core/core_pipeline.sv:288-1428 | One rising edge loads every register with its next-state value |
| `Rv32.StoreThenLoad` | rtl/core/core_multicycle.sv:455-513 | Lane round trip: a store followed by a load of the same width at the same aligned address returns the stored low bytes, sign-extended for LB and LH, and every byte outside the access is unchanged |
| `Rv32.StoreLanes` | rtl/core/core_multicycle.sv:458-481 | Byte k of the stored value goes to lane addr mod 4 + k, and the mask selects exactly the lanes of the access |
| `Rv32.LoadFromBytes` | rtl/core/core_multicycle.sv:486-513 | A load is the little-endian number of the addressed bytes, extended by its kind |
| `MulticycleRefinement.MulticycleRefinesSequential` | rtl/core/core_multicycle.sv:689-1102 | Over every run, any latency on both buses and interrupts at any cycle: the commits are those of the sequential RV32IMA machine (traps and interrupts included), and pc, registers, memory and reservation are the sequential ones after as many steps |
| `MulticycleRefinement.CycleSimulates` | rtl/core/core_multicycle.sv:750-1101 | A commit cycle is exactly one architectural step with that step's retirement; any other cycle leaves the architectural state unchanged |
| `MulticycleRefinement.NoStaleFetch` | rtl/core/core_multicycle.sv:740-804 | Every word latched for execution is the memory word at the current pc, whatever the latency and interrupts, although re-asserted requests may leave an untracked duplicate outstanding |
| `MulticycleRefinement.AlwaysFetchSafe` | rtl/core/core_multicycle.sv:740-804 | The tracked fetch, unless squashed, is always for the current pc, and a squash is only ever pending for a fetch in flight |
| `MulticycleRefinement.KeepsCommitting` | rtl/core/core_multicycle.sv:689-1102 | Progress: at most eight served cycles pass between commits, stale fetches included |
| `MulticycleRefinement.AmoIsAtomic` | rtl/core/core_multicycle.sv:912-931 | An AMO is one step: it returns the old word, leaves the new one, touches no other word and drops the reservation |
| `MulticycleRefinement.ReservationIsLatestLr` | rtl/core/core_multicycle.sv:1010-1014 | There is a reservation for a word if and only if some LR of that word completed and nothing since has taken or given one up |
| `MulticycleRefinement.ScStoresAfterLatestLr` | rtl/core/core_multicycle.sv:873-911 | SC stores and writes 0 exactly when the latest LR was to its word with no SC, completed AMO or EXEC/MEM exception since; otherwise it writes 1 and leaves memory alone |
| `MulticycleRefinement.MemCompletes` | rtl/core/core_multicycle.sv:966-1022 | A fault-free response in S_MEM commits the load, store, LR or SC step, or carries an AMO to its store half without changing state |
| `MulticycleRefinement.AmoStep` | rtl/core/core_multicycle.sv:1025-1075 | The store half of an AMO: nothing until the response, then the whole step |
| `Multicycle.MulticycleCore.FetchState` | rtl/core/core_multicycle.sv:740-804 | S_FETCH: interrupt, tracked request, stale response dropped, fault or instruction latched |
| `MulticycleRefinement.ExecStep` | rtl/core/core_multicycle.sv:807-963 | A cycle of S_EXEC: what commits is the step of the sequential machine, and what goes on to the bus or the divider carries that step with it |
| `Multicycle.MulticycleCore.Clock` | rtl/core/core_multicycle.sv:1107-1145 | One rising edge loads every register with its next-state value |
| `CoresAgree.CoresRetireAlike` | rtl/core/core_multicycle.sv:689-1102 | Both cores run the same architecture: on the same program of instructions that neither trap nor ask the CSR file (LR, SC, AMO and FENCE included), with no interrupts or data faults, equally long retirement logs are equal instruction by instruction and so are the registers, whatever the latencies on either side |
| `CoresAgree.BenignMeetsNoTrap` | rtl/core/core_pipeline.sv:594-685 | On such a program the pipelined core never redirects at write-back, so nothing needs containing |
| `CoresAgree.StepsAgree` | rtl/core/core_pipeline.sv:950-1000 | One such step of the two sequential machines is the same step with the same retirement |
| `Isa.PipelineLog` | rtl/core/core_pipeline.sv:835-1000 | Every run of the pipelined core, read off its retirement log alone: JAL goes to pc + imm, JALR to rs1 + imm without bit 0, a branch to pc + imm exactly if taken, everything else to pc + 4, traps to the vector and returns to mepc or sepc, modulo 2^32; rd gets pc + 4, the ALU's value of its operands, the loaded bytes, or the CSR, where an operand is what the log last wrote to its register; nothing else is written |
| `Isa.PipelineTraps` | rtl/core/core_pipeline.sv:950-985 | Which instructions of the pipeline's sequential machine trap, as a condition on addresses, alignment, permissions and kinds: if and only if |
| `Isa.PipelineGoes` | rtl/core/core_pipeline.sv:997-1000 | Where each instruction goes next, by kind, as a number modulo 2^32; a trap goes to the vector and changes nothing but the reservation |
| `Isa.PipelineWrites` | rtl/core/core_pipeline.sv:835-956 | What each instruction writes to rd, by kind, in bytes for loads, and that it writes no other register |
| `Isa.PipelineStores` | rtl/core/core_pipeline.sv:1203-1232 | Which bytes of memory each instruction changes and to what, and what it does to the reservation |
| `Isa.PipelineRetires` | rtl/core/core_pipeline.sv:1416-1428 | A retirement names its pc, and rd and its value exactly if a register is written |
| `Isa.MulticycleLog` | rtl/core/core_multicycle.sv:689-1102 | The same for every run of the multicycle core and its commits, the interrupt vector table included |
| `Isa.MulticycleTraps` | rtl/core/core_multicycle.sv:807-860 | Which steps trap, as a condition on addresses, alignment, faults and kinds: if and only if |
| `Isa.MulticycleGoes` | rtl/core/core_multicycle.sv:755-800 | Where each step goes next; only an interrupt uses the vector table, at base + 4 * code, and keeps the reservation |
| `Isa.MulticycleWrites` | rtl/core/core_multicycle.sv:938-963 | What each step writes to rd, by kind, and that it writes no other register |
| `Isa.MulticycleStores` | rtl/core/core_multicycle.sv:862-931 | Which bytes of memory each step changes and to what, and what it does to the reservation |
| `Isa.MulticycleRetires` | rtl/core/core_multicycle.sv:943-958 | A commit names its pc, and rd and its value exactly if a register is written |
| `Isa.AddressTraps` | rtl/core/core_pipeline.sv:845-905 | The addresses that trap: a taken target not a multiple of 4, a load or store not a multiple of its size, an atomic not a multiple of 4 |
| `Isa.StoreBytes` | rtl/core/core_multicycle.sv:458-481 | A store of 1, 2 or 4 bytes changes the bytes it names, to those of its operand, and no other byte of memory |
| `Isa.LoadBytes` | rtl/core/core_multicycle.sv:486-513 | A load is the little-endian number in the bytes it names, sign-extended by LB and LH |
| `Divider.DividesCorrectly` | rtl/core/div_unit.sv:73-168 | From an accepted start, whatever the inputs do meanwhile: busy and not done with R < D and Q*D + R the top k bits of the dividend's magnitude after k steps, until at exactly cycle 2 (zero divisor, overflow) or 35 done pulses with the DIV/DIVU/REM/REMU answer |
| `Divider.RestoredStep` | rtl/core/div_unit.sv:138-153 | One restoring step keeps R < D, Q < 2^k and magnitude * 2^k = (Q*D + R) * 2^32 + remaining bits |
| `Divider.RestoredTopBits` | rtl/core/div_unit.sv:138-153 | After k steps Q*D + R is the number made of the top k bits of the dividend's magnitude |
| `Divider.BorrowIsComparison` | rtl/core/div_unit.sv:62-70 | Bit 32 of the 33-bit difference is exactly the borrow |
| `Divider.SpecIsDivision` | rtl/core/div_unit.sv:9-11 | The specified quotient and remainder satisfy a = b*q + r, with r smaller than b in magnitude and signed like a |
| `Divider.SpecFits` | rtl/core/div_unit.sv:9-11 | Results fit their word except the quotient of INT_MIN by -1, which is INT_MIN with remainder 0 |
| `Divider.FixupIsDivision` | rtl/core/div_unit.sv:155-163 | Sign fixup of the final Q and R gives the specified word |
| `Divider.ShortCutIsDivision` | rtl/core/div_unit.sv:112-132 | The zero-divisor and overflow short cuts give the specified word |
| `Divider.DonePulses` | rtl/core/div_unit.sv:90-90 | In every reachable state done lasts one cycle and only in S_IDLE |
| `Divider.DivUnit.Clock` | rtl/core/div_unit.sv:73-168 | One rising edge loads every register with its next-state value |
| `Mmu.WalkerMeetsSpec` | rtl/core/mmu.sv:339-495 | From launch, for any page-table memory and any latency: at most two PTE reads and four granted cycles, then exactly the physical address or fault of the recursive reference walk (section 4.3.2, A/D faulting, PTE bus fault a fault, address cut to 32 bits) |
| `Mmu.WalkFinishes` | rtl/core/mmu.sv:368-492 | A finished walk has the reference outcome, and fills the TLB exactly when the reference walk finds a leaf, with that leaf |
| `Mmu.TlbHitsAreFreshWalks` | rtl/core/mmu.sv:189-221 | Over every run of fills, evictions, fences and ASID switches under a well-behaved OS, a request that hits reaches the bus with the address of a fresh walk, and is withheld exactly when a fresh walk faults under live priv, SUM and MXR |
| `Mmu.MatchIsFreshWalk` | rtl/core/mmu.sv:512-533 | Whichever matching entry is picked, superpages and globals included, its address and verdict are those of a fresh walk |
| `Mmu.HitMatches` | rtl/core/mmu.sv:199-221 | The lookup hits if and only if some entry matches, and picks the last one |
| `Mmu.SysAlwaysSound` | rtl/core/mmu.sv:920-930 | Every valid entry of both TLBs stays sound for every address and address space it matches |
| `Mmu.FillSound` | rtl/core/mmu.sv:391-405 | What a finished walk fills is sound for every address and address space it matches |
| `Mmu.MissIsServed` | rtl/core/mmu.sv:627-686 | The cycle after a walk ends, the request still being presented reaches the bus with the reference address, or not at all if the walk faulted |
| `MmuReuse.ReusedExactlyIf` | rtl/core/mmu.sv:547-686 | A missing request that finds the walk-result register valid for its page, whatever has become of the tables, ASID, root, privilege and access since the walk: the bus sees what a fresh walk gives if and only if the mapping now in force is permitted and leads to the same physical page and the page offset is that of the address walked (or, for a stored fault, now faults too) |
| `MmuReuse.ReuseOverRuns` | rtl/core/mmu.sv:868-918 | Over every well-behaved run from reset, ASID switches included: the register always holds the outcome of a walk in some address space and mode, and that condition decides |
| `MmuReuse.ReuseAcrossFence` | rtl/core/mmu.sv:868-971 | The same across an edit and the SFENCE.VMA that covers it: the register holds an outcome of the old or the new tables, and that condition decides |
| `MmuReuse.ReuseGoesWrong` | rtl/core/mmu.sv:547-686 | A run from reset with constant tables, ending in a fence of everything, after which the next fetch of the page is sent to the address of a withdrawn one: once for another word of the page, once for the same address in another ASID |
| `MmuReuse.FenceSparesWalkResult` | rtl/core/mmu.sv:932-971 | SFENCE.VMA in any form leaves both walk-result registers alone |
| `Mmu.FenceRestoresSoundness` | rtl/core/mmu.sv:920-971 | After an edit to the non-global leaf mapping v in ASID a, each of the four SFENCE.VMA forms that covers (v, a) leaves both TLBs sound for the edited tables and the walker on track, with TLB entries of before and after the edit mixed and a walk under way that may end in the very cycle, as long as what it has read are the edited tables |
| `Mmu.HitsAfterFencedEdit` | rtl/core/mmu.sv:920-971 | Edit, go on for any well-behaved while, fence, carry on: hits of any well-behaved run after the fence are fresh walks of the edited tables |
| `SfenceVma.FenceWithWalkUnderWay` | rtl/soc/soc_top.sv:237-242 | Pipelined core, MMU and page-table memory wired together, in every run in which no access escapes: from the cycle an SFENCE.VMA leaves ID the tables stay as the core's stores left them until it retires three cycles later, and if it does not trap and covers the edit it leaves both TLBs sound for them, whatever walk is under way, as long as that walk has not followed a first-level entry changed since |
| `SfenceVma.FenceGoesThrough` | rtl/core/core_pipeline.sv:606-617 | An SFENCE.VMA goes from ID to WB in three cycles, alone, with no data access and no redirect on the way |
| `Mmu.FenceIsSelective` | rtl/core/mmu.sv:955-969 | rs2 forms never drop a global entry or another ASID's entry, rs1 forms never another page's, and the form without operands drops everything |
| `Mmu.GateHolds` | rtl/core/mmu.sv:543-618 | Whatever is in the registers, a request on either bus carries the very address the PMP checker judged, and the checker allowed it |
| `Sv32.RequestsObeyTables` | rtl/core/mmu.sv:189-533 | Over every well-behaved run from reset, from the bits of the page-table words: an untranslated request goes to the bus as it is; one whose page has an entry goes to the address the tables give exactly if the words grant it: A set; X for a fetch; R, W and D for a store; R, or X under MXR, for a load; U in U-mode; no U in S-mode but for data under SUM |
| `Sv32.WalkedRequestsObeyTables` | rtl/core/mmu.sv:368-492 | The same for a request that misses, in the cycle after its walk ends |
| `Sv32.TranslateIs` | rtl/core/mmu.sv:260-308 | The reference translation is section 4.3.2 on the words themselves: root and second-level entry addresses, reserved forms, superpage alignment, grant, and the physical address cut to 32 bits |
| `Sv32.LeafRegion` | rtl/core/mmu.sv:955-969 | The region one leaf maps, 4 MiB or 4 KiB, is what an edit of it may change in the SFENCE.VMA results |
| `Sv32.WalkIsForRequest` | rtl/core/mmu.sv:250-354 | An idle walker takes up exactly a request that must be translated and finds neither an entry nor the last result for its page, a fetch first, with that request's address, access and privilege (MPP under MPRV) |
| `Sv32.WalksAreCached` | rtl/core/mmu.sv:391-478 | A walk that finds a page leaves an entry that every later request to it hits: 4 MiB or 4 KiB, in its address space, or in any if global |
| `Sv32.ResultIsKept` | rtl/core/mmu.sv:868-918 | A walk result is kept until an answer is taken, and goes with the answer to the request it served |
| `Sv32.FaultIsHeld` | rtl/core/mmu.sv:543-618 | A PMP fault is held until it is taken, and raised only for the address the request goes to, or would by the walk result for its page |
| `Sv32.GateIsExact` | rtl/core/mmu.sv:723-813 | The PMP is asked about exactly the request on the bus, as a fetch, load or store at its effective privilege, and stops it exactly if it faults or an earlier fault is unanswered |
| `Mmu.SideUnit.Lookup` | rtl/core/mmu.sv:197-221 | The associative lookup loop |
| `Mmu.SideUnit.UpdateTlb` | rtl/core/mmu.sv:920-971 | Fill at the replacement pointer, then the fence loop clearing valid bits by the old contents, over a fill of the same cycle |
| `Mmu.SideUnit.UpdateXlate` | rtl/core/mmu.sv:868-918 | The walk-result register: completion, stuffing by a TLB handshake, clear |
| `Mmu.SideUnit.Clock` | rtl/core/mmu.sv:832-988 | One rising edge of a side: TLB, walk result, replacement pointer and PMP latch |
| `Mmu.MmuUnit.Clock` | rtl/core/mmu.sv:832-988 | One rising edge of the walker and both sides |
| `Csr.InterruptsTakenRightly` | rtl/core/csr.sv:204-230 | In every reachable state: the interrupt presented is enabled, pending and first in priority on the winning path; taking it enters S-mode exactly when it came from the delegated path; a delegated interrupt is never taken in M-mode; once taken, nothing is pending until something changes |
| `Csr.AlwaysMaskable` | rtl/core/csr.sv:465-490 | In every reachable state mie is within 0xAAA and mideleg within 0x222 |
| `Csr.PickIsRight` | rtl/core/csr.sv:213-230 | irq_cause names an enabled pending bit of highest priority on the winning path |
| `Csr.MretUndoesTrap` | rtl/core/csr.sv:433-450 | MRET after a machine trap restores privilege, MIE and all of mstatus but MPIE, MPP and MPRV |
| `Csr.SretUndoesTrap` | rtl/core/csr.sv:424-458 | SRET after a delegated trap restores privilege, SIE and all of mstatus but SPIE, SPP and MPRV |
| `Csr.ViewsStayInside` | rtl/core/csr.sv:487-490 | sstatus and sie writes read back, cut to the window, and change nothing outside it |
| `Csr.SipWriteStaysInside` | rtl/core/csr.sv:491-492 | A sip write leaves undelegated bits alone if and only if SSI is delegated or SSIP was clear |
| `Csr.SipWriteEscapes` | rtl/core/csr.sv:491-492 | A reachable state in which a sip write clears an undelegated SSIP |
| `Csr.MretEntersReservedMode` | rtl/core/csr.sv:442-450 | MRET enters mode 2 exactly when MPP holds 2, which a write to mstatus can put there |
| `Csr.LockedForever` | rtl/core/csr.sv:140-171 | A locked PMP entry keeps its configuration byte, its address and, for TOR, its lower bound over every run |
| `Csr.SealedForever` | rtl/core/csr.sv:506-527 | Entries 0 to k locked, k the first to cover an address and forbidding the access: still so, and still a fault at every privilege, after any run |
| `Csr.CsrFile.CfgWrite` | rtl/core/csr.sv:160-171 | The per-byte pmpcfg merge loop keeps locked bytes |
| `Csr.CsrFile.PmpWrite` | rtl/core/csr.sv:506-527 | A write to a PMP register, locks honoured |
| `Csr.CsrFile.Clock` | rtl/core/csr.sv:381-532 | One rising edge: trap entry beats MRET, MRET beats SRET, SRET beats a CSR write |
| `Pmp.RunMaskIsOnes` | rtl/core/pmp.sv:70-74 | With k trailing ones, this ^ (this + 1) is 2^(k+1) - 1, and all ones when the address is all ones |
| `Pmp.NapotIsRegion` | rtl/core/pmp.sv:70-76 | The masked compare is membership in the naturally aligned region the entry denotes |
| `Pmp.NapotSize` | rtl/core/pmp.sv:70-76 | A NAPOT entry with k < 30 trailing ones covers exactly 2^(k+3) bytes aligned to that size; all ones covers the whole space |
| `Pmp.MatchIsCoverage` | rtl/core/pmp.sv:63-81 | An entry matches exactly the byte range its mode denotes |
| `Pmp.FaultsIsFirstMatch` | rtl/core/pmp.sv:93-118 | fault_o is the first-match rule of section 3.7.1, except exactly when no entry is active and the access is below M-mode |
| `Pmp.Check` | rtl/core/pmp.sv:97-118 | The two loops of the checker compute that verdict |
| `Protection.NoStoreIntoSealedRegion` | rtl/core/mmu.sv:723-813 | Once a region is sealed against writes by locked entries, no later step of any run (any CSR writes, privilege, satp, page tables, TLB contents) lets a data store to it leave the MMU |
| `Protection.NoAccessToSealedRange` | rtl/core/mmu.sv:723-813 | The same for all three accesses: a locked first match whose configuration has bit 0, 1 or 2 clear lets no load, store or fetch of the range out of the MMU in any later state |
| `PmpRules.FirstDecides` | rtl/core/pmp.sv:83-118 | On the registers: if entry k is the first to cover an address, a read faults if and only if bit 0 of its configuration is clear, a write bit 1, a fetch bit 2, except below a lock in M-mode |
| `PmpRules.NoneDecides` | rtl/core/pmp.sv:93-118 | An address no entry covers faults exactly below M-mode with some entry on |
| `PmpRules.CoverIs` | rtl/core/pmp.sv:52-81 | Which addresses an entry covers, from bits 3 and 4 of its configuration and its address bits: TOR, NA4, or the aligned block of 2^(t+3) bytes for t trailing ones |
| `PmpRules.NumberBit` | rtl/core/pmp.sv:43-50 | The number an address register stands for has its bits |
| `CsrRules.TrapGoes` | rtl/core/csr.sv:407-432 | A trap below M-mode goes to S if and only if medeleg, or mideleg for an interrupt, has the bit of its number; any other goes to M; with the exact mstatus bits, and nothing else changed |
| `CsrRules.ReturnGoes` | rtl/core/csr.sv:433-459 | MRET and SRET, bit by bit of mstatus and privilege |
| `CsrRules.InterruptIs` | rtl/core/csr.sv:204-230 | In every reachable state: an interrupt is presented if and only if an enabled one is pending for M or S, and it is the first of MEI, MSI, MTI, SEI, SSI, STI for M, or else for S |
| `CsrRules.IllegalIs` | rtl/core/csr.sv:335-357 | An access is illegal if and only if the register does not exist, its address asks for more privilege, it would write a read-only one, or S touches satp under TVM; a write happens if and only if it is legal and CSRRW or has a nonzero source |
| `CsrRules.WhoMayWrite` | rtl/core/csr.sv:330-355 | Whatever changes without a trap or return was written at the privilege its address asks for, to a register that is not read-only, and satp not from S under TVM |
| `CsrRules.BelowMKeepsM` | rtl/core/csr.sv:330-532 | Over every run below M-mode up to the next trap: delegation, machine trap registers, PMP, and all machine bits of mstatus, mie and mip stay as they are |
| `CsrRules.UserKeepsAll` | rtl/core/csr.sv:330-532 | Over every run in U-mode up to the next trap or return: nothing changes at all |
| `CsrRules.WritesReadBack` | rtl/core/csr.sv:460-505 | In every reachable state a written register reads back as the operation makes it, cut to the bits software can set |
| `CsrRules.OthersStay` | rtl/core/csr.sv:460-532 | And no other register reads differently, but for the views of mstatus, mie and mip |
| `CsrRules.CfgReadsBack` | rtl/core/csr.sv:156-171 | A PMP configuration byte reads back as written unless its bit 7 was set |
| `CsrRules.AddressReadsBack` | rtl/core/csr.sv:140-154 | A PMP address reads back as written unless its entry, or a TOR entry above it, is locked |
| `Dcache.CacheIsFlatMemory` | rtl/cache/dcache.sv:189-273 | For any sets, line length and in-order memory latency: every accepted request is answered once before the next, loads return the last value stored, and whenever idle the memory is the flat memory, every valid line equals memory and no set holds a tag twice |
| `Dcache.HitStore` | rtl/cache/dcache.sv:350-359 | A store hit merges its bytes into the one line that holds the address, and no other line does |
| `Dcache.FillLines` | rtl/cache/dcache.sv:360-374 | A fill response lands only in the victim line, merged with the store if it is the target word |
| `Dcache.FillInstalls` | rtl/cache/dcache.sv:325-329 | The last response of a fill installs a line that agrees with memory once the store has landed, keeping tags distinct |
| `Dcache.FillBus` | rtl/cache/dcache.sv:236-256 | The outstanding reads are exactly the words between the two fill counters, answered in order |
| `Dcache.AnsweredInTime` | rtl/cache/dcache.sv:189-273 | Over every run, a request is answered within LINE_WORDS + 4 cycles in which the memory grants what it is asked |
| `Dcache.WaitDecreases` | rtl/cache/dcache.sv:189-273 | Step by step: no cycle loses ground, a granted one gains it, and the answer is given in the last |
| `Dcache.DataCache.HitDetect` | rtl/cache/dcache.sv:144-154 | The hit loop finds the last matching way |
| `Dcache.DataCache.RamPorts` | rtl/cache/dcache.sv:350-374 | The data, tag and valid write ports |
| `Dcache.DataCache.Clock` | rtl/cache/dcache.sv:281-340 | One rising edge loads every register and RAM |
| `CacheArray.PlruSparesRecent` | rtl/cache/dcache.sv:159-173 | The pLRU victim is never the way used last, nor the one used before it |
| `CacheArray.PlruCyclesThroughWays` | rtl/cache/dcache.sv:159-173 | Four misses in a row evict four different ways and restore the tree |
| `CacheArray.SplitJoin` | rtl/cache/dcache.sv:65-67 | Tag, index and offset determine the word address: distinct lines are distinct memory |
| `CacheArray.PokeAtLoc` | rtl/cache/dcache.sv:390-393 | A byte-masked store changes exactly one word of one line |
| `IcacheFreshness.FetchesAreFresh` | rtl/cache/icache.sv:172-297 | With memory written by others at any time and invalidates in any cycle: a word returned is one memory has held at its address since the last invalidate before its fetch was accepted or, if that caught a fill, since that fill's first read was accepted; and no fault is reported |
| `IcacheFreshness.SettledCodeIsFetched` | rtl/cache/icache.sv:172-297 | An instruction memory has held ever since then is the one fetched |
| `IcacheFreshness.FillWords` | rtl/cache/icache.sv:289-297 | Each word of a line being filled is one memory has held since the first read of the fill |
| `IcacheFreshness.FetchDuringInvalidateIsStale` | rtl/cache/icache.sv:252-260 | A fetch presented in the invalidate cycle is taken although ready is low, and a cached line is then served as it was |
| `IcacheStale.LateFetchIsReachable` | rtl/cache/icache.sv:252-260 | A run from reset, with one-word lines: word 0 is cached as 1, memory becomes 2, and the fetch presented in the invalidate cycle gets the 1 |
| `IcacheStale.StaleExactlyIfCaught` | rtl/cache/icache.sv:252-297 | For every invalidate in every reachable state: some later fetch can be answered with a word memory has not held since the pulse, if and only if the pulse catches a fill and memory has changed under one of its accepted reads |
| `IcacheStale.StaleIsReachable` | rtl/cache/icache.sv:252-297 | With every geometry, a run from reset reaches such a pulse and the stale answer after it |
| `FenceI.FetchesFollowFence` | rtl/soc/soc_top.sv:231-268 | Pipelined core, fetch routing, instruction cache, data bus and memory wired together, over every run in which no FENCE.I meets a store under way, and wherever a fill stands when it retires: an instruction delivered from the cache to a fetch still wanted has been in memory at the address asked for in some cycle since the last FENCE.I retired |
| `FenceI.FencesAreQuiet` | rtl/core/core_pipeline.sv:606-617 | As long as no access younger than a trap escapes, no FENCE.I ever meets a store under way |
| `FenceI.StoredCodeIsFetched` | rtl/soc/soc_top.sv:636-653 | Self-modifying code: if the core's stores have left v in a word and none has touched it since the last FENCE.I retired, a fetch of it gets v |
| `FenceI.FenceWaitsForStores` | rtl/core/core_pipeline.sv:606-617 | While a FENCE.I leaves ID or is past it the data bus is empty, and when it leaves ID no fetch is in flight and MEM and WB are empty |
| `FenceI.CodeIsSettled` | rtl/core/core_pipeline.sv:1484-1488 | While a FENCE.I is past ID, the reads of a fill in progress agree with memory, so its pulse never catches a stale fill |
| `Icache.InstructionCache.ClearValid` | rtl/cache/icache.sv:258-260 | The loop that clears every valid bit |
| `Icache.InstructionCache.RamPorts` | rtl/cache/icache.sv:254-297 | Invalidate, fill data, tag and valid writes, the install winning over the invalidate |
| `Icache.InstructionCache.Clock` | rtl/cache/icache.sv:228-284 | One rising edge loads every register and RAM |
| `AxiPath.PathIsAtomicMemory` | rtl/mem/axi4_router_linux.sv:87-224 | Master, router and memory under any stalls and any second slave: the events are those of an atomic byte-masked memory, one answer per request, and an outstanding store has hit memory completely or not at all |
| `AxiPath.StoresSentOnce` | rtl/soc/axi4_master.sv:122-130 | AW and W are each handed over exactly once per store, in order, with that store's payload |
| `AxiMaster.PayloadStable` | rtl/soc/axi4_master.sv:122-135 | An offered AW, W or AR keeps its payload until it is taken |
| `AxiMaster.RestsAfterAnswer` | rtl/soc/axi4_master.sv:91-98 | After an answer no request is taken for eight cycles, and one can be in the ninth |
| `AxiPath.UndecodedFaults` | rtl/mem/axi4_router_linux.sv:102-126 | An undecoded address is answered with a fault and leaves memory alone |
| `AxiPath.AnsweredInTime` | rtl/soc/axi4_master.sv:137-215 | A request is answered within three unstalled cycles |
| `AxiPath.WriteStep` | rtl/mem/axil_bram_big.sv:59-89 | AW and W may arrive in either order: each cycle of a store keeps the match with the atomic memory |
| `AxiPath.ReadStep` | rtl/mem/axil_bram_big.sv:101-120 | Each cycle of a read keeps the match with the atomic memory |
| `AxiMaster.Axi4Master.Clock` | rtl/soc/axi4_master.sv:137-216 | One rising edge of the shim, cooldown included |
| `AxiRouter.RouterLinux.StubStep` | rtl/mem/axi4_router_linux.sv:109-126 | The DECERR stub's five flags |
| `AxiRouter.RouterLinux.Clock` | rtl/mem/axi4_router_linux.sv:151-204 | The select latches |
| `AxiBram.BramBig.WriteBytes` | rtl/mem/axil_bram_big.sv:76-79 | The strobed bytes of one word |
| `AxiBram.BramBig.Clock` | rtl/mem/axil_bram_big.sv:59-120 | One rising edge of both sides of the memory |
| `FlatMemory.LoadsReturnLastStores` | rtl/mem/axil_bram_big.sv:46-120 | Over every run of master, router and memory: each answer is to the request before it, a load in 0x4000_0000 to 0x4FFF_FFFF returns the byte-masked last store to its address, and an address outside both windows faults |
| `FlatMemory.ClientsSeeLastStores` | rtl/soc/soc_top.sv:824-876 | The same for the three clients together, whoever stored last |
| `FlatMemory.ClientsReadTheMap` | rtl/mem/axil_bram_big.sv:57-99 | If the memory fills its window, it is a map from word addresses: no two addresses share an entry |
| `FlatMemory.StoreIsLocal` | rtl/mem/axil_bram_big.sv:57-79 | A store changes the word at an address exactly if the two agree, divided by 4, modulo the number of words |
| `Arbiter.ClientsShareAtomicMemory` | rtl/soc/soc_top.sv:824-876 | Over every run: a response goes only to the client whose request is outstanding, no grant is made before the previous response is delivered, and the answers are those of one atomic memory serving the grants in order |
| `Arbiter.GrantIsExclusive` | rtl/soc/soc_top.sv:825-847 | Exactly the picked client is granted, with its own request, and someone is picked whenever anyone asks |
| `Arbiter.FetchPassesOnce` | rtl/soc/soc_top.sv:824-862 | While a data request waits, at most one fetch is granted over it, however many walks intervene |
| `Arbiter.DmemPassesOnce` | rtl/soc/soc_top.sv:824-862 | While a fetch waits, at most one data request is granted over it |
| `Arbiter.WaitingIsServed` | rtl/soc/soc_top.sv:824-862 | With no walk pending, two ready cycles serve any waiting fetch or data request |
| `Arbiter.WalkGoesFirst` | rtl/soc/soc_top.sv:825-829 | A walk takes the first ready cycle and leaves the turn between the other two alone |
| `Arbiter.PortAnswersItsClient` | rtl/soc/soc_top.sv:579-601 | SRAM port B: each client is answered once per request of its own, in the next cycle, never for the other's |
| `Arbiter.SocArbiter.Clock` | rtl/soc/soc_top.sv:849-862 | The grant latches |
| `Arbiter.SramPortArbiter.Clock` | rtl/soc/soc_top.sv:590-596 | The port B grant latch |
| `Plic.NoDoubleClaim` | rtl/soc/plic.sv:242-266 | For up to 32 sources (the RTL's own limit), any number of contexts and any history: a source claimed twice, by whichever contexts, was completed in between |
| `Plic.AlwaysExclusive` | rtl/soc/plic.sv:182-189 | Pending and in flight are never both set for a source, in any reachable state |
| `Plic.PendingSurvives` | rtl/soc/plic.sv:182-189 | A latched pending bit stays until the source is claimed |
| `Plic.PickIsBest` | rtl/soc/plic.sv:110-126 | The pick is 0 exactly when no source qualifies, else the lowest-numbered enabled pending source of maximal priority above the threshold |
| `Plic.BestIsUnique` | rtl/soc/plic.sv:107-109 | That specification leaves no choice |
| `Plic.ClaimAnswers` | rtl/soc/plic.sv:256-265 | A claim returns that best source, moves it from pending to in flight and takes nothing else; it returns 0 exactly when the context's line is down |
| `Plic.RaisedIsLatched` | rtl/soc/plic.sv:129-134 | A raised, enabled source above the threshold pends and raises the context's line |
| `Plic.CompletionRearms` | rtl/soc/plic.sv:244-255 | A completed source whose line is still up pends again one cycle after the completion takes effect, not before |
| `Plic.ConfigurationReadsBack` | rtl/soc/plic.sv:194-241 | Priorities, thresholds and enables read back as written, cut to their width; source 0 is never enabled |
| `Plic.Controller.PickBestSrc` | rtl/soc/plic.sv:110-126 | The pick loop computes the best source |
| `Plic.Controller.Gateway` | rtl/soc/plic.sv:182-188 | The gateway loop |
| `Plic.Controller.Clock` | rtl/soc/plic.sv:164-279 | One rising edge: gateway, then the bus access |
| `PlicRules.ClaimIsRight` | rtl/soc/plic.sv:107-134 | A claim at its offset answers 0 if and only if no source is enabled, pending and above the threshold; else the lowest-numbered such source of the highest priority, which goes from pending to in flight while nothing else is taken |
| `PlicRules.LineIsRight` | rtl/soc/plic.sv:129-134 | A context's line is up if and only if some source is enabled for it, pending and above its threshold |
| `PlicRules.CompletionIsRight` | rtl/soc/plic.sv:244-255 | A completion takes exactly the source it names out of flight |
| `PlicRules.StoreConfigures` | rtl/soc/plic.sv:194-241 | A store sets the priority, threshold or enables at its own offset, bit by bit, and no other |
| `PlicRules.AnswersAre` | rtl/soc/plic.sv:71-93 | Every access is answered, a store with 0, and with a fault if and only if its offset is in no window |
| `PlicRules.OnlyByAccess` | rtl/soc/plic.sv:182-266 | A priority, threshold or enable bit changes only by a store in its own window; a source goes into flight only by a claim that answers it and comes out only by a completion that names it |
| `PlicRules.LoadShows` | rtl/soc/plic.sv:194-241 | A load shows the priority, threshold, pending or enable bits at its offset |

## Left out

- PipelineRefinement.PipelineRefinesSequential: runs in which a trap retires while a DIV waits in EX, which a write-back redirect does not clear (`rtl/core/core_pipeline.sv:594,635,683-685`), or in which an access younger than a trap reaches the bus; PipelineRedirect.dfy and PipelineEscape.dfy say exactly when each happens and what follows. The second takes a faulting fetch whose word looks like a DIV: MMU faults and undecoded addresses return 0 (`rtl/core/mmu.sv:657`, `rtl/soc/soc_top.sv:694-697`), the router's DECERR stub returns 0 (`rtl/mem/axi4_router_linux.sv:210-217`) and the memories here never raise RRESP, so it takes an outside AXI slave that sends data with an error, which the shim passes on (`rtl/soc/axi4_master.sv:201-202`).
- PipelineRefinement.PipelineRefinesSequential: code and faulting addresses do not change during the run (no self-modifying code, no change of translation; access and page faults alike), the CSR file is an environment, and RV32 atomics have the one width the decoder accepts.
- Pipeline: stale contents of bubbles, trap causes and values, counters and the formal tap; a stage is empty or carries its payload.
- Multicycle: trap causes and values and the commit trace's instruction word; CSR outputs and interrupt requests are inputs, and the MMU's zero-latency page-fault response during S_EXEC is seen as a response in S_MEM.
- Leaf units (ALU, immediates, multiplier, regfile) are symbolic functions; the cores see the divider as a unit of any latency whose result is the symbolic function, and Divider.dfy proves the unit itself.
- Encodings: instructions are decoded values; unused funct3 encodings behave as the code treats them, and reserved encodings the decoder does not reject are not modelled.
- Mmu.TlbHitsAreFreshWalks: covers TLB hits; requests served from a walk-result register left by an earlier request are the subject of MmuReuse.dfy, and are not always right.
- MMU responses to the core (ready, valid, data, fault) are not modelled beyond their effect on the MMU's own registers; one response per request does not hold of the MMU, since a TLB denial is not gated by request-valid (`rtl/core/mmu.sv:533,749-761`).
- Mmu.FenceRestoresSoundness: the edit is described by what it changes in the mapping (one leaf of one address space), not by the stores that make it; a walk that has followed a first-level entry edited since is not covered, since what it fills after the fence is stale.
- Csr: counters, time and identification registers read as an input and writes to them are dropped; register bits are sets, so the 32-bit width of a written value is the writer's.
- Pmp: address bits 31 and 30 of pmpaddr are ignored, as in the code; exactly one access type per check, as the MMU drives it.
- Dcache: its fault output is constantly low and is not modelled; RAM read-during-write returns the old word, as the registered reads do.
- IcacheFreshness.FetchesAreFresh: memory answers without faults, as the fault input is tied low (`rtl/soc/soc_top.sv:650`); a faulting fill, which leaves a half-written victim line valid (`rtl/cache/icache.sv:270,289-297`), is in the next-state model but in no theorem.
- FenceI.FetchesFollowFence: a FENCE.I that meets an escaped store (PipelineEscape.FenceMeetsStore) is not covered; the only writer of the memory behind the cache is the core, and its store has taken effect there once it is answered, as the write-through data cache waits for (`rtl/cache/dcache.sv:226-260`); the MMU and the address decoder appear as the word address each fetch is routed to; fetches routed elsewhere than the cache are unconstrained. The multicycle core ties the invalidate low (`rtl/soc/soc_top.sv:281`).
- AXI: single-beat transactions with fixed IDs and attributes, so those wires are not modelled; the UART slave is an unconstrained environment and its answers are passed on unexamined.
- Plic: claimed_src_q feeds debug taps only; it is modelled and nothing is proved about it.
- CLINT, UART, MMIO, boot SRAM, FPGA wrappers, the UART monitor, simulation harness and scripts are not modelled: I/O, vendor IP and tooling.
- Timing closure, reset sequencing after power-up and X-propagation are outside the model.
