# Verified models of a PowerPC emulator's MMU, timers and arithmetic cores

This project models, in Dafny, the parts of a Power Macintosh emulator whose
correctness rests on invariants rather than on any single function, and proves those
invariants.

* **The software TLB MMU** (`cpu/ppc/ppcmmu.cpp`). Instruction and data TLBs, each with a
  direct-mapped primary level and a four-way secondary level for three translation
  contexts, cache a slow reference translation: block address translation first, then
  the hashed page table, or on a 603 the software-loaded TLBs. The main theorem
  (`MmuRuns.Transparent`) says that after any run from power-up (fetches, loads, stores,
  dcbz, BAT, segment register, SDR1 and MSR writes, synchronizations, exceptions,
  tlbie, tlbld/tlbli, memory written by devices) an access that has no pending context
  change and no unflushed page table edit reaches exactly the host byte, device
  register or exception that translating afresh gives.
* **The timer queue and the virtual clock** (`core/timermanager.*`,
  `cpu/ppc/ppcexec.cpp`). A heap of references whose keys live in mutable objects,
  phase-preserving re-arming, callbacks that act on the queue and on the speed, and a
  clock that counts instructions. Over any run no timer fires early and time never goes back
  (`Scheduler.NeverEarly`, `Scheduler.Monotone`); `Scheduler.BoundedLate`,
  `Scheduler.NoneForgotten` and `Scheduler.RunExact` say exactly when lateness is bounded by two
  instruction periods, which callbacks that leave by the exception jump can break.
* **Arithmetic**: the POWER shifts through MQ composed over any number of words, Adler-32
  with deferred reduction, and the 64 by 64 to 128 bit product.

## How the model is organised

Each imperative file appears twice: as classes and loop methods that update arrays and
fields in place (`SoftTlbUnit.TlbUnit`, `MmuUnit.MmuUnit`, `TimerQueue.PriorityQueue`,
`TimerManager.Manager`, `Interpreter.Executor`, `MqShift.MqUnit`, `Adler`), and as functions
on values that say what each operation does to the whole state. The `ensures` of each method
equates its new state with the function of the old one (for the executor's events:
`Scheduler.Step`); the theorems are lemmas about the functions, so they hold of the methods.

| files | content |
|---|---|
| `Bits`, `Wrappers`, `Address` | words, optional values, page geometry, the physical address map |
| `Translation`, `Reference`, `Architecture` | the reference translation, what it guarantees, and what the architecture manual says of it |
| `SoftTlb`, `SoftTlbProofs`, `Plru`, `PlruRuns` | one two-level TLB, its invariant, its replacement policy, also over whole runs |
| `Mmu`, `MmuProofs`, `MmuAccess`, `MmuContext`, `Mmu603` | the machine and the preservation of its invariant by every operation |
| `MmuRefinement`, `MmuRuns`, `Mmu601` | equality with translating afresh, whole runs, and a run that breaks it |
| `Permissions`, `RegisterWrites` | what the guest's bits mean: protection tables, keys, MSR, and the registers it writes |
| `FreshAnswers`, `AccessOutcomes` | how accesses of every size end, exceptions included |
| `MemoryAccess`, `MemoryProofs`, `MemoryRoundTrip`, `MemoryStale`, `RamAccess`, `OwnEntry` | loads, stores and dcbz of any size and alignment, and what a store to RAM reads back |
| `SoftTlbUnit`, `MmuUnit` | the imperative form of the TLBs and of the MMU |
| `TimerSpec`, `TimerHeap`, `TimerQueue`, `TimerManager` | the timer queue |
| `VirtualClock`, `Scheduler`, `Interpreter` | the clock, runs of the polling loop, the imperative form |
| `MqShift`, `Adler`, `WideProduct` | the arithmetic cores |

The invariant of the MMU is `MmuProofs.MachineOk(m, stale)`. It holds the structure of every
set (distinct tags, tags at home, agreement between the levels, a well-formed replacement
tree), the tracking list, the bounds of every host offset, and coherence: every valid entry
whose source is not awaiting invalidation is what a fresh translation would store now. The
flag `stale` records that the page table was edited since the last flush of page
translations; page entries then promise nothing until `tlb_flush_all_pat`.

## What was found

* **601, segment registers.** On a 601 a segment with its T bit set hides the block
  translations, but `mtsr` schedules the invalidation of page translations only. Setting T
  over a segment with a live cached block translation leaves that translation in use.
  `MmuContext.WriteSrIff` gives the exact condition under which a segment register write is
  coherent, and `MmuContext.GuestSafe` a sufficient one that the guest can check;
  `Mmu601.HiddenBlockRun` is a run of four steps from power-up that ends with a load hitting
  the hidden block, while translating afresh aborts.
* **Timers, callbacks that jump.** `update_thermal` is a timer callback and raises the thermal
  exception, which leaves `process_timers` by `longjmp`. `cb_active` then stays set until a
  later callback returns: a timer added meanwhile does not notify the loop and waits for a poll
  that was scheduled without it (`Scheduler.StuckRun`, arbitrarily late). Timers that had expired
  but not yet fired wait one more instruction (`Scheduler.LeftBehindRun`). The lateness bound
  holds exactly while no jump leaves a timer overdue by more than a period and no instruction
  registers, with `cb_active` stuck, a timer that the scheduled poll does not serve in time
  (`Scheduler.RunExact`).
* **Stores into the page table.** The bytes of a crossing store are written one by one, so the
  walk of its second page can mark R or C in an entry that the store has just written.
  `MemoryRoundTrip.CrossingExact` gives the exact condition, `OwnEntry` a concrete store.
* **603, segments and VSIDs.** `tlbld` flushes cached pages by effective tag, so the proofs
  need each VSID in use to belong to one segment (`Mmu603.SegmentRule`), which operating
  systems respect.
* **tlbia** is a placeholder in `cpu/ppc/ppcopcodes.cpp`; the event `TlbInvalidateAll` is the
  internal full flush of page translations.

## Model

| member | source | states |
|---|---|---|
| Reference.BatUniform | cpu/ppc/ppcmmu.cpp:120-197 | both block translations give every byte of a page the same protection and consecutive physical addresses |
| Architecture.BlockSearch | cpu/ppc/ppcmmu.cpp:164-197 | block translation answers with the first entry whose block holds the address and whose Vs bit, or for the user Vp bit, is set, and misses exactly when there is none |
| Architecture.PpcPairMapsBlock | cpu/ppc/ppcmmu.cpp:1307-1349 | a register pair with a 2^k - 1 length field matches exactly the addresses of its block and maps them by offset onto the physical block |
| Architecture.Pair601MapsBlock | cpu/ppc/ppcmmu.cpp:1267-1300 | the same for a valid 601 pair |
| Permissions.PairAnswers | cpu/ppc/ppcmmu.cpp:1307-1327 | a well-formed register pair answers in its block exactly if bit 1 of its upper word is set, or for the user bit 0 |
| Permissions.Pair601Rights | cpu/ppc/ppcmmu.cpp:139-148 | a valid 601 pair gives, by its key (bit 3 of the upper word for the supervisor, bit 2 for the user) and PP, the rights of the page protection table |
| Permissions.BlockAccess | cpu/ppc/ppcmmu.cpp:894-899 | in an enabled block PP 0 forbids all, 1 and 3 forbid stores, 2 allows all, with the ISI and DSI values of each refusal |
| Permissions.HashedAccess | cpu/ppc/ppcmmu.cpp:389-499 | on a page the key bit (29 for the user, 30 for the supervisor) and PP give the eight-case protection table, the second word the frame; the exception of a no-execute segment, a refusal and a missing page have their own values |
| Permissions.DirectAccess | cpu/ppc/ppcmmu.cpp:397-409 | a segment with T set reaches its own 256 MB if memory-forced, and otherwise stops the emulator |
| Permissions.Access603 | cpu/ppc/ppcmmu.cpp:341-387 | on a 603 an unheld page misses with its kind, address, compare word, key and way; a held one obeys the protection table; a permitted store with C clear misses in place |
| Permissions.Accesses | cpu/ppc/ppcmmu.cpp:879-963 | fetches follow MSR[IR], loads and stores MSR[DR], contexts MSR[PR], and the cached paths answer as a fresh translation |
| Permissions.Untranslated | cpu/ppc/ppcmmu.cpp:905-907 | with translation off an address is its own physical address and everything is allowed |
| Permissions.BlockLoadStore | cpu/ppc/ppcmmu.cpp:1383-1629 | loads and stores in a block, cached or not, have the rights of its PP |
| Permissions.PageLoadStore | cpu/ppc/ppcmmu.cpp:1383-1629 | loads and stores in a page, cached or not, obey the protection table, with the exception of each refusal |
| Permissions.PageMissing | cpu/ppc/ppcmmu.cpp:424-432 | a page that the table does not hold faults with the value of the access: load, store or fetch |
| Permissions.PageFetch | cpu/ppc/ppcmmu.cpp:411-414 | a no-execute segment forbids fetches, otherwise only the lack of all rights does |
| Architecture.GroupAddress | cpu/ppc/ppcmmu.cpp:199-206 | with a k-bit mask and an aligned table the group address is the table plus 64 times the low 10 + k hash bits, inside the table |
| Reference.FindPteSpec | cpu/ppc/ppcmmu.cpp:231-274 | the walk returns the first match of the primary group, only then of the secondary one, and faults exactly when neither has one |
| Reference.VirtualPageDetermined | cpu/ppc/ppcmmu.cpp:199-235 | a group address and its matching word determine VSID, page index and hash function: the abbreviated index loses nothing |
| Reference.RefillUniform | cpu/ppc/ppcmmu.cpp:879-1012 | refilling from any address of a page stores the same entry |
| Reference.FillReaches | cpu/ppc/ppcmmu.cpp:917-996 | the offsets a refill stores address, for every byte of the page, the byte or device register that translation and the address map give |
| Address.FirstRegion | devices/memctrl/memctrlbase.cpp:100-107 | where regions of the address map overlap the first one decides |
| Reference.WritableIffStoreAllowed | cpu/ppc/ppcmmu.cpp:454-471 | the cached writable flag holds exactly when a full walk for a store would not raise the protection DSI |
| Reference.WalkEffectPreserves | cpu/ppc/ppcmmu.cpp:473-491 | the R and C updates of a walk, and the 603's replacement state, never change any later translation |
| Translation.FindPte | cpu/ppc/ppcmmu.cpp:418-432 | an entry found lies, aligned, inside host memory |
| Translation.WalkEffect | cpu/ppc/ppcmmu.cpp:341-498 | a walk changes nothing but memory bytes and the 603's replacement state, and keeps the world valid |
| SoftTlbProofs.InstallOk | cpu/ppc/ppcmmu.cpp:917-990 | filling a missing page keeps distinct tags, agreement, the replacement tree and tracking |
| SoftTlbProofs.PromoteOk | cpu/ppc/ppcmmu.cpp:718-727 | promotion keeps both levels in agreement and the tracking list exact |
| SoftTlbProofs.MarkBothOk | cpu/ppc/ppcmmu.cpp:1578-1588 | mirroring PTE_SET_C into the secondary way keeps the levels in agreement |
| SoftTlbProofs.RetainedSpec | cpu/ppc/ppcmmu.cpp:665-680 | the compacted vector holds exactly the tracked slots that survive, each once |
| SoftTlbProofs.InvalidateOk | cpu/ppc/ppcmmu.cpp:663-704 | invalidation kills every entry of the given sources and leaves every other valid entry as it was |
| SoftTlbProofs.FlushPageOk | cpu/ppc/ppcmmu.cpp:1193-1219 | a page flush kills the page translations of one tag in both contexts and nothing else |
| SoftTlbProofs.TrackedBound | cpu/ppc/ppcmmu.cpp:642-661 | the tracking list never exceeds the number of slots |
| Plru.LruMeaning | cpu/ppc/ppcmmu.cpp:813-836 | after any history of touches bit 1 says the pair was touched last, bit 0 that the way was touched after its sibling |
| Plru.FullSetBits | cpu/ppc/ppcmmu.cpp:838-876 | in a full set the bits permute 0..3, and the unchecked last branch has bits 0 |
| Plru.FirstFree | cpu/ppc/ppcmmu.cpp:838-876 | a set with room takes a new page in its first free way |
| PlruRuns.VictimIsOldest | cpu/ppc/ppcmmu.cpp:838-876 | in every state a run reaches, the victim of a full set is the less recently touched way of the less recently touched pair, never the last touched way |
| PlruRuns.ReachableRecorded | cpu/ppc/ppcmmu.cpp:813-836 | in every state a run reaches, the replacement bits of every set are exactly those left by the lookups, refills and mirrored stores of the run |
| PlruRuns.StepExtends | cpu/ppc/ppcmmu.cpp:813-1083 | every event extends the history of every set by the touches of its lookups, and context changes extend none |
| Plru.InstallRecords | cpu/ppc/ppcmmu.cpp:838-876 | a refill extends the history of its own set by the way it fills, and of no other set |
| Plru.MarkBothRecords | cpu/ppc/ppcmmu.cpp:1578-1588 | mirroring PTE_SET_C touches the way that holds the page, if one does, and no other set |
| Plru.PromoteRecords | cpu/ppc/ppcmmu.cpp:718-727 | promotion touches no way of any set |
| Plru.InvalidateRecords | cpu/ppc/ppcmmu.cpp:663-680 | invalidation touches no way of any set |
| Plru.FlushRecords | cpu/ppc/ppcmmu.cpp:1201-1206 | a page flush touches no way of any set |
| MmuProofs.FillSound | cpu/ppc/ppcmmu.cpp:917-996 | the offsets stored for a page keep all its 4096 bytes inside host memory; an instruction entry is never a device |
| MmuProofs.RefillFresh | cpu/ppc/ppcmmu.cpp:935-1000 | what a refill stores is what a fresh load translation gives in the world the refill leaves, also for the Changed flag |
| MmuProofs.LookupOrRefillOk | cpu/ppc/ppcmmu.cpp:1014-1083 | a secondary lookup with refill keeps the invariant and every translation, and leaves the page in the way it reports |
| MmuAccess.FetchOk | cpu/ppc/ppcmmu.cpp:1133-1181 | an instruction fetch keeps the invariant |
| MmuAccess.ReadOk | cpu/ppc/ppcmmu.cpp:1383-1453 | a data read keeps the invariant |
| MmuAccess.PrepareOk | cpu/ppc/ppcmmu.cpp:1085-1104 | the walk that sets C keeps the invariant, and the flag it allows is true of the page table it leaves |
| MmuAccess.WriteOk | cpu/ppc/ppcmmu.cpp:1576-1629 | a data write through either level keeps the invariant |
| MmuContext.WriteIbatOk | cpu/ppc/ppcmmu.cpp:1267-1327 | a new instruction or 601 block entry keeps the invariant: all it could shadow is pending |
| MmuContext.WriteDbatOk | cpu/ppc/ppcmmu.cpp:1329-1349 | a new data block entry keeps the invariant |
| MmuContext.WriteSdr1Ok | cpu/ppc/ppcopcodes.cpp:1105-1110 | moving the page table keeps the invariant |
| RegisterWrites.BatsWritten | cpu/ppc/ppcmmu.cpp:1307-1349 | a block register write changes that entry of that side to the block its operands describe, and nothing else |
| RegisterWrites.Bats601Written | cpu/ppc/ppcmmu.cpp:1267-1305 | on the 601 one pair sets or disables the entry of both sides, and the data pair registers do nothing |
| RegisterWrites.SegmentWritten | cpu/ppc/ppcopcodes.cpp:688-718 | a segment register or SDR1 write changes that register and nothing else |
| RegisterWrites.DbatTakesEffect | cpu/ppc/ppcmmu.cpp:1329-1349 | after the write and a synchronization a load or store in the block, and in no earlier one that answers, goes to lower / size * size + address % size with the rights of the pair |
| RegisterWrites.IbatTakesEffect | cpu/ppc/ppcmmu.cpp:1307-1327 | the same for fetches |
| RegisterWrites.Bat601TakesEffect | cpu/ppc/ppcmmu.cpp:1267-1300 | the same for fetches, loads and stores through a valid 601 pair |
| RegisterWrites.SegmentTakesEffect | cpu/ppc/ppcopcodes.cpp:688-718 | after the write and a synchronization the table is searched with the new VSID and the new key decides |
| RegisterWrites.TableTakesEffect | cpu/ppc/ppcopcodes.cpp:1105-1110 | after the write and a synchronization the groups of the new table are searched |
| RegisterWrites.ModeEvent | cpu/ppc/ppcmmu.cpp:763-817 | a change of MSR[IR], [DR] or [PR] selects the new context at once |
| RegisterWrites.WordForFields | cpu/ppc/ppcmmu.cpp:231-235 | the word searched for has V, the VSID, H and the abbreviated page index in their fields |
| RegisterWrites.HashBit | cpu/ppc/ppcmmu.cpp:418-420 | each bit of the hash is the exclusive or of those of the VSID's low 19 bits and the page index |
| MmuContext.WriteSrIff | cpu/ppc/ppcopcodes.cpp:688-718 | a segment register write keeps the invariant if and only if it does not hide a segment with a live cached block translation on a 601 |
| MmuContext.GuestSafe | cpu/ppc/ppcopcodes.cpp:688-718 | a write to a segment in which no block address register maps an address is always coherent |
| MmuContext.FlushPagesOk | cpu/ppc/ppcmmu.cpp:1183-1191 | after a full page flush earlier page table edits no longer matter |
| MmuContext.TlbieOk | cpu/ppc/ppcopcodes.cpp:2171-2191 | tlbie keeps the invariant, and earlier page table edits no longer matter |
| MmuContext.TlbieDrops | cpu/ppc/ppcmmu.cpp:1183-1191 | tlbie drops every cached page translation and leaves every other valid entry as it was |
| MmuContext.Tlbie603 | cpu/ppc/ppcmmu.cpp:1256-1265 | on a 603 tlbie disables exactly the indexed set on both sides, so that the address misses in hardware |
| MmuContext.MemoryWriteOk | cpu/ppc/ppcmmu.cpp:1702-1716 | a memory write that keeps every translation keeps the invariant; any other only makes page translations stale |
| MmuContext.ContextSyncOk | cpu/ppc/ppcopcodes.cpp:68-78 | running the registered actions keeps the invariant and leaves nothing pending |
| MmuContext.ContextSyncKills | cpu/ppc/ppcmmu.cpp:682-716 | one synchronization kills exactly the entries of all sources scheduled since the last one |
| MmuContext.TakeExceptionOk | cpu/ppc/ppcexceptions.cpp:93-119 | entering a handler keeps the invariant, settles every pending change, and leaves MSR[IR], [DR] and [PR] clear |
| Mmu603.LoadKeepsRule | cpu/ppc/ppcmmu.cpp:1221-1254 | loading an entry never leaves a set with two valid entries for one page |
| Mmu603.Load603Ok | cpu/ppc/ppcmmu.cpp:1221-1254 | tlbld and tlbli flush enough: every cached translation left is still what the 603's TLBs give |
| Mmu603.Backed | cpu/ppc/ppcmmu.cpp:341-387 | a live cached page translation on a 603 has a matching valid hardware entry with the same frame, protection and C |
| Mmu603.MissRegisters | cpu/ppc/ppcmmu.cpp:313-325 | a miss leaves the compare word and both group addresses that the hashed search of the missing page would use |
| Mmu603.MissThenLoad | cpu/ppc/ppcmmu.cpp:301-387 | loading an entry with the registers a miss left ends the miss: the page is found in the named way through the loaded word |
| Mmu603.VictimNotRecent | cpu/ppc/ppcmmu.cpp:327-361 | with both ways valid a miss never names the way that translated last |
| Mmu603.LoadedNotNext | cpu/ppc/ppcmmu.cpp:1221-1254 | after tlbld or tlbli the named way holds the loaded words, and with both ways valid the other one is due next |
| MmuRefinement.FetchRefines | cpu/ppc/ppcmmu.cpp:1133-1181 | a settled fetch answers as translating afresh does, exceptions included |
| MmuRefinement.ReadRefines | cpu/ppc/ppcmmu.cpp:1383-1478 | a settled load reaches the byte, device register or exception of a fresh translation |
| MmuRefinement.WriteRefines | cpu/ppc/ppcmmu.cpp:1554-1678 | a settled store reaches the byte, device register or exception of a fresh translation for a store |
| MmuRefinement.RefusedStore | cpu/ppc/ppcmmu.cpp:1087-1098 | a store refused by the cached flag fails afresh with the same DSISR and DAR; one allowed is allowed afresh |
| MmuRefinement.CompletedStoreChanges | cpu/ppc/ppcmmu.cpp:1576-1619 | after a completed store, whichever level served it, a fresh translation of the page finds C set |
| MmuRefinement.ChangedInTable | cpu/ppc/ppcmmu.cpp:977-981 | a live page entry with PTE_SET_C has C set in its page table entry in memory |
| MmuRefinement.FastPathInHost | cpu/ppc/ppcmmu.cpp:1407-1420 | a primary hit is host memory and its unchecked address stays inside host memory |
| MmuRuns.PowerUpOk | cpu/ppc/ppcmmu.cpp:2190-2235 | the initialised MMU, both invalidations scheduled, satisfies the invariant |
| MmuRuns.InitLoads | cpu/ppc/ppcmmu.cpp:2190-2217 | whatever the registers hold, loading all BATs into the empty machine leaves exactly the power-up state, each side scheduled once |
| MmuRuns.StepOk | cpu/ppc/ppcmmu.cpp:879-1265 | every event keeps the invariant, the 603's segment rule and the absence of twins |
| MmuRuns.RunOk | cpu/ppc/ppcmmu.cpp:879-1265 | the invariant holds throughout every allowed run |
| MmuRuns.Transparent | cpu/ppc/ppcmmu.cpp:879-1083 | after any allowed run, with nothing pending or stale, every fetch, load and store answers as translating afresh does |
| MmuRuns.SyncSettles | cpu/ppc/ppcexceptions.cpp:113-119 | after a synchronization or an exception no context change is pending |
| MmuRuns.ReachableTlb | cpu/ppc/ppcmmu.cpp:642-727 | in every reachable state both TLBs are in order and the tracking list is bounded |
| MmuRuns.ReachableBacked | cpu/ppc/ppcmmu.cpp:1195-1265 | in every reachable state of a 603 live page translations are backed and no set holds a page twice |
| Mmu601.HiddenBlockStays | cpu/ppc/ppcmmu.cpp:129-133 | from any settled state a cached block translation outlives the segment register write that hides it and the synchronization after it |
| Mmu601.HiddenBlockRun | cpu/ppc/ppcopcodes.cpp:698-701 | a concrete four-step run from power-up ends with a load that hits while translating afresh stops |
| MemoryProofs.LoadIsByteFold | cpu/ppc/ppcmmu.cpp:1725-1805 | on host memory a load of any size and alignment is the big-endian fold of byte loads of its addresses |
| MemoryProofs.StoreIsByteFold | cpu/ppc/ppcmmu.cpp:1812-1884 | on host memory a store of any size and alignment is the sequence of byte stores of its big-endian bytes |
| MemoryRoundTrip.BytesRoundTrip | cpu/ppc/ppcmmu.cpp:1830-1834 | splitting a value into bytes and folding them big-endian gives it back |
| RamAccess.StoreThenLoad | cpu/ppc/ppcmmu.cpp:1691-1717 | within a page that translates into a RAM region a load returns what was stored |
| RamAccess.StoreThenLoadAcross | cpu/ppc/ppcmmu.cpp:1822-1834 | across a boundary between two pages of RAM regions, also with one frame for both, a load returns what was stored if the bytes on the first page are outside the page table, and always on a 603 |
| RamAccess.RamReaches | cpu/ppc/ppcmmu.cpp:1576-1629 | in a settled state a page that translates into a RAM region is reached by stores, and by the loads after them, at the byte of its region |
| MemoryRoundTrip.CrossingExact | cpu/ppc/ppcmmu.cpp:1822-1834 | once both pages are reached, the crossing store reads back if and only if the walk of its second page does not mark an entry in the bytes just stored |
| MemoryRoundTrip.WriteMemory | cpu/ppc/ppcmmu.cpp:473-491 | the address path of a store changes no memory but R and C of the one entry it walks to, exactly when it walks |
| RamAccess.BlockStoreQuiet | cpu/ppc/ppcmmu.cpp:1085-1104 | a store through a block translation never walks the page table |
| RamAccess.OwnEntryFails | cpu/ppc/ppcmmu.cpp:1822-1834 | a store that leaves in place the page table entry of its own second page, with C clear, reads back something else |
| OwnEntry.StoreReadsBackOtherwise | cpu/ppc/ppcmmu.cpp:1822-1834 | a concrete machine and halfword store that completes and does not read back |
| MemoryStale.StoreOk | cpu/ppc/ppcmmu.cpp:1554-1717 | a store of any size keeps the invariant, and page translations stay fresh unless it changes a page table byte |
| MemoryStale.DcbzOk | cpu/ppc/ppcmmu.cpp:1104-1131 | dcbz keeps the invariant on memory, on devices and on unmapped pages |
| MemoryStale.LoadOk | cpu/ppc/ppcmmu.cpp:1383-1546 | a load of any size keeps the invariant |
| MemoryStale.QuietPreserves | cpu/ppc/ppcmmu.cpp:208-229 | memory changes outside the current page table keep every translation |
| FreshAnswers.WalkSteady | cpu/ppc/ppcmmu.cpp:341-498 | the updates of a walk change no fresh answer on its own page or on one of another 603 set, exceptions included |
| FreshAnswers.QuietSteady | cpu/ppc/ppcmmu.cpp:208-229 | stores outside the page table change no fresh answer, exceptions included |
| AccessOutcomes.LoadRefines | cpu/ppc/ppcmmu.cpp:1383-1546 | a load of any size and alignment ends as one that translates each byte afresh: same value, same device reads, or the exception of its first byte that faults |
| AccessOutcomes.StoreRefines | cpu/ppc/ppcmmu.cpp:1554-1717 | a store of any size and alignment ends as one that translates each byte afresh: same device writes or same exception, and the memory that the bytes before a fault leave |
| AccessOutcomes.StoreInPage | cpu/ppc/ppcmmu.cpp:1691-1717 | a store within a page of host memory always completes and writes exactly its bytes |
| AccessOutcomes.DcbzRefines | cpu/ppc/ppcmmu.cpp:1104-1131 | dcbz of an aligned block zeroes 32 bytes of host memory, leaves devices and unmapped addresses alone, or raises the exception of a store |
| AccessOutcomes.LoadEvent | cpu/ppc/ppcexceptions.cpp:93-125 | a run is in the handler after a load exactly if the fresh load faults, and nothing outside the page table is written |
| AccessOutcomes.StoreEvent | cpu/ppc/ppcexceptions.cpp:93-125 | the same after a store |
| AccessOutcomes.ZeroEvent | cpu/ppc/ppcexceptions.cpp:93-125 | the same after dcbz |
| AccessOutcomes.FetchEvent | cpu/ppc/ppcexceptions.cpp:93-125 | the same after a fetch |
| SoftTlbUnit.TlbUnit.InvalidateTracked | cpu/ppc/ppcmmu.cpp:663-680 | the in-place compaction computes exactly the invalidated slots and the retained vector, also for a slot listed twice |
| SoftTlbUnit.TlbUnit.TargetEntry | cpu/ppc/ppcmmu.cpp:838-876 | the array code picks and touches the way of the specification |
| SoftTlbUnit.TlbUnit.PromoteEntry | cpu/ppc/ppcmmu.cpp:718-727 | the in-place promotion is the promotion of the specification |
| SoftTlbUnit.TlbUnit.Fill | cpu/ppc/ppcmmu.cpp:964-990 | the in-place tail of a refill is the installation of the specification |
| SoftTlbUnit.TlbUnit.MarkMirrored | cpu/ppc/ppcmmu.cpp:1582-1588 | the in-place Changed mirroring is that of the specification |
| SoftTlbUnit.TlbUnit.SynchronizePending | cpu/ppc/ppcmmu.cpp:682-699 | the synchronization action is that of the specification |
| SoftTlbUnit.TlbUnit.FlushPatPage | cpu/ppc/ppcmmu.cpp:1193-1219 | the four in-place flushes are the page flush of the specification |
| MmuUnit.SearchBats | cpu/ppc/ppcmmu.cpp:180-194 | the search loop is the block translation of the specification |
| MmuUnit.SearchBats601 | cpu/ppc/ppcmmu.cpp:135-157 | the 601 search loop is the 601 translation of the specification |
| MmuUnit.MmuUnit.SearchGroupAt | cpu/ppc/ppcmmu.cpp:260-270 | the loop over a group returns its first matching entry |
| MmuUnit.MmuUnit.PageTranslation | cpu/ppc/ppcmmu.cpp:389-499 | the in-place walk returns the walk of the specification and leaves its R, C and replacement updates |
| MmuUnit.MmuUnit.RefillSecondary | cpu/ppc/ppcmmu.cpp:879-1012 | the in-place refill is the machine's refill |
| MmuUnit.MmuUnit.TranslateImem | cpu/ppc/ppcmmu.cpp:1133-1181 | the in-place fetch path is the machine's fetch |
| MmuUnit.MmuUnit.ReadVmem | cpu/ppc/ppcmmu.cpp:1383-1546 | the in-place load is the machine's load |
| MmuUnit.MmuUnit.WriteVmem | cpu/ppc/ppcmmu.cpp:1554-1717 | the in-place store is the machine's store |
| MmuUnit.MmuUnit.ReadUnaligned | cpu/ppc/ppcmmu.cpp:1744-1755 | the bytewise read loop is the fold of byte loads, ending at the first fault |
| MmuUnit.MmuUnit.WriteUnaligned | cpu/ppc/ppcmmu.cpp:1832-1834 | the bytewise write loop is the sequence of byte stores, ending at the first fault |
| MmuUnit.MmuUnit.ZeroCacheLine | cpu/ppc/ppcmmu.cpp:1104-1131 | the in-place dcbz is the machine's dcbz |
| MmuUnit.MmuUnit.SyncContext | cpu/ppc/ppcopcodes.cpp:68-74 | the action loop is the machine's synchronization |
| MmuUnit.MmuUnit.UpdateIbat | cpu/ppc/ppcmmu.cpp:1267-1327 | the in-place block register update is the machine's |
| MmuUnit.MmuUnit.UpdateDbat | cpu/ppc/ppcmmu.cpp:1302-1349 | the in-place data block register update is the machine's; the 601 has none |
| MmuUnit.MmuUnit.MoveToSr | cpu/ppc/ppcopcodes.cpp:697-701 | the segment register write is the machine's; an unchanged value changes nothing |
| MmuUnit.MmuUnit.MoveToSdr1 | cpu/ppc/ppcopcodes.cpp:1105-1110 | the SDR1 write is the machine's |
| MmuUnit.MmuUnit.ScheduleInvalidation | cpu/ppc/ppcmmu.cpp:701-716 | requests are merged and only the first one registers an action |
| MmuUnit.MmuUnit.FlushAllPat | cpu/ppc/ppcmmu.cpp:1183-1191 | the two in-place invalidations are the machine's full page flush |
| MmuUnit.MmuUnit.InvalidateEntry | cpu/ppc/ppcopcodes.cpp:2171-2191 | tlbie in place is the machine's tlbie |
| MmuUnit.MmuUnit.EnterHandler | cpu/ppc/ppcexceptions.cpp:113-119 | entering a handler synchronizes and leaves translation off |
| MmuUnit.MmuUnit.WriteAddress | cpu/ppc/ppcmmu.cpp:1576-1629 | the in-place store path reaches the machine's address and leaves its state |
| MmuUnit.MmuUnit.LookupSecondary | cpu/ppc/ppcmmu.cpp:1014-1043 | the in-place secondary lookup with refill is the machine's |
| MmuUnit.MmuUnit.LoadTlb603 | cpu/ppc/ppcmmu.cpp:1221-1254 | the in-place entry load is the machine's |
| MmuUnit.MmuUnit.constructor | cpu/ppc/ppcmmu.cpp:2190-2235 | initialisation establishes the power-up state |
| TimerSpec.RearmedLeast | core/timermanager.cpp:100-113 | re-arming finds the least deadline after now congruent to the old one modulo the interval |
| TimerSpec.ProcessMeaning | core/timermanager.cpp:81-139 | a pass fires exactly the expired timers, each once, in ascending (deadline, id) order, re-arms cyclic ones past now, and returns the minimum remaining deadline or 0 |
| TimerHeap.RootFirst | core/timermanager.h:102-109 | no element of a heap comes before its root |
| TimerQueue.SiftUp | core/timermanager.h:72-76 | pushing restores the heap on a permutation of the elements |
| TimerQueue.SiftDown | core/timermanager.h:62-68 | sinking restores the heap below a node on a permutation of the elements |
| TimerQueue.MakeHeap | core/timermanager.h:62-68 | rebuilding gives a heap on a permutation of the elements |
| TimerQueue.RootIsTop | core/timermanager.h:50-70 | the root of the backing vector is the queue's first timer by (deadline, id) |
| TimerQueue.PriorityQueue.RemoveById | core/timermanager.h:53-70 | removal by identity removes exactly that timer, reports whether it was queued, and keeps the heap |
| TimerQueue.PriorityQueue.Pop | core/timermanager.h:78-84 | pop removes and returns the first timer |
| TimerManager.Manager.AddAbsoluteTimer | core/timermanager.cpp:33-50 | adding an inactive timer queues it once, flags it and notifies unless a callback is running |
| TimerManager.Manager.CancelTimer | core/timermanager.cpp:72-79 | cancelling removes the timer, clears its flag and keeps the queue in order |
| TimerManager.Manager.FireTop | core/timermanager.cpp:95-122 | one round fires the first timer with its old deadline and re-arms or retires it while it is off the queue |
| TimerManager.Manager.CancelAllTimers | core/timermanager.cpp:141-150 | everything is off the queue and inactive |
| VirtualClock.SetTimeExact | cpu/ppc/ppcexec.cpp:377-391 | setting the virtual time is exact under any period |
| VirtualClock.SpeedContinuous | cpu/ppc/ppcexec.cpp:428-455 | virtual time is unchanged by both speed keys |
| VirtualClock.KeysMove | cpu/ppc/ppcexec.cpp:428-455 | each key moves the factor by one within 0..31 and keeps the period exact for it; the increment key doubles the period up to rounding, the decrement key halves it |
| VirtualClock.OwnSpeed | cpu/ppc/ppcexec.cpp:428-432 | at factor 4 the period is the machine's own |
| Scheduler.RunSpeed | cpu/ppc/ppcexec.cpp:428-455 | in every state of a run the factor is in range and the period p is the one with 16 p <= base * 2^factor < 16 (p + 1), or 1 |
| Scheduler.EmptyPoll | cpu/ppc/ppcexec.cpp:413-416 | with no timer queued the next poll comes half a millisecond later, up to two periods |
| VirtualClock.CyclesLand | cpu/ppc/ppcexec.cpp:413-419 | the cycle count for a deadline lands after it by at most one period and lies ahead of the counter |
| Scheduler.PassTimely | core/timermanager.cpp:81-139 | with arbitrary callbacks a pass fires only due timers; unless one jumps only timers still to come are left; cb_active stays set exactly after a jump, or if it was stuck and nothing fired |
| Scheduler.SilentPass | core/timermanager.cpp:119-135 | with callbacks that do nothing the pass is the plain processing of the queue, firing for firing |
| Scheduler.StepExact | cpu/ppc/ppcexec.cpp:502-520 | from a good state every instruction, exception and sleep round fires nothing early and nothing later than two periods, and leaves a good state if and only if it respects two checkable conditions |
| Scheduler.Undisturbed | core/timermanager.cpp:119-124 | with cb_active clear an event without a jump respects them and leaves cb_active clear |
| Scheduler.ServedExact | cpu/ppc/ppcexec.cpp:502-505 | a state is good if and only if idling from it serves every timer due by the next poll within two periods |
| Scheduler.IdlePollFires | cpu/ppc/ppcexec.cpp:395-420 | idling polls at the predicted time and fires exactly the timers due by then |
| Scheduler.SleepOk | cpu/ppc/ppcexec.cpp:508-519 | a sleep skip lands past the next deadline by at most one period |
| Scheduler.AddedFires | core/timermanager.cpp:95-117 | a timer added without an interval fires once, one with an interval stays queued with it at the least later deadline in phase; cancelling undoes adding |
| Scheduler.NeverEarly | cpu/ppc/ppcexec.cpp:395-520 | over any run, jumps included, no timer fires before its deadline |
| Scheduler.BoundedLate | cpu/ppc/ppcexec.cpp:395-520 | while the events of a run respect the conditions, each timer fires within two instruction periods of the later of its deadline and its registration |
| Scheduler.RunExact | cpu/ppc/ppcexec.cpp:395-520 | the events of a run respect the conditions if and only if from each of its states idling serves every timer within two periods |
| Scheduler.JumpFree | core/timermanager.cpp:81-139 | a run in which no callback jumps respects them throughout |
| Scheduler.StuckRun | cpu/ppc/ppcexceptions.cpp:121-125 | a run in which a callback jumps, cb_active stays set, and a timer added afterwards fires arbitrarily late |
| Scheduler.LeftBehindRun | cpu/ppc/ppcexceptions.cpp:121-125 | a run in which a jump leaves an expired timer behind that then fires three periods late |
| Scheduler.NoneForgotten | cpu/ppc/ppcexec.cpp:395-520 | while the events respect the conditions no queued timer is ever more than one period overdue |
| Scheduler.Monotone | cpu/ppc/ppcexec.cpp:368-375 | virtual time never decreases over any run |
| Interpreter.Executor.IncrementIcntFactor | cpu/ppc/ppcexec.cpp:434-443 | the key raises the factor by one up to 31, never shrinks the period, leaves the virtual time and asks for a poll |
| Interpreter.Executor.DecrementIcntFactor | cpu/ppc/ppcexec.cpp:445-455 | unless the factor is 0 the key lowers it by one, never grows the period, leaves the virtual time and asks for a poll |
| Interpreter.Executor.SetVirtTimeNs | cpu/ppc/ppcexec.cpp:377-391 | the counter and the offset are set so that the clock shows the given time |
| Interpreter.Executor.RunCalls | core/timermanager.cpp:33-79 | any calls of an instruction or a callback leave the specified queue, speed and notification |
| Interpreter.Executor.InvokeTop | core/timermanager.cpp:95-124 | one round fires the first timer, runs its callback and clears cb_active unless the callback jumps |
| Interpreter.Executor.ProcessTimers | core/timermanager.cpp:81-139 | the loop with arbitrary callbacks reaches the state of the specified pass, invokes its callbacks in order and returns the next deadline |
| Interpreter.Executor.ProcessEvents | cpu/ppc/ppcexec.cpp:395-420 | with arbitrary callbacks it leaves the specified state, cycle limit and firings |
| Interpreter.Executor.Instruction | cpu/ppc/ppcexec.cpp:502-505 | an instruction leaves the state of the scheduler's step and invokes its callbacks in order |
| Interpreter.Executor.Exception | cpu/ppc/ppcexec.cpp:559-567 | an instruction that leaves by the exception jump leaves the state of the scheduler's step |
| Interpreter.Executor.SleepRound | cpu/ppc/ppcexec.cpp:508-519 | a round of the sleep loop, waking or not, leaves the state of the scheduler's step |
| MqShift.Masks | cpu/ppc/poweropcodes.cpp:33-37 | the masks the shifts ask for are the high and the low bits of a word |
| MqShift.LongShiftLeftExact | cpu/ppc/poweropcodes.cpp:379-442 | sliq then slliq (sle then sleq) over words from low to high shift the long number left, for any length and n below 32 |
| MqShift.LongShiftRightExact | cpu/ppc/poweropcodes.cpp:539-623 | sriq then srliq, and sre then sreq, over words from high to low divide the long number by the power of two |
| MqShift.LongShiftRightAlgebraicExact | cpu/ppc/poweropcodes.cpp:492-508 | started with sraiq the composition divides the two's complement number, rounding down |
| MqShift.CarryMeansRounded | cpu/ppc/poweropcodes.cpp:498-502 | XER[CA] of sraiq is set exactly for a negative word that loses ones |
| MqShift.MqUnit.Slliq | cpu/ppc/poweropcodes.cpp:379-445 | as every handler: the result and MQ are those of its shift function, about which the theorems above are, and the record form sets CR0 by the sign of the result and XER[SO] |
| MqShift.MqUnit.Sreq | cpu/ppc/poweropcodes.cpp:581-593 | the handler computes the same function as srliq |
| Adler.Adler32Slow | machines/machinefactory.cpp:104-112 | the bytewise loop computes the checksum of RFC 1950 |
| Adler.Adler32 | machines/machinefactory.cpp:114-150 | the unrolled, deferred loop computes the same checksum for every buffer |
| Adler.Do1 | machines/machinefactory.cpp:117-121 | each step keeps both sums right modulo 65521 and within 64 bits |
| Adler.LimitExact | machines/machinefactory.cpp:117-138 | from reduced sums the unreduced ones stay within a bound, which bytes 0xFF attain |
| Adler.ChunkTight | machines/machinefactory.cpp:124-138 | no chunk overflows 64 bits from any reduced sums, and bytes 56 longer do from the largest ones |
| WideProduct.Mul32High32Exact | core/mathutils.h:27-33 | the first form loses no carry |
| WideProduct.Mul32Low32Exact | core/mathutils.h:35-41 | the second form loses no carry |
| WideProduct.Mul64x64Exact | core/mathutils.h:43-49 | the 64 by 64 multiply returns the exact 128-bit product |

## Left out

- Little-endian and munged addresses, memory controller swap mode, the integrity checks, the
  debugger's accesses, DMA mapping, profiling and logging: conditional builds and wrappers.
- The memory of the last page table region in `calc_pteg_addr`: the model looks the region up
  each time, which agrees when the host regions of the fixed address map do not overlap.
- The layout of the arrays: one slot number holds the primary entry and the four ways of the
  same index, where the code has separate arrays; a slot's identity is what matters to tracking.
- ITLB entries: the code leaves their write offset untouched; the model stores the read offset
  there, which no fetch uses.
- Devices: reads answer through a parameter, writes are listed in the outcome of a store; a
  device that itself edits memory is the event `MemoryEdit`.
- Aborts of the emulator end an access with the outcome `Crashed`; a run then simply goes on
  from the state reached, and nothing is claimed about the host process.
- The 603 miss registers carry the compare word, both group addresses, key and way; CR0 in SRR1
  and the TGPR register bank are not modelled, nor is the privilege check of the system
  instructions, which raises an exception before any MMU state is touched.
- The power-saving modes of `mtmsr` are an instruction whose sleep loop is the event `Sleep`.
- Real-time mode, the host clock, mutexes and the audio thread; 64-bit wrap-around of
  virtual nanoseconds and of the shifted period, which need centuries or absurd periods.
- The physical arrangement that the C++ library's heap functions choose: the model sifts in
  place, and every statement is about the heap order and the set of queued timers.
- The callbacks of a pass and their calls are given to `Interpreter.Executor.ProcessTimers` as a list,
  so the model does not say which callback a timer has; a pass whose callbacks add expired timers
  for ever has no such list.
- `add_oneshot_timer`, `add_immediate_timer` and `add_cyclic_timer`: thin wrappers that compute the
  deadline for `add_absolute_timer`.
- `sllq`, `srlq`, `slq`, `srq`, `sraq`, `srea` and the rotate-insert forms, `power_mul` and `power_div`: no
  part in the composed shifts, and their overflow flags are outside this model.
