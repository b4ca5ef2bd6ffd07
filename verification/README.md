# A verified model of the BCM55030 emulator's core

This project models the four state machines at the heart of the emulator and proves what they promise, for every
input, every layout and every run:

1. **Memory** (`DCache`, `Replacement`, `ICache`, `Memory`, `Coherence`, `Refinement`, `MemoryRuns`, `UncachedPort`,
   `FetchPort`): the two-way write-back data cache, the direct-mapped instruction cache and the SRAM behind them, proved
   against a flat big-endian byte array, cached and uncached.
2. **Bus timing** (`Timing`, `PollLoop`, `PollRun`, `Deadlock`, `CachedPoll`, `NoHang`, `Progress`): the single-slot
   fixed-priority bus, the run-ahead fetch engine and the stalling backend, with the verdict on the poll loop (hang, pass
   or timeout, each with its exact cycle).
3. **CPU control** (`Registers`, `Cpu`, `Interrupts`, `ZeroLoop`, `SteppedLoop`, `Timers`, `Spin`, `Verdicts`,
   `SpinLoop`): two-level interrupts, delay slots, zero-overhead loops, fractional-rate timers, and the spin detector
   with its verdicts and its watchdog fast-forward.
4. **Supporting cores** (`Alu`, `Branches`, `Decoder`, `Encoding`, `Analysis`, `BscI2c`): results, flags and conditions,
   control transfers, the decoder as the inverse of encoding and its reading footprint, the MMIO-history run detectors and
   the I2C burst protocol.

Components the source updates in place are classes whose methods are proved equal to specification functions
(`Timing.Cycle`, `MemorySystem.Stored`, `CpuModel.Stepped`, ...); the theorems are about those functions.
Cycle and instruction counters are unbounded; every 32-bit quantity that can wrap goes through `Words.Wrap`, as in a
release build. `dccm_base` is 0 and the SRAM size a multiple of 32. The machine holds the bank's interrupt lines and the
prescaler of its tick, which takes over the UART's line; of the peripherals behind the bank a step sees the `Env`: the
UART's request, the NCO vector table and the flash image.

## What the proofs found

- The poll-loop hang has a second cause beside a set collision: a starvation window shorter than the cold fills the
  first load must sit through (`W < e F - 1`, with e = 1 for a front end that quiesces under a stall, else the run-ahead
  up to n). For a loop whose lines do not collide, or a front end that sees all of them, the two together are the exact
  condition (`Deadlocks.DeadlockDichotomy`).
- The `Hung` verdict looks at the bank's `irq_pending`, which is the UART's line at the bank's last tick, up to 63 steps
  old; the interrupt poll looks at the UART itself. So a halt is wrong if and only if a deliverable UART request is up
  and newer than that tick (`SpinVerdicts.HungMissesOnlyANewRequest`). `SpinVerdicts.HungCanBeWrong` is such a run: 63
  steps of `b .`, a byte injected, and the 64th step halts a CPU that would have taken the line.
- Every round of a zero-overhead loop around one instruction retires at the same PC, which satisfies the spin test. On a
  CPU nothing can wake, the instruction behind the loop runs if and only if the detector's tally allows the max(n, 1)
  visits, 64 from a fresh detector (`SpinOnHardwareLoops.OneInstructionLoopEndsIff`); with a watchdog armed the loop is
  reset while still making progress (`SpinOnHardwareLoops.OneInstructionLoopFate`). Longer bodies are never stopped
  (`SteppedLoops.SteppedLoopRunsExactly`).
- The fast-forward lands on a state ordinary ticks pass through exactly when COUNT is below LIMIT or about to wrap. A
  comment in the source calls the skip indistinguishable. It skips a timer line if and only if an enabled timer, either
  of them, is due before the reset (`Timers.FastForwardSkipsALine`), and it is faithful to the spinning CPU if and only
  if at no step before the reset the lowest pending line is deliverable (`SpinVerdicts.FastForwardIsFaithful`).
- `MOV_S` to the high register 62 fetches a long immediate and makes no use of it (`Decoder.Footprint16`).
- Disabling the data cache does not lose its dirty lines, as a comment says: they are hidden and come back
  (`MemoryRuns.DisableOnlyHides`). The datapath's own line invalidate does lose them, whatever IM says
  (`Refinement.DiscardEffect`). A warm reboot leaves lines the old firmware dirtied in the SRAM above the flash image
  (`Refinement.WarmRebootLeavesDirtyLines`).

## Model

| member | source | states |
|---|---|---|
| Timing.ContentionBus.Tick | src/timing.rs:260-273 | The in-place slot refines `Ticked`, the bus of the verdict theorems, whose timing TransactionTakesItsCycles states |
| Timing.TransactionTakesItsCycles | src/timing.rs:260-273 | A grant of r cycles holds the slot and completes on its r-th tick, never earlier |
| Timing.ContentionBus.Arbitrate | src/timing.rs:283-321 | The in-place slot refines `Arbitrated`: a busy slot grants nothing, a free one goes to the fetch before the load, and a preempted load leaves the preempting line behind |
| Timing.MiniCore.FetchRequest | src/timing.rs:546-580 | The loop over growing vectors refines `Scan`, whose answers ScanFinds and ScanQuiesces characterise |
| Timing.MiniCore.AdvanceFetchPointer | src/timing.rs:585-592 | The loop refines `Advanced`, stopping at the first absent line or after 8 steps |
| Timing.MiniCore.RedirectFetch | src/timing.rs:712-720 | Refines `Redirected`: the fetch pointer goes back to a branch target only if that is absent |
| Timing.MiniCore.WaitOneCycle | src/timing.rs:597-659 | Tick, arbitration and starvation count refine `Waited`; the verdict falls exactly when an ungranted load has waited longer than the window |
| Timing.MiniCore.RetireOne | src/timing.rs:661-698 | Refines `Retired`: at most one resident instruction, and a pass exactly at the target iteration |
| Timing.MiniCore.Run | src/timing.rs:596-705 | The cycle loop over the fields returns the outcome `RunFrom` gives, the one DeadlockDichotomy decides |
| PollLoop.CollisionIsWithTheHotLine | src/timing.rs:722-724 | With at most 128 cold lines, some two loop lines share a set if and only if the hot line shares one with a cold line |
| PollLoop.DecodeAt | src/timing.rs:397-432 | Each PC of the cyclic path decodes to its kind, and its predicted successor is the next PC of the path |
| PollLoop.CollisionKeepsALineOut | src/cache.rs:489-496 | No cache state holds two loop lines that share a set |
| PollLoop.ScanQuiesces | src/timing.rs:546-580 | The scan falls silent from anywhere on a resident loop |
| PollLoop.ScanFinds | src/timing.rs:546-580 | From any line of the path the scan finds the first missing loop line that the run-ahead reaches |
| PollLoop.ScanReports | src/timing.rs:546-580 | The same from the first PC of a line with nothing met yet: the request the fetch engine makes |
| PollLoop.ScanReportsNothing | src/timing.rs:546-580 | With as many cold lines resident as the run-ahead allows it asks for nothing, though later lines are missing |
| PollRuns.StarvesToDeadlock | src/timing.rs:636-659 | A starving load hangs if two lines in sight of the fetch engine share a set, at the exact cycle its window runs out; the diagnosis names the load and, if the window outlasts the fill under way, a loop line that preempted it |
| PollRuns.FillsOutlastWindow | src/timing.rs:636-659 | Cold fills longer than the window hang the load too, at the exact cycle |
| PollRuns.PassesFromLoad | src/timing.rs:655-698 | From a granted load, `left` more iterations of the resident loop take exactly their period each |
| Deadlocks.CapOnlyCuts | src/timing.rs:597-598 | A smaller cycle cap turns a later verdict into a timeout at the cap and changes no earlier one |
| Deadlocks.LagEnds | src/timing.rs:596-705 | A backend that runs behind the fills catches up after exactly the longer of its own way and that of the fills, whatever line it waits at |
| Deadlocks.DeadlockDichotomy | src/timing.rs:546-705 | The verdict for every cap, every run-ahead of at least 2 and both stall policies. When two lines in sight of the stalled front end collide, or the window is shorter than the e fills before the first load: deadlock at cycle F + W + 2 with no iteration done. Otherwise, unless lines out of its sight collide: pass at (e + 1) F + k (2 n + 3 + M) - 1 and the cycles the other n - e fills are late |
| Deadlocks.ContendedIsDecided | src/timing.rs:546-705 | For a front end that sees the whole loop nothing is left open: e = n, any collision hangs it, and nothing is late |
| NoHangs.RestrainedFetchNeverHangs | src/timing.rs:546-572 | A front end that quiesces under a stall, or runs at most one line ahead, never deadlocks with a window of F - 1 (2 F - 1), for any program, load and count |
| NoHangs.QuiescingVerdict | src/timing.rs:549-553 | For a quiescing front end that bound is exact: it deadlocks if and only if the window is below F - 1 |
| CachedPolls.AnsweredPollPasses | src/timing.rs:680-698 | A load the D-cache answers costs its own cycle: every collision-free loop on a front end that runs ahead passes at exactly F + 1 + max(2 n + 2, n F + 1) + (k - 1) (2 n + 3) cycles |
| PollProgress.UnstarvedPasses | src/timing.rs:546-705 | Progress in every layout, colliding lines or not: with the D-cache answering the load, or a front end that quiesces under a stall or runs at most one line ahead (and the window that takes), the run passes within a bound, for every run-ahead |
| PollProgress.PassBoundIs | src/timing.rs:546-705 | That bound in figures |
| PollProgress.DcacheOnlySavesSramPolls | src/timing.rs:527-529 | With the D-cache on, an SRAM poll of any program never deadlocks and in every layout passes; every MMIO poll ends exactly as with it off |
| PollProgress.FetchFollowsTheBranch | src/timing.rs:707-720 | After a taken branch to an absent line the fetch engine asks for that line next; to a resident one, for what it would have asked for anyway |
| DataCache.DCache.WriteByte | src/cache.rs:187-196 | Refines `Written`, of which Coherence proves that it changes one byte of one line and dirties it |
| DataCache.DCache.RrVictim | src/cache.rs:150-159 | An invalid way is preferred and does not move the counter; otherwise the counter names the victim and moves on |
| Replacement.ReplacementIsFifo | src/cache.rs:147-228 | After any run of hits, misses and writes from a fresh cache the lines resident in a set are exactly the last two to have missed in it |
| Replacement.WaysAlternate | src/cache.rs:147-159 | With line invalidates anywhere in between, the k-th miss in a full set displaces way (k - 1) mod 2 |
| Replacement.InvalidatingRefreshes | src/cache.rs:233-250 | DC_IVDC leaves such a fresh cache, lines and counters |
| DataCache.DCache.FillLine | src/cache.rs:202-228 | Refines `Filled`: the line is resident and clean, and a dirty victim is handed back rather than lost |
| DataCache.DCache.InvalidateLine | src/cache.rs:262-280 | Refines `Invalidated`: the line goes, and only with IM set is a dirty one handed back |
| DataCache.DCache.DmaSramOverwrite | src/cache.rs:297-306 | A clean line goes and a dirty one stays, saying which; DmaEffect builds on it |
| DataCache.DCache.InvalidateAll | src/cache.rs:233-250 | The nested loop empties the array and hands back exactly the dirty lines (IM set) or none |
| DataCache.DCache.WriteDcCtrl | src/cache.rs:316-321 | Only the writable bits are kept, they decide enable, IM and LM, and the lines are not touched |
| Replacement.ControlBits | src/cache.rs:308-321 | By bit number: bit 0 disables, 6 is IM, 7 is LM; bits 3, 4 and above 7 read back as 0 |
| Replacement.ResetDecodes | src/cache.rs:84-95 | The register's reset value decodes to the reset state |
| InstructionCache.FillEffect | src/cache.rs:489-496 | A fill makes its line resident, evicts whatever shared its set and leaves every other address alone |
| MemorySystem.Memory.WritebackLine | src/memory.rs:770-782 | The byte loop puts exactly the 32 bytes of the line into SRAM |
| MemorySystem.Memory.EnsureCacheLine | src/memory.rs:784-795 | Refines `Ensured`, which EnsuredIsCoherent proves invisible to the CPU |
| MemorySystem.Memory.ReadByteData | src/memory.rs:909-925 | Refines `Loaded` for one byte, which LoadRefines ties to the flat array |
| MemorySystem.Memory.ReadHalfData | src/memory.rs:927-959 | Refines `Loaded`, which LoadRefines ties to the flat array; after the fill the bytes are present, so the unwraps cannot fail |
| MemorySystem.Memory.ReadWordData | src/memory.rs:961-1011 | The same for words, the four bytes lying in one line because the address was aligned down |
| MemorySystem.Memory.WriteByteData | src/memory.rs:1013-1026 | Refines `Stored` for a byte: StoreRefines ties what the CPU then sees to the flat array, and UncachedAccess what SRAM then holds |
| MemorySystem.Memory.WriteHalfData | src/memory.rs:1028-1047 | Refines `Stored` for a half-word: StoreRefines ties what the CPU then sees to the flat array, and UncachedAccess what SRAM then holds |
| MemorySystem.Memory.WriteWordData | src/memory.rs:1049-1072 | Refines `Stored` for a word: StoreRefines ties what the CPU then sees to the flat array, and UncachedAccess what SRAM then holds |
| MemorySystem.Memory.DcacheInvalidateAll | src/memory.rs:1109-1119 | Refines `AllInvalidated`, which InvalidateAllEffect describes byte by byte |
| MemorySystem.Memory.DcacheInvalidateLine | src/memory.rs:1121-1131 | Refines `LineInvalidated`, which InvalidateLineEffect describes |
| MemorySystem.Memory.DatapathInvalidate | src/memory.rs:725-729 | Refines `LineDiscarded`, which DiscardEffect describes |
| MemorySystem.Memory.LoadBinary | src/memory.rs:380-385 | The image lands in SRAM behind the cache, as ImageThenInvalidate takes it |
| MemorySystem.Memory.DatapathWrite | src/memory.rs:687-724 | The copy and the line-stepping sweep refine `DmaWritten`, which DmaEffect describes byte by byte |
| MemorySystem.Memory.FetchHalf | src/memory.rs:1197-1228 | Refines `HalfFetched`, whose value FetchReturnsSram determines |
| MemorySystem.Memory.FetchWord | src/memory.rs:1230-1275 | Refines `WordFetched`, which WordIsTwoHalves and FetchReturnsSram determine |
| Coherence.EnsuredIsCoherent | src/memory.rs:784-795 | A miss with its fill, eviction and write-back keeps coherence and changes no byte the CPU sees |
| Refinement.LoadRefines | src/memory.rs:909-1011 | A cached load, or an uncached one no dirty line hides SRAM from, returns what the flat array holds |
| Refinement.StoreRefines | src/memory.rs:1013-1072 | A store of any width, alignment and caching mode does to the CPU's view what it does to the flat array, dirty lines included |
| Refinement.ValueRoundTrip | src/memory.rs:989-1072 | Reading back the big-endian bytes of a stored value gives the value cut to the width |
| Refinement.InvalidateAllEffect | src/cache.rs:233-250 | DC_IVDC overlays SRAM by exactly the dirty lines with IM set and leaves it alone without; the view becomes SRAM |
| Refinement.InvalidateAllFlushes | src/memory.rs:1109-1119 | With IM set it is invisible to the CPU and SRAM becomes the old view |
| Refinement.InvalidateLineEffect | src/memory.rs:1121-1131 | DC_IVDL: invisible with IM set, falls back to SRAM on that line without |
| Refinement.DiscardEffect | src/memory.rs:725-729 | The datapath's invalidate drops a dirty line whatever IM says |
| Refinement.DmaSweptLine | src/memory.rs:698-724 | The sweep drops exactly the clean lines from the first covered line to the last |
| Refinement.DmaEffect | src/memory.rs:687-724 | After a DMA write the view is the new byte in range except under dirty lines, and the old view everywhere else |
| Refinement.ImageThenInvalidate | src/memory.rs:380-385 | Loading an image and invalidating with IM set gives the image overlaid by exactly the lines that were dirty |
| Refinement.WarmRebootLeavesDirtyLines | src/cpu/mod.rs:278-295 | After a warm reboot the flash image is intact and, with IM set, old dirty lines survive above it |
| MemoryRuns.EveryStepKeepsCoherence | src/memory.rs:687-1131 | Every data-port, control, invalidate and DMA operation keeps: no line held twice, tags inside SRAM, clean lines equal to SRAM, counters below 2 |
| MemoryRuns.DataPortRefinesFlatMemory | src/memory.rs:880-1072 | Over any run of loads, stores, enables, disables and flushes, every load that sees the cache returns what the flat array returns, and the final views are equal |
| MemoryRuns.ResetRefines | src/cache.rs:85-95 | The reset state refines its SRAM image |
| MemoryRuns.DisableOnlyHides | src/memory.rs:1080-1107 | A cached store is out of sight while the cache is off and back when it is on |
| UncachedPort.FlatStoreIsBigEndian | src/memory.rs:1013-1072 | The flat array's stores, byte by byte in arithmetic: big-endian, low address bits dropped per width, every other byte kept |
| UncachedPort.FlatLoadIsBigEndian | src/memory.rs:909-1011 | Its loads likewise, failing exactly outside the array |
| UncachedPort.UncachedAccess | src/memory.rs:583-645 | A `.di` access, or any with the cache off, works on SRAM itself as on a flat array, whatever lines are cached, dirty or not |
| UncachedPort.UncachedReadBack | src/memory.rs:1013-1072 | So a `.di` load returns what a `.di` store just wrote |
| UncachedPort.SramHoldsWhatWasDeposited | src/memory.rs:687-1131 | Every byte of SRAM after any operation is what an uncached store or a DMA write put there, or that of a dirty line the operation drove out of the cache, or unchanged |
| UncachedPort.UncachedLoadsReturnTheDeposits | src/memory.rs:687-1131 | Over any run of all operations, SRAM is those deposits and every uncached load returns them |
| FetchPort.WordIsTwoHalves | src/memory.rs:1230-1275 | In any I-cache state a word fetch is its two half fetches, straddling or not, and leaves the same cache |
| FetchPort.FetchReturnsSram | src/memory.rs:1166-1275 | While resident lines match SRAM (as after IC_IVIC) every fetch returns SRAM and keeps it so |
| FetchPort.FetchVerdict | src/memory.rs:1166-1275 | A fetch fails exactly at an odd address, as misaligned, and past the end of SRAM, as out of range, a straddling word included |
| FetchPort.FlushedCodeIsFetched | src/memory.rs:1109-1153 | After any plain run of stores, DC_IVDC with IM and then IC_IVIC make every later fetch return what was stored |
| Alu.CompareDecides | src/executor/alu.rs:66-72 | CMP, RCMP, MAX and MIN leave flags on which each condition decides the signed or unsigned comparison it names |
| Alu.AddedValue | src/executor/alu.rs:53-65 | Result and carry are the exact sum; overflow is set exactly when the signed sum leaves 32 bits |
| Alu.SubtractedValue | src/executor/alu.rs:66-82 | Result and borrow are the exact difference; overflow likewise; N differs from V exactly when the signed difference is negative |
| Alu.ResultsAre | src/executor/alu.rs:51-140 | The result of each operation, as an arithmetic expression of its operands mod 2^32 |
| Alu.ShiftedResultsAre | src/executor/alu.rs:142-156 | ADD1 to ADD3 and SUB1 to SUB3 scale the second operand by 2, 4 and 8 |
| Alu.BoundsAre | src/executor/alu.rs:87-100 | MAX and MIN deliver an operand that bounds both as signed numbers |
| Alu.FlagsAreThoseOf | src/executor/alu.rs:102-156 | Exchanged and shifted forms set the flags of the plain operation on what is added or subtracted |
| Alu.FlagsOfMovAndBtst | src/executor/alu.rs:29-46 | MOV and BTST set Z and N, of the operand and of the bit tested, and keep C and V |
| Alu.SignsAfterAdd | src/executor/alu.rs:53-57 | After an addition each flag condition says what it names of the exact sum |
| Alu.MultiLimbAdd | src/executor/alu.rs:53-65 | ADD.F then ADC.F over any number of limbs is the exact sum with its final carry |
| Alu.MultiLimbSubtract | src/executor/alu.rs:66-82 | SUB.F then SBC.F is the exact difference with its final borrow, and CS and LT decide the unsigned and signed comparison of the whole numbers |
| Registers.StatusRoundTrip | src/cpu/registers.rs:313-344 | Packing STATUS32 and unpacking it gives back all thirteen bits |
| Registers.StatusBitsAre | src/cpu/registers.rs:313-327 | Which bit is which, from H in bit 0 to L in bit 12, and nothing above |
| Registers.RegisterAccess | src/cpu/registers.rs:347-397 | r29 and r30 are closed to user mode, r61 is none, r62 reads 0 and swallows writes, r63 is the longword of the PC and read-only; a write changes its register alone |
| CpuModel.Cpu.ExecuteBranch | src/executor/branch.rs:8-44 | Refines `Branched`, whose target TargetsAreLongwordRelative gives and whose two forms UndelayedTransfer and DelayedTransfer follow |
| CpuModel.Cpu.ExecuteBranchCompare | src/executor/branch.rs:46-91 | Refines `RanBranchCompare`, all eight kinds with BBIT0 and BBIT1, which BranchCompareIsTestThenBranch compares with its two halves |
| CpuModel.Cpu.ExecuteJump | src/executor/branch.rs:93-141 | Refines `RanJump`: a fault changes nothing, and STATUS32 and BTA come from the level the link register names |
| CpuModel.Cpu.ExecuteLoop | src/executor/special.rs:48-80 | Refines `RanLoop`, whose two outcomes LpEnters states and whose target LoopTarget |
| CpuModel.Cpu.ExecuteFlag | src/executor/special.rs:82-116 | Refines `RanFlag`, which FlagRestores describes in and out of user mode |
| CpuModel.Cpu.RunInstruction | src/cpu/mod.rs:329-449 | Refines `Instruction`, the step the loop, delay-slot and interrupt theorems are about; a fault leaves the delay slot consumed |
| CpuModel.Cpu.TickTimer0 | src/cpu/mod.rs:684-703 | Refines `TimerTicked`, whose period PeriodIsExact and KeptTimerStaysExpired give |
| CpuModel.Cpu.TickTimer1 | src/cpu/mod.rs:705-713 | Refines `TimerTicked` for a timer that always restarts |
| CpuModel.Cpu.TickArcTimersOnce | src/cpu/mod.rs:682-721 | Refines `BothTicked`; when a watchdog fires the whole CPU state is the reboot state and the spin detector is cleared |
| CpuModel.Cpu.TickTimers | src/cpu/mod.rs:610-617 | The accumulator loop refines `Ticked`, whose rate RateIsExact gives |
| CpuModel.Cpu.TickBank | src/cpu/mod.rs:619-629 | Refines `BankTicked`: every 64th service the bank takes over the UART's line, which BankShowsItsLastTick follows over runs |
| CpuModel.Cpu.Service | src/cpu/mod.rs:590-596 | Refines `Serviced`: timers, bank, poll and interrupt check in this order, a reset clearing the bank's lines and the detector |
| CpuModel.Cpu.CheckInterrupts | src/cpu/mod.rs:739-841 | Refines `Interrupted`; TakenExactlyWhen says when it takes a line, TakenLandsAt where control goes and EntrySavesAndMasks what is saved |
| CpuModel.Cpu.FastForwardArmedWatchdog | src/cpu/mod.rs:672-679 | Refines `FastForwarded`, which FastForwardIsExact compares with ordinary ticks |
| CpuModel.Cpu.DetectSpin | src/cpu/mod.rs:505-549 | Refines `Watched`; HungIsRightUnlessTheUartCalls, FastForwardIsFaithful and OneInstructionLoopFate judge what it does |
| CpuModel.Cpu.Step | src/cpu/mod.rs:297-596 | Refines `Stepped`, which StepIsThreeEvents cuts into the events of the interrupt and loop theorems |
| Interrupts.ReturnEffect | src/executor/branch.rs:108-138 | `j.f [ilink]` restores PC, STATUS32 and BTA from its level and touches no other register |
| Interrupts.InterruptsAreTransparent | src/cpu/mod.rs:739-841 | Over every disciplined run: at most two interrupts in progress, of different levels; no live save register overwritten; none taken with a delay slot pending; each return lands on the PC, all thirteen STATUS32 bits and the BTA its interrupt struck |
| Interrupts.TakeThenReturn | src/cpu/mod.rs:739-841 | A take and an immediate `j.f [ilink]` form such a run and change no register but the link, no memory, and neither PC, STATUS32 nor BTA |
| Interrupts.OnlyL1NestsInL2 | src/cpu/mod.rs:772-806 | If handlers leave the enable bits alone, the only nesting is level 1 inside level 2 |
| Interrupts.TakenExactlyWhen | src/cpu/mod.rs:739-808 | An interrupt is taken exactly when no delay slot is pending and the lowest pending line is deliverable, so a blocked lower line holds back every higher one; taking it clears that line alone |
| Interrupts.TakenLandsAt | src/cpu/mod.rs:808-829 | An unprogrammed line lands at vector base + 8 times its number mod 2^32, a programmed one at its NCO target whatever the base; ICAUSE of its level names it |
| Interrupts.SlotsAreApart | src/cpu/mod.rs:825-828 | Two unprogrammed lines at one base land 8 times their distance apart, so their slots do not overlap |
| Interrupts.EntrySavesAndMasks | src/cpu/mod.rs:766-806 | The link register, STATUS32, BTA and shadow registers each level saves, and which enable, active, DE, U and L bits it sets |
| Interrupts.SleepingWakesOnInterrupt | src/cpu/mod.rs:319-327 | A sleeping CPU executes nothing and wakes exactly when its service takes an interrupt |
| Interrupts.FaultsStayPut | src/cpu/mod.rs:329-449 | A fault ends the step where it struck: PC, status, memory and count stay, no device moves, a pending slot is consumed |
| Interrupts.HaltedDoesNotMove | src/cpu/mod.rs:297-300 | A halted CPU does not move, and that is no fault |
| Interrupts.WithoutABank | src/cpu/mod.rs:505-512 | Without a peripheral bank there is no spin detector, no poll and no reset |
| Interrupts.PollBringsLines | src/cpu/mod.rs:725-736 | The poll looks once in 256 instructions and brings in the UART's request as line 5 with the bank's lines |
| Interrupts.StepIsThreeEvents | src/cpu/mod.rs:590-596 | A retiring step that the spin detector lets pass and no reset strikes is its instruction, device activity and one poll, the events of those runs |
| ZeroOverheadLoops.LpEnters | src/executor/special.rs:48-80 | LP with a true condition enters at LP_START with L clear; a false one goes to LP_END with the loop registers as they were |
| ZeroOverheadLoops.LoopRunsExactly | src/cpu/mod.rs:338-349 | A straight-line body runs exactly max(n, 1) times before the instruction at LP_END, in a bounded number of turns, and LP_COUNT is then 0, whatever interrupts strike on the way |
| ZeroOverheadLoops.AluKeepsLoop | src/executor/alu.rs:9-46 | ALU instructions that do not write LP_COUNT may stand in such a body |
| ZeroOverheadLoops.DataKeepsLoop | src/cpu/mod.rs:338-349 | So may every instruction that only computes on registers, flags and memory |
| SteppedLoops.SteppedLoopRunsExactly | src/cpu/mod.rs:338-347 | The same of the CPU's own steps with the detector on, for a body of two instructions or more: they are the steps without a detector until control leaves the loop, after exactly max(n, 1) rounds |
| SteppedLoops.FreeRunsAreTraced | src/cpu/mod.rs:297-596 | Every run of steps that neither fault nor reset is such an event run, step by step |
| Timers.RateIsExact | src/cpu/mod.rs:610-617 | n calls make exactly floor((acc + 176 n) / 100) ticks and leave the accumulator below 100 |
| Timers.PeriodIsExact | src/cpu/mod.rs:705-713 | From COUNT = c below LIMIT, k ticks leave (c + k) mod LIMIT after exactly (c + k) div LIMIT expiries |
| Timers.KeptTimerStaysExpired | src/cpu/mod.rs:684-703 | A timer 0 told to keep counting expires at every tick from LIMIT on |
| Timers.ResetInFigures | src/cpu/mod.rs:241-295 | A watchdog reset leaves control at 0, every register 0, STATUS32 = 6 (E1 and E2), timers off, nothing pending, the flash image in memory |
| Timers.ResettingService | src/cpu/mod.rs:241-295 | In the service in which a watchdog fires the CPU ends fresh, no interrupt is taken however the UART calls, the bank's lines are down and the spin detector starts over |
| Timers.TicksWithoutReset | src/cpu/mod.rs:682-721 | Ticks without a reset, or of a CPU without a peripheral bank, move the two timers independently and raise exactly the lines of those that expired |
| Timers.FastForwardIsExact | src/cpu/mod.rs:672-679 | The fast-forward is a state ordinary ticks reach before any expiry if and only if COUNT is below LIMIT or about to wrap; otherwise the next tick expires anyway; the tick after it always requests the reset |
| Timers.FastForwardReachesTheSameReset | src/cpu/mod.rs:664-721 | The reset the fast-forward brings is the state ordinary ticks reach, with no reset before it |
| Timers.FastForwardSkipsALine | src/cpu/mod.rs:664-721 | Ordinary ticks raise a timer line before the reset if and only if an enabled timer, 0 or 1, is due before it; the fast-forward brings the reset on its first tick in every case |
| SpinDetector.SpinDecided | src/cpu/mod.rs:590-769 | From a branch-to-self with no reset due in k steps, none of them takes an interrupt if and only if at none of them the lowest pending line is deliverable, the lines pending at each step being computed from the counters |
| SpinVerdicts.HungIsRightUnlessTheUartCalls | src/cpu/mod.rs:643-662 | At a branch-to-self judged hung, with the UART's line held from then on, no step ever takes an interrupt if and only if no deliverable UART request is up |
| SpinVerdicts.HungNeverMoves | src/cpu/mod.rs:643-769 | Then the PC, the registers, the memory and the status bits never change and no watchdog reset comes, so halting is unobservable |
| SpinVerdicts.RequestIsTaken | src/cpu/mod.rs:725-736 | A deliverable UART request is taken within 256 steps |
| SpinVerdicts.BankShowsItsLastTick | src/soc/bank.rs:614 | Over any served run with changing peripherals, the bank's lines are the UART's at its last tick, at most 63 steps before |
| SpinVerdicts.HungMissesOnlyANewRequest | src/cpu/mod.rs:505-549 | Of a run that arrives at a branch-to-self and is halted there as hung: the halt is wrong if and only if a deliverable UART request is up, and then the UART was silent at the bank's last tick |
| SpinVerdicts.InjectedRequestIsLost | src/cpu/mod.rs:505-549 | From every silent CPU with a deliverable UART line: 63 counted steps, a request, a halt in the next step, and unwatched the line is taken within 256 |
| SpinVerdicts.HungCanBeWrong | src/cpu/mod.rs:643-662 | One such run of the CPU's own steps, from reset but for E1 |
| SpinVerdicts.HarnessHaltsEverySpin | src/cpu/mod.rs:505-521 | With the harness flag any spin is halted at the threshold, whatever the verdict would be |
| SpinVerdicts.DetectorActs | src/cpu/mod.rs:505-549 | Below 64 visits the detector only counts; a verdict that lets the CPU go on restarts the count, and a halt changes nothing but the halt flag |
| SpinVerdicts.FastForwardIsFaithful | src/cpu/mod.rs:664-721 | Of a branch-to-self with a watchdog armed: spinning in ordinary time takes no interrupt and reaches, in the step the counters name, the same reset the fast-forward brings at once, if and only if at no step before that the lowest pending line is deliverable |
| SpinOnHardwareLoops.BodyIsDataOnly | src/cpu/mod.rs:338-449 | An instruction that may stand in a straight-line loop body touches registers, memory and flags alone |
| SpinOnHardwareLoops.OneInstructionLoopFate | src/cpu/mod.rs:505-549 | From any detector state: a one-instruction loop no line or reset strikes is left if the tally allows its max(n, 1) visits or an interrupt source makes the detector relent; otherwise it is halted at LP_END as hung, or reset by a fast-forwarded watchdog |
| SpinOnHardwareLoops.OneInstructionLoopEndsIff | src/cpu/mod.rs:505-549 | On a CPU judged hung, the instruction behind the loop is ever reached if and only if the tally allows the visits: 64 in all, or fewer with the detector at LP_END already |
| SpinOnHardwareLoops.NothingCanBeDoneSixtyFourTimes | src/cpu/mod.rs:505-549 | From reset, a loop around an instruction that does nothing ends if and only if LP_COUNT is at most 64 |
| Branches.BranchCompareIsTestThenBranch | src/executor/branch.rs:46-91 | BRcc and BBIT fault, are taken and arm their slot exactly as CMP.F or BTST.F and the matching Bcc, and leave the flags alone |
| Branches.TargetsAreLongwordRelative | src/executor/branch.rs:22-24 | Targets are offset from the longword that holds the instruction, mod 2^32: aligned if the offset is, the same from both half-word positions, moving with the offset |
| Branches.UndelayedTransfer | src/executor/branch.rs:8-141 | Branches, compare-and-branches and jumps without a slot: control at the target, BLINK behind the instruction if it links, nothing else moved |
| Branches.DelayedTransfer | src/executor/branch.rs:8-141 | The same transfers with a slot fall through to it, target and link pending |
| Branches.SlotThenTarget | src/cpu/mod.rs:329-449 | Delayed jumps as well as branches: the slot runs once, seeing BLINK set behind itself, and control is then at the target |
| Branches.FlaggedJumpRestores | src/executor/branch.rs:109-120 | `J.F` through r29 restores STATUS32 and BTA of level 1, through any other register those of level 2, with an immediate nothing |
| Branches.ReturnsThroughBlink | src/executor/branch.rs:93-141 | `j [blink]` lands where BLINK points and changes no register |
| Branches.CallThenReturn | src/executor/branch.rs:93-141 | A call and an immediate `j [blink]` land behind the call and change no register but BLINK |
| Branches.FalseConditionSkips | src/executor/branch.rs:8-141 | Under a false condition, or a comparison that fails, an instruction only moves the PC |
| Branches.LoopTarget | src/executor/special.rs:54-77 | LP_END, or under a false condition the PC, is the longword-relative target |
| Branches.AluInstruction | src/executor/alu.rs:9-46 | An ALU instruction writes its result to the register it names, and the flags only if asked to |
| Branches.PlainInstruction | src/cpu/mod.rs:420-449 | A data instruction has its effect on registers, ALU flags and memory and on nothing else |
| Branches.DelaySlotRunsOnce | src/cpu/mod.rs:329-449 | After a taken delayed branch no interrupt is taken and no loop end recognised until the slot instruction has run exactly once, with BLINK already set; control is then at the target |
| Branches.FlagRestores | src/executor/special.rs:82-116 | FLAG of a packed STATUS32 restores all thirteen bits outside user mode; inside, it changes only Z, N, C and V and refuses H |
| Decoder.DecodeFootprint | src/decoder/mod.rs:97-108 | A successful decode takes 2, 4, 6 or 8 bytes and any fetcher that agrees on them gives the same instruction |
| Decoder.Footprint32 | src/decoder/decode32.rs:8-1428 | A 32-bit form reads the long immediate if and only if it says so in its size: without it the immediate cannot matter, with it the fetch must succeed and its word decides the operand |
| Decoder.Footprint16 | src/decoder/decode16.rs:9-148 | The same for 16-bit forms, but for MOV_S to the high register 62, which fetches the word and makes no use of it |
| Encodings.AluOfRegisters | src/decoder/decode32.rs:411-473 | The word put together by arithmetic from B, P, sub-opcode, F, C and A decodes to registers A, B and C in that order, register 62 standing for the long immediate |
| Encodings.AluOfU6 | src/decoder/decode32.rs:474-509 | The same with an unsigned 6-bit immediate |
| Encodings.AluOfS12 | src/decoder/decode32.rs:510-545 | The same with a signed 12-bit immediate and B as destination |
| Encodings.AluUnderCondition | src/decoder/decode32.rs:546-620 | The conditional forms, refusing codes above 15 |
| Encodings.LoadDecodes | src/decoder/decode32.rs:233-314 | LD: destination, base and signed offset, and every combination it refuses |
| Encodings.StoreDecodes | src/decoder/decode32.rs:317-375 | ST: source, base and signed offset |
| Encodings.LoadRegDecodes | src/decoder/decode32.rs:1186-1252 | LD with a register offset |
| Encodings.BranchDecodes | src/decoder/decode32.rs:54-80 | Bcc: the signed 21-bit offset from the fields it is scattered over |
| Encodings.FarBranchDecodes | src/decoder/decode32.rs:81-106 | B far: the signed 25-bit offset, and the reserved bit |
| Encodings.LinkDecodes | src/decoder/decode32.rs:124-147 | BLcc: the 21-bit offset in longwords |
| Encodings.FarLinkDecodes | src/decoder/decode32.rs:148-173 | BL far: the 25-bit offset in longwords |
| Encodings.CompareDecodes | src/decoder/decode32.rs:176-230 | BRcc and BBIT: B, C or a 6-bit immediate, the signed 9-bit offset, and the comparisons that do not exist |
| Encodings.SingleDecodes | src/decoder/decode32.rs:625-748 | Single-operand operations |
| Encodings.LoadAuxDecodes | src/decoder/decode32.rs:1069-1121 | LR with a register or 6-bit address |
| Encodings.StoreAuxDecodes | src/decoder/decode32.rs:1124-1183 | SR with a register or 6-bit address |
| Encodings.AuxOfS12Decodes | src/decoder/decode32.rs:1069-1183 | LR and SR with a signed 12-bit address |
| Encodings.JumpDecodes | src/decoder/decode32.rs:799-965 | J and JL, and where `.F` is refused |
| Encodings.LoopDecodes | src/decoder/decode32.rs:967-998 | LP: twice the immediate, signed or under a condition |
| Encodings.FlagDecodes | src/decoder/decode32.rs:1000-1067 | FLAG |
| Encodings.ExtensionDecodes | src/decoder/decode32.rs:1255-1428 | Extension operations of two sources |
| Encodings.ExtensionOfS12Decodes | src/decoder/decode32.rs:1255-1428 | The same with a signed 12-bit immediate |
| Encodings.ExtensionSingleDecodes | src/decoder/decode32.rs:1265-1312 | Extension operations of one source, and the sub-opcodes that do not exist |
| Encodings.UndefinedWords | src/decoder/decode32.rs:8-24 | Which 32-bit words are no instruction |
| Encodings.HighRegDecodes | src/decoder/decode16.rs:104-148 | The high-register 16-bit form: short register B and six-bit H, its upper part at the bottom |
| Encodings.ShortFormsAre | src/decoder/decode16.rs:9-40 | Which other half-words are instructions |
| Encodings.DecodeReadsTheWord | src/decoder/mod.rs:97-108 | The half-words of a word are read in order, and a half-word alone is taken exactly when its major opcode is at least 0x0C |
| Decoder.SliceDecodesAsMemory | src/decoder/mod.rs:81-95 | Decoding eight SRAM bytes from a slice equals decoding through memory, errors included, while resident I-cache lines match SRAM |
| Analysis.Findings.DetectBusyWait | src/soc/analysis.rs:30-64 | The scan with its jumps reports what trying every index reports |
| Analysis.Findings.DetectWriteThenPoll | src/soc/analysis.rs:66-100 | The same for a write and its polls |
| Analysis.Findings.DetectCommandBit | src/soc/analysis.rs:102-140 | The same for a command bit polled until clear |
| Analysis.ReportsAreExact | src/soc/analysis.rs:30-140 | There is one entry, with the right run, for exactly the accesses that open a maximal run of the threshold length, in history order |
| Analysis.ReportedInFigures | src/soc/analysis.rs:30-140 | Exactly what is reported: five equal reads not preceded by another; a write with three reads of its address behind; a write with bit 31 set and two reads behind, the first with it still set |
| Analysis.EntrySays | src/soc/analysis.rs:44-137 | An entry holds the address and value of the opening access, the number of reads in the run, and the PCs and instruction numbers of its two ends |
| Analysis.NothingInside | src/soc/analysis.rs:62-98 | No access inside a run opens another, so the jump skips nothing |
| Analysis.ShortHistory | src/soc/analysis.rs:16-20 | A history of fewer than three accesses reports nothing, so the early return loses nothing |
| BscI2c.Master.IssueCommand | src/soc/bsc_i2c.rs:128-155 | Refines `Applied`, the step of AlwaysTracks and BurstDeliversItsWords |
| BscI2c.Master.WriteStatWord | src/soc/bsc_i2c.rs:243-262 | The same for arming: only a latched sub-address and a non-zero count arm |
| BscI2c.Master.WriteDataWord | src/soc/bsc_i2c.rs:264-269 | The same for staging: only the low half-word, latched by a later command |
| BscI2c.AlwaysTracks | src/soc/bsc_i2c.rs:128-271 | In every reachable state, while armed the pointer is the sub-address plus the bytes read, mod 2^16, and bytes remain |
| BscI2c.BurstDeliversItsWords | src/soc/bsc_i2c.rs:135-151 | A burst of bc bytes delivers exactly ceil(bc / 4) consecutive words, whatever other writes come between, and then repeats the last |
| BscI2c.ArmingArms | src/soc/bsc_i2c.rs:135-138 | Stage, latch and arm start such a burst |
| BscI2c.TransactionReads | src/soc/bsc_i2c.rs:128-271 | The whole transaction in register words: stage, latch with bit 28, arm with bit 22 and the count in bits 3 to 13, read with bit 27; the k-th read leaves the k-th word of the device the command's bit 0 names |
| BscI2c.NackSpoilsOneWord | src/soc/bsc_i2c.rs:128-155 | An injected NACK turns exactly the next word into all ones, and the burst goes on |

## Left out

- DeadlockDichotomy: excludes a window of 2^32 - 1, which the 32-bit count can never exceed; more than 2046 cold lines, beyond which the 4096-step scan cap cuts the walk short; a run-ahead below 2 (which RestrainedFetchNeverHangs covers). It leaves open what becomes, after its first load, of a loop that collides though the stalled front end never sees the colliding lines together (a run-ahead of 2 to n lines): its lines evict each other while it runs. For a quiescing front end and for a load the D-cache answers UnstarvedPasses shows that such a loop passes, with a bound and not the exact cycle.
- LoopRunsExactly: handlers are any code that restores the loop registers; a loop inside a handler is not analysed separately.
- SteppedLoopRunsExactly: asks that the detector let the handlers pass, and that no reset strike; a handler that spins is the subject of the verdict theorems.
- OneInstructionLoopFate: asks that no line be pending or come up and no reset be due during the loop; an interrupt in the loop moves the PC and clears the tally.
- HungIsRightUnlessTheUartCalls: holds the UART's line constant from the verdict on; HungMissesOnlyANewRequest lets it change at every step before.
- FastForwardIsFaithful: holds the UART's line constant over the time that is skipped.
- Step: leaves out hooks, pause and watchpoint traps, the shadow call stack, profiling and the datapath drain of the bank tick.
- Decode16: the operand fields of 16-bit forms that read nothing but their half-word are not decoded; which half-words are accepted is.
- Insn: carries the raw encoding in place of the fields (opcode, condition, size, mode) that are functions of it alone.
- Peripheral bank routing and what its tick does beside taking over the UART's line, the NCO mirror of vector stores and MMIO accesses on the data port (they return without touching SRAM or the caches).
- The observer reads and writes (`read_byte` to `write_word`) that bypass the data port.
- Watchpoints, misaligned-access log, read trace, DC_RAM_ADDR probes, save and restore of cache state; LM is only stored.
- Logic and bit operations other than BTST, multiply, shift and extension operations, and load/store address modes: an instruction of that kind is a `Plain` effect on registers, flags and memory.
- Instruction memory of the CPU model is a fixed map from addresses to decoded instructions; self-modifying code is covered only by the fetch-port theorems.
- Auxiliary register access rules, SLEEP, SWI, TRAP, exceptions and RTIE.
- The memory a watchdog reset loads is a parameter of the CPU model; what it holds is `Refinement.WarmRebooted`.
- `build_timeline`, and the sort of the three reports by instruction number.
- The timing shadow over the real decoder, which reuses the bus modelled here.
- LaneBus busy timing, lanes 1 and 2, and the EEPROM's contents behind the I2C master.
- GUI, MCP server, command line, sessions, threads, tracing and file formats.
