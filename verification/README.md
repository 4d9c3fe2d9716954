# The RV32IM performance model, verified

The repository predicts cycle counts of a five-stage RV32IM core by executing
instructions and driving three timing models with them: a direct-mapped cache
model (used for instructions and for data), a fetch stream that runs ahead of
retirement, and an analytical pipeline model.  `CpuModel::step` couples them,
grants a credit when an instruction-cache wait overlaps a data-cache wait, and
publishes merged counters.  A Python script reduces a sweep of runs to its
Pareto frontier.

This project models that engine and proves what its counters mean.  Nothing was
executed; every statement below is a Dafny lemma or a method contract.

## How the model is built

Each C++ class is a Dafny class with the same fields, whose methods update them
in place and are proved equal to a pure transition function:
`DirectMappedCacheModel` (`Accessed`), `IFetchStreamModel` (`Ensured`, `Stalled`,
`Redirected`, `Drained`), `PipelineTimingModel` (`Retire`) and `Cpu` (`Stepped`,
`After`).  The laws are then lemmas about those functions.

| file | contents |
|---|---|
| `Words.dfy` | 32-bit words as bounded integers, wrap-around, truncating division |
| `Isa.dfy`, `IsaLaws.dfy` | decoding, execution, the lookahead at the next instruction; encodings, division, bits and memory |
| `InstructionSet.dfy` | what every instruction does, in terms that do not mention how the interpreter computes it |
| `CacheModel.dfy`, `CacheHistory.dfy` | the cache; residency and dirtiness as history, inclusion, dirty conservation |
| `FetchStream.dfy`, `FrontEnd.dfy` | the fetch stream; the shape of each of its operations |
| `PipelineTiming.dfy`, `TimingDecoder.dfy` | the pipeline model and the counts it refines; which registers its decoder says are read |
| `Coupling.dfy`, `StepShape.dfy` | the timing half of a step; what one step fetches, stalls and credits |
| `Streams.dfy`, `StreamLaws.dfy`, `CycleLaws.dfy` | whole runs: reachability of throws, what each cache sees, conservation laws |
| `RequestLog.dfy`, `FetchAddresses.dfy` | the requests of a run in order, and how far its addresses determine them |
| `CreditSizes.dfy` | when a credit is granted and how large it is; the overlap of a run as a count of credits |
| `LargerCache.dfy`, `LargerDataCache.dfy`, `LatencySweep.dfy` | two runs side by side |
| `CpuModel.dfy` | the CPU class and its specification |
| `ProgramRuns.dfy`, `PublishedLaws.dfy`, `ProgramComparisons.dfy` | a program's run factored into execution and timing; the laws in published terms |
| `TraceLaws.dfy` | what the trace shows, and the published counters as counts over it |
| `Counterexamples.dfy` | concrete programs for what is not true in general |
| `Pareto.dfy` | the design-space frontier |

A step is factored into an architectural half (`Execute`, which yields a
`Retired` record) and a timing half (`TimeStep`, which consumes it).  That the
imperative `Cpu.Step`, which interleaves the two, computes this composition is
its contract; that a whole run factors the same way is `RunFactors`.

Assumptions, all visible in types or preconditions:

- Memory images have at most 2^32 - 16 bytes (type `image`), so that no fetch
  address wraps and the catch-up loop of the fetch stream ends.
- `Fits`: four clean instruction misses and one dirty data miss together cost less
  than 2^32 cycles, so that the 32-bit stall sums of one step do not wrap.  It is a
  precondition only of the laws about cycle counts.  The wrap itself is modelled:
  penalties and per-step sums are reduced modulo 2^32.
- Cache laws need only a positive line count; powers of two, which the constructor
  demands, matter in `PowersOfTwoAreAccepted` and `MoreIcacheLinesNeverHurt`.
- The 64-bit counters are unbounded.

Where the model found the code to differ from what one would expect:

- Cache settings are almost, but not perfectly, invisible to execution.  A store in
  the last word of instruction memory makes the overlap rule read past the end and
  throw, on a machine with caches only (`CachesCanThrow`).  `TransparencyIsExact`
  gives the exact condition; a program that halts on some machine never meets it
  (`HaltingIsTransparent`).
- The addresses a run retires do not determine its fetch stream: a jump to the next
  word fetches that word again (`JumpToNextFetchesAgain`).  Two halted runs over the
  same addresses fetch the same words exactly when they redirect at the same places
  (`AddressesAndRedirectsDecide`, `RequestsAgreeIffRedirectsDo`); where no redirect
  goes to the next word, the addresses decide (`AddressesDecideFetches`,
  `AddressesDecideMisses`).
- A larger data cache misses and writes back no more, but it can take longer, because
  an overlap can hide more of a dirty miss than of a clean one
  (`MoreDcacheLinesCanHurt`).  It is no slower exactly when the overlap it loses is not
  more than what the misses and writebacks it saves are worth, and it is never slower
  by more than what the smaller cache's overlaps hid beyond clean misses, which can be
  read off the smaller cache's run alone (`HurtsLittle`, proved in
  `LargerDcacheHurtsLittle` and `MoreDcacheLinesHurtLittle`).  That excess is a fixed
  amount for each overlapped store that evicted a dirty line (`ExcessIsDirty`), so
  without such a store nothing is lost (`NoDirtyOverlapNoLoss`).  At one latency for
  both caches the amount is one cycle, and the bound is attained.
- The constructor of `CpuModel` leaves the front end at address 0 whatever the start
  address is, so a CPU that is stepped without a reset fetches its way up from there
  (`ConstructedIsReset`, `UnresetFetchesFromZero`); the laws are about runs after a
  reset.
- The header comment of `ensure_through` calls the modelled streams straight-line;
  the code also handles redirects, and the model follows the code.

## Model

| member | source | states |
|---|---|---|
| `Isa.LookaheadIsExact` | src/CpuModel.cpp:57-110 | a store's lookahead equals the redirect its successor takes once it executes |
| `Isa.PredictionIsEvaluation` | src/CpuModel.cpp:64-109 | the lookahead's decoder and comparisons agree with the executing switch on every instruction that executes |
| `IsaLaws.ImmediateI` | src/CpuModel.cpp:177 | the I-immediate decoder inverts the manual's encoding, sign included |
| `IsaLaws.ImmediateS` | src/CpuModel.cpp:178 | the same for the split S-immediate |
| `IsaLaws.ImmediateB` | src/CpuModel.cpp:179-183 | the same for the scrambled B-offset |
| `IsaLaws.ImmediateJ` | src/CpuModel.cpp:184-188 | the same for the scrambled J-offset |
| `IsaLaws.ProductHalves` | src/CpuModel.cpp:346-349 | MULH, MULHSU and MULHU are the upper halves of their exact 64-bit products |
| `IsaLaws.DivisionResults` | src/CpuModel.cpp:350-363 | DIV and REM are truncated quotient and remainder except for division by zero and overflow, which give the manual's results |
| `IsaLaws.TruncatedDivision` | src/CpuModel.cpp:353 | the quotient truncates toward zero: the identity holds, the remainder has the dividend's sign and is smaller than the divisor |
| `IsaLaws.BitOfWordOp` | src/CpuModel.cpp:320-322 | each of the 32 bits of AND, OR and XOR is that operation on the operands' bits |
| `IsaLaws.BitwiseLaws` | src/CpuModel.cpp:320-322 | as sums, AND and OR make up the operands, and XOR is OR less AND |
| `IsaLaws.LoadAfterStore` | src/Memory.cpp:23-59 | a load returns what a store of its width put at the same address |
| `IsaLaws.StoreIsLocal` | src/Memory.cpp:42-59 | a store changes no byte outside its range |
| `InstructionSet.FieldsAreFound` | src/CpuModel.cpp:167-172 | the decoder finds each field that was put into a word |
| `InstructionSet.FieldsAreAll` | src/CpuModel.cpp:167-172 | a word is made of the fields found in it |
| `InstructionSet.RegisterForm` | src/CpuModel.cpp:366-408 | ADD, SUB by congruence, SLT, SLTU by the existence of a difference, shifts and bitwise operations bit by bit, on the two source registers |
| `InstructionSet.ImmediateForm` | src/CpuModel.cpp:314-337 | the immediate forms do the same to the source register and the sign-extended immediate or the shift amount |
| `InstructionSet.MeaningIsUnique` | src/CpuModel.cpp:314-408 | these meanings leave one result |
| `InstructionSet.UpperForms` | src/CpuModel.cpp:199-207 | LUI gives the upper twenty bits, AUIPC adds them to the pc |
| `InstructionSet.MultiplyForm` | src/CpuModel.cpp:341-365 | the halves of exact products, and truncated quotients and remainders by their equation, with the special cases |
| `InstructionSet.DivisionIsUnique` | src/CpuModel.cpp:350-364 | the division equation leaves one quotient and one remainder |
| `InstructionSet.BranchForm` | src/CpuModel.cpp:224-242 | each condition compares the two source registers as it should, and the pc of the next instruction follows |
| `InstructionSet.ComparisonsAgree` | src/CpuModel.cpp:227-232 | BLT agrees with SLT, BLTU with SLTU, and BEQ holds iff neither is less |
| `InstructionSet.JumpForms` | src/CpuModel.cpp:209-221 | link register and target of JAL and JALR, the latter even |
| `InstructionSet.LoadForm` | src/CpuModel.cpp:244-264 | a load takes the little-endian number at its address, extended by sign or zero, and fails iff memory ends before it |
| `InstructionSet.StoreForm` | src/CpuModel.cpp:266-276 | a store puts the low bytes of its second register at its address, and fails iff memory ends before it |
| `InstructionSet.LoadTakesWhatStorePut` | src/Memory.cpp:23-59 | a load instruction makes its own of what a store instruction of its size put at the address |
| `InstructionSet.LegalExecutes` | src/CpuModel.cpp:198-430 | exactly the RV32IM words within reach of their data execute |
| `InstructionSet.ExecutesExactly` | src/CpuModel.cpp:152-156 | an instruction executes iff it is aligned, inside instruction memory, legal and within reach |
| `InstructionSet.ExecuteChanges` | src/CpuModel.cpp:429-430 | one instruction changes at most its destination, never x0, the bytes its store covers, the pc and halting |
| `InstructionSet.LookAheadReads` | src/CpuModel.cpp:57-62 | the lookahead throws exactly past the end of instruction memory and foresees nothing at a misaligned address |
| `InstructionSet.ForeseenIsLegal` | src/CpuModel.cpp:64-109 | the lookahead foresees redirects of legal jumps and branches only |
| `CacheModel.PowersOfTwoAreAccepted` | src/CacheModel.cpp:11-18 | the bit trick accepts exactly the powers of two |
| `CacheModel.DirectMappedCacheModel.Create` | src/CacheModel.cpp:15-26 | construction fails exactly on rejected configurations, else yields a cold cache |
| `CacheModel.DirectMappedCacheModel.Reset` | src/CacheModel.cpp:28-33 | the cache is cold again |
| `CacheModel.DirectMappedCacheModel.WouldHit` | src/CacheModel.cpp:36-45 | the probe answers residency without changing anything |
| `CacheModel.DirectMappedCacheModel.Access` | src/CacheModel.cpp:59-103 | the in-place access reaches the state and result of the specification |
| `CacheHistory.ResidentAfter` | src/CacheModel.cpp:68-102 | an access makes its own word resident and evicts only the word sharing its line |
| `CacheHistory.ResidentIffLastOnLine` | src/CacheModel.cpp:36-45 | after any stream from cold, a word is resident iff the most recent request on its line was for it |
| `CacheHistory.HitIffLastOnLine` | src/CacheModel.cpp:59-103 | an access hits iff the probe says so iff the most recent request on its line was for the same word |
| `CacheHistory.DirtyIffWrittenSinceFill` | src/CacheModel.cpp:73-100 | with write-back a line is dirty iff its word was written since its last fill; without, never |
| `CacheHistory.InclusionOverStream` | src/CacheModel.cpp:68-102 | on one stream the cache with a multiple of the lines keeps including the smaller and misses no more |
| `CacheHistory.WriteThroughStaysClean` | src/CacheModel.cpp:75-100 | without write-back nothing is written back or made dirty |
| `CacheHistory.LargerCacheMovesLess` | src/CacheModel.cpp:68-102 | from cold, on one stream, the cache with a multiple of the lines misses no more and writes back no more |
| `CacheHistory.DirtyConservation` | src/CacheModel.cpp:66-102 | dirtying requests = writebacks + dirty lines; hits + misses = accesses; reads = misses; writes = writebacks <= misses |
| `FetchStream.IFetchStreamModel.Issue` | src/IFetchStreamModel.cpp:15-30 | one request reaches the cache and is counted by kind |
| `FetchStream.IFetchStreamModel.EnsureThrough` | src/IFetchStreamModel.cpp:32-54 | the loop terminates, issues exactly the missing words in order, and returns their stalls in 32 bits; it throws iff the cache is on and the target is misaligned |
| `FetchStream.IFetchStreamModel.OnDcacheStall` | src/IFetchStreamModel.cpp:56-71 | runs the front to pc+12 and replays that word once per stall cycle |
| `FetchStream.IFetchStreamModel.OnTakenBranch` | src/IFetchStreamModel.cpp:74-98 | fetches two wrong-path words and restarts at the target |
| `FetchStream.IFetchStreamModel.OnJumpRedirect` | src/IFetchStreamModel.cpp:100-120 | the same for jumps |
| `FetchStream.IFetchStreamModel.OnSystemDrain` | src/IFetchStreamModel.cpp:122-136 | fetches two words more and replays the second twice |
| `FrontEnd.StalledShape` | src/IFetchStreamModel.cpp:63-70 | every data-stall replay hits: the cost is that of the new words alone, for every line count |
| `FrontEnd.DrainedShape` | src/IFetchStreamModel.cpp:128-135 | every drain replay hits, because the newest fetched word is resident |
| `FrontEnd.RedirectedShape` | src/IFetchStreamModel.cpp:91-98 | a redirect fetches one straight run through pc+8 and nothing else |
| `PipelineTiming.DecodersAgree` | src/PipelineTimingModel.cpp:32-91 | the timing decoder classifies every executing instruction as the executing decoder does |
| `PipelineTiming.UnreadRegisterIsIrrelevant` | src/PipelineTimingModel.cpp:43-88 | a register the timing decoder calls unread cannot change what the instruction does, store data aside, so no load-use bubble is missed |
| `TimingDecoder.ReadsSources` | src/PipelineTimingModel.cpp:43-88 | the timing decoder reads exactly rs1 for JALR, loads, stores and OP-IMM, rs1 and rs2 for branches and OP, and nothing else |
| `TimingDecoder.ReadsMovePlace` | src/PipelineTimingModel.cpp:43-70 | for a load, store or jump that executes, a register is read iff adding two to it moves the address or target |
| `TimingDecoder.BubbleBehindLoad` | src/PipelineTimingModel.cpp:97-105 | right behind a load the bubble is paid iff its destination is a real register among the sources |
| `TimingDecoder.LoadedStoreDataIsFree` | src/PipelineTimingModel.cpp:64-70 | a store of the word just loaded does not wait, unless its address needs it |
| `PipelineTiming.RetireReports` | src/PipelineTimingModel.cpp:93-162 | the returned flags are the marks of the history, and the cycle is the total without the redirect left behind |
| `PipelineTiming.RetireRefines` | src/PipelineTimingModel.cpp:93-162 | the counters stay equal to declarative counts of load-use pairs, taken branches, jumps and divider bursts over the history, for every configuration |
| `PipelineTiming.PipelineTimingModel.RetireInstruction` | src/PipelineTimingModel.cpp:93-162 | the in-place retirement reaches the specified state and retirement cycle |
| `PipelineTiming.PipelineTimingModel.AddExternalStalls` | src/PipelineTimingModel.cpp:28-30 | the hold is accumulated and nothing else changes |
| `StepShape.ReplayAfterMiss` | src/CpuModel.cpp:298-304 | the store replayed after its own miss hits, stalls nothing and changes only two counters |
| `StepShape.StepIsLawful` | src/CpuModel.cpp:162-163 | from an orderly window a step fetches exactly one straight run and known replays, charges exactly the gained stalls less the credit, and throws only if a store's lookahead leaves memory |
| `StepShape.NextWindow` | src/IFetchStreamModel.cpp:47-52 | the fetch window pc <= front <= pc+12, aligned and with its newest word resident, is kept by every step |
| `Streams.RunsAreOrderly` | src/IFetchStreamModel.cpp:32-136 | the window, the clean instruction cache and the configurations are invariants of every run |
| `Streams.OnlyTheLastStepThrows` | src/CpuModel.cpp:285-304 | the alignment throw and the replay throw are unreachable; a lookahead throw can only end a run at a store |
| `Streams.ReadsStayClean` | src/CacheModel.cpp:85-100 | a cache that is only read is never dirty, never writes back and stalls one clean penalty a miss |
| `StreamLaws.DataSide` | src/CpuModel.cpp:257-304 | the data cache has seen exactly the program's loads and stores; replays leave only hits |
| `StreamLaws.FetchSide` | src/IFetchStreamModel.cpp:32-136 | the instruction cache is, up to hits, a cold cache fed the straight-line segments of the program, each two words past its end |
| `RequestLog.DemandsAreFetches` | src/IFetchStreamModel.cpp:32-136 | the new words that the steps of a run request are, in order, exactly those segments |
| `RequestLog.CacheSawRequests` | src/IFetchStreamModel.cpp:15-30 | the instruction cache is exactly a cold cache given the logged requests, replays included, and the issue counter is their number |
| `RequestLog.FetchCounters` | src/IFetchStreamModel.cpp:15-136 | replays = data stalls + 2 at a halt; redirects are the program's; issued = new words + replays; wrong path and lookaheads are counts of the words fetched behind the own one |
| `RequestLog.UncachedFetchCounters` | src/IFetchStreamModel.cpp:74-120 | with the cache off only redirects are counted |
| `FetchAddresses.AddressesAndRedirectsDecide` | src/IFetchStreamModel.cpp:74-120 | two halted runs over the same addresses have the same fetch stream iff they redirect at the same places |
| `FetchAddresses.RequestsAgreeIffRedirectsDo` | src/IFetchStreamModel.cpp:32-120 | the same iff for the requests of two runs on machines with any data caches and latencies |
| `FetchAddresses.AddressesDecideFetches` | src/IFetchStreamModel.cpp:32-120 | if no redirect goes to the next word, the fetch stream is a function of the addresses |
| `Counterexamples.JumpToNextFetchesAgain` | src/IFetchStreamModel.cpp:100-120 | two programs one instruction apart retire the same addresses, yet fetch four and six words, with four and six misses in a one-line cache |
| `StreamLaws.FeedCost` | src/CacheModel.cpp:47-102 | stall cycles are misses and writebacks priced by the penalties |
| `CycleLaws.CreditIsPaid` | src/CpuModel.cpp:112-119 | a credit is covered in the same step by late fetch stalls and leaves at least one data-stall cycle |
| `CycleLaws.CreditIsRealizedInRun` | src/CpuModel.cpp:280-305 | in every run, after a step that was granted a credit the next step redirects without a single request, and the one after it is at the foreseen target, misses there and stalls for at least the credit |
| `CycleLaws.OverlapIsAUnion` | include/rv32im/PerformanceStats.hpp:77 | overlap never exceeds either stall total, so net stalls lie between the larger total and the sum, for all latencies |
| `CycleLaws.PipeSide` | src/CpuModel.cpp:456-473 | over a whole run the pipeline counters are counts of the program, and all other waiting is cache waiting less overlap |
| `CycleLaws.CacheCosts` | src/CacheModel.cpp:47-57 | I$ stalls = misses*(L+4); D$ stalls = misses*(L+4) + writebacks*(L+3) |
| `CycleLaws.CycleConservation` | src/CpuModel.cpp:456-479 | the cycle total is program counts plus priced cache events less overlap |
| `CycleLaws.RequestCount` | src/IFetchStreamModel.cpp:15-136 | raw I$ requests = retirements + 2*redirects + data-stall cycles + words ahead, or + 4 at a halt |
| `CycleLaws.RetirementSpacing` | src/PipelineTimingModel.cpp:127-155 | consecutive retirements are apart by one, the older redirect penalty and the younger's holds, bubble and divider start |
| `CycleLaws.TotalIsLastRetirement` | src/PipelineTimingModel.cpp:135-155 | the total is the last retirement cycle plus its redirect penalty |
| `LargerCache.FirstMissIsPaid` | src/CacheModel.cpp:73-102 | a first fetch only the larger cache holds wins it a whole refill on the stream |
| `LargerCache.CreditPair` | src/CpuModel.cpp:285-305 | a credit lost by the larger cache is made up in the same step or leaves a refill due |
| `LargerCache.RunsAreSolvent` | src/CpuModel.cpp:276-309 | all along two runs the larger cache is ahead, or behind by at most the refill that is about to pay |
| `LargerCache.LargerIcacheIsNeverSlower` | src/CpuModel.cpp:276-309 | at a halt the larger instruction cache has taken no more cycles and missed no more |
| `CreditSizes.CreditIsTheMost` | src/CpuModel.cpp:112-119 | for all latencies, wrapping ones included, the credit is the most that leaves a cycle of the data wait and does not exceed the refill, and nothing with a cache off |
| `CreditSizes.CreditSize` | src/CpuModel.cpp:112-119 | a credit is granted exactly under the source's five conditions and is then the shorter of the data tail and the instruction refill |
| `CreditSizes.OverlapPerEpisode` | src/CpuModel.cpp:285-305 | the overlap of a run is so many clean and so many dirty credits: at one latency L, L+3 for each overlap and one more for each that evicted a dirty line |
| `LargerDataCache.RunsAreCovered` | src/CpuModel.cpp:276-309 | all along two runs the one with the larger data cache has fetched no further, and the credits it lacks, counted as clean, are paid by the misses it saved |
| `LargerDataCache.LargerDcacheCostsAtMostTheExcess` | src/CpuModel.cpp:276-309 | at a halt the larger data cache has missed and written back no more; it is no slower iff the overlap it lost is at most what its saved events are worth; and it is slower by at most the excess of the smaller cache's overlaps, less its saved writebacks |
| `LargerDataCache.ExcessIsDirty` | src/CpuModel.cpp:112-119 | that excess is the difference of a dirty and a clean credit for each overlapped store that evicted a dirty line |
| `LargerDataCache.NoDirtyOverlapNoLoss` | src/CpuModel.cpp:276-309 | without such a store the larger data cache is not slower |
| `LatencySweep.FetchSideIsDecoupled` | src/CpuModel.cpp:436-454 | instruction misses and lines do not depend on the data cache or any latency |
| `LatencySweep.DataSideIsDecoupled` | src/CpuModel.cpp:257-304 | data misses, writebacks and lines do not depend on the instruction cache or any latency |
| `LatencySweep.CreditIsAffine` | src/CpuModel.cpp:112-119 | with one latency for both caches, a credit is granted at both latencies or neither and differs by exactly the latency difference |
| `LatencySweep.CyclesAreAffineInLatency` | src/CacheModel.cpp:47-57 | between two latencies, each for both caches, cycles differ by the difference times misses + writebacks - overlaps, which are the same in both runs |
| `LatencySweep.RunsAreSwept` | src/CpuModel.cpp:276-309 | two runs at any two pairs of latencies fetch alike and overlap the same stores |
| `LatencySweep.OverlapIsRepaid` | src/CpuModel.cpp:112-119 | what overlaps hide more at longer latencies is at most what the run's misses and writebacks cost more |
| `LatencySweep.SlowerMemoryIsNeverFaster` | src/CacheModel.cpp:47-57 | cycles are monotone in the latency of either cache separately, and of both |
| `CpuModel.Cpu.constructor` | src/CpuModel.cpp:27-33 | a new CPU is at its start address with everything cold, but its front end at address 0 |
| `CpuModel.ConstructedIsReset` | include/rv32im/IFetchStreamModel.hpp:100 | construction takes the place of a reset iff the start address is 0 |
| `CpuModel.UnresetFetchesFromZero` | src/IFetchStreamModel.cpp:47-52 | without a reset the first step requests every word from address 0 up to the start address |
| `CpuModel.Cpu.Reset` | src/CpuModel.cpp:43-54 | everything but memory and the trace rows returns to the reset state |
| `CpuModel.Cpu.AccessData` | src/CpuModel.cpp:257-309 | the data access, the held fetches, the overlap credit and the replay reach the specified states |
| `CpuModel.Cpu.WriteRegister` | src/CpuModel.cpp:128-135 | a register write changes that register unless it is x0, and notes register, value and whether it wrote in the trace row |
| `CpuModel.Cpu.NextInstruction` | src/CpuModel.cpp:152-196 | fetch and evaluation succeed exactly when execution does, with its effect |
| `CpuModel.Cpu.Commit` | src/CpuModel.cpp:198-430 | registers, memory, pc and halt become those of the effect, x0 stays zero, and the trace row describes it |
| `CpuModel.Cpu.Drive` | src/CpuModel.cpp:432-464 | fetch, data access, redirect and retirement compose to the specified timing step |
| `CpuModel.Cpu.PublishStats` | src/CpuModel.cpp:466-503 | the counters are merged as specified, hold replays included |
| `CpuModel.Cpu.Step` | src/CpuModel.cpp:145-510 | one step is the composition of execution and timing, and throws exactly when the specification does, then with registers, pc, halt and trace as before |
| `CpuModel.Cpu.Run` | src/CpuModel.cpp:512-516 | the loop ends, in the halted state some number of steps reaches or at the first step that throws |
| `ProgramRuns.FunctionalIsConsistent` | src/CpuModel.cpp:145-430 | every program retires a chained stream whose stores foresee their successors' redirects |
| `ProgramRuns.RunFactors` | src/CpuModel.cpp:145-510 | a run exists iff the program executes, the limit is not passed and no lookahead throws; it is the functional run plus the timing of its stream |
| `ProgramRuns.RerunAppendsRows` | src/CpuModel.cpp:43-54 | a run after a reset is the run of a new trace with its rows behind the older ones |
| `ProgramRuns.TraceGivesRegisters` | src/CpuModel.cpp:505-507 | folding the trace's register writes over zeroed registers gives the register file after every step |
| `PublishedLaws.MixIsComplete` | src/CpuModel.cpp:198-466 | retired = trace rows = the sum of the instruction classes, plus one once halted |
| `PublishedLaws.CyclesAreConserved` | src/CpuModel.cpp:466-479 | the published cycles are the sum of the published parts, and the cache parts are priced events |
| `PublishedLaws.OverlapIsBounded` | include/rv32im/PerformanceStats.hpp:74-77 | the printed net stall never underflows and lies between maximum and sum |
| `PublishedLaws.RequestsAreCounted` | src/CpuModel.cpp:481-496 | the published I$ accesses in published terms, with the hold replays max(0, load-use + divider - overlap) |
| `PublishedLaws.TransactionsBalance` | src/CpuModel.cpp:494-503 | hits + misses = accesses on both sides; bus reads = all misses, bus writes = writebacks <= data misses; D$ accesses = loads + stores + overlap replays |
| `PublishedLaws.TraceCyclesIncrease` | src/CpuModel.cpp:505-509 | trace cycles strictly increase and the last row of a halted run carries the published total |
| `TraceLaws.TraceIsTheProgram` | src/CpuModel.cpp:190-196 | each row is numbered in order and shows the legal instruction word at its address, with destination, memory and write columns by its class; the rows start at the start address and go on word by word except behind jumps and branches |
| `TraceLaws.TraceDrivesDcache` | src/CpuModel.cpp:257-309 | the published D$ misses, writebacks and hits are those of a cold cache given the accesses that the trace shows |
| `TraceLaws.MixCountsTheTrace` | src/CpuModel.cpp:198-430 | each counter of the mix is the number of rows of its class, by opcode and function fields |
| `TraceLaws.StallsCountTheTrace` | src/CpuModel.cpp:466-473 | published load-use, divider, branch and jump stalls, base cycles and fill are counts over trace and mix, with the calibrated prices 1, 7, 2, 2 and 4 |
| `TraceLaws.UncachedPublishNothing` | src/CpuModel.cpp:481-503 | the counters of a cache that is off stay at zero |
| `ProgramComparisons.RunsAgree` | src/CpuModel.cpp:145-510 | two machines that both run n steps agree on registers, memory, pc, mix and every trace row but its cycle |
| `ProgramComparisons.TransparencyIsExact` | src/CpuModel.cpp:285-290 | a program runs as far on one machine as on another unless its last step is a store whose lookahead leaves memory there, and then not |
| `Counterexamples.CachesCanThrow` | src/CpuModel.cpp:57-61 | a concrete program that runs without caches and throws with them |
| `ProgramComparisons.HaltingIsTransparent` | src/CpuModel.cpp:145-510 | a program that halts on one machine halts on every other in the same architectural state |
| `ProgramComparisons.MissesAreDecoupled` | src/IFetchStreamModel.cpp:32-136 | a halted run's published misses and writebacks are those of one cache fed one stream that the program alone determines |
| `ProgramComparisons.LargerIcacheNeverHurts` | src/CpuModel.cpp:276-309 | multiplying the I$ lines never increases a halting program's cycles or misses |
| `ProgramComparisons.MoreIcacheLinesNeverHurt` | src/CacheModel.cpp:15-18 | the same for any two accepted line counts |
| `ProgramComparisons.LargerDcacheHurtsLittle` | src/CpuModel.cpp:276-309 | multiplying the D$ lines never increases a halting program's misses or writebacks; the published cycles do not grow iff the overlap lost is at most the worth of the events saved; they grow by at most the smaller run's excess, not at all if the D$ memory is the slower, and by at most a cycle an overlap at one latency |
| `ProgramComparisons.MoreDcacheLinesHurtLittle` | src/CacheModel.cpp:15-18 | the same for any two accepted line counts |
| `Counterexamples.MoreDcacheLinesCanHurt` | src/CpuModel.cpp:112-119 | a concrete program with equal misses and writebacks takes one cycle more with two D$ lines than with one, for its one overlap |
| `ProgramComparisons.SlowerMemoryNeverHelps` | src/CacheModel.cpp:47-57 | published cycles are monotone in either memory latency, and no miss, writeback or overlap changes |
| `ProgramComparisons.AddressesDecideMisses` | src/IFetchStreamModel.cpp:32-120 | programs that halt over the same addresses, with no redirect to the next word, have the same I$ misses, whatever the D$ and latencies |
| `ProgramComparisons.CyclesAreAffine` | src/CpuModel.cpp:112-119 | the published cycles are affine in the memory latency with slope misses + writebacks - overlaps, and each overlap hides L+3 or L+4 cycles |
| `Pareto.ParetoFrontier` | scripts/run_milestone6a.py:92-108 | the nested loops compute the sorted undominated rows |
| `Pareto.FrontierContents` | scripts/run_milestone6a.py:94-107 | the output holds every undominated row as often as the input and nothing else |
| `Pareto.RejectedIsDominatedByKept` | scripts/run_milestone6a.py:96-105 | every rejected row is dominated by a kept one |
| `Pareto.FrontierIsAStaircase` | scripts/run_milestone6a.py:108 | along the output bytes rise exactly where cycles fall, and no kept row dominates another |
| `Pareto.SortIsStable` | scripts/run_milestone6a.py:108 | rows with equal keys keep their order |

## Left out

- Hex loading and comment stripping (`src/Memory.cpp`): the model starts from memory contents.
- The text of the trace and of the statistics: rows and counters are modelled as records.
- CPI and hit rates, which are floating-point quotients of modelled counters.
- `stall_axi` and `write_allocate`: the source never uses them.
- Wrap-around of the 64-bit counters, and images larger than 2^32 - 16 bytes.
- `EnsureThrough`: requires, with the cache on, a target other than 0xfffffffc, for which the source's 32-bit pointer wraps and its loop never ends.
- `Cpu.Step`: does not say what a throwing step has done to memory, the timing models and the instruction mix; the source then leaves them as the part of the step before the throw made them, and a throw ends the run.
- `IFetchStreamModel`: its hold and wrong-path distances are the defaults of its configuration, as `CpuModel` uses it.
- Command line, SystemC wrapper, RTL tracer and the other Python scripts.
- Agreement with RTL: the RTL is not part of this model.
