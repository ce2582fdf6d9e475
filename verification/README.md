# Fence: a verified model of the shared-memory log and its region allocator

Fence keeps a replicated log in a shared, byte-addressable memory pool. Any number of threads on any number of hosts append
to it without locks; a crash may strike between any two memory operations; recovery may run at any time, more than once.
Beside the log, a region allocator keeps a 256-entry catalog of named regions in the same kind of memory. This project models
both on bytes, at the offsets the program uses, and proves what they promise.

## How the model is built

**Memory (`Bytes`, `Media`, `CrashRuns`).** Memory is two byte sequences: a coherent volatile view, and the durable view that
a crash leaves. A store changes the volatile view; a write-back copies one 64-byte line to the durable view. `flush_range` is
its line loop, on any alignment. The class `Backend` is the memory backend over an `array<byte>`; its ghost `trace` records
every effect in order, so that a method's contract can fix the order of its stores and flushes. `CrashRuns` describes a
program of such effects cut short anywhere, with any lines evicted in between.

**Layout and records (`Layout`, `Records`).** The constants, `PoolGeometry`, and the fields of a record; what an append stores,
what a reader decodes. The checksum is a parameter: any deterministic function of (term, index, payload).

**The log as a protocol (`Protocol` to `Confluence`).** A state machine: threads call append, read, trim and recover, and each
step of a thread is one backend call of the program, with its branches. Between steps any line may be evicted, any thread may
die, and the power may fail. `ProtocolInv` and `ProtocolSteps` hold an inductive invariant with rely/guarantee obligations;
`Safety`, `Durability`, `Progress`, `GapCeiling`, `Accounting` and `Confluence` state the results over all runs, and
`RecoverRace`, `Stranding`, `SweepRace` and `ReservationWrap` build the runs that show why their conditions are needed.
`Solo` proves what each operation does when it runs undisturbed from any contents, in the terms of the byte-array methods;
`Answers` and `TrimCrash` what read and trim answer amid other threads, and what a power failure can undo of a trim. The step
functions follow the source as listed here.

| step function | source |
|---|---|
| `Protocol.StepStart` | first backend call of `append` (crates/fence-runtime/src/engine.rs:143-174), `read` (engine.rs:234-252), `trim` (compaction.rs:38-45), `recover` (recovery.rs:49-50) |
| `Protocol.StepAppend` | crates/fence-runtime/src/engine.rs:158-225, one step per store, per flushed line and per metric |
| `Protocol.StepSweep` | crates/fence-runtime/src/recovery.rs:130-164, one step per load, per slot inspected and per compare-exchange |
| `Protocol.StepRead` | crates/fence-runtime/src/engine.rs:255-296, and the checksum test at crates/fence-runtime/src/recovery.rs:66-86 |
| `Protocol.StepRecover` | crates/fence-runtime/src/recovery.rs:55-103, and its metrics at crates/fence-runtime/src/engine.rs:332-346 |
| `Protocol.StepTrim` | crates/fence-runtime/src/compaction.rs:49-58 |

**The log on a byte array (`RecoverySpec`, `Recovery`, `Compaction`, `Metrics`, `AbstractLog`, `LogImage`, `Engine`, `AppendCrash`).**
The loops as methods over `Backend`. recover, advance_committed_tail, trim and read are specified from arbitrary bytes. The
class `FenceRuntime` refines an abstract log: the slots handed out, each live, trimmed or a gap left by a crashed writer, the
committed tail, and the undos still owed; together with the aggregate counters. `AppendCrash` adds power failures in the
middle of an append: whatever is found afterwards represents such a log again. `StepPrograms` ties the two layers together:
the state machine's steps of append, recover and trim do, one by one, the memory operations of the methods and take their
decisions, and `Confluence` speaks of the same `FinalState`, `TailEnd` and `BrokenCount` as `Recovery`.

**The allocator (`Catalog`, `Regions`, `AllocatorCrash`, `Allocator`, `AllocatorHistory`).** `Catalog` is the byte layout of the
catalog with read_entry and write_entry; `Regions` is the allocator on the decoded catalog, with placement, isolation, counting
and whole histories; `AllocatorCrash` gives each call as a program of stores and flushes and covers every crash point;
`RegionCalls` says what each call answers and changes in terms of entries and listed regions;
`Allocator` is the class whose methods perform exactly those programs; `AllocatorHistory` puts calls, crashes, client writes
and evictions together on bytes.

## Assumptions

- Backend calls interleave sequentially consistently, on one coherent view. The progress argument has the shape of a
  store-buffering test, so nothing is claimed for weaker orderings.
- The header words `committed_tail` and `reserve_tail` and the metrics words take effect at the media: the log's code never
  flushes them after `open` (crates/fence-runtime/src/engine.rs:152, crates/fence-runtime/src/recovery.rs:151). With a lossy
  header, slot ownership across crashes does not hold. The allocator's header is treated as lossy; its code flushes it.
- A crash kills every thread and reverts records and catalog to their durable bytes. A write-back is atomic per line.
- A created pool is zero-filled; `open` with `create` writes only the header.
- Geometry comes from a validated configuration (`Layout.ValidatedGeometry` shows what that gives), and matches the pool.
- Runs keep `reserve_tail` below 2^64 - 1 (`Protocol.NoWrapAhead`). `Safety.ReservationRightIff` shows that this is exactly when
  a reservation leaves the counter right, and `ReservationWrap.WrappedReservationRegrants` is the run beyond it; it takes 2^64
  minus capacity failed appends whose undo was lost.
- Machine additions wrap, as in a release build; a debug build panics instead. A mapping is smaller than 2^63 bytes.
- Threads, not processes, are the unit of failure; `Kill` stops one of them, `Crash` all of them.

## Where the code and its documentation differ

The model follows the code.

- The header comment of recovery promises to skip gaps (crates/fence-runtime/src/recovery.rs:5); the code stops at the first
  slot that is not COMMITTED (recovery.rs:139), as crates/fence-runtime/tests/crash.rs:173-185 expects. `GapCeiling` proves that
  a gap then stops the tail for good.
- `recover` is documented as safe to run at any time (recovery.rs:7-8). Its abandoning store follows an earlier load
  (recovery.rs:57-64), so a recover that overlaps a live append can abandon a record that was acknowledged in between:
  `RecoverRace.OverlappingRecoverLosesAnAppend` is such a run, for every geometry and payload. `Durability` gives the exact
  condition: an acknowledged record is durable for good if and only if it is still COMMITTED and no recover is, at that
  moment, about to abandon it. The safety results of `Safety` need no condition.
- `trim(up_to)` is documented as covering indices below `up_to` (crates/fence-runtime/src/engine.rs:326); it covers slots
  0..up_to, that is indices 1..=up_to (crates/fence-runtime/src/compaction.rs:49).
- A sweep gives up as soon as the slot at the tail it loaded is not COMMITTED (recovery.rs:145). If a trim abandons that slot
  after another thread moved the tail past it, the sweep ends early and a COMMITTED slot may stay unadvanced until the next
  append or recover: `SweepRace.TrimUnderSweepLosesAdvancement`. `Progress.Doomed` is the exact condition on a state, over the
  tail, the states of slots and where the sweeps are: `Stranding.LostIffDoomed` proves that some run, in which no further death,
  crash or abandoning store dooms, ends that way if and only if the state is doomed. Whether an abandoning store dooms is told
  by the same predicate before it, with its slot taken as no longer COMMITTED (`Stranding.AbandonLosesIff`). Few do
  (`Progress.TwoWaysToDoom`): a trim's only if a sweep loaded that very slot as the tail and has not looked at it yet, while a
  COMMITTED slot waits at the tail and no other thread is left to advance it.
- A trim that has returned is not always durable. It passes over a slot that another trim or recover has abandoned but not
  flushed yet, and a power failure then makes the record readable again: `TrimCrash.OverlappingTrimIsUndone` is such a run, for
  every geometry and payload. `TrimCrash.CanReturnIff` is the exact condition, and `TrimCrash.TrimIsDurable` shows that, unless a
  thread dies between its abandoning store and its flush, only a thread that is just about to flush can leave it so.
- A payload that is too large touches no metric (crates/fence-runtime/src/engine.rs:144-149).
- The space check of create_region wraps for huge sizes (crates/fence-alloc/src/allocator.rs:167), and so does
  `RegionHandle::contains` (crates/fence-alloc/src/region.rs:22). `Regions.CreatePlacesIff` and `Regions.ContainsMeansInside` give the
  exact conditions.

## Model

| member | source | states |
|---|---|---|
| `Media.FlushCoversExactly` | crates/fence-core/src/persistence.rs:77-95 | a flush makes durable exactly the bytes whose cache line meets its range, whatever its alignment, and nothing else |
| `Media.Backend.Flush` | crates/fence-core/src/persistence.rs:77-95 | the line loop performs those write-backs, in order |
| `Media.Backend.FetchAddU64` | crates/fence-core/src/backend.rs:60-65 | returns the old word and stores the wrapped sum, one atomic effect |
| `Media.Backend.CompareExchangeU64` | crates/fence-core/src/backend.rs:67-81 | stores only if the expected word is there; a failure reports the actual word and changes nothing |
| `Bytes.WrapAddMaxIsMinusOne` | crates/fence-runtime/src/engine.rs:158-164 | adding u64::MAX subtracts one modulo 2^64, and undoes the addition of one |
| `Bytes.DecodeEncode` | crates/fence-runtime/src/engine.rs:189-190 | decoding the little-endian encoding of any number that fits returns it |
| `Bytes.EncodeDecode` | crates/fence-runtime/src/engine.rs:266-270 | encoding what any bytes decode to returns those bytes |
| `Bytes.LastByteCountsMost` | crates/fence-runtime/src/engine.rs:189-190 | the byte order: a further byte at the end counts 256^n |
| `Layout.ValidatedGeometry` | crates/fence-config/src/config.rs:176-217 | for every accepted configuration the geometry is well-formed and no u32 or u64 operation of PoolGeometry::new wraps |
| `Layout.ValidateIff` | crates/fence-config/src/config.rs:176-230 | which configurations are accepted, and which field is blamed for each other one |
| `Layout.NewGeometryPanicsIff` | crates/fence-core/src/layout.rs:239-242 | its assertions fail exactly for a zero capacity, payload size or number of hosts |
| `Layout.RegionsTile` | crates/fence-core/src/layout.rs:239-278 | header, records and metrics blocks tile the pool: each byte lies in exactly one of them |
| `Layout.RecordsDisjoint` | crates/fence-core/src/layout.rs:261-263 | a record ends before every later one begins |
| `Layout.AtomicAccessesAligned` | crates/fence-core/src/layout.rs:258-278 | every 64-bit access to header, record metadata or metrics is aligned, in bounds, inside its own region and on one cache line |
| `Records.ContentReadsBack` | crates/fence-runtime/src/engine.rs:177-202 | a record holding what an append writes decodes to exactly that append, and its checksum verifies |
| `Records.DecodeMeans` | crates/fence-runtime/src/engine.rs:263-287 | which bytes of a record a reader takes for each field, the length cut to the payload size, and what the stored checksum is compared with |
| `Records.BodyOpsApart` | crates/fence-runtime/src/engine.rs:177-202 | the stores of an append stay inside the record and off one another, and only the first touches the state byte |
| `Records.WriteBackFrame` | crates/fence-core/src/persistence.rs:77-95 | writing back a line copies exactly the bytes of each record that lie on it, even when records share lines |
| `ProtocolSteps.StepKept` | crates/fence-runtime/src/engine.rs:143-226 | every step of every operation keeps the invariant, its own obligations and those of all other threads |
| `ProtocolSteps.ActionInv` | crates/fence-runtime/src/engine.rs:143-226 | so do calls, returns, evictions, thread deaths and power failures |
| `ProtocolSteps.RunInv` | crates/fence-runtime/src/engine.rs:143-226 | hence every state of every run satisfies the invariant |
| `Safety.NeverStuck` | crates/fence-runtime/src/recovery.rs:126-165 | in every reachable state every unfinished thread can take its next step: no operand is out of range |
| `Safety.TailNeverOutrunsMedia` | crates/fence-runtime/src/engine.rs:203-213 | every slot below committed_tail has fields, payload and checksum durable and visible as its owner's append wrote them, a durable state that is not FREE, and has been COMMITTED |
| `Safety.CommittedMeansDurable` | crates/fence-runtime/src/engine.rs:199-205 | wherever COMMITTED appears, visibly or durably, the content is durable and its owner's |
| `Safety.ReadAgreement` | crates/fence-runtime/src/engine.rs:234-297 | in every run a record returned by read is exactly that of the append that owns the slot, and no read reports a checksum mismatch |
| `Answers.ReadAnswers` | crates/fence-runtime/src/engine.rs:234-297 | amid any other threads a read of an index up to the tail returns its owner's record or None; the record if the slot is COMMITTED at the answer, hence if it stays COMMITTED throughout; None if it was not COMMITTED when the read began |
| `Answers.ReadRefused` | crates/fence-runtime/src/engine.rs:235-248 | a read of index 0, or of one beyond the tail at the answer, is out of bounds, naming a tail it met |
| `Answers.TrimAnswers` | crates/fence-runtime/src/compaction.rs:38-60 | amid any other threads a trim within the tail at its start is done, one beyond the tail at its answer refused; when it is done no slot below its bound is visibly COMMITTED |
| `TrimCrash.TrimIsDurable` | crates/fence-runtime/src/compaction.rs:53-57 | if nobody dies between an abandoning store and its flush, then when a trim is done a slot below its bound is durably COMMITTED only while another thread is about to flush its abandoning store |
| `TrimCrash.CanReturnIff` | crates/fence-runtime/src/compaction.rs:49-58 | a slot that was COMMITTED and is not any more can become COMMITTED again in some continuation if and only if it still is durably |
| `TrimCrash.OverlappingTrimIsUndone` | crates/fence-runtime/src/compaction.rs:49-58 | for every geometry and payload there is a run in which a trim covering a record is done, the power fails, and a read returns the record |
| `Solo.ReadAlone` | crates/fence-runtime/src/engine.rs:234-297 | undisturbed, from any contents: OutOfBounds exactly for index 0 and beyond the tail, None exactly for a slot not COMMITTED, the decoded record exactly if COMMITTED and its checksum verifies, a mismatch otherwise; one counter for the last two, nothing else |
| `Solo.TrimAlone` | crates/fence-runtime/src/compaction.rs:38-60 | undisturbed: refused exactly beyond the tail, touching nothing; otherwise the memory and count of trim on bytes |
| `Solo.RecoverAlone` | crates/fence-runtime/src/recovery.rs:45-113 | undisturbed: the memory and tail of recover on bytes, exactly its count of broken records in the report, and its two counters |
| `Solo.AppendAlone` | crates/fence-runtime/src/engine.rs:143-226 | undisturbed: too large, nothing changes; full, the reservation is undone and one failure counted; else the append's program on the reserved slot, the sweep, the two counters, and the slot as answer |
| `Solo.SweepAlone` | crates/fence-runtime/src/recovery.rs:126-165 | undisturbed: the tail moves to the end of the COMMITTED run from it |
| `Solo.OneOutcome` | crates/fence-runtime/src/engine.rs:143-297 | an operation that runs undisturbed has only that outcome |
| `Solo.GoesIsRun` | crates/fence-runtime/src/engine.rs:143-297 | it is a run of the state machine in which no other thread moves |
| `Safety.GrantsArePermanent` | crates/fence-runtime/src/recovery.rs:126-165 | over every run the owners of slots never change, committed_tail never decreases, and what was COMMITTED stays on record |
| `Safety.SlotsAreExclusive` | crates/fence-runtime/src/engine.rs:151-175 | no two threads ever hold the same slot or are told the same index |
| `Safety.ReservationsAreExact` | crates/fence-runtime/src/engine.rs:151-172 | reserve_tail is the granted slots plus the overflows not undone, which exist only in a full pool; committed_tail is at most the granted slots |
| `Safety.ReservationStep` | crates/fence-runtime/src/engine.rs:151-174 | a reservation takes the first ungranted slot, or finds the pool really full |
| `Safety.PoolFullIsNeverSpurious` | crates/fence-runtime/src/engine.rs:158-172 | PoolFull is answered only when all slots have been granted, even if writers died before their undo |
| `Safety.ReservationRightIff` | crates/fence-runtime/src/engine.rs:151-172 | a reservation step leaves the counter exact if and only if the word before it is not u64::MAX |
| `Safety.WrappedReserve` | crates/fence-runtime/src/engine.rs:151-164 | at u64::MAX the word wraps to 0 and the append is sent to PoolFull |
| `ReservationWrap.WrappedReservationRegrants` | crates/fence-runtime/src/engine.rs:151-174 | for every geometry there is a run to u64::MAX, after which one append wraps the counter and the next is handed slot 0 again |
| `Safety.SweepMakesProgress` | crates/fence-runtime/src/recovery.rs:126-165 | every own step of a sweep lowers a lexicographic rank or ends it, whatever others do; a failed compare-exchange met a larger tail; retries are at most capacity minus the first tail loaded |
| `GapCeiling.GapIsPermanent` | crates/fence-runtime/src/recovery.rs:133-148 | in every continuation committed_tail stays at or below a gap |
| `GapCeiling.CrashGapsIff` | crates/fence-runtime/tests/crash.rs:173-185 | after a crash the gaps are exactly the granted slots from the tail on whose COMMITTED state was not durable |
| `GapCeiling.CrashedWriterIsACeiling` | crates/fence-runtime/tests/crash.rs:173-185 | each of them is a ceiling on the tail in every continuation |
| `GapCeiling.DeadWriterIsACeiling` | crates/fence-runtime/src/engine.rs:177-205 | so is the slot of a writer that dies before storing COMMITTED |
| `GapCeiling.AppendsGoOnPastAGap` | crates/fence-runtime/tests/crash.rs:176-179 | behind a gap appends still get their slots |
| `Durability.AcknowledgedDurableIff` | crates/fence-runtime/src/engine.rs:203-225 | in any run, when append has returned: its record stays COMMITTED, visibly and durably, in every continuation until a trim covers it, if and only if it is still COMMITTED and no recover is about to abandon it |
| `Durability.DurableForGoodIff` | crates/fence-runtime/src/recovery.rs:55-103 | from any state of the invariant: a durably COMMITTED slot stays so in every continuation if and only if no recover is about to abandon it |
| `Durability.AcknowledgedAppendsAreDurable` | crates/fence-runtime/src/engine.rs:203-225 | if up to its return no recover was about to abandon its slot under its live writer, an acknowledged append keeps its content durably, and its COMMITTED state until a trim covers it, in every continuation whatever |
| `Durability.StepKeepsCommitted` | crates/fence-runtime/src/recovery.rs:57-64 | one step takes COMMITTED from a slot beyond every trim if and only if it is the abandoning store of a recover on it |
| `Durability.NotMarkedAfter` | crates/fence-runtime/src/recovery.rs:59-101 | no recover ever decides to abandon a slot that it finds COMMITTED |
| `RecoverRace.RacedAppendCanBeLost` | crates/fence-runtime/src/recovery.rs:57-64 | from every state in which a recover is about to abandon a live append's slot there is a run in which that append is acknowledged, untrimmed, and ends ABANDONED |
| `RecoverRace.OverlappingRecoverLosesAnAppend` | crates/fence-runtime/src/recovery.rs:57-64 | for every geometry and payload such a run starts at a created pool |
| `RecoverRace.AppendAdvances` | crates/fence-runtime/src/engine.rs:174-225 | every own step of an append that holds its slot lowers a lexicographic measure or returns its index |
| `RecoverRace.RunAppendAlone` | crates/fence-runtime/src/engine.rs:174-225 | from every state satisfying the invariant such an append can finish by itself |
| `Progress.NoLostAdvancement` | crates/fence-runtime/src/recovery.rs:130-164 | from any state that is not doomed, in every run whose deaths, crashes and abandoning stores leave it not doomed: whenever the slot at committed_tail is COMMITTED some thread is on its way to advance the tail |
| `Progress.TwoWaysToDoom` | crates/fence-runtime/src/recovery.rs:134-148 | an abandoning store can doom only on the COMMITTED slot at the tail, under a sweep that has passed it, or on a slot behind it that a sweep loaded as the tail and has not looked at yet, while a COMMITTED slot waits at the tail |
| `Stranding.LostIffDoomed` | crates/fence-runtime/src/recovery.rs:130-164 | from every state of the invariant: some run in which no death, crash or abandoning store dooms ends with a COMMITTED slot at the tail and no thread flushing a commit or sweeping, if and only if the state is doomed |
| `Stranding.AbandonLosesIff` | crates/fence-runtime/src/compaction.rs:53-57 | an abandoning store makes such a run possible if and only if the state before it would be doomed with that slot not COMMITTED |
| `Stranding.CrashLosesIff` | crates/fence-runtime/src/recovery.rs:130-164 | a power failure does if and only if the slot at committed_tail is durably COMMITTED |
| `Progress.TailCaughtUpIff` | crates/fence-runtime/src/engine.rs:207-213 | from a created pool, in every run without deaths and crashes whose abandoning stores do not doom, with no append, no flush of a commit and no sweep under way, a recover's included: committed_tail equals the granted slots if and only if it does not stand at a granted slot that is ABANDONED |
| `Progress.TailCatchesUp` | crates/fence-runtime/src/engine.rs:207-213 | if moreover no recover abandons a COMMITTED slot at or above the tail, then with no append, no flush of a commit and no sweep under way committed_tail equals the number of granted slots |
| `SweepRace.TrimUnderSweepLosesAdvancement` | crates/fence-runtime/src/recovery.rs:145-148 | for every pool of two slots or more there is a run without deaths, crashes, recoveries and evictions after which both appends have returned, a COMMITTED slot waits at committed_tail and no thread is flushing a commit or sweeping |
| `SweepRace.TrimArrives` | crates/fence-runtime/src/recovery.rs:145-148 | just before that run's trim abandons slot 0 the state is not doomed, and would be without slot 0 |
| `SweepRace.Drive` | crates/fence-runtime/src/engine.rs:174-205 | an append that holds its slot can run alone to its sweep, which leaves its slot COMMITTED and every other state and both tails as they were |
| `Accounting.AppendsAreConserved` | crates/fence-runtime/src/metrics.rs:42-160 | in death-free runs the granted slots are appends_total summed over hosts plus the appends that hold a slot uncounted |
| `Accounting.FailuresAreAnswers` | crates/fence-runtime/src/engine.rs:158-172 | in death-free runs appends_failed over all hosts is at every moment the number of PoolFull answers given, modulo 2^64 |
| `Accounting.QuiescentTotals` | crates/fence-runtime/src/engine.rs:215-222 | with no append in flight appends_total is the number of granted slots, bytes_written the sum of all data lengths, appends_failed the number of PoolFull answers modulo 2^64 |
| `Accounting.OwnBlockOnly` | crates/fence-runtime/src/metrics.rs:42-135 | a step changes the metrics block of its own host only |
| `Accounting.BumpTotal` | crates/fence-runtime/src/metrics.rs:143-160 | adding to one counter of one host adds to that aggregate and to no other |
| `RecoverySpec.TailEndIsMaximal` | crates/fence-runtime/src/recovery.rs:133-148 | the tail recovery aims at ends the maximal run of finally COMMITTED slots |
| `Confluence.RecoveryIsConfluent` | crates/fence-runtime/src/recovery.rs:45-113 | from any visible and durable contents with no thread at work, any recoverers interleaved step by step, killed anywhere with any lines written back, and with power failures anywhere if the contents were durable: whenever one returns, states, bodies, committed_tail, and the tail and scan it reports are those of one uninterrupted recovery of the visible contents, which abandons at least as many slots as it reports |
| `Confluence.StopThenRecover` | crates/fence-runtime/src/recovery.rs:45-113 | after any run whose threads have all returned or died, and a completed recovery without a power failure, every slot below the tail is COMMITTED or ABANDONED with its owner's content, COMMITTED exactly if it visibly was |
| `Confluence.CrashThenRecover` | crates/fence-runtime/src/recovery.rs:45-113 | after a crash in any run and a completed recovery every slot below the old tail is COMMITTED or ABANDONED with its owner's content, COMMITTED exactly if it durably was |
| `Recovery.RecoverExact` | crates/fence-runtime/src/recovery.rs:49-112 | from arbitrary bytes: a scanned slot ends COMMITTED iff it was with a matching checksum, FREE iff it was, else ABANDONED, durably if new; no other byte but the tail changes; the tail ends at the maximal COMMITTED run |
| `Recovery.ReportMeans` | crates/fence-runtime/src/recovery.rs:45-113 | the report: how many of the first min(reserve_tail, capacity) records were broken, the tail in the header afterwards, the slots scanned |
| `Recovery.BrokenMeans` | crates/fence-runtime/src/recovery.rs:59-101 | a record is broken exactly if it is neither FREE nor ABANDONED nor COMMITTED with a checksum that verifies |
| `Recovery.RecoverIdempotent` | crates/fence-runtime/src/recovery.rs:7-8 | a second recover changes no byte, abandons nothing and reports the same tail |
| `Recovery.ScanExact` | crates/fence-runtime/src/recovery.rs:55-103 | each prefix of the scan changes exactly the broken slots it covered |
| `Recovery.Recover` | crates/fence-runtime/src/recovery.rs:45-113 | the loop computes that memory and report, with abandoned_count the number of broken slots |
| `Recovery.ScanSlot` | crates/fence-runtime/src/recovery.rs:55-103 | one iteration abandons the record, durably, exactly if its state or checksum is broken |
| `Recovery.Verify` | crates/fence-runtime/src/recovery.rs:66-86 | the checksum test on any record bytes, the stored length cut to the payload size |
| `Recovery.SweepFrom` | crates/fence-runtime/src/recovery.rs:133-143 | the inner loop finds the end of the COMMITTED run |
| `Recovery.AdvanceCommittedTail` | crates/fence-runtime/src/recovery.rs:126-165 | alone, in one attempt, it sets the tail to that end, returns it and changes nothing else |
| `Compaction.TrimExact` | crates/fence-runtime/src/compaction.rs:47-60 | trim makes exactly the COMMITTED slots among the first up_to ABANDONED, durably, and changes no other byte, the tails included |
| `Compaction.CommittedCountIs` | crates/fence-runtime/src/compaction.rs:47-60 | the count is the number of slots below the bound that were COMMITTED |
| `Compaction.TrimComposes` | crates/fence-runtime/src/compaction.rs:33-61 | for a <= b, trim(a) then trim(b) is trim(b), in both views, and the counts add up |
| `Compaction.InterruptedTrimsConverge` | crates/fence-runtime/src/compaction.rs:47-58 | trims interrupted anywhere, any number of times, by power failures with any lines written back, then trim again: every record is as after one undisturbed trim, durably too if a power failure was the last interruption |
| `Compaction.Trim` | crates/fence-runtime/src/compaction.rs:33-61 | the loop computes that memory and count, or refuses beyond committed_tail and changes nothing |
| `Metrics.BumpExact` | crates/fence-runtime/src/metrics.rs:42-135 | an increment changes its counter, no other counter of any host, and nothing below the metrics blocks |
| `Metrics.BumpTally` | crates/fence-runtime/src/metrics.rs:143-160 | one host's increment shows up once in the aggregate of its counter |
| `Metrics.CountersByName` | crates/fence-runtime/src/metrics.rs:29-160 | which aggregate the counter at each offset of a block feeds, and that it feeds no other |
| `Metrics.ReadStats` | crates/fence-runtime/src/metrics.rs:143-160 | the loop sums every counter over all hosts, modulo 2^64 |
| `LogImage.AppendFacts` | crates/fence-runtime/src/engine.rs:177-205 | the program of an append, run to its end, leaves its slot COMMITTED with its content, durably, and touches no other record |
| `LogImage.AppendExtends` | crates/fence-runtime/src/engine.rs:151-205 | reserving and writing on a pool that represents a log, gaps included, gives a pool that represents the log with one more live slot |
| `LogImage.SweepSweeps` | crates/fence-runtime/src/recovery.rs:126-165 | advance_committed_tail on a represented log moves its tail over the live slots from it, and no further |
| `LogImage.UndoRestores` | crates/fence-runtime/src/engine.rs:158-164 | the undo of an overflowing reservation restores memory byte for byte |
| `LogImage.TrimTrims` | crates/fence-runtime/src/compaction.rs:33-61 | trim on bytes is trim of the abstract log, with the count of live entries |
| `LogImage.RecoverSweeps` | crates/fence-runtime/src/recovery.rs:45-113 | recover on a represented log, whatever its gaps hold, sweeps it and changes nothing else of it; it scans every slot handed out and counts as abandoned at most the gaps |
| `LogImage.PowerCycleLosesNothing` | crates/fence-runtime/src/engine.rs:562-595 | between calls a power cycle leaves every byte of the pool as it was |
| `AbstractLog.EndFromIsMaximal` | crates/fence-runtime/src/recovery.rs:133-148 | the abstract sweep ends at the first slot that is not live |
| `AbstractLog.AppendMeans` | crates/fence-runtime/src/engine.rs:143-226 | an append adds its record as the last slot, changes no other, and leaves the tail behind live slots only, at the end or before a slot that is not live |
| `AbstractLog.SweepMeans` | crates/fence-runtime/src/recovery.rs:126-165 | recover changes no slot and moves the tail in the same way |
| `AbstractLog.TrimMeans` | crates/fence-runtime/src/compaction.rs:49-58 | trim makes the first n slots trimmed and changes nothing else |
| `AbstractLog.CountsAre` | crates/fence-runtime/src/compaction.rs:47-60 | the counts of live slots and of gaps are the numbers of such slots |
| `AbstractLog.GapStopsTail` | crates/fence-runtime/tests/crash.rs:173-185 | no sweep of the abstract log passes a gap |
| `AppendCrash.AppendIsAtomic` | crates/fence-runtime/src/engine.rs:151-205 | an append cut short anywhere between its stores and flushes, any lines evicted, then a power cycle: the pool represents the log as before, or with a gap, or with the whole record; the last if the flushes were done |
| `AppendCrash.CutAppendRecovers` | crates/fence-runtime/src/recovery.rs:45-113 | recover then settles each of these, with the tail swept |
| `AppendCrash.LostUndo` | crates/fence-runtime/src/engine.rs:158-164 | a writer that dies before its undo leaves one more undo owed and the log as it was |
| `CrashRuns.RunByteIn` | crates/fence-core/src/backend.rs:36-106 | under any evictions a byte only ever holds, in either view, what it held or what the program stores there |
| `StepPrograms.StepIsProgramOp` | crates/fence-runtime/src/engine.rs:177-213 | the k-th step of an append in the state machine does to memory exactly the k-th operation of the method's program, and moves on |
| `StepPrograms.FirstStage` | crates/fence-runtime/src/engine.rs:151-175 | a reservation below capacity starts that program on the slot it returned |
| `StepPrograms.AbandonStepIsProgramOp` | crates/fence-runtime/src/compaction.rs:53-57 | the steps by which recover and trim abandon a slot are, one by one, the operations of the methods' program |
| `StepPrograms.AbandonIsProgram` | crates/fence-runtime/src/recovery.rs:62-64 | that program is what the methods do to memory |
| `StepPrograms.ScanDecides` | crates/fence-runtime/src/recovery.rs:57-101 | recover's loads and checksum test, undisturbed, lead to abandoning exactly if the record is broken |
| `Engine.FreshIsEmpty` | crates/fence-runtime/src/engine.rs:90-106 | a created pool represents the empty log and all its counters are zero |
| `Engine.InitHeader` | crates/fence-runtime/src/engine.rs:90-106 | creation writes all seven header words durably and nothing else |
| `Engine.FenceRuntime.constructor` | crates/fence-runtime/src/engine.rs:86-106 | the create branch of open: a new runtime starts with the empty log |
| `Engine.FenceRuntime.Open` | crates/fence-runtime/src/engine.rs:107-128 | the other branch: a pool that represents a log is opened with that log, or refused for its magic number |
| `Engine.WriteRecord` | crates/fence-runtime/src/engine.rs:177-205 | steps 3 to 7 perform the append's stores and flushes in exactly the program's order |
| `Engine.FenceRuntime.Append` | crates/fence-runtime/src/engine.rs:143-226 | too large: nothing changes; full: PoolFull with the log untouched and one failure counted; else the record takes the next slot, gaps before it or not, its index is returned, the tail sweeps, metrics move, and the trace is a reservation followed by the program |
| `Engine.ReadRecord` | crates/fence-runtime/src/engine.rs:234-297 | from arbitrary bytes: out of range, missing, mismatched or decoded record, and at most one counter moves |
| `Engine.ReadAgrees` | crates/fence-runtime/src/engine.rs:234-297 | on a represented log read answers as the abstract log does, and never reports a mismatch |
| `Engine.ReadMeans` | crates/fence-runtime/src/engine.rs:234-297 | from any bytes: exactly when read answers what, a wrong checksum included, and which aggregate counter moves |
| `Engine.AppendReadsBack` | crates/fence-runtime/src/engine.rs:143-297 | on a log without gaps the index an append returns reads back as its record, and all earlier ones read as before |
| `Engine.TrimReadsNone` | crates/fence-runtime/src/compaction.rs:49-58 | after trim(n) indices up to n read as missing and others as before |
| `Engine.HeaderMeans` | crates/fence-runtime/src/engine.rs:317-324 | the magic number and the two tails by their offsets in the header |
| `Engine.FenceRuntime.Read` | crates/fence-runtime/src/engine.rs:234-297 | live entries up to the tail are returned and counted, trimmed ones are None, other indices are out of bounds |
| `Engine.FenceRuntime.ReadRange` | crates/fence-runtime/src/engine.rs:303-314 | the live records of [start, end) in order, or the error of the first index out of range; in both cases the reads made are counted |
| `Engine.RangeRefusedIff` | crates/fence-runtime/src/engine.rs:303-314 | read_range is refused exactly if some index of the range is out of range, and names the first such |
| `Engine.RangeInOrder` | crates/fence-runtime/src/engine.rs:303-314 | its records come in strictly increasing order of their indices |
| `Engine.RangeContains` | crates/fence-runtime/src/engine.rs:303-314 | they are exactly the records of the live slots of the range |
| `Engine.FenceRuntime.Trim` | crates/fence-runtime/src/engine.rs:327-329 | the first up_to entries become trimmed and the live ones among them are counted, or the call is refused |
| `Engine.FenceRuntime.Recover` | crates/fence-runtime/src/engine.rs:332-346 | on any represented pool, after a crash or not: the tail sweeps, the log is otherwise unchanged, and the report and counters say so |
| `Engine.RecoverPool` | crates/fence-runtime/src/engine.rs:332-346 | from arbitrary bytes: recovery, one run counted, and abandoned_found raised by the count if that is positive |
| `Engine.RecoveryTallyMeans` | crates/fence-runtime/src/engine.rs:334-344 | recovery_runs goes up by one and abandoned_found by the count |
| `Engine.FenceRuntime.CommittedTail` | crates/fence-runtime/src/engine.rs:317-319 | the tail of the log |
| `Engine.FenceRuntime.ReserveTail` | crates/fence-runtime/src/engine.rs:322-324 | the slots handed out plus the undos owed |
| `Engine.FenceRuntime.Stats` | crates/fence-runtime/src/engine.rs:349-351 | what every call has added to the counters since the pool was created or opened, on top of what they held |
| `CrashRuns.PersistRun` | crates/fence-alloc/src/catalog.rs:182-184 | a value on one line, stored and flushed, is durably old or new at every crash point, and new once flushed |
| `CrashRuns.RunFrame` | crates/fence-core/src/backend.rs:36-106 | under any evictions, bytes a program does not store to stay as they were in both views |
| `Catalog.FromU8` | crates/fence-alloc/src/catalog.rs:45-53 | None exactly for bytes that name no state |
| `Catalog.DecodeEntryMeans` | crates/fence-alloc/src/catalog.rs:118-153 | which bytes of an entry a reader takes for each field, whatever they hold |
| `Catalog.FieldsReadBack` | crates/fence-alloc/src/catalog.rs:118-185 | fields read back as written, the name cut to 24 bytes, under the entry's old state |
| `Catalog.ReadAfterWrite` | crates/fence-alloc/src/catalog.rs:118-185 | read_entry after write_entry returns the entry for names of at most 24 bytes, and every other entry and the header read as before |
| `Catalog.WriteApplied` | crates/fence-alloc/src/catalog.rs:159-185 | write_entry leaves the entry durable and touches no other byte |
| `Catalog.ReadEntry` | crates/fence-alloc/src/catalog.rs:118-153 | decodes the entry from any bytes: unknown states as Free, a name length of 0 or above 24 as no name |
| `Catalog.WriteEntry` | crates/fence-alloc/src/catalog.rs:159-185 | fields, flush, state, flush, in that order |
| `Regions.CreatePlacesIff` | crates/fence-alloc/src/allocator.rs:158-171 | a successful create keeps all regions in the pool, past the catalog, 64-aligned, disjoint and uniquely named if and only if its offset plus size does not wrap |
| `Regions.WrappedCreateOverruns` | crates/fence-alloc/src/allocator.rs:165-171 | a size for which it wraps is accepted and the region overruns the pool |
| `Regions.PoolSizesAddUp` | crates/fence-alloc/src/allocator.rs:165-171 | a size no larger than the pool never wraps |
| `Regions.MaxEndBounds` | crates/fence-alloc/src/allocator.rs:328-341 | the placement loop returns a bound on every end it covers, within the pool |
| `Regions.AlignUpBounds` | crates/fence-alloc/src/allocator.rs:339-340 | rounding up to 64 moves by less than 64 |
| `Regions.ContainsMeansInside` | crates/fence-alloc/src/region.rs:21-23 | contains accepts exactly the ranges inside the region, for ranges that do not wrap |
| `Regions.ContainsAcceptsWrapped` | crates/fence-alloc/src/region.rs:21-23 | which ranges that wrap it accepts |
| `Regions.RelativeRangesAccepted` | crates/fence-alloc/src/region.rs:21-28 | a relative range that does not wrap is accepted at its absolute offset if and only if it lies within the region's size |
| `Regions.RegionsAreIsolated` | crates/fence-alloc/src/region.rs:21-28 | a byte of an access one live handle accepts is in the pool, off the catalog, and in no other live region |
| `Regions.CallsAreAtomic` | crates/fence-alloc/src/allocator.rs:286-308 | after any crash outcome of a call, recovery lists the regions of before or of after |
| `Regions.PlacementHolds` | crates/fence-alloc/src/allocator.rs:140-210 | over every history of creates, frees, recoveries and crashes whose sizes add up, placement holds |
| `Regions.CountTracksReality` | crates/fence-alloc/src/allocator.rs:192-241 | the header count differs from the number of active regions by at most the number of crashes, through the saturating decrement and through recover |
| `Regions.FromInit` | crates/fence-alloc/src/allocator.rs:74-113 | from init on: placement, count bound, and an exact count without crashes |
| `Regions.ListHas` | crates/fence-alloc/src/allocator.rs:264-280 | a handle is listed if and only if its slot is active with exactly that name, offset and size |
| `RegionCalls.ListInOrder` | crates/fence-alloc/src/allocator.rs:264-280 | the list goes by strictly increasing catalog slot |
| `RegionCalls.FindMeans` | crates/fence-alloc/src/allocator.rs:246-261 | find_region returns a listed region of that name, and NotFound exactly if none is listed |
| `RegionCalls.FindIsTheOne` | crates/fence-alloc/src/allocator.rs:246-261 | on a well-placed catalog it returns each listed region under its name |
| `RegionCalls.CreateSucceedsIff` | crates/fence-alloc/src/allocator.rs:140-171 | create succeeds exactly if the name is short and unused, an entry is free, and there is room, an exact fit included |
| `RegionCalls.CreateReturns` | crates/fence-alloc/src/allocator.rs:158-209 | its handle: the first free slot, the name and size asked for, the least line-aligned offset with room |
| `RegionCalls.CreateFailsBy` | crates/fence-alloc/src/allocator.rs:140-171 | which error it returns otherwise, in the order of the checks, sizes that wrap included |
| `RegionCalls.CreateAdds` | crates/fence-alloc/src/allocator.rs:173-202 | afterwards the new region is listed with all others, its entry is exactly as asked, no other entry has changed, and the count is one more |
| `RegionCalls.FindAfterCreate` | crates/fence-alloc/src/allocator.rs:204-261 | find_region then returns exactly the handle that create returned |
| `RegionCalls.FreeRemoves` | crates/fence-alloc/src/allocator.rs:213-243 | afterwards the regions listed are those of other names, find_region answers NotFound, and no other entry has changed |
| `RegionCalls.FreeCounts` | crates/fence-alloc/src/allocator.rs:227-240 | the count goes down by one, never below 0, exactly if a region was freed |
| `RegionCalls.RecoverFrees` | crates/fence-alloc/src/allocator.rs:286-308 | recover frees exactly the ALLOCATING and FREEING entries, changing their state only, so that every entry ends FREE or ACTIVE |
| `RegionCalls.RecoverCounts` | crates/fence-alloc/src/allocator.rs:286-308 | it returns the number of such entries |
| `RegionCalls.RecoverTwice` | crates/fence-alloc/src/allocator.rs:286-308 | a second recover changes nothing and returns 0 |
| `RegionCalls.SettledAfterCrash` | crates/fence-alloc/src/allocator.rs:286-308 | after any crash during any call and a recover, every entry is FREE, or ACTIVE and listed |
| `AllocatorCrash.CreateRun` | crates/fence-alloc/src/allocator.rs:173-202 | at every crash point of create, with any evictions, the durable catalog differs under one FREE entry only, or has the whole entry ALLOCATING or ACTIVE, or is final |
| `AllocatorCrash.TwoStatesRun` | crates/fence-alloc/src/allocator.rs:217-241 | the same for free: old, FREEING, FREE, or final |
| `AllocatorCrash.RecoverRun` | crates/fence-alloc/src/allocator.rs:286-308 | a crash during recover leaves some first entries fixed and the rest untouched |
| `AllocatorCrash.CallRun` | crates/fence-alloc/src/allocator.rs:140-308 | every interrupted call leaves one of these catalogs; every completed call ends durably on what it promises |
| `AllocatorCrash.CrashIsAtomic` | crates/fence-alloc/src/allocator.rs:173-308 | cut a call short anywhere, evict any lines, recover: list_regions is that of before or of after, never a partial entry |
| `Allocator.RegionAllocator.Init` | crates/fence-alloc/src/allocator.rs:74-113 | a fresh, durable catalog over any contents, or OutOfSpace |
| `Allocator.RegionAllocator.Open` | crates/fence-alloc/src/allocator.rs:116-133 | accepts exactly the right magic number |
| `Allocator.RegionAllocator.CreateRegion` | crates/fence-alloc/src/allocator.rs:140-210 | result and catalog of create in all five outcomes, by exactly the program whose crash points are covered |
| `Allocator.RegionAllocator.FreeRegion` | crates/fence-alloc/src/allocator.rs:213-243 | the first active region of that name is freed, or NotFound; same programs |
| `Allocator.RegionAllocator.FindRegion` | crates/fence-alloc/src/allocator.rs:246-261 | the first active entry of that name |
| `Allocator.RegionAllocator.ListRegions` | crates/fence-alloc/src/allocator.rs:264-280 | the active regions in catalog order |
| `Allocator.RegionAllocator.Recover` | crates/fence-alloc/src/allocator.rs:286-308 | every ALLOCATING or FREEING entry becomes FREE; their number is returned |
| `Allocator.RegionAllocator.FindFreeSlot` | crates/fence-alloc/src/allocator.rs:317-325 | the first free entry |
| `Allocator.RegionAllocator.NextFreeOffset` | crates/fence-alloc/src/allocator.rs:328-341 | the aligned end of all taken space |
| `AllocatorHistory.EpisodeIsEvent` | crates/fence-alloc/src/allocator.rs:140-308 | a call on bytes, crashed or completed, is an event of the decoded catalog; client writes and evictions do not show |
| `AllocatorHistory.LivesAreSafe` | crates/fence-alloc/src/allocator.rs:140-341 | over every life of a pool on bytes, placement holds and the count is off by at most the number of crashes |
| `AllocatorHistory.CountExactWithoutCrashes` | crates/fence-alloc/src/allocator.rs:192-241 | without crashes the header count is the number of regions listed |

## Left out

- Recovery.AdvanceCommittedTail: the method runs alone, so its loop takes one attempt; interference is in `Protocol.StepSweep`, and `Safety.SweepMakesProgress` bounds the retries.
- Engine.FenceRuntime.Append: contracts of the class are for one caller at a time; interleavings are covered by the state machine.
- Confluence.RecoveryIsConfluent: the abandoned count of a report is bounded, not determined; two recoverers may share the broken slots between them, or both count one.
- Progress.TailCatchesUp: excludes recoveries that abandon a COMMITTED slot at or above the tail; `Progress.TailCaughtUpIff` covers them.
- Engine.FenceRuntime.ReadRange: the code first reserves space for end - start entries and panics if that overflows: for an end below the start, which the method excludes, and for a huge range, where the method answers with the first index out of range.
- A writer killed with lines still dirty, without a power failure, is an event of the state machine (`Confluence.StopThenRecover`), not of the byte-level log.
- Regions.CountTracksReality: bounds the number of crashes by 2^64, below which the 64-bit count cannot wrap.
- Opening an existing pool checks its magic number only, as the code does; that its header agrees with the geometry is assumed.
- A power failure in the middle of trim or recover is covered for records (`Compaction.InterruptedTrimsConverge`, `Confluence`), not as an event of the abstract log.
- A multi-byte write is one step; a crash inside the copy of a payload is not a separate state. No result reads the content of an unsealed record.
- Names are byte strings: `from_utf8_lossy` is the identity on the UTF-8 that create_region writes, and its replacement characters on other bytes are not modelled.
- Crashes during the allocator's `init` are not covered; nothing is promised before it returns.
- Concurrent callers of the allocator: the catalog has no atomic claim of a slot.
- The arithmetic of CRC-32 and its resistance to collisions.
- Weak memory orderings, per-host caches that are not coherent, and loss of the log's header words.
- `MmapBackend`, raw pointers, libc calls and the intrinsics behind `clwb` and `sfence`; only their effect is modelled.
- TOML parsing, path resolution, the command line, Display implementations and the test harness.
- Features the documentation announces and the code does not have: segmented log, circular overflow, watermarks, epoch increment.
