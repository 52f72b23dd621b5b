# Verification of the driver-to-agent evidence pipeline

This project models how the secoutfall kernel driver and agent collect evidence about a
running sample, and proves what the code's comments promise about whole runs. It follows
the data: the shared-memory ring a hooked process writes its calls into; the records the
driver's notification callbacks build byte by byte; the three bounded queues they wait in;
the merged drain that copies them out; the decoder and the fault-tolerant walk on the
agent's side. Around it stand the driver's injection ledger, identity table and drop
capture, and the agent's study history, analysis scope, behaviour chains, scoring and
command-line splitter.

Code that changes state in place is a class or a method with loops (`SharedRing`,
`BoundedQueue`, `Device`, `InjectionLedger`, `IdentityTable`, `StreamContext`,
`ChainDetector`, `ScoringPlugin`, `ScopeTrackerPlugin`, `SessionManagerPlugin`, the record
emitters, the decoding and splitting loops). Where threads interleave there is also a step
machine, a datatype with `Next` and `After`; each method is proved to be one or several of
its steps, and the promises are lemmas about `After` of every run. Where a promise rests on
the environment, a predicate on the step taken names what it rests on (`InOrder`, `NoReuse`,
`SensorWaits`, `Timely`, `Clean`), and where the code can break a promise a lemma says
exactly when it does.

| file | what it models |
|---|---|
| Wire.dfy | record layouts, constants, `CopyNameW`, the bytes of every record |
| Emitters.dfy | the driver's record builders over a byte buffer |
| Decoder.dfy, Refusals.dfy | the agent's decoder; exactly what it accepts, reads and refuses |
| RoundTrip.dfy, WireTable.dfy | decoding undoes emitting; truncation flags; each notification by its literal code, flags and caps |
| Queues.dfy, Pipeline.dfy, QueueClasses.dfy | the bounded queues; sequence conservation over every interleaving; which queue each record enters |
| Drain.dfy, Driver.dfy | the merged drain and the device object around it |
| Walk.dfy, EndToEnd.dfy, WholeRuns.dfy | the agent's walk over a batch; from notification to decoded record, at every reachable state |
| SensorRing.dfy, RingMemory.dfy, TornReads.dfy, StuckDrains.dfy | producers and drainer of the shared ring; when a drained record is torn; when drains stick |
| LedgerRuns.dfy, LedgerFacts.dfy, OnceOnly.dfy, Ledger.dfy | the injection ledger and its unlocked windows; what it claims, records and grants, from its events; its one APC and one registration per process |
| Identity.dfy, DropCapture.dfy | the hashed identity table; one stream's capture; stored names |
| StudyRuns.dfy, SessionManager.dfy | sessions over boots, persistence, finalization |
| ScopeRuns.dfy, ScopeEvents.dfy, ScopePlugin.dfy | scope membership, provenance, drop reports; exactly which bus events are published |
| Chains.dfy, Scoring.dfy, ScoreRuns.dfy | behaviour chains, score maximum, what each event is worth |
| CommandLine.dfy | argument splitting |

The code differs from its documentation in places, and the model follows the code:

- A queue is sorted exactly while every push is younger than its queue's tail (`Pipeline.SortedIffInOrder`); overlapping emitters break it from any state (`Pipeline.DividedEmittersDisorder`).
- A drain batch is ordered exactly if no younger head is taken where the oldest does not fit (`Drain.OrderedIffNoMiss`); `Drain.AfterMissDisorder` shows such a batch.
- Slot sequences do not make torn reads detectable: the drainer never looks at them again after copying. A record is torn exactly if a word was overwritten between its claim's own store and the copy (`TornReads.TornIffOverwritten`), and any copy can be torn (`TornReads.AnyCopyCanBeTorn`, `TornReads.SomeReadIsTorn`).
- A rename's old path is cut before the copy that would flag it: `RoundTrip.RenamedOldPathFaithful`.
- The ring's `dropped` counts every write onto a used slot, drained or not: `SensorRing.DroppedCountsEveryLap`.
- Under overrun a drain can stop getting on: a late commit of an older claim over a newer one leaves the cursor's slot with a smaller sequence, which the resync does not see. A drain that is behind within a lap sticks there until the lap is full exactly if its slot lacks its claim and nobody is left to commit the cursor's claim (`StuckDrains.StuckIff`), and any late commit can bring that about (`StuckDrains.AnyLateCommitSticks`, `StuckDrains.SomeDrainSticks`).
- The ledger's fixup settles whatever entry has the pid by then. Entries are well shaped exactly while no fixup settles one that has not been seen as far (`LedgerRuns.ShapedIffFixupsSeen`); `LedgerRuns.ReusedPidBreaksShape` breaks it. Each has one APC shot exactly while no fixup puts one back that has a shot standing (`OnceOnly.SingleIffFixupsFresh`); `OnceOnly.ReusedPidIsPutBack` and `OnceOnly.StaleFixupQueuesTwice` lead to a second APC.
- Injection.h says that `Ready` means thread and ntdll base present. It lacks the thread exactly while the process has mapped ntdll and started no thread (`LedgerRuns.UnseenReadyIffImageOnly`), which an image that finds the entry in `PendingThread` brings about and the first thread ends (`LedgerRuns.UnseenReadyStep`); any run can go on to it (`LedgerRuns.ImageFirstIsReady`).
- A process registers twice exactly if a fixup puts its registered entry back and it is then claimed again and registers again (`OnceOnly.RegisteredTwiceIff`); a sensor that registers before its attempt ends starts this (`OnceOnly.EarlyRegistrationIsUndone`, `OnceOnly.UndoneRegistersAgain`).
- Backslashes before an unquoted space are carried into the next word: `CommandLine.PlainWordsComeBack`.
- Chain counters are 32 bits wide and wrap: `Chains.WrappedCounterHidesChain`.
- An ended session is final exactly while no save overwrites its end (`StudyRuns.FinalIffNeverOverwritten`); a persist tick that overlaps finalization can (`StudyRuns.OverlappingSavesUndoTheEnd`), and so can the final save itself, whose snapshot is taken before the save is awaited (`StudyRuns.FinalSaveCanOverwrite`).

## Model

| member | source | states |
|---|---|---|
| SensorRing.DrainedExactly | crates/injectee/src/sensor.rs:278-312 | in every interleaving of any number of producers with the drainer in which no claim runs a full ring ahead of the live cursor, the delivered records are exactly the payloads of claims 0, 1, 2, ... in order, none torn, lost or repeated, and the drain counts nothing dropped |
| SensorRing.CursorAccountsForEverything | driver/secoutfall/Injection.cpp:887-931 | in every interleaving, overruns included, delivered claim indices strictly increase, stay below the cursor, and cursor = delivered + counted as dropped, never ahead of the write index |
| SensorRing.NewerSlotIsResynced | driver/secoutfall/Injection.cpp:887-896 | once the cursor's slot holds a newer sequence, the next drain's resync moves the cursor forward and counts the loss, whatever ran in between |
| SensorRing.DroppedCountsEveryLap | crates/injectee/src/sensor.rs:296-302 | with no overrun, nothing lost and all producers finished, the producers' `dropped` still equals the number of writes past the first lap |
| RingMemory.DrainedBacklog | driver/secoutfall/Injection.cpp:882-931 | a drain with nothing else running, overrun or not, resyncs past what was overwritten and then delivers exactly the committed records from there on, in order, up to 256 or to the first uncommitted slot |
| RingMemory.BacklogIsCommitted | driver/secoutfall/Injection.cpp:898-916 | without overrun and with all producers finished, those are the whole backlog up to 256 |
| RingMemory.SharedRing.Emit | crates/injectee/src/sensor.rs:278-312 | a whole emit performs exactly the claim, load, count, payload and commit steps of the step machine |
| RingMemory.SharedRing.DrainRings | driver/secoutfall/Injection.cpp:882-931 | a whole drain performs exactly the step machine's drain of that ring: which records it delivers, what it counts lost, where the cursor ends |
| TornReads.DeliveredIsLastStored | driver/secoutfall/Injection.cpp:898-916 | in every interleaving, overruns included, each delivered word was copied after its claim's own store and is the word of whichever claim stored there last |
| TornReads.TornIffOverwritten | driver/secoutfall/Injection.cpp:853-916 | a delivered record differs from its claim's payload if and only if another holder of its slot stored a different word between the claim's own store and the drainer's copy |
| TornReads.AnyCopyCanBeTorn | driver/secoutfall/Injection.cpp:898-916 | from any state in which the drainer is about to copy, a thread that goes on emitting can have its word delivered in front of the words found |
| TornReads.SomeReadIsTorn | driver/secoutfall/Injection.cpp:853-855 | a run from the start whose first delivered record is nobody's payload |
| StuckDrains.StuckUntilLap | driver/secoutfall/Injection.cpp:887-904 | a drain whose cursor is behind within a lap at a slot that does not hold its claim, with nobody left to commit it there, delivers, loses and moves nothing in any run up to the next lap |
| StuckDrains.StuckIff | driver/secoutfall/Injection.cpp:887-904 | a resting drain that is behind within a lap never moves within that lap, in any continuation, if and only if it is in that state |
| StuckDrains.AnyLateCommitSticks | driver/secoutfall/Injection.cpp:898-904 | from any state with a resting drain and a thread about to commit, another thread's emits and the late commit lead to a stuck drain |
| StuckDrains.SomeDrainSticks | driver/secoutfall/Injection.cpp:898-904 | a run from the start after which the drain is stuck |
| Wire.RecordsFit | driver/secoutfall/secoutfallCommon.h:273-294 | every record any emitter builds, whatever the strings, is at least a header and at most SECOUTFALL_MAX_RECORD_BYTES |
| Wire.UnitsRoundTrip | driver/secoutfall/secoutfall.cpp:139-153 | copied string bytes and their UTF-16 units determine each other |
| Wire.LeRoundTrip | driver/secoutfall/secoutfallCommon.h:89-106 | little-endian fields give back their value when it fits the width |
| Emitters.CopyName | driver/secoutfall/secoutfall.cpp:139-153 | copies whole 16-bit units up to the cap and reports a cut exactly when bytes were left out |
| Emitters.AllocRecord | driver/secoutfall/secoutfall.cpp:185-213 | leaves the complete header in a zeroed buffer of the record's size |
| Emitters.EmitProcessCreated | driver/secoutfall/secoutfall.cpp:1430-1466 | writes exactly the record's bytes: absent strings get offset zero, flags and extents match the copies |
| Emitters.EmitThread | driver/secoutfall/secoutfall.cpp:1494-1503 | writes exactly the record's bytes |
| Emitters.EmitImageLoaded | driver/secoutfall/secoutfall.cpp:1527-1551 | writes exactly the record's bytes, the image size cut to 32 bits |
| Emitters.EmitRegistryKey | driver/secoutfall/secoutfall.cpp:605-623 | writes exactly the record's bytes |
| Emitters.EmitRegistrySetValue | driver/secoutfall/secoutfall.cpp:625-661 | writes exactly the record's bytes: two strings, the capped data behind them, three flags; a null data pointer leaves zero bytes |
| Emitters.EmitFile | driver/secoutfall/secoutfall.cpp:523-540 | writes exactly the record's bytes |
| Emitters.EmitFileWritten | driver/secoutfall/secoutfall.cpp:1718-1735 | writes exactly the record's bytes |
| Emitters.EmitFileRenamed | driver/secoutfall/secoutfall.cpp:550-580 | writes exactly the record's bytes |
| Emitters.EmitDropCaptured | driver/secoutfall/secoutfall.cpp:392-421 | writes exactly the record's bytes |
| Emitters.EmitBehaviorCall | driver/secoutfall/secoutfall.cpp:229-243 | writes exactly the record's bytes |
| Emitters.EmitProtection | driver/secoutfall/secoutfall.cpp:672-686 | writes exactly the record's bytes, reserved bytes left zero |
| Emitters.BuildRecord | driver/secoutfall/secoutfall.cpp:188-661 | every notification's record, byte for byte the specification the decoder is proved against |
| Decoder.KindFromWire | crates/protocol/src/driver_wire.rs:153-174 | finds the kind a code belongs to, and none exactly when no kind has that code |
| Decoder.RecordSizeIsItsField | crates/protocol/src/driver_wire.rs:708-715 | the size is the little-endian field at offset 40, accepted exactly between a header and the whole buffer, with the source's error otherwise |
| Decoder.DecodedSize | crates/protocol/src/driver_wire.rs:687-697 | whatever decodes has a usable size, so the strict loop never stops on a size after a good record |
| Decoder.DecodeRecords | crates/protocol/src/driver_wire.rs:687-697 | the loop returns all records back to back or the first error, as the recursive specification does |
| Decoder.ReadU64 | crates/protocol/src/driver_wire.rs:430-436 | the byte loop reads the little-endian value and fails on the first missing byte |
| Refusals.DecodesIffAllPass | crates/protocol/src/driver_wire.rs:468-506 | any bytes decode if and only if eleven tests on byte positions hold: length, magic 0x5346, version 2, header size 48, size between 48 and the buffer, at most 64 KiB, a type code from 1 to 16, that type's least size, its string extents, its value data; and then every field, string and payload is what stands at its position |
| Refusals.FirstFailureIsReported | crates/protocol/src/driver_wire.rs:468-506 | otherwise the error is that of the first test that fails, with the values at its position |
| RoundTrip.DecodeUndoesEmit | crates/protocol/src/driver_wire.rs:468-506 | for every notification, stamp and trailing bytes, the emitted record decodes to exactly that notification's kind, fields, strings and flags, and its size leads to the next record |
| RoundTrip.PayloadComesBack | crates/protocol/src/driver_wire.rs:533-678 | each record kind's typed payload is recovered from the body its emitter wrote |
| RoundTrip.FlagsTellCuts | driver/secoutfall/secoutfallCommon.h:69-80 | every decoded string is a prefix of its source and all of it exactly when its flag is clear; the same for value data; records without strings carry no flag |
| RoundTrip.RenamedOldPathFaithful | driver/secoutfall/secoutfall.cpp:1645-1657 | a rename's old-path flag never fires, and the record is faithful about the real old name if and only if that name fits the cap in whole units |
| WireTable.EventIsTold | driver/secoutfall/secoutfallCommon.h:32-106 | for every notification, its record carries its literal type code and flag bits, and decodes, whatever follows, to the kind that names it, thread start and exit told apart, with each string the longest whole-unit prefix its literal cap allows |
| WireTable.RecordDeterminesEvent | crates/protocol/src/driver_wire.rs:468-506 | two records that decode to one kind and payload come from one notification, up to what the caps leave out |
| Queues.BoundedQueue.Push | driver/secoutfall/Queue.h:14-29 | appends, evicting and counting the oldest item exactly when full |
| Queues.BoundedQueue.TryPush | driver/secoutfall/Queue.h:34-42 | accepts exactly when not full and evicts nothing |
| Queues.BoundedQueue.Pop | driver/secoutfall/Queue.h:44-52 | removes and returns the head, nothing exactly when empty |
| Queues.BoundedQueue.PopIfFits | driver/secoutfall/Queue.h:61-72 | removes the head exactly when there is one and it fits, else leaves the queue alone |
| Queues.BoundedQueue.HeadSeq | driver/secoutfall/Queue.h:82-91 | the head's sequence, the maximum when empty |
| Queues.BoundedQueue.HeadSize | driver/secoutfall/Queue.h:93-103 | the head's size, zero when empty |
| Queues.HoldsTheNewest | driver/secoutfall/Queue.h:14-29 | after any run a drop-oldest queue holds exactly the newest records up to its cap among those after the last one given out |
| Queues.AcceptedIsKept | driver/secoutfall/Queue.h:31-42 | after any run of a stop-collect queue, what was given out followed by what is resident is exactly the accepted sequence |
| Queues.AlwaysTracked | driver/secoutfall/Queue.h:14-73 | after any run the queue is a tail of its history, items leave in order and at most once, and what is behind the head left or was overwritten |
| Queues.OfferedIsAccounted | driver/secoutfall/Queue.h:14-42 | resident + given out + overwritten + refused is exactly what was offered |
| Pipeline.SequenceConservation | driver/secoutfall/secoutfall.cpp:188-224 | in every interleaving of emitters and drains, when no emitter is between allocation and push, NextSequence = delivered + resident + QueueOverwritten + FilesOverwritten + DropsStopped + OversizedSkipped |
| Pipeline.OneFate | driver/secoutfall/secoutfall.cpp:188-224 | every record ever started is in exactly one place: in flight, resident, delivered, skipped, evicted or refused |
| Pipeline.NewestAreKept | driver/secoutfall/secoutfall.cpp:731-735 | inside the whole driver the 256- and 4096-record queues keep exactly the newest undelivered records |
| Pipeline.EvidenceIsKept | driver/secoutfall/secoutfall.cpp:219-224 | inside the whole driver, drop evidence delivered and then resident is exactly what was accepted |
| Pipeline.QueueRuns | driver/secoutfall/secoutfall.cpp:188-224 | whatever the interleaving, each queue's history is a run of that queue alone |
| Pipeline.PushKeepsOrderIff | driver/secoutfall/secoutfall.cpp:208-224 | a push into sorted queues leaves them sorted if and only if its record is younger than its queue's tail, or enters no queue |
| Pipeline.SortedIffInOrder | driver/secoutfall/secoutfall.cpp:208-224 | a run keeps every queue strictly sorted by sequence throughout if and only if every push of it is such a push |
| Pipeline.QueuesSorted | driver/secoutfall/secoutfall.cpp:208-224 | in particular if allocation and push are one step |
| Pipeline.DividedEmittersDisorder | driver/secoutfall/secoutfall.cpp:208-224 | from any sorted state, any two overlapping emitters of a drop-oldest queue leave it out of order when the first to allocate pushes last |
| QueueClasses.EveryRecordInItsClass | driver/secoutfall/secoutfall.cpp:208-224 | in every interleaving of the driver's emitters and drains, by the type code in the record: only drop captures enter the evidence queue, only file and behaviour records the 4096 one and all else the 256 one; no drop capture is ever evicted, nothing else refused |
| QueueClasses.EveryNotificationInItsClass | driver/secoutfall/secoutfall.cpp:215-241 | after any calls on a device, by the notification: a drop capture's record is resident in the evidence queue, delivered or refused, never evicted; a file or behaviour record resident only in the second queue, any other only in the first |
| QueueClasses.QueueCaps | driver/secoutfall/secoutfall.cpp:731-735 | and these hold at most 256, 4096 and 512 records |
| Drain.NeverOverruns | driver/secoutfall/secoutfall.cpp:945-994 | a drain never writes past the buffer |
| Drain.NothingLeftFits | driver/secoutfall/secoutfall.cpp:946-993 | on exit every head left needs more than the space left, though not more than the whole buffer |
| Drain.KeepsFifo | driver/secoutfall/secoutfall.cpp:945-993 | each class leaves in order and nothing is lost: removed followed by left is the queue as it was |
| Drain.InTurnIffOldest | driver/secoutfall/secoutfall.cpp:966-990 | for sorted queues with distinct sequences a record leaves in its turn, nothing later or left behind being older, if and only if it was the oldest head when taken |
| Drain.OrderedIffNoMiss | driver/secoutfall/secoutfall.cpp:966-990 | the whole batch is in global sequence order if and only if every head taken was the oldest |
| Drain.BatchIsOrdered | driver/secoutfall/secoutfall.cpp:966-990 | and it is in order at least up to the first time the oldest head does not fit |
| Drain.AfterMissDisorder | driver/secoutfall/secoutfall.cpp:979-990 | a batch that is not: a younger record of another class overtakes one that stays behind |
| Drain.NothingSkipped | driver/secoutfall/secoutfall.cpp:927-963 | when every record fits the buffer, no record is skipped as oversized |
| Drain.DrainDelivers | driver/secoutfall/secoutfall.cpp:946-993 | a drain of queues that are not all empty delivers the oldest record and shrinks them |
| Drain.DrainsDeliverEverything | driver/secoutfall/secoutfall.cpp:927-993 | as many drains as there are records, or more, deliver everything resident, each class in its order, skipping nothing |
| Drain.OldestIsLeast | driver/secoutfall/secoutfall.cpp:967-974 | the scan finds the smallest head sequence |
| Drain.DrainMovesOn | driver/secoutfall/secoutfall.cpp:946-993 | a drain's next move is the oldest head if it fits or is too large for the whole buffer, else the first other queue's, in order, that does; delivered exactly if it fits; and the drain goes on without it |
| Drain.OneTurnOnly | driver/secoutfall/secoutfall.cpp:966-990 | whenever some head can go there is exactly one such queue |
| Drain.DrainEndsIff | driver/secoutfall/secoutfall.cpp:991-993 | a drain ends if and only if no head can go |
| Driver.DrainIsARun | driver/secoutfall/secoutfall.cpp:945-993 | a drain's takes and skips are steps of the pipeline and lead to the queues and logs it leaves, so conservation covers it |
| Driver.Device.Notify | driver/secoutfall/secoutfall.cpp:188-224 | one notification is one allocate-and-push step with exactly the emitter's bytes; a failed allocation is counted and takes no sequence number |
| Driver.Device.TryPop | driver/secoutfall/secoutfall.cpp:946-965 | takes the head that fits, skips and counts one no buffer could hold, else changes nothing |
| Driver.Device.FindOldest | driver/secoutfall/secoutfall.cpp:967-974 | the loop over the heads finds the specification's oldest queue |
| Driver.Device.DrainOne | driver/secoutfall/secoutfall.cpp:966-992 | one turn of the loop makes exactly the specification's next move |
| Driver.Device.GetData | driver/secoutfall/secoutfall.cpp:917-995 | refuses a buffer below the largest record and leaves everything alone; otherwise leaves in the buffer, queues and counters exactly what the drain's specification says |
| Walk.WalkBatch | crates/agent/src/adapters/driving/driver_event_source.rs:413-462 | the loop yields the records and skip count of the recursive walk |
| Walk.StrictIffNothingSkipped | crates/protocol/src/driver_wire.rs:679-697 | on any bytes the strict decoder succeeds with a list of records if and only if the walk yields that list and skips nothing |
| Walk.WalkIsBounded | crates/agent/src/adapters/driving/driver_event_source.rs:413-462 | on any bytes the walk takes at most one step per header's worth of input |
| Walk.UnusableSizeEndsWalk | crates/agent/src/adapters/driving/driver_event_source.rs:413-462 | a size field cut off, below 48 or beyond the buffer ends the walk with no record and one skip |
| Walk.DecodeIgnoresTail | crates/protocol/src/driver_wire.rs:460-506 | decoding a chunk whose size field is truthful ignores whatever follows it, error or record |
| Walk.FaultsAreIsolated | crates/agent/src/adapters/driving/driver_event_source.rs:413-462 | on truthful chunks followed by anything, the walk yields exactly the well-formed chunks' records in order, one skip for each bad one, and goes on with what follows |
| EndToEnd.DecodeAllUndoesEmitters | crates/protocol/src/driver_wire.rs:687-697 | any emitted records back to back decode, strictly and by the walk, to exactly those records |
| EndToEnd.DrainDecodes | driver/secoutfall/secoutfall.cpp:917-995 | for any queues of emitted records and any admitted buffer, the bytes a drain writes decode to exactly the popped notifications in pop order, with nothing skipped |
| WholeRuns.AnyDrainDecodes | driver/secoutfall/secoutfall.cpp:917-995 | after any run of emitters and drains, one more drain into an admitted buffer writes bytes that decode strictly to exactly the notifications it popped |
| WholeRuns.NothingEverSkipped | driver/secoutfall/secoutfall.cpp:927-963 | under the size guard no run of emitters and drains ever moves OversizedSkipped |
| WholeRuns.AnyDrainIsOrderedIff | driver/secoutfall/secoutfall.cpp:945-993 | at every reachable state with sorted queues and for any buffer, each record leaves in its turn exactly if it was the oldest head, and the batch is globally ordered exactly if all were |
| WholeRuns.AnyDrainsDeliverEverything | driver/secoutfall/secoutfall.cpp:927-993 | after any run, as many drains as resident records deliver them all, class by class in order, skipping nothing |
| WholeRuns.AnyDrainIsOrderedAndComplete | driver/secoutfall/secoutfall.cpp:945-993 | after any run whose pushes came in order, divided emitters included, both hold together |
| WholeRuns.Serve | driver/secoutfall/secoutfall.cpp:917-995 | whatever notifications and reads a device gets, its state and every batch it returns are exactly those of the calls taken one by one: a refused read gives none, an accepted one the bytes of the items it popped |
| WholeRuns.CallsComeTo | driver/secoutfall/secoutfall.cpp:917-995 | for any calls from a reachable state, each accepted read's batch decodes strictly to exactly the notifications popped for it, the batches in order are what was delivered, what was issued is the successful notifications in order, and nothing is skipped |
| WholeRuns.ServeFromStart | driver/secoutfall/secoutfall.cpp:917-995 | a device built and served from its start: every batch is exactly its popped notifications, all of them issued ones and none twice |
| WholeRuns.AnyStretchDecodes | driver/secoutfall/secoutfall.cpp:945-993 | in every interleaving of emitters with takes and skips, any stretch of what was delivered decodes strictly to exactly those notifications |
| LedgerRuns.LedgerShape | driver/secoutfall/Injection.cpp:611-671 | in every interleaving in which no pid comes back during an attempt on it and bases are not zero, sensors calling at any time: PendingThread iff neither thread nor base was seen, PendingNtdll iff only the thread, any other state iff a base was seen, and Injected, Registered and Failed imply both |
| LedgerRuns.SightIsRecorded | driver/secoutfall/Injection.cpp:611-672 | whatever pids are reused and attempts fail, an entry's thread and base say exactly which of the two events its process had since the entry was made |
| LedgerRuns.UnseenReadyIffImageOnly | driver/secoutfall/Injection.h:33-40 | after any run of the kind of LedgerShape an entry is Ready without a thread if and only if its process mapped its image and started no thread since |
| LedgerRuns.UnseenReadyStep | driver/secoutfall/Injection.cpp:658-670 | a step leaves a live entry so if and only if it was so and the step is not its first thread, or the step is an image load that finds it PendingThread |
| LedgerRuns.ImageFirstIsReady | driver/secoutfall/Injection.cpp:658-670 | any such run, the empty one included, goes on to such an entry, with nothing claimed |
| LedgerRuns.GrantsNameOneEntry | driver/secoutfall/Injection.cpp:684-832 | a granted challenge saw an injected entry with one pid, nonce and creation time in both locked passes, and all grants to one entry hand out one ring |
| LedgerRuns.RingSetOnce | driver/secoutfall/Injection.cpp:774-797 | a live entry's ring, once set, never changes |
| LedgerRuns.FixupShape | driver/secoutfall/Injection.cpp:371-393 | the fixup leaves entries well shaped if and only if the attempt succeeded, no entry has the pid, or the entry that has it was seen as far as its new state says |
| LedgerRuns.ShapedIffFixupsSeen | driver/secoutfall/Injection.cpp:371-393 | with non-zero bases and no other assumption, entries are well shaped throughout a run if and only if every fixup of it is such a fixup |
| LedgerRuns.ReusedPidBreaksShape | driver/secoutfall/Injection.cpp:359-385 | from any state, a pid that comes back during an attempt that finds no process leaves the fresh entry Ready with nothing seen |
| LedgerRuns.AttemptsAreClaimed | driver/secoutfall/Injection.cpp:325-337 | with policy and address known, whatever else is in flight, thread then image claims an attempt and marks the entry Injected |
| LedgerFacts.ClaimIff | driver/secoutfall/Injection.cpp:325-337 | in any state an attempt is claimed for a pid, and its entry becomes Injected, if and only if a first thread or image of it leaves its entry Ready with thread and base while the address is known, the policy on and a path given |
| LedgerFacts.ClaimsFollowPolicy | driver/secoutfall/Injection.cpp:325-337 | over any run: the last policy set must be on with a path, and the address resolved before |
| LedgerFacts.WithdrawnPolicyClaimsNothing | driver/secoutfall/Injection.cpp:326-329 | from any state, under a policy withdrawn after creation, thread and image claim nothing and the entry waits Ready |
| LedgerFacts.EntriesRecordEvents | driver/secoutfall/Injection.cpp:573-682 | in any run a pid is tracked exactly from a wanted creation that got memory to its exit, with that creation's time and nonce and the first thread and base seen since |
| LedgerFacts.EndOfAttempt | driver/secoutfall/Injection.cpp:359-369 | an attempt that ends keeps its outcome, and counts as queued exactly if it was |
| LedgerFacts.FixupSettles | driver/secoutfall/Injection.cpp:371-393 | the fixup makes the pid's entry Ready without a process, Failed after a failed queueing, else leaves it, and touches nothing else |
| LedgerFacts.ChallengeOpens | driver/secoutfall/Injection.cpp:692-711 | pass 1 opens a challenge if and only if the pid's entry is Injected, with that entry as it then is |
| LedgerFacts.ChallengeWorks | driver/secoutfall/Injection.cpp:712-767 | pass 2 drops the challenge if its work fails, and else keeps pass 1's ring or makes one not given before |
| LedgerFacts.GrantIff | driver/secoutfall/Injection.cpp:768-825 | pass 3 hands out a ring if and only if the entry is still Injected with pass 1's time and nonce and there is one to hand out: pass 1's, else the entry's if it duplicates, else pass 2's, which becomes the entry's |
| LedgerFacts.RegistrationIff | driver/secoutfall/Injection.cpp:834-850 | a registration is accepted if and only if the pid's entry is Injected and its nonce given, and records the version and nothing else |
| OnceOnly.SingleIffFixupsFresh | driver/secoutfall/Injection.cpp:333-393 | with no assumption at all, each entry has at most one shot throughout a run (an APC queued or an attempt open, never both or two, and none while it can still be claimed) if and only if no fixup that found no process puts back an entry with a shot standing |
| OnceOnly.OneApcIfFixupsFresh | driver/secoutfall/Injection.cpp:333-393 | then no entry gets a second successful APC |
| OnceOnly.OneApc | driver/secoutfall/Injection.cpp:333-393 | in particular if no pid comes back during an attempt on it, sensors calling at any time |
| OnceOnly.StaleFixupQueuesTwice | driver/secoutfall/Injection.cpp:371-385 | after any fixup that does, the entry's next thread and the attempts then open lead to its second APC, if policy and address are there |
| OnceOnly.ReusedPidIsPutBack | driver/secoutfall/Injection.cpp:359-385 | from any state with an attempt open, a pid that exits and comes back can get its own APC and then be put back by the old attempt |
| OnceOnly.RegisteredTwiceIff | driver/secoutfall/Injection.cpp:371-393 | in any run at all, an entry registers twice if and only if it registered, was then put back by a fixup that found no process, was then claimed by a sighting and then registered |
| OnceOnly.OneRegistrationIff | driver/secoutfall/Injection.cpp:834-850 | so entries register at most once each in exactly the runs in which that happens to none |
| OnceOnly.OneRegistrationUnlessUndone | driver/secoutfall/Injection.cpp:375-393 | in particular if no fixup that found no process puts a registered entry back |
| OnceOnly.OneShots | driver/secoutfall/Injection.cpp:333-393 | if no pid comes back during an attempt and each sensor waits for its APC: at most one successful APC and one registration for each entry, only from Injected, with its own nonce and after its APC |
| OnceOnly.WaitingSensorsAreNotUndone | driver/secoutfall/Injection.cpp:371-393 | in those runs no registration is undone |
| OnceOnly.EarlyRegistrationIsUndone | driver/secoutfall/Injection.cpp:375-385 | from any state, a sensor that registers while an attempt on its pid is open is put back to Ready if the attempt ends without a process |
| OnceOnly.UndoneRegistersAgain | driver/secoutfall/Injection.cpp:611-628 | and from any state such an entry is claimed by its next thread, queued and registers a second time |
| Ledger.CountIsExact | driver/secoutfall/Injection.cpp:85-97 | the list holds one entry per pid and its length is the number of pids |
| Ledger.InjectionLedger.Find | driver/secoutfall/Injection.cpp:76-83 | finds the pid's only entry, or none exactly when the pid is not tracked |
| Ledger.InjectionLedger.OnProcessCreate | driver/secoutfall/Injection.cpp:573-609 | one step: a new pending entry unless the pid is tracked, unwanted or memory is short |
| Ledger.InjectionLedger.TryInjectLocked | driver/secoutfall/Injection.cpp:325-337 | claims exactly when thread, base, address, policy, path and the Ready state are all there |
| Ledger.InjectionLedger.OnFirstThread | driver/secoutfall/Injection.cpp:611-628 | one step: the first thread is recorded, the state advanced, an attempt perhaps claimed |
| Ledger.InjectionLedger.OnImageLoad | driver/secoutfall/Injection.cpp:653-672 | one step: the first base is recorded, the state advanced, an attempt perhaps claimed |
| Ledger.InjectionLedger.OnProcessExit | driver/secoutfall/Injection.cpp:674-682 | one step: the pid's entry leaves the list and the count drops by one |
| Ledger.InjectionLedger.FixupLocked | driver/secoutfall/Injection.cpp:371-393 | one step: the live entry with the pid, if any, is settled by the outcome |
| Ledger.InjectionLedger.ChallengeGateLocked | driver/secoutfall/Injection.cpp:692-711 | one step: a snapshot exactly of an injected entry |
| Ledger.InjectionLedger.ChallengeCommitLocked | driver/secoutfall/Injection.cpp:768-825 | one step: the grant, and the ring set only if neither pass saw one |
| Ledger.InjectionLedger.SensorRegister | driver/secoutfall/Injection.cpp:834-850 | succeeds exactly for an injected entry and its nonce, and registers it |
| Identity.LookupIsFirstAccepted | driver/secoutfall/Identity.h:31-73 | after any run a pid is tracked exactly when some accepted insert was not erased since, with the time of the first accepted insert since it was last erased |
| Identity.NeverOverCap | driver/secoutfall/Identity.h:32-35 | no run tracks more than 4096 pids |
| Identity.InsertedIsFound | driver/secoutfall/Identity.h:32-62 | after any run, an untracked pid inserted with memory free below 4096 is found with its time through anything but its removal or a clear; any other insert changes nothing |
| Identity.HoldsRemove | driver/secoutfall/Identity.h:48-55 | unlinking an entry leaves exactly the map without that pid, everything in its bucket |
| Identity.HoldsAppend | driver/secoutfall/Identity.h:41-45 | appending to the pid's bucket gives exactly the map with that pid |
| Identity.IdentityTable.Insert | driver/secoutfall/Identity.h:32-46 | refines the bounded map's insert, refused at the cap or without memory |
| Identity.IdentityTable.Remove | driver/secoutfall/Identity.h:48-55 | refines the map's removal with the count exact |
| Identity.IdentityTable.Lookup | driver/secoutfall/Identity.h:58-62 | the map's time, zero when unknown |
| Identity.IdentityTable.Clear | driver/secoutfall/Identity.h:64-73 | empties every bucket and the count |
| DropCapture.CaptureRecords | driver/secoutfall/secoutfall.cpp:425-503 | in every interleaving a stream yields at most one hard-link and at most one copy record, and both only through a cleanup between context attach and link result |
| DropCapture.EveryRunOneCapture | driver/secoutfall/secoutfall.cpp:425-503 | the stream invariant behind those bounds, over every legal run |
| DropCapture.BothRecordsInTheWindow | driver/secoutfall/secoutfall.cpp:425-503 | from any run inside that window a run with both records follows |
| DropCapture.MarkedNeverCaptured | driver/secoutfall/secoutfall.cpp:159-183 | a stream first marked as driver-copied is never captured |
| DropCapture.NoSilentLoss | driver/secoutfall/secoutfall.cpp:425-503 | in every interleaving, once nothing of a captured stream is pending, its link succeeded, its copy was tried or a loss was counted, and every failed link, failed copy and busy moment is in its counter |
| DropCapture.NamesDiffer | driver/secoutfall/secoutfall.cpp:83-112 | any two stored names minted fewer than 2^32 apart differ, already in their first thirteen units, whatever the paths |
| DropCapture.NameEndsInExtension | driver/secoutfall/secoutfall.cpp:85-112 | a stored name is drop-, eight hexadecimal digits that read back as the counter's low 32 bits, and the path from its last dot on, to 64 units in all |
| DropCapture.NameWithoutExtension | driver/secoutfall/secoutfall.cpp:85-112 | and nothing after the digits for a path without a dot |
| DropCapture.GenerateStoredName | driver/secoutfall/secoutfall.cpp:85-112 | prefix, eight hex digits and the last-dot suffix, cut at 64 units |
| StudyRuns.HistoryIsWellKept | crates/agent/src/plugins/session_manager.rs:195-219 | for any boots, crashes and overlapping saves, session ids are their indices and all but the last session are ended, on disk, in memory and in a tick's snapshot |
| StudyRuns.BootOpens | crates/agent/src/plugins/session_manager.rs:195-219 | a boot adds one open session with the table's uptime for its place and changes no other, but a last one left open, which is ended now and marked abandoned |
| StudyRuns.UptimesFollowTable | crates/agent/src/plugins/session_manager.rs:195-219 | in every run each session, on disk, in memory and in snapshots, carries the uptime the table gives its place, none beyond it |
| StudyRuns.AbandonedIff | crates/agent/src/plugins/session_manager.rs:195-219 | a session is newly marked abandoned if and only if a boot finds it last on disk and still open; no other step touches the mark |
| StudyRuns.StampEnds | crates/agent/src/plugins/session_manager.rs:271-287 | finalization ends the open session and each process still running at one time and changes nothing else |
| StudyRuns.StepFreezesIff | crates/agent/src/plugins/session_manager.rs:247-365 | in any state reached, a step changes a session persisted as ended if and only if it is a successful save of a last session that differs from the ended one on disk |
| StudyRuns.FinalIffNeverOverwritten | crates/agent/src/plugins/session_manager.rs:611-631 | persisted ends are final throughout a run if and only if no step of it is such a save |
| StudyRuns.EndedIsFinal | crates/agent/src/plugins/session_manager.rs:247-365 | without such saves a session once persisted as ended is in every later persisted history, unchanged |
| StudyRuns.TimelySavesAreSafe | crates/agent/src/plugins/session_manager.rs:669-674 | there are none if each tick's save lands before the final one and with a snapshot of the open session, however finalization overlaps the tick |
| StudyRuns.SerialSavesAreTimely | crates/agent/src/plugins/session_manager.rs:669-674 | as it does if no finalization begins during a tick |
| StudyRuns.OverlappingSavesUndoTheEnd | crates/agent/src/plugins/session_manager.rs:669-674 | from any running state: a tick whose save lands after the final one overwrites the end and brings the open session back |
| StudyRuns.FinalSaveCanOverwrite | crates/agent/src/plugins/session_manager.rs:337-342 | from any running state: the final snapshot is cloned, the session changes, a tick past its check saves it, and the final save puts the older one back over it |
| StudyRuns.FinalizedOncePerBoot | crates/agent/src/plugins/session_manager.rs:266-288 | in any interleaving of triggers each boot stamps its session at most once and asks at most once, and only boots that stamped ask |
| StudyRuns.CleanStudyEndsOnTime | crates/agent/src/plugins/session_manager.rs:366-415 | a crash-free study of n planned sessions asks for exactly n - 1 reboots and then for shutdown; with an empty table the first request is shutdown |
| StudyRuns.CleanBootAsks | crates/agent/src/plugins/session_manager.rs:247-365 | each clean boot adds one session, ended and not abandoned, and one request |
| SessionManager.SessionManagerPlugin.FinalizeSession | crates/agent/src/plugins/session_manager.rs:247-365 | the first call stamps, clones, saves and asks in that order; every later one changes nothing |
| SessionManager.SessionManagerPlugin.CloseRecords | crates/agent/src/plugins/session_manager.rs:271-287 | the session and each process still running get one end time |
| SessionManager.SessionManagerPlugin.RequestRebootOrShutdown | crates/agent/src/plugins/session_manager.rs:366-415 | shutdown exactly when the table is empty or exhausted |
| SessionManager.SessionManagerPlugin.PersistTick | crates/agent/src/plugins/session_manager.rs:669-674 | saves the current history, and nothing once finalization has begun |
| SessionManager.SessionManagerPlugin.constructor | crates/agent/src/plugins/session_manager.rs:195-219 | a boot: a session left open is abandoned, a fresh one opened |
| ScopeRuns.StepRefines | crates/agent/src/domain/scope.rs:153-201 | every step keeps pids distinct and moves the records' live pids and expected names as the plain scope moves: join on an expected name or a live parent, leave on stop |
| ScopeRuns.ScopeRefined | crates/agent/src/domain/scope.rs:146-225 | over any run the records refine a scope machine that has no records, only the open flag, expected names and live pids |
| ScopeRuns.AlwaysGood | crates/agent/src/domain/scope.rs:153-266 | after every run pids are distinct and only observed drops are closed |
| ScopeRuns.DeadIffEmptied | crates/agent/src/domain/scope.rs:214-225 | after any run the scope is dead if and only if somebody joined in this session and the record-free machine's live set is empty |
| ScopeRuns.DeathIsReported | crates/agent/src/plugins/scope_tracker.rs:172-188 | ScopeDied is published exactly when an event takes the live set from non-empty to empty, and once |
| ScopeRuns.EveryoneDescends | crates/agent/src/domain/scope.rs:146-178 | every recorded process of the session descends through finitely many earlier joins, parent by parent, from an expected image |
| ScopeRuns.DropsReportedOnce | crates/agent/src/domain/scope.rs:229-266 | in a session each path is reported observed at most once and closed at most once, and closed only after it was observed |
| ScopeRuns.OnlyLiveProcessesReport | crates/agent/src/domain/scope.rs:229-266 | drops are observed and closed only by a process live at that moment |
| ScopeRuns.StaleRecordStays | crates/agent/src/domain/scope.rs:162-164 | a start that does not join leaves a live record of its pid in place, and children of the new holder join |
| ScopeEvents.PublishedExactly | crates/agent/src/plugins/scope_tracker.rs:149-226 | after any run an event is published if and only if the record-free scope and the paths written so far say so: every join and the target's launch, every live member's stop and the death with the last, the first wanted write of a path by a live member, the first release of a written path by one, every call of one by an api that can score; each once, in the source's order |
| ScopeEvents.ScoringApis | crates/agent/src/domain/score.rs:69-78 | and these apis are exactly the run key and the members of the chains |
| ScopeEvents.InjectionIsSeen | crates/agent/src/plugins/scope_tracker.rs:197-212 | so both calls of an injection by a live member reach the bus |
| ScopeEvents.TimesAreRecorded | crates/agent/src/domain/scope.rs:153-201 | a join is recorded with its time and a live member's stop stamps that record alone |
| ScopePlugin.ExpectationPrecedesStart | crates/agent/src/plugins/scope_tracker.rs:88-114 | an expectation published before an image starts makes that start join and be announced |
| ScopePlugin.ScopeTrackerPlugin.ProcessEntered | crates/agent/src/domain/scope.rs:153-178 | retain and push give the specification's records, true exactly on a join |
| ScopePlugin.ScopeTrackerPlugin.ProcessExited | crates/agent/src/domain/scope.rs:183-201 | stamps the first live record of the pid, true exactly if there was one |
| ScopePlugin.ScopeTrackerPlugin.IsLiveMember | crates/agent/src/domain/scope.rs:208-212 | true exactly for a live record of the pid |
| ScopePlugin.ScopeTrackerPlugin.IsDead | crates/agent/src/domain/scope.rs:219-225 | true exactly when there are records and all have ended |
| ScopePlugin.ScopeTrackerPlugin.DrainExpectations | crates/agent/src/plugins/scope_tracker.rs:94-114 | applies every waiting expectation and empties the subscription |
| ScopePlugin.ScopeTrackerPlugin.HandleSource | crates/agent/src/plugins/scope_tracker.rs:149-226 | new state and published events are exactly the specification's |
| ScopePlugin.ScopeTrackerPlugin.Pre | crates/agent/src/plugins/scope_tracker.rs:231-247 | expectations are applied before the event is handled |
| Chains.ReportedExactlyOnCompletion | crates/agent/src/domain/score.rs:151-173 | when an observation brings every member since the slot was made to its minimum, the chain is reported iff the 32-bit counters still show it; while none has wrapped it is reported there and nowhere else |
| Chains.WrappedCounterHidesChain | crates/agent/src/domain/score.rs:199-205 | after 2^32 cross-process writes the completing thread creation is not reported |
| Chains.ReportedOncePerSlot | crates/agent/src/domain/score.rs:162-172 | two reports of one chain for one pid have a forget of that pid between them |
| Chains.DroppedAreRefused | crates/agent/src/domain/score.rs:186-197 | after any run `dropped_pids` is the number of refused observations and at most 4096 slots exist |
| Chains.NoFindingCarriesBoth | crates/agent/src/plugins/scoring.rs:105-116 | no finding carries both a run-key hit and a chain, so the if/else loses nothing |
| Chains.ChainDetector.Observe | crates/agent/src/domain/score.rs:150-173 | the per-pid vector refines a bounded map from pid to its calls, and the finding is that map's |
| Chains.ChainDetector.Forget | crates/agent/src/domain/score.rs:175-178 | refines removal of the pid |
| Scoring.ScoringPlugin.Handle | crates/agent/src/plugins/scoring.rs:98-132 | after any run the score is the maximum of every signal and the raises strictly increase up to it |
| Scoring.ScoreFollows | crates/agent/src/plugins/scoring.rs:98-132 | one candidate per event keeps the maximum of all signals |
| Scoring.ScoreCoversCompletedChains | crates/agent/src/plugins/scoring.rs:98-132 | the score is at least the weight of every chain completed on the counters anywhere in the run |
| ScoreRuns.SignalIffWorth | crates/agent/src/domain/score.rs:143-207 | in any run whose 32-bit counters do not wrap, a score arises if and only if some event is worth it: an interpreter's entry, a drop, a pid's first run-key write, the call that completes api 9 with api 4, the one that completes eight of api 12 with api 10, each by its own weight, counted from the pid's slot to its exit, of which 4096 are held |
| ScoreRuns.ScoreIsGreatestWorth | crates/agent/src/plugins/scoring.rs:98-132 | and the session score is the greatest of these, zero without any |
| CommandLine.SplitUndoesQuoting | crates/agent/src/domain/command_line.rs:8-79 | for every argument list, rendering each argument quoted, with any blanks between and around them and each inner quote either doubled or behind a backslash, and splitting gives the list back, empty arguments and backslash runs included |
| CommandLine.Separators | crates/agent/src/domain/command_line.rs:51-61 | the characters that separate are Unicode's 25 white-space ones |
| CommandLine.SplitCommandLine | crates/agent/src/domain/command_line.rs:16-79 | the character loop computes the specification's split of any line |
| CommandLine.PlainWordsComeBack | crates/agent/src/domain/command_line.rs:51-61 | plain words joined by spaces come back if and only if no word but the last ends in a backslash |
| CommandLine.BackslashCarriedOver | crates/agent/src/domain/command_line.rs:51-61 | plain words come back one for one, each behind as many backslashes as the argument before it came back ending in |

## Left out

- Kernel objects: APC bytes, handles, IRQL, pool ownership, section mapping and duplication are foreign calls; their success is a parameter or an outcome. Nothing is claimed about leaks: a challenge that loses the race does not release its fresh ring.
- LdrLoadDll resolution, the injected stub, hooks and ETW: platform code; resolution is one step of the ledger.
- The policy blob and its parsers, and the image blocklist: whether a process is wanted is a parameter of creation.
- Counters of the ledger (queued, failed, registered, rejected): they only report; the logs behind the one-shot claims carry the same information.
- Driver.Device.Notify: asks for room below the all-ones sequence that marks an empty queue; 64-bit counters (NextSequence, ring indices, loss counters) are unbounded here.
- Chains.ChainDetector.Observe: the 32-bit chain counters wrap as in a release build; a build with overflow checks stops instead.
- RingMemory.SharedRing.Emit: shared accesses are sequentially consistent steps; weaker memory orders and hostile writes are not modelled.
- RingMemory.SharedRing.DrainRings: drains one ring; the snapshot of up to 64 registered rings and the match of the write-back by address are not modelled.
- Driver.Device.GetData: drains with nothing else running, and without the ring drain it starts with, where each drained slot becomes one `Notify` of a behaviour call; `Pipeline` covers takes and skips interleaved with emitters in any order.
- UTF-16 lossy decoding: decoded strings stay sequences of 16-bit units.
- ScopePlugin.ScopeTrackerPlugin.ProcessEntered: Unicode lower-casing is not modelled; `ScopeRuns` takes names already normalized; whether an image is a CLI interpreter, and whether a path matches the drop filter, are parameters.
- ScopePlugin.ScopeTrackerPlugin.DrainExpectations: a lagging broadcast receiver is not modelled; the subscription keeps everything published.
- Clock mapping, clock shifts, process killing, publishing and file copying: I/O, with results as parameters.
- Loading errors of the persisted history: a boot that cannot load never starts; the load itself is exact.
- The debug gate that suppresses the reboot request, and the host's completion poll beyond `finalizeDone`.
- The tracker's file copy and capture consumers, uploads, telemetry, launchers, user-actor input and the user interface.
- The self-test flood and GET_STATS, which use the emitters and counters modelled here.
