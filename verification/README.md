# async-profiler: verified models of its algorithmic cores

This project models the self-contained algorithms of async-profiler, a sampling profiler for Java, and proves what
they promise. Each core has its own modules, one file each.

- **Bytecode instrumentation** (`Jvm`, `Opcodes`, `Layout`, `Emission`, `Patching`, `Rewriter`, `Preservation`, `Simulation`,
  `CodeAttribute`, `StackMap`, `StackMapFrames`, `StackMapRewriter`). The rewriter that puts latency probes into Java
  methods, as it works on bytes, against a machine that decodes and runs bytecode. The main theorem is a simulation: the rewritten
  method computes what the original computes. Stack map frames decode to the old frames at their new places.
- **Signal-cookie capture** (`SignalCapture`, `SignalInvariant`, `SignalGuarantees`, `SignalProgress`). The admission gate,
  epochs, counters and the active and terminal identity of captures, as a state machine over all interleavings.
- **Lock-free storage** (`TriangularProbe`, `CallTraceStorage`, `CallTraceInvariant`, `CallTraceGuarantees`,
  `CallTraceAccounts`, `CallTraceProgress`, `TraceIds`, `LinearAllocator...`, `Dictionary...`). Call trace tables, the linear
  allocator and the dictionary, one atomic operation a step. The `...Progress` modules prove what operations do when they are
  left to run, from every reachable state; the others what no interleaving can break.
- **DWARF unwinding** (`Leb128`, `CfaExpressions`, `CallFrameStandard`, `FrameTable`, `CallFrames`, `CallFrameAgreement`,
  `SavedStates`, `SectionOrder`, `UnwindTables`). Call frame programs turned into a compressed table that is searched by
  bisection, against register rules as the DWARF 5 standard defines them.
- **Rust demangling** (`Utf8`, `Punycode`, `RustLexer`, `RustPrinter`, `RustInterpreter`, `RustPasses`, `RustRoom`, `RustText`).
  Each
  function of the v0 demangler is the list of parser and printer operations it performs, with an interpreter that runs both
  passes. Against it stand syntax trees with their mangled form and their Rust text (`RustSyntax`, `RustPlaces`). The main theorem
  is a round trip: what mangles a tree is printed as the tree's text (`RustRoundTrip`, `RustDemangle`, with `RustTokens`,
  `RustSteps`, `RustPhrases`, `RustTypePhrases`, `RustTraitPhrases`, `RustConstPhrases`, `RustParts`, `RustTypeParts`).
- **Output formats** (`ProtobufFormat`, `ProtobufWriter`, `FlameTree`, `FlameBuilder`, `FlameLayout`,
  `FlameFrames`, `FlamePage`, `NamePool`, `JfrFormat`, `JfrEvents`, `JfrMetadata`, `JfrRecording`). Writers with patched lengths, each against an independent reader.

Conventions. A C++ object updated in place is a class; a concurrent protocol is a `Step` function over its atomic
operations, and properties hold of every sequence of actions. Atomic operations are sequentially consistent. Fixed-width
arithmetic is written out where it matters. Hash functions, clocks and the JVM's effect on the heap are arbitrary parameters.

Where the code does not meet a property, the code is kept, a lemma gives the failing inputs, and another gives the
condition under which the property holds: the 16-bit relocation accumulator (`TooLargeAccepted`, `SizeCheckExact`,
`WrittenLengthExact`), one-byte operands (`OneByteOperandExact`), chopped parameters (`ChopIntoParameters`,
`LongNeedsParameters`), the byte counter of slots (`CounterWraps`, `CounterExact`), the second load of a key
(`SecondLoadCanDuplicate`, `DuplicatesIffSkipped`), the overflow id (`OverflowIdTaken`), zero bytes in keys
(`TerminatorInsideConfuses`, `ConfusedExact`), call frame programs (`NopHidesTheRest`, `ProgramFails`, `StepExact`,
`EarlyEndExact`, `UsualExact`, `SavesExact`), entries out of order (`UnorderedRowsCanBeLost`, `LaterEntryIntervenes`,
`SectionExact`) and signed characters (`SignedCharBreaksNames`, `UnpackExact`, `PoolExact`).

## Model

| member | source | states |
|---|---|---|
| Emission.LengthsAgree | src/instrument.cpp:378-400 | every entry of the rewriter's table of 202 lengths is the length that the operand format of section 6.5 of the JVM specification gives the instruction |
| Emission.InstructionBytes | src/instrument.cpp:378-400 | the computed length of every instruction, by that table and for switches by their padding and counts, is the length the JVM decodes |
| Layout.ShiftMonotone | src/instrument.cpp:579-630 | relocation is non-decreasing, a multiple of 4, order-preserving in both directions, and leaves room for each rewritten instruction before the next |
| Layout.RangePreserved | src/instrument.cpp:484-496 | a pc lies in an exception or debug range if and only if its image lies in the relocated range |
| Rewriter.BytecodeRewriter.CollectJumps | src/instrument.cpp:546-577 | the jump list gains exactly the offset fields of this instruction: narrow, wide, `tableswitch` and `lookupswitch` |
| Rewriter.BytecodeRewriter.MoveLocal | src/instrument.cpp:588-629 | an instruction that names a local at or above the new one is re-encoded for its moved slot, by one-byte, implicit or wide operand |
| Rewriter.BytecodeRewriter.ScanInstruction | src/instrument.cpp:528-630 | one step of the first scan: output, jump list, relocation entry and 16-bit accumulator |
| Rewriter.BytecodeRewriter.FirstScan | src/instrument.cpp:508-634 | the whole first scan, wrap-around of the 16-bit accumulator included |
| Rewriter.BytecodeRewriter.FixJump | src/instrument.cpp:636-666 | one offset field gets the distance between the images, reports exactly whether it fits, and touches no other byte |
| Rewriter.BytecodeRewriter.FixJumps | src/instrument.cpp:636-669 | succeeds if and only if every relocated distance fits its field; then all of them are patched and nothing else changed |
| Rewriter.BytecodeRewriter.RewriteCodeForLatency | src/instrument.cpp:507-670 | `METHOD_TOO_LARGE` by the 16-bit counter, which is exactly when the new code is too long unless the counter wrapped to a small value; otherwise `OK` exactly when every jump fits; on `OK` the relocation table is exact and every instruction stands rewritten at its image |
| Patching.JumpArithmetic | src/instrument.cpp:636-666 | for every jump, base, site and target plus their relocation entries are the images, and the patched site stays inside the output |
| Patching.SitesPatched | src/instrument.cpp:636-669 | after the second scan every offset field of every instruction holds its relocated distance |
| Preservation.InstrStands | src/instrument.cpp:579-669 | whatever the instruction, what decodes at its image is the same instruction with its local renumbered and all its targets mapped to their images |
| Preservation.EntryDecodes | src/instrument.cpp:511-521 | the entry code decodes to the timer call, the store and three no-ops |
| Preservation.ReturnSequence | src/instrument.cpp:531-545 | the exit code decodes to the load, the latency constant or no-ops, the callback, and then the return |
| Simulation.ThrowMatches | src/instrument.cpp:484-496 | an exception at any pc of an image finds the image of the handler it found before, or none if there was none |
| Simulation.StepMatches | src/instrument.cpp:507-630 | one step of the original is one or more steps of the rewritten code, to matching states |
| Simulation.EntryCodeRuns | src/instrument.cpp:511-521 | the entry code leads from the start to the image of pc 0, with the parameters unchanged |
| Simulation.InstrumentationPreservesMeaning | src/instrument.cpp:425-670 | every run of the original is matched by a run of the rewritten method: image pc, same operand stack, renumbered locals, same heap, same result or exception |
| Simulation.InstrumentationAddsNothing | src/instrument.cpp:425-670 | the rewritten method cannot end in any way the original does not: results agree whenever it halts |
| CodeAttribute.RewriteHandlers | src/instrument.cpp:484-496 | every exception table entry moves to the images of its three pcs, catch type and order unchanged |
| CodeAttribute.RewriteCode | src/instrument.cpp:425-505 | the rewritten `Code` attribute meets the premise of the simulation, with two more locals and four more stack words |
| CodeAttribute.WrittenLengthExact | src/instrument.cpp:481-482 | the patched code length is the length of the bytes written if and only if the relocation fits 16 bits |
| CodeAttribute.SizeCheckExact | src/instrument.cpp:632-634 | the size check is right if and only if the 16-bit counter did not wrap, or wrapped to a value that is refused as well |
| CodeAttribute.TooLargeAccepted | src/instrument.cpp:632-634 | with 8192 to 14562 returns the 16-bit accumulator wraps: the size check passes although the new code is too long |
| CodeAttribute.OneByteOperandExact | src/instrument.cpp:590-621 | a one-byte local operand is renumbered correctly if and only if the moved slot fits a byte |
| CodeAttribute.FramesMoveToImages | src/instrument.cpp:403-409 | old stack map offset plus relocation entry is the image of the pc |
| StackMapRewriter.TableRewriter.RewriteVerificationTypeInfo | src/instrument.cpp:818-830 | one type is copied, an uninitialized type with its offset relocated |
| StackMapRewriter.TableRewriter.RewriteShortFrame | src/instrument.cpp:746-763 | `same` and `same_locals_1` frames, converted to extended form when the new delta exceeds 63 |
| StackMapRewriter.TableRewriter.RewriteExtendedFrame | src/instrument.cpp:764-777 | extended, chop and append frames get the new delta and moved types |
| StackMapRewriter.TableRewriter.RewriteFullFrame | src/instrument.cpp:778-810 | accepted exactly when the byte counter of slots reaches the new variable; then the frame decodes with a `long` at that place |
| StackMapRewriter.TableRewriter.RewriteFrame | src/instrument.cpp:741-811 | whatever the frame form and whatever locals stand before it, what is written decodes to the old frame at its new offset with its types moved |
| StackMapRewriter.TableRewriter.RewriteStackMapTable | src/instrument.cpp:715-816 | `BAD_FULL_FRAME` exactly when the byte counter misses the boundary in a full frame; otherwise the new table decodes to a frame at offset 7 and the old frames, relocated, and all of them have the `long` after the parameters if and only if no frame cuts into the parameters |
| StackMapFrames.AppendMoved | src/instrument.cpp:771-777 | appending commutes with inserting the `long` |
| StackMapFrames.ChopMoved | src/instrument.cpp:768-770 | chopping commutes with inserting the `long` while the parameters stay |
| StackMapFrames.ChopIntoParameters | src/instrument.cpp:768-770 | a chop that removes a parameter keeps the wrong locals |
| StackMapFrames.RewrittenMoves | src/instrument.cpp:741-811 | over all tables: frames that keep the parameters decode as the old frames with the `long` inserted |
| StackMapFrames.LongNeedsParameters | src/instrument.cpp:741-811 | and if every decoded frame has the `long` after the parameters, every old frame kept them |
| StackMapFrames.CounterExact | src/instrument.cpp:786-797 | the byte counter finds the boundary after the parameters exactly unless it wraps there and comes round to 255 |
| StackMapFrames.CounterWraps | src/instrument.cpp:786-797 | a full frame for which it does: the `long` goes behind local 510 |
| SignalInvariant.StepKeeps | src/signalEvent.cpp:206-263 | every step of a handler or of the lifecycle keeps the protocol invariant |
| SignalInvariant.RunKeeps | src/signalEvent.cpp:206-543 | every interleaving of any length keeps the protocol invariant |
| SignalGuarantees.GateCountsHandlers | src/signalEvent.cpp:500-543 | in every reachable state the low bits of the gate are the number of handlers inside; while no capture is published the gate is closed and empty |
| SignalGuarantees.ClosedGateDrains | src/signalEvent.cpp:526-543 | on a closed gate nobody enters, no handler step adds work, and every step with an effect outside its thread uses work up |
| SignalGuarantees.DrainingGoesOn | src/signalEvent.cpp:526-543 | while a closed gate counts a handler, the next operation of one inside is possible and uses work up |
| SignalGuarantees.ClosedGateEmpties | src/signalEvent.cpp:526-543 | from every closed state the gate empties within as many operations of its handlers as there is work |
| SignalGuarantees.DrainedIsFinal | src/signalEvent.cpp:423-427 | once closed and drained, no sequence of signals changes gate, counters, log or identity |
| SignalGuarantees.TerminalRecordExact | src/signalEvent.cpp:374-386 | in a terminal record, admitted is the sum of the five classes, accepted is failures plus submitted, submitted is the number of samples in the recording, and each counter is the number of signals so decided |
| SignalGuarantees.SamplesLandInTheirCapture | src/signalEvent.cpp:236-255 | burned epochs are nonzero and strictly increasing, and each recorded sample carries the epoch of the capture it lies in and a nonzero sequence |
| SignalGuarantees.EpochsOnlyGrow | src/signalEvent.cpp:319-332 | a burned epoch stays burned through failed starts; after the last epoch no capture can start |
| SignalGuarantees.RunsUntilStopped | src/profiler.cpp:1144-1202 | a published capture keeps running through every run that holds no stop with a reason for it |
| SignalGuarantees.GuardedStopIsRecorded | src/profiler.cpp:1659-1695 | a guarded stop naming the active capture closes it, and whatever follows, its record has that id, epoch, reason and time |
| SignalGuarantees.ReasonIsRecorded | src/profiler.cpp:1144-1202 | so does any other stop that gives a reason, which the record keeps up to 31 characters |
| SignalGuarantees.RepeatedStopAnswersTheSame | src/signalEvent.cpp:429-462 | until another capture finishes, a repeated guarded stop finds the same terminal record and changes nothing |
| SignalGuarantees.ActiveCaptureRuns | src/signalEvent.cpp:449-462 | a lookup answers "active" only for a capture that is running |
| SignalProgress.SignalIsHandled | src/signalEvent.cpp:206-263 | while a capture runs, a signal that reaches a thread outside the handler is handled to the end by that thread alone: admitted and its class counted once, a sample recorded and submitted exactly if the signal is acceptable and recording succeeds, a failure counted if it fails, gate and handlers as before |
| SignalProgress.HistoryIsDelivered | src/signalEvent.cpp:206-263 | over every run, the signals that were sorted and the samples that were recorded are, in order, those delivered to the threads that sorted and recorded them |
| SignalProgress.StartsRunning | src/signalEvent.cpp:319-364 | a start with a free signal and working components publishes the capture under its id and the next epoch, with the gate open and nothing counted |
| SignalProgress.StartWithoutSignal | src/signalEvent.cpp:334-344 | without a free signal only the epoch is used up |
| SignalProgress.StartWithoutComponents | src/signalEvent.cpp:416-421 | a start whose components fail leaves the gate closed, no capture and no other trace but the used epoch |
| SignalProgress.StopsRunning | src/signalEvent.cpp:423-447 | a running capture that is stopped ends within the operations its handlers have left: the record has its id, epoch, time and reason, and the profiler is idle |
| TriangularProbe.ProbeNext | src/callTraceStorage.cpp:275-281 | the incremental slot update is the triangular-number formula |
| TriangularProbe.ProbeInjective | src/callTraceStorage.cpp:275-281 | in a table of 2^k slots no slot is probed twice in 2^k probes |
| TriangularProbe.ProbeSurjective | src/callTraceStorage.cpp:275-281 | and every slot is probed |
| CallTraceInvariant.StructureKept | src/callTraceStorage.cpp:235-291 | every atomic step of every thread keeps the table invariants |
| CallTraceGuarantees.OneSlotPerHash | src/callTraceStorage.cpp:235-282 | in every interleaving in which a probe uses one load of the key, a hash is in at most one slot of a table |
| CallTraceGuarantees.SecondLoadCanDuplicate | src/callTraceStorage.cpp:244-245 | with the two loads the loop makes, two racing puts of any one trace store its hash twice |
| CallTraceGuarantees.DuplicatesIffSkipped | src/callTraceStorage.cpp:244-253 | exactly: a claim duplicates a hash if and only if that put passed its own hash on a second load |
| CallTraceGuarantees.CycleExitExact | src/callTraceStorage.cpp:275-279 | where a put gives up after a full cycle, the table holds neither an empty slot nor the hash, if and only if the put did not pass its own hash on a second load, now or before |
| CallTraceGuarantees.ChainDoubles | src/callTraceStorage.cpp:255-264 | tables form one chain of doubling capacity, each with at most one successor |
| CallTraceGuarantees.StorageOnlyGrows | src/callTraceStorage.cpp:251-264 | over every run the current table only moves forward and no claimed key is given up |
| CallTraceGuarantees.IdsDenoteTraces | src/callTraceStorage.cpp:266-290 | the id a thread gets denotes a slot with the hash of the frames it asked to put, and a stored trace always has its slot's hash |
| CallTraceGuarantees.PutsAreAsAsked | src/callTraceStorage.cpp:235-291 | over every run the puts under way and done are those that callers began, each for the frames and weight given |
| CallTraceAccounts.EveryPutCountedOnce | src/callTraceStorage.cpp:235-291 | when all puts have returned, each put that was begun is credited to one slot, counted as overflow, or had weight zero; for every hash the samples and weights over all tables are the sums of the credited puts |
| CallTraceProgress.PutReturns | src/callTraceStorage.cpp:235-291 | a put begun in any state of any run and left alone, memory being granted, ends: credited to a slot, silent without weight, or lost only if the current table holds neither the hash nor an empty slot |
| CallTraceProgress.TracesAreStored | src/callTraceStorage.cpp:203-233 | while memory is granted, once all puts have returned every claimed slot holds a trace with the slot's hash |
| CallTraceProgress.TablesGrowInTime | src/callTraceStorage.cpp:251-264 | while tables are granted, once all puts have returned the last table is filled less than three quarters, unless it is the largest |
| CallTraceProgress.SizesAreExact | src/callTraceStorage.cpp:252-258 | once all puts have returned, the size of a table is the number of its claimed slots |
| TraceIds.IdRange | src/callTraceStorage.cpp:110-114 | ids of a table are the stretch just below its total capacity |
| TraceIds.IdsDistinct | src/callTraceStorage.cpp:110-114 | different slots, of one or different tables, have different ids |
| TraceIds.OverflowIdTaken | src/callTraceStorage.cpp:110-114 | the overflow id is also the id of a slot exactly in the table of 2^31 slots |
| TraceIds.Add | src/callTraceStorage.cpp:293-307 | adds to exactly the slot an id denotes, and to none if it denotes none |
| LinearAllocatorInvariant.StepKeeps | src/linearAllocator.cpp:35-103 | every atomic step of every thread keeps the chunk invariants |
| LinearAllocatorGuarantees.BlocksNeverOverlap | src/linearAllocator.cpp:35-52 | in every interleaving, returned blocks are pairwise disjoint and inside a linked chunk, behind its header |
| LinearAllocatorGuarantees.BlocksTileChunks | src/linearAllocator.cpp:38-48 | in every run each block of a chunk starts where the one before it ends, from the header up to the offset of the chunk |
| LinearAllocatorGuarantees.ReserveIsTailOrItsChild | src/linearAllocator.cpp:67-103 | the reserve is the tail or its only child |
| LinearAllocatorGuarantees.ChunksLinkedOrFreedOnce | src/linearAllocator.cpp:54-103 | every chunk is linked at one place, private to one thread, or freed; none is freed twice or while linked |
| LinearAllocatorGuarantees.SettledForGood | src/linearAllocator.cpp:54-103 | a chunk once linked or freed stays so through every run |
| LinearAllocatorGuarantees.MiddleTest | src/linearAllocator.cpp:40-43 | the unsigned comparison holds exactly for the block that covers the chunk's middle |
| LinearAllocatorGuarantees.OneBlockPreparesReserve | src/linearAllocator.cpp:41-45 | at most one block of a chunk prepares a reserve |
| LinearAllocatorGuarantees.FilledChunkPreparesReserve | src/linearAllocator.cpp:41-45 | a chunk filled beyond its middle has a block that prepared its reserve |
| LinearAllocatorGuarantees.Clear | src/linearAllocator.cpp:21-33 | once all allocations have returned: gives back every chunk but the first, none twice, and leaves the state of a new allocator |
| LinearAllocatorGuarantees.ClearAfterRun | src/linearAllocator.cpp:21-33 | so after any run that came to rest, and every run that follows keeps the invariants again |
| LinearAllocatorProgress.BlocksAreAsSizedAsAsked | src/linearAllocator.cpp:35-52 | over every run a returned block has the size its caller asked for |
| LinearAllocatorProgress.AllocReturns | src/linearAllocator.cpp:35-52 | an allocation that fits a chunk, begun in any state of any run and left alone with memory granted, returns a block of its size; if it covers the middle of a chunk the reserve is ready |
| LinearAllocatorProgress.UsedMemoryExact | src/linearAllocator.cpp:75-103 | whenever no thread is about to count a chunk, the memory counted is that of the chunks up to the tail |
| DictionaryInvariant.StepKeeps | src/dictionary.cpp:82-112 | every atomic step of every lookup keeps the tree invariants |
| DictionaryInvariant.KeyEqualsIs | src/dictionary.cpp:19-22 | on any bytes: the comparison holds if and only if the C strings agree up to the length of the key, where the stored key ends or has a zero byte |
| DictionaryInvariant.ConfusedExact | src/dictionary.cpp:19-22 | exactly which different keys compare equal: the stored one goes on with a zero byte, or both have a first zero byte at the same place behind equal bytes |
| DictionaryInvariant.KeyEqualsExact | src/dictionary.cpp:19-22 | on keys without a zero byte the comparison is equality |
| DictionaryInvariant.TerminatorInsideConfuses | src/dictionary.cpp:19-22 | every key compares equal to different ones: itself with a zero byte and anything behind; and keys of one length that begin with a zero byte |
| DictionaryGuarantees.LookupIsInjective | src/dictionary.cpp:82-112 | over all interleavings two callers get the same index if and only if the keys they asked for are equal |
| DictionaryGuarantees.KeyInOneCell | src/dictionary.cpp:82-112 | a key is stored in one cell only |
| DictionaryGuarantees.CellsFillInOrder | src/dictionary.cpp:87-99 | the cells of a row fill left to right |
| DictionaryGuarantees.IndexOfOneCell | src/dictionary.h:30-32 | indices of different cells differ, also across tables and when a race wastes a range |
| DictionaryGuarantees.AnswersFit | src/dictionary.cpp:82-112 | answers are nonzero and do not wrap while the bases do not |
| DictionaryGuarantees.Collect | src/dictionary.cpp:118-130 | the recursive collection adds exactly the entries of the subtree |
| DictionaryGuarantees.CollectInvertsLookup | src/dictionary.cpp:114-130 | after any run the collected map is the inverse of lookup: it holds every index a caller got, with the key asked for, and nothing else |
| DictionaryGuarantees.AnsweredAsAsked | src/dictionary.cpp:82-112 | over every run the answers given are those to the keys that callers began lookups with |
| DictionaryProgress.LookupReturns | src/dictionary.cpp:82-112 | a lookup begun in any state of any run and left alone returns an index for its key |
| DictionaryProgress.HashesPart | src/dictionary.cpp:101-112 | different hashes take different rows within five levels, so chains of tables end |
| Leb128.GetLeb | src/dwarf.h:132-141 | the number of section 7.6 of the DWARF 5 standard, modulo 2^32 |
| Leb128.GetSLeb | src/dwarf.h:143-155 | likewise for signed numbers, sign extension included |
| Leb128.UnsignedRoundTrip | src/dwarf.h:132-141 | the reader inverts the standard's encoding, for all numbers |
| Leb128.SignedRoundTrip | src/dwarf.h:143-155 | likewise for signed numbers |
| CfaExpressions.SumsAreRelative | src/dwarf.cpp:347-396 | for the PC with constants added or subtracted, that number is the distance between the PCs that the stack machine of section 2.5 of the DWARF 5 standard computes |
| CfaExpressions.LinkageTableExact | src/stackWalker.cpp:155-165 | the eleven-byte expression of linkage tables has the value that the stack walker uses for such rows |
| FrameTable.Builder.AddRecord | src/dwarf.cpp:398-404 | an equal row is dropped, a row at the same location overwritten, any other appended |
| FrameTable.CompressionIsFaithful | src/dwarf.cpp:398-418 | for rows in order the compressed table is strictly sorted and answers every pc as the plain rows do |
| FrameTable.UnorderedRowsCanBeLost | src/dwarf.cpp:130-141 | rows out of order can be dropped although sorting would need them |
| FrameTable.FindFrameDesc | src/codeCache.cpp:299-322 | the bisection returns the last row at or below the pc, else the frame for the linkage table or the default |
| CallFrames.ParseInstructions | src/dwarf.cpp:193-342 | the table gains exactly the rows of the program, as the parser executes it |
| CallFrameAgreement.CfaExact | src/dwarf.cpp:398-404 | a CFA rule packed into a row comes back if and only if the row has room for it |
| CallFrameAgreement.StepExact | src/dwarf.cpp:217-320 | for each instruction, where variables and rules agree: the row after it says of CFA, frame pointer and return address what the rules of section 6.4.2 of the DWARF 5 standard say, if and only if the instruction is one of those listed as known |
| CallFrameAgreement.EarlyEndExact | src/dwarf.cpp:212-215 | where a no-op or `set_loc` ends the parser, the last row is right at all addresses behind if and only if the rest of the program changes no rule that the table keeps |
| CallFrameAgreement.UsualExact | src/dwarf.cpp:96-106 | the first row is right if and only if the initial instructions, which the parser skips, give the usual rules |
| CallFrameAgreement.RowsGiveRule | src/dwarf.cpp:193-342 | for programs of known instructions, restores that directly follow a save, and an idle rest, the rows say at every pc what the rules of section 6.4 of the DWARF 5 standard say |
| SavedStates.SavesExact | src/dwarf.cpp:246-257 | over all programs with one pattern of saves and restores: they are always answered rightly if and only if every restore directly follows a save |
| SavedStates.ProgramFails | src/dwarf.cpp:246-257 | for every other pattern, a program whose row has the wrong return address |
| SavedStates.NopHidesTheRest | src/dwarf.cpp:212-215 | a change behind a no-op is not seen: the answer is right only if nothing changed |
| SavedStates.PaddingIsIdle | src/dwarf.cpp:212-215 | no-ops as padding at the end do no harm |
| SectionOrder.CompareExact | src/dwarf.h:78-82 | the comparison by difference puts a location before another rightly if and only if the distance between them fits 32 signed bits |
| SectionOrder.SectionExact | src/dwarf.cpp:130-141 | for entries in any order, the table compressed as they come and sorted answers every pc as the entries do, if and only if every entry whose first row was dropped begins with the rule that holds just below it |
| SectionOrder.LaterEntryIntervenes | src/dwarf.cpp:130-141 | a dropped row can be needed although its entry came behind the one before it |
| UnwindTables.FactorsExact | src/dwarf.cpp:114-120 | the alignment factors of another entry, kept from the first, serve every instruction if and only if they are the same |
| UnwindTables.ParseFde | src/dwarf.cpp:108-127 | an entry adds its rows and the row that ends it; factors are read only while the table is empty |
| UnwindTables.TableIsFaithful | src/dwarf.cpp:76-127 | over all entries in order, the table says at every pc what the rules of its entry say by the standard, and behind an entry gives the linked frame |
| UnwindTables.Unwind | src/dwarf.cpp:76-127 | parsing and searching together give that rule, or outside all entries the frame for the linkage table or the default |
| UnwindTables.ParseDebugFrame | src/dwarf.cpp:130-191 | entries of `.debug_frame` with their own factors, those at address zero skipped |
| UnwindTables.DebugTableIsFaithful | src/dwarf.cpp:130-191 | for `.debug_frame`, the sorted table says in every entry what the rules say by the standard, if no dropped row was needed |
| UnwindTables.UnwindDebug | src/dwarf.cpp:130-191 | searching that table: in every entry the frame of the standard's rules, before all entries the frame for the linkage table or the default |
| Utf8.ValidateCharIsScalar | src/rustDemangle.cpp:292-294 | the one comparison accepts exactly the Unicode scalar values |
| Utf8.EncodeDecodes | src/rustDemangle.cpp:215-240 | every scalar value decodes to itself, whatever bytes follow |
| Utf8.DecodeEncodes | src/rustDemangle.cpp:244-290 | whatever decodes is a scalar value in its shortest form: section 3 of RFC 3629 |
| Utf8.RoundTrip | src/rustDemangle.cpp:215-290 | every text survives encoding and decoding |
| Punycode.ReadNumber | src/rustDemangle.cpp:315-344 | a variable-length number is read without wrap, or refused |
| Punycode.AdaptBias | src/rustDemangle.cpp:378-388 | the bias of section 6.1 of RFC 3492 |
| Punycode.InsertAt | src/rustDemangle.cpp:362-367 | shifts in place and inserts |
| Punycode.DecodeRound | src/rustDemangle.cpp:314-371 | one round of section 6.2 of RFC 3492 with the limits of the decoder |
| Punycode.PunycodeDecode | src/rustDemangle.cpp:298-390 | succeeds exactly when the RFC's procedure on unbounded numbers yields scalar values and at most 128 characters, with that result: checks for wrap never refuse anything else |
| Punycode.DecodeInserts | src/rustDemangle.cpp:298-390 | deleting the inserted characters gives the ASCII part back; inserted values are non-decreasing scalar values |
| Punycode.DecodedTextSurvivesUtf8 | src/rustDemangle.cpp:411-420 | a decoded identifier survives being written as UTF-8 |
| Punycode.DisplayWide | src/rustDemangle.cpp:411-420 | writes the identifier inside its buffer, and refuses if and only if four bytes are missing before some character |
| RustLexer.Integer62Exact | src/rustDemangle.cpp:762-789 | a base-62 number is read if and only if its digits end with an underscore and their value fits 64 bits, and then has that value |
| RustLexer.Integer62RoundTrip | src/rustDemangle.cpp:762-789 | every number of 64 bits is read back from its encoding, whatever follows, and no larger one |
| RustLexer.IdentifierRoundTrip | src/rustDemangle.cpp:855-925 | an identifier is read back as the plain part and the punycode part it was put together from, with or without a separator |
| RustTokens.DisplaySame | src/rustDemangle.cpp:399-447 | a name is printed as its characters in UTF-8, or as `punycode{...}` if it does not decode, and needs at most three bytes more than it takes |
| RustTokens.UintReads | src/rustDemangle.cpp:449-468 | hexadecimal digits are read as their value if and only if it fits 64 bits, however many zeros stand in front |
| RustTokens.HexTextMeans | src/rustDemangle.cpp:1172-1178 | hexadecimal text of a number has that value |
| RustInterpreter.Enter | src/rustDemangle.cpp:1154-1680 | path, type and constant: terminates on every input by depth budget, then rest of the input; depth and bound lifetimes are restored; success strictly advances; output stays within its room |
| RustInterpreter.EnterPath | src/rustDemangle.cpp:1154-1258 | likewise for paths |
| RustInterpreter.EnterConst | src/rustDemangle.cpp:1331-1474 | likewise for constants |
| RustInterpreter.EnterType | src/rustDemangle.cpp:1593-1680 | likewise for types |
| RustInterpreter.Back | src/rustDemangle.cpp:1052-1069 | a back-reference is followed only in the printing pass, and parsing resumes behind it with the depth it had |
| RustInterpreter.Bind | src/rustDemangle.cpp:1098-1123 | a binder leaves depth as it was and takes back the lifetimes it bound, unless the output overflowed |
| RustInterpreter.Loop | src/rustDemangle.cpp:976-990 | a list ends or advances with each element |
| RustPasses.PassesAgree | src/rustDemangle.cpp:121-134 | when the printing pass succeeds, the silent pass succeeds too and stops at the same position with depth 0 |
| RustPasses.OutputFits | src/rustDemangle.cpp:1006-1018 | the silent pass writes nothing; the printing pass never writes more than its room, whatever room its pieces demand |
| RustRoundTrip.PathPrints | src/rustDemangle.cpp:1154-1258 | a mangled path, at any depth below the limit and in every context, is read to its end and printed as Rust writes it: hash, closures, impls, generic arguments and back-references |
| RustRoundTrip.TypePrints | src/rustDemangle.cpp:1593-1680 | likewise every type: references with their lifetimes, pointers, arrays, tuples, functions with binder, ABI and result, trait objects |
| RustRoundTrip.ConstPrints | src/rustDemangle.cpp:1331-1474 | likewise every constant: numbers, characters and text with escapes, references, arrays, tuples and variants, in braces outside expressions |
| RustRoundTrip.BoundGoes | src/rustDemangle.cpp:1476-1520 | a trait bound is printed with its parameters and associated types in one pair of brackets, also where its path is a back-reference |
| RustRoundTrip.FunctionGoes | src/rustDemangle.cpp:1527-1586 | a function type is printed with `unsafe`, its ABI, parameters and result, nothing for the unit |
| RustDemangle.PrintsMangled | src/rustDemangle.cpp:191-214 | on mangled text the printing pass ends good, at its end, with exactly the Rust text |
| RustDemangle.DemanglesMangled | src/rustDemangle.cpp:136-214 | a symbol that mangles a path, behind any of the three prefixes and with or without an instantiating crate, is accepted up to its end and displayed as the Rust text if and only if the buffer has four bytes more than the text |
| RustRoom.EnterWider | src/rustDemangle.cpp:1006-1018 | as long as the smaller buffer is enough, more room changes nothing but the room left |
| RustDemangle.ExampleDemangles | src/rustDemangle.cpp:136-214 | the symbol `_RINvC1a1fRhE` is displayed as `a::f::<&u8>` |
| ProtobufFormat.VarIntSizeIsLength | src/protobuf.cpp:29-37 | the leading-zeros formula is the number of bytes written, for every 64-bit value |
| ProtobufFormat.FieldReads | src/protobuf.cpp:55-110 | a field is read back, whatever follows |
| ProtobufFormat.TreeRoundTrip | src/protobuf.cpp:55-110 | a tree of nested messages with back-patched lengths decodes to the same tree |
| ProtobufWriter.ProtoBuffer.EnsureCapacity | src/protobuf.cpp:39-44 | makes room and keeps the contents |
| ProtobufWriter.ProtoBuffer.PutVarInt | src/protobuf.cpp:46-53 | every byte written is inside the capacity reserved by the formula |
| ProtobufWriter.ProtoBuffer.PutNum | src/protobuf.cpp:59-62 | appends a number field |
| ProtobufWriter.ProtoBuffer.PutFixed | src/protobuf.cpp:64-69 | appends a fixed 64-bit field |
| ProtobufWriter.ProtoBuffer.PutBlob | src/protobuf.cpp:79-86 | appends a bytes field |
| ProtobufWriter.ProtoBuffer.StartMessage | src/protobuf.cpp:88-96 | leaves the length open and returns where |
| ProtobufWriter.ProtoBuffer.CommitMessage | src/protobuf.cpp:98-110 | the open bytes become the padded length of what was written since; nothing else changes |
| ProtobufWriter.WriteMessage | src/protobuf.cpp:59-110 | any well-bracketed sequence of calls yields bytes that decode to exactly that tree |
| FlameTree.InsertKeepsBalance | src/flameGraph.cpp:82-107 | adding a trace keeps total = self + children at every node and adds its weight to the root |
| FlameTree.RootCountsEverything | src/profiler.cpp:1366-1406 | the root total is the sum of all inserted weights |
| FlameTree.WidthsAreSamples | src/profiler.cpp:1366-1406 | the total of every node is the weight of exactly the traces that run through it |
| FlameBuilder.FlameGraph.AddChild | src/flameGraph.cpp:82-107 | counts the weight at the node, finds or adds its child, counts the kind of frame there, and changes no other node |
| FlameBuilder.FlameGraph.AddTrace | src/profiler.cpp:1366-1406 | after any sequence of traces every node holds exactly the weight of the traces through its path, as its own that of those that end there, and by kind that of those whose frame there was inlined, C1-compiled or interpreted |
| FlameBuilder.FlameGraph.NodesAreTheTree | src/profiler.cpp:1366-1406 | the nodes updated in place agree with the tree built by value, at every path |
| FlameBuilder.FlameGraph.NoNodeIsMissing | src/profiler.cpp:1366-1406 | every path with weight has a node |
| FlameBuilder.FlameGraph.NodesCountKinds | src/flameGraph.cpp:94-103 | every node counts the inlined, C1-compiled and interpreted frames of the traces through it |
| FlameFrames.FramesShareNodes | src/flameGraph.cpp:94-106 | frames share a child if and only if they have one name and are both Java code or of one type |
| FlameFrames.UniformFramesKeepTheirType | src/flameGraph.h:33-43 | a frame whose samples were all of one type is shown with that type |
| FlameLayout.FramesLaid | src/flameGraph.cpp:149-197 | printed frames of a level are disjoint and in order, and each lies inside its parent, also with pruning |
| FlameFrames.EveryNodeIsShown | src/flameGraph.cpp:149-197 | every node that is not cut off, nor below one that is, is shown at its place: behind its parent's own samples and its earlier siblings |
| FlameFrames.EveryFrameIsANode | src/flameGraph.cpp:149-197 | and nothing else is shown |
| FlameLayout.FramesBelowDepth | src/flameGraph.h:57-67 | no printed frame is at or above the computed depth |
| FlameLayout.DecodeCommands | src/flameGraph.cpp:149-197 | the page's decoder recovers level, position, width and name of every frame from the `u`, `n` and `f` commands |
| FlameLayout.PageShowsTheTree | src/flameGraph.cpp:149-197 | for any balanced tree, its children in any order, and any cut-off, the page recovers exactly the printed frames, laid out and nested, and no position delta is negative |
| FlameLayout.Printer.PrintFrame | src/flameGraph.cpp:149-197 | the printer with its mutable last level, position and width writes exactly these commands |
| FlamePage.MirrorIsBalanced | src/flameGraph.cpp:176-197 | the tree at every node built in place, its children in any order, is balanced |
| FlamePage.PageShowsTheGraph | src/flameGraph.cpp:149-197 | for any traces the page shows exactly the frames of the nodes built from them, whatever order the printer sorts children into |
| FlamePage.GraphHasItsTree | src/flameGraph.cpp:176-197 | there is a tree to print for every graph that was built |
| NamePool.NamesRoundTrip | src/flameGraph.cpp:199-225 | where `char` is unsigned, the page gets every name back from the front-coded pool |
| NamePool.UnpackExact | src/flameGraph.cpp:28-36 | whatever the sign of `char`, a name comes back if and only if the shared bytes are ASCII or are the whole previous name |
| NamePool.PoolExact | src/flameGraph.cpp:199-225 | the whole pool comes back if and only if that holds of every name |
| NamePool.SignedCharBreaksNames | src/flameGraph.cpp:28-36 | where `char` is signed, two names that share a non-ASCII letter come back wrong |
| JfrFormat.LongRoundTrip | src/flightRecorder.cpp:161-174 | every 64-bit value is read back, from at most nine bytes |
| JfrFormat.NinthByteIsFull | src/flightRecorder.cpp:161-174 | the early exit after nine bytes happens exactly for values with bit 63 set, so forcing the continuation bit changes nothing |
| JfrRecording.Buffer.PutVar32 | src/flightRecorder.cpp:153-159 | appends the compressed integer |
| JfrRecording.Buffer.PutVar64 | src/flightRecorder.cpp:161-174 | three bytes a round, early exit in the third: exactly the nine-byte format |
| JfrRecording.Buffer.PutSize | src/flightRecorder.cpp:206-216 | patches one or five size bytes and no other byte |
| JfrEvents.EventSizesBounded | src/flightRecorder.cpp:1171-1286 | no event with a one-byte size exceeds 83 bytes, and none 2200, whatever its values |
| JfrEvents.EventReads | src/flightRecorder.cpp:1171-1286 | an event reads back as itself by its size, type and fields |
| JfrEvents.EventsRead | src/flightRecorder.cpp:1323-1390 | any sequence of events reads back as the same sequence |
| JfrMetadata.EventsMatchMetadata | src/jfrMetadata.cpp:89-315 | events are written field by field as the metadata of the recording declares them |
| JfrRecording.LimitsLeaveRoom | src/flightRecorder.cpp:44-47 | a buffer below its limit has room for any event it may get |
| JfrRecording.Buffer.FlushIfNeeded | src/flightRecorder.cpp:650-654 | flushing at the limit keeps file and buffer together the same |
| JfrRecording.Buffer.Record | src/flightRecorder.cpp:1632-1683 | appends one event without leaving the buffer, and file and buffer together stay exactly the events recorded |
| JfrRecording.Buffer.NothingIsLost | src/flightRecorder.cpp:1632-1683 | at any moment file and buffer together read back as the events recorded |

## Left out

Instrumentation
- The entry-only mode without latency, and class file framing around the `Code` attribute: easy beside the latency mode.
- The bytes of `LineNumberTable` and `LocalVariableTable`: `RangePreserved` is the property their relocation needs.
- `jsr` and `ret`, which class files with stack maps cannot hold.
- `classfile_constants.h`, which holds the table of lengths, is not part of this model; its entries are those of the JVM specification.
- Rewriter.BytecodeRewriter.RewriteCodeForLatency: where the 16-bit counter wrapped to a value that passes the size check, covers only code without jumps; with jumps the source fails its own assertion on the opcode or reads outside its tables.
- CodeAttribute.RewriteCode: takes a method already split into its parts, and assumes `max_stack` at most 65531 and `max_locals` at most 65533, as the sums are written to 16 bits.
- StackMapRewriter.TableRewriter.RewriteStackMapTable: assumes at most 65534 frames and locals in a frame, as one more is written to 16 bits, and does not model the patched attribute length.
- Simulation.InstrumentationPreservesMeaning: the inserted calls return as their descriptors say and leave the program's heap alone.

Signal capture
- The legacy signal handler, which depends on clock reads across threads.
- Counter wrap-around at 2^64, and the signal number kept in the terminal record.

Storage
- Weak memory ordering; 64-bit wrap-around of samples and weights.
- CallTraceGuarantees.OneSlotPerHash: does not cover hash 0, which marks an empty slot, nor tables beyond 2^30 slots.
- LinearAllocatorGuarantees.BlocksNeverOverlap: does not model reuse of a freed chunk's address.
- TraceIds.Add: works on the state as a value, in one step; concurrent puts are in the state machine only.
- LinearAllocatorGuarantees.Clear: works on the state as a value, in one step, when no allocation is under way, as the source leaves to its callers.
- The quality of hash functions; `collectTraces`, `collectSamples` and `clear` of the call trace storage, which are plain scans.

DWARF
- Decoding of opcodes and operands from bytes, and registers of architectures other than x86-64.
- Leb128.GetLeb: numbers longer than five bytes, for which the shift in C++ is undefined.
- Leb128.GetSLeb: numbers longer than five bytes, likewise.
- CallFrameAgreement.RowsGiveRule: one direction for whole programs, since errors can cancel out; `StepExact`, `EarlyEndExact`, `UsualExact` and `SavesExact` are exact for each cause.
- FrameTable.CompressionIsFaithful: one direction, for rows in order; `SectionExact` is exact for entries in any order.
- UnwindTables.DebugTableIsFaithful: entries end before their range does and below 2^31, where `CompareExact` makes the sorting right.
- UnwindTables.UnwindDebug: takes the sorted table, any result of `qsort`, as a parameter.
- The stack walker's own limits on frame sizes and registers.

Rust demangling
- The legacy scheme, and the suffix of a symbol.
- RustPasses.OutputFits: holds for any text of the pieces and any room they demand; `RustText` has the demangler's own.
- RustDemangle.DemanglesMangled: text that mangles no tree is covered by the interpreter's guarantees only.
- RustInterpreter.Enter: parser and printer are one state passed along instead of updated in place.
- RustInterpreter.Bind: the count of bound lifetimes is unbounded; the 32-bit wrap is not modelled.

Output formats
- FlameBuilder.FlameGraph.AddChild: nodes name one another by position instead of address; frame names are already keys of the name pool.
- FlameTree.WidthsAreSamples: filters and the order of frames chosen by `dumpFlameGraph` are part of the given path; the order of children is arbitrary.
- FlameLayout.Printer.PrintFrame: the name and type of a frame are one number given by a function.
- NamePool.NamesRoundTrip: does not model quoting of the strings; the page's characters are Unicode scalar values, not UTF-16 units.
- ProtobufWriter.WriteMessage: assumes a message below 2^60 bytes, as positions are packed into 64-bit marks, and nested lengths that fit the bytes left open for them.
- JfrRecording.Buffer.Record: strings of events are at most 2048 bytes, the limit for user events; session ids have 36.
- JfrRecording.Buffer.FlushIfNeeded: writes are complete; I/O errors are not modelled.
- JFR metadata, constant pools, process samples and log events, which use the same primitives.

Not modelled at all: stack walking, VM structures, perf events, ELF and Mach-O symbols, argument parsing, I/O.
