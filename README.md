# ChocolArm64 dispatch, subroutine building and JIT introspection in Dafny

This project models the core of ChocolArm64, the ARM64-to-CIL dynamic recompiler of
Ryujinx. It has four parts, one module each:

- **Translation** (`translator.dfy`): the `Translator` dispatch loop. The loop looks a
  guest address up in the cache of translated subroutines. On a miss it builds a Tier0
  subroutine (one basic block). When the subroutine asks for it, it builds a Tier1
  subroutine (the whole reachable graph). Then it executes, records one timing
  observation and continues at the returned address while that address is non-zero and
  the thread runs. Subroutines are named `Sub` + 16 lower-case hex digits.
- **MethodBuilding** (`method_builder.dfy`): the parts of `ILMethodBuilder` that
  synthesise a subroutine's signature:
  - one parameter per set bit of the live-in masks, integer and flag registers before
    vectors;
  - the CLR type of each parameter;
  - lazily numbered local slots and the argument-to-local prologue.

  It also covers the introspection pass that re-decodes each guest instruction's IL
  range, dumps ranges of more than 400 instructions and feeds the counter.
- **CilReader** (`cil_reader.dfy`): `ILReader`, the CIL decoder. It fills two 255-slot
  opcode tables from the runtime's opcode list. Then it reads one- or two-byte opcodes
  and skips their inline operands.
- **Introspection** (`introspection.dfy`): `ILIntrospectionCounter`. Per instruction
  kind it keeps a 512-sample rolling window of emit times, a hit count and the distinct
  generated sizes. Per subroutine it keeps a write-once timing record with an additive
  execution count.

`common.dfy` holds the shared `Option`/`Result` types and the C# `long`, `int` and
`byte` ranges.

Stateful classes stay classes: `Translator`, `MethodBuilder` and `IntrospectionCounter`
update their fields in place. Their methods are proved against specification
functions:

- `StepAt`/`Run` for the loop;
- `PublishTier1` for Tier1 publication;
- `Allocate`/`AllocateAll` for local slots;
- `AppendArgs`/`SubArgs` for the parameter list;
- `Decode`/`ReadRange` for the decoder;
- `TrackOpcode`/`TrackJitTime` for the counter.

Lemmas state what those functions promise. Some state how the functions relate to
each other. Others state an invariant against a ghost history of everything tracked.

The model follows the code where the code and its own comments disagree.
`Translator.TranslateTier1` (ChocolArm64/Translator.cs:141-152) says in a comment that
every caller of the new subroutine is marked for re-JIT. The code looks the entry up
again at `position`, not at `callerPos`. So it marks the new entry itself, once per
caller, and marks no caller. Besides, it reads the caller list from the subroutine it
has just published, not from the entry it replaced. `PublishTier1` does exactly this.
`CallerMarkingMarksItself` and `CallerNotMarkedExample` state the consequence.

## Model

| member | source | states |
|---|---|---|
| `Translation.Hex` | ChocolArm64/Translator.cs:157 | the digit string has exactly `width` characters, each one of `0-9a-f` |
| `Translation.Tier0Sub` | ChocolArm64/Translator.cs:97-114 | the Tier0 subroutine built for an address; `MissPublishesTier0` states its name, tier and publication |
| `Translation.Tier1Sub` | ChocolArm64/Translator.cs:116-131 | the Tier1 subroutine built for an address; `ReJitPublishesTier1` and `PublishTier1` state its name, tier and size |
| `Translation.MarkForReJit` | ChocolArm64/Translator.cs:141-152 | the re-JIT mark set on a cached entry; `CallerMarkingMarksItself` states which entry gets it |
| `Translation.SubroutineName` | ChocolArm64/Translator.cs:155-158 | every name is 19 characters: `Sub` followed by 16 lower-case hex digits |
| `Translation.Unsigned64` | ChocolArm64/Translator.cs:157 | the value `x16` formats is the position's 64-bit two's-complement pattern, below 2^64 |
| `Translation.ParseHexRoundTrip` | ChocolArm64/Translator.cs:157 | reading back the hex digits of any number below 16^width gives the number |
| `Translation.SubroutineNameInjective` | ChocolArm64/Translator.cs:155-158 | two positions get the same name if and only if they are equal, negative positions included |
| `Translation.MissPublishesTier0` | ChocolArm64/Translator.cs:47-56 | on a miss with no re-JIT, the iteration publishes a Tier0 subroutine named for the address, sized by the block's opcode count, executes it, and records a tier0 time but no tier1 time |
| `Translation.HitExecutesCached` | ChocolArm64/Translator.cs:47-67 | a hit that does not ask for re-JIT leaves the cache unchanged, executes the cached subroutine and records neither JIT time |
| `Translation.ReJitPublishesTier1` | ChocolArm64/Translator.cs:58-67 | a re-JIT publishes a Tier1 entry sized by the total IL count and records a tier1 time. Every other address is unchanged. The subroutine executed is still the one fetched before the re-JIT |
| `Translation.StepAt` | ChocolArm64/Translator.cs:37-88 | one iteration caches its address and drops none, continues at the address the execution returned, records a tier0 time exactly on a miss, and always records the RyuJIT and execution times |
| `Translation.CallerMarkingMarksItself` | ChocolArm64/Translator.cs:141-152 | after Tier1 publication the new entry is marked for re-JIT exactly when its caller list is non-empty; no other entry, caller or not, changes |
| `Translation.CallerNotMarkedExample` | ChocolArm64/Translator.cs:141-152 | a Tier1 build of 0x2000 called from 0x1000 with blocks of 3 and 4 IL instructions: 0x1000 stays unmarked, 0x2000 is marked and has size 7 |
| `Translation.PublishTier1` | ChocolArm64/Translator.cs:116-153 | Tier1 publication adds or replaces only the built address. The entry there is a Tier1 subroutine with its `Sub` name, sized by the sum of the IL block counts |
| `Translation.StepNeverRegresses` | ChocolArm64/Translator.cs:47-67 | one iteration adds its address to the cache, drops no address, and never turns a Tier1 entry back into Tier0 |
| `Translation.RunWith` | ChocolArm64/Translator.cs:37-89 | the do-while loop runs at least once and at most once per scripted outcome, recording one observation and one executed subroutine per iteration |
| `Translation.Run` | ChocolArm64/Translator.cs:37-89 | the loop of ExecuteSubroutine over the real loop body runs at least once and at most once per scripted outcome, with one observation and one executed subroutine per iteration; `RunStopsExactly`, `RunKeysObservations`, `RunTraces` and `RunNeverRegresses` state the rest |
| `Translation.RunStopsExactly` | ChocolArm64/Translator.cs:89 | every iteration except the last returned a non-zero address with the thread running. The loop halts if and only if the last one returned 0 or stopped the thread. It ends on the last returned address |
| `Translation.RunKeysObservations` | ChocolArm64/Translator.cs:39-87 | observation 0 is keyed by the entry address and observation i by the address iteration i-1 returned |
| `Translation.RunTraces` | ChocolArm64/Translator.cs:42-45 | with tracing on, the trace gains exactly the start address of each iteration, in order |
| `Translation.RunWithoutTrace` | ChocolArm64/Translator.cs:42-45 | with tracing off, the trace is untouched |
| `Translation.RunNeverRegresses` | ChocolArm64/Translator.cs:37-89 | after a whole run, every address an iteration started at is cached, no earlier entry is dropped, and no Tier1 entry is back at Tier0 |
| `Translation.RunExample` | ChocolArm64/Translator.cs:37-89 | a run from 0x1000 whose execution returns 0 iterates once, traces 0x1000, and caches and executes a Tier0 `Sub0000000000001000` |
| `Translation.Translator.constructor` | ChocolArm64/Translator.cs:20-26 | a new translator has an empty cache and no trace events |
| `Translation.Translator.TranslateTier0` | ChocolArm64/Translator.cs:97-114 | returns the Tier0 subroutine for the address and publishes it with the block's opcode count; nothing else changes |
| `Translation.Translator.TranslateTier1` | ChocolArm64/Translator.cs:116-153 | the summing loop and the caller loop leave the cache equal to `PublishTier1`, whose effect the two lemmas above state |
| `Translation.Translator.Iterate` | ChocolArm64/Translator.cs:37-88 | one loop body: the cache, the returned address and the trace are those of `StepAt`; the counter tracks the iteration's record under the address it started at, with count 1 |
| `Translation.Translator.Turn` | ChocolArm64/Translator.cs:37-89 | one turn of the do-while keeps the loop invariant: the rest of the run that `Run` computes from the entry state still lies ahead of the new state, or, when the turn ends the loop, the state is that run's result; the timing table holds every observation so far |
| `Translation.Translator.ExecuteSubroutine` | ChocolArm64/Translator.cs:33-90 | the final cache, trace, last address and halting reason are those of `Run`; the counter holds every iteration's observation merged in order |
| `MethodBuilding.RegFromBit` | ChocolArm64/Translation/ILMethodBuilder.cs:134-148 | the call succeeds exactly for bits below 32, or for any bit of an integer mask |
| `MethodBuilding.RegFromBitInverse` | ChocolArm64/Translation/ILMethodBuilder.cs:134-148 | every bit of a 64-bit mask maps to a register from which the bit is recovered. Bits 32..63 of the integer mask become flags |
| `MethodBuilding.IsRegIndex` | ChocolArm64/Translation/ILMethodBuilder.cs:150-153 | the unsigned comparison accepts exactly the indices 0..31, rejecting every negative index |
| `MethodBuilding.FieldType` | ChocolArm64/Translation/ILMethodBuilder.cs:122-132 | every register class has one of the three register field types, never another CLR type |
| `MethodBuilding.FieldTypeInjective` | ChocolArm64/Translation/ILMethodBuilder.cs:122-132 | the three register classes are held in three different CLR types |
| `MethodBuilding.SetBitsAscending` | ChocolArm64/Translation/ILMethodBuilder.cs:46-54 | the bit loop visits exactly the set bits, in strictly ascending order |
| `MethodBuilding.RegistersPointwise` | ChocolArm64/Translation/ILMethodBuilder.cs:46-54 | the argument list succeeds if and only if every set bit maps to a register, and then holds those registers in order |
| `MethodBuilding.AppendArgs` | ChocolArm64/Translation/ILMethodBuilder.cs:44-55 | the list after one SetArgs call: `RegistersPointwise` states it holds the register of each set bit in ascending order, or the first exception |
| `MethodBuilding.SetArgs` | ChocolArm64/Translation/ILMethodBuilder.cs:44-55 | the 64-step loop appends to the list the register of every set bit in order, or throws as the first unmappable bit does |
| `MethodBuilding.IntParameters` | ChocolArm64/Translation/ILMethodBuilder.cs:57 | the integer mask never throws; parameter i is X<bit> or flag <bit-32> for the i-th set bit |
| `MethodBuilding.VectorParametersFail` | ChocolArm64/Translation/ILMethodBuilder.cs:58 | the vector mask throws if and only if one of its bits 32..63 is set |
| `MethodBuilding.VectorParameters` | ChocolArm64/Translation/ILMethodBuilder.cs:58 | vector parameters V<bit> follow the integer ones, in ascending bit order |
| `MethodBuilding.SubArgs` | ChocolArm64/Translation/ILMethodBuilder.cs:44-58 | building the parameter list throws if and only if the vector mask has a bit in 32..63 |
| `MethodBuilding.ParametersDistinct` | ChocolArm64/Translation/ILMethodBuilder.cs:57-58 | no register appears twice in the parameter list |
| `MethodBuilding.GetArgumentTypes` | ChocolArm64/Translation/ILMethodBuilder.cs:90-106 | the types are the fixed argument types followed by the field type of each parameter, position for position |
| `MethodBuilding.Allocate` | ChocolArm64/Translation/ILMethodBuilder.cs:108-120 | after a request the register has a slot, and it is the slot returned; no register loses its slot |
| `MethodBuilding.AllocateKeepsSlotsValid` | ChocolArm64/Translation/ILMethodBuilder.cs:108-120 | slots stay numbered 0..count-1, one register each, declared with its field type. A first use gets slot `count` and declares one local. A repeat use changes nothing. Earlier slots are kept |
| `MethodBuilding.EmptySlots` | ChocolArm64/Translation/ILMethodBuilder.cs:68-70 | the reset dictionary and counter satisfy the slot invariant |
| `MethodBuilding.AllocateAllValid` | ChocolArm64/Translation/ILMethodBuilder.cs:72-78 | any run of requests keeps the slot invariant |
| `MethodBuilding.AllocateAllIndices` | ChocolArm64/Translation/ILMethodBuilder.cs:72-78 | each register ends in the slot its request returned, and earlier slots are kept |
| `MethodBuilding.AllocateAllDistinct` | ChocolArm64/Translation/ILMethodBuilder.cs:72-78 | distinct registers requested from fresh slots get slots 0..n-1 in order, and no other register gets one |
| `MethodBuilding.AllocateIdempotent` | ChocolArm64/Translation/ILMethodBuilder.cs:108-120 | asking again for the same register returns the same slot and changes nothing |
| `MethodBuilding.ListingOffsets` | ChocolArm64/Translation/ILMethodBuilder.cs:175-180 | dump line i carries the start offset plus the opcode and operand bytes of the instructions before it |
| `MethodBuilding.Listing` | ChocolArm64/Translation/ILMethodBuilder.cs:175-180 | the printed dump lines; `ListingOffsets` states their offsets |
| `MethodBuilding.Inspect` | ChocolArm64/Translation/ILMethodBuilder.cs:163-181 | a bound is dumped if and only if its range decodes to more than 400 instructions; its count is the number decoded. A reader exception is reported exactly when the range fails to decode. A NullReferenceException is reported exactly when the range decodes to more than 400 instructions and the emitter method or the instruction type is missing, as the dump header at :173 dereferences both |
| `MethodBuilding.DumpOffsetsWithinBound` | ChocolArm64/Translation/ILMethodBuilder.cs:171-181 | a dump has one line per instruction at its true offset, and the last instruction ends exactly at the bound's end |
| `MethodBuilding.InspectAll` | ChocolArm64/Translation/ILMethodBuilder.cs:163-184 | a successful pass reports on every bound |
| `MethodBuilding.TrackReportsCounts` | ChocolArm64/Translation/ILMethodBuilder.cs:183 | the pass adds to each key's emit count the number of bounds with that key; other keys are unchanged |
| `MethodBuilding.DecodeLength` | ChocolArm64/Translation/ILMethodBuilder.cs:169 | a decoded range holds at most one instruction per byte |
| `MethodBuilding.InspectAllCountsFit` | ChocolArm64/Translation/ILMethodBuilder.cs:169-183 | every reported count fits the `int` passed to Track |
| `MethodBuilding.InspectBound` | ChocolArm64/Translation/ILMethodBuilder.cs:163-181 | decodes one bound, throws on an unnameable instruction past the threshold and otherwise dumps it, as `Inspect` |
| `MethodBuilding.Dump` | ChocolArm64/Translation/ILMethodBuilder.cs:175-180 | the offset-advancing print loop produces the listing whose offsets `ListingOffsets` states |
| `MethodBuilding.TrackBounds` | ChocolArm64/Translation/ILMethodBuilder.cs:163-184 | the loop reports on every bound or stops at the first exception, from the reader or from the dump header. On success the counter's tables become those after tracking each bound with its count, in order. On an error they are those after tracking the bounds before the first failing one. The subroutine timings are untouched |
| `MethodBuilding.StopsAtFirstFailure` | ChocolArm64/Translation/ILMethodBuilder.cs:163-184 | the first bound that throws ends the pass with its error, after the bounds before it were tracked |
| `MethodBuilding.MethodBuilder.constructor` | ChocolArm64/Translation/ILMethodBuilder.cs:29-36 | a new builder has empty bound list and stack and no locals |
| `MethodBuilding.MethodBuilder.GetLocalIndex` | ChocolArm64/Translation/ILMethodBuilder.cs:108-120 | returns the register's slot, allocating and declaring the next one on first use, as `Allocate` |
| `MethodBuilding.MethodBuilder.Prologue` | ChocolArm64/Translation/ILMethodBuilder.cs:68-78 | argument `index + argsStart` is stored in the local of parameter `index`. Slots stay valid. Distinct parameters get locals 0..n-1 |
| `MethodBuilding.MethodBuilder.BuildSignature` | ChocolArm64/Translation/ILMethodBuilder.cs:38-78 | throws if and only if the vector mask has a bit above 31. Otherwise the parameters are `SubArgs`, the argument types are the fixed ones plus each parameter's field type, and the prologue moves argument `fixed + i` to local `i` |
| `MethodBuilding.MethodBuilder.ProcessInstructionIntrospection` | ChocolArm64/Translation/ILMethodBuilder.cs:155-188 | the result is the pass over the recorded bounds. On success the counter has tracked every bound with its count, and the bound list and stack are cleared. On an exception both are left as they were, and the counter has tracked exactly the bounds before the first failing one |
| `CilReader.EmptyTables` | ChocolArm64/Introspection/ILReader.cs:21-22 | the fresh tables have 255 slots each and hold nothing ill-sized |
| `CilReader.Install` | ChocolArm64/Introspection/ILReader.cs:26-42 | storing one opcode keeps both tables at 255 slots |
| `CilReader.Int32At` | ChocolArm64/Introspection/ILReader.cs:146 | `ReadInt32`: the little-endian value is a signed 32-bit integer, negative exactly when the top bit of its last byte is set |
| `CilReader.Populate` | ChocolArm64/Introspection/ILReader.cs:26-42 | a successful population keeps both tables at 255 slots |
| `CilReader.PopulateWellFormed` | ChocolArm64/Introspection/ILReader.cs:17-43 | no reserved opcode is stored; slot i of the one-byte table holds an opcode of value i, and slot i of the two-byte table one whose low byte is i, each of its table's size. The converse is `PopulateStoresEveryOpCode` |
| `CilReader.PopulateKeepsSlot` | ChocolArm64/Introspection/ILReader.cs:26-42 | a stored opcode stays in its slot while no later non-reserved field maps to the same slot |
| `CilReader.PopulateStoresEveryOpCode` | ChocolArm64/Introspection/ILReader.cs:26-42 | every non-reserved field that no later field overwrites is stored: a one-byte opcode at slot `value`, a two-byte one at slot `value % 256` |
| `CilReader.PopulatedTablesKnow` | ChocolArm64/Introspection/ILReader.cs:17-43 | populating from the runtime's opcode list, each opcode of that list that no later field overwrites is found by the decoder's table lookup |
| `CilReader.ReservedSkippedSlot255Fails` | ChocolArm64/Introspection/ILReader.cs:30-36 | a reserved opcode of value 0xFF is skipped; a non-reserved one would index past the 255 slots and fail population |
| `CilReader.PopulateTables` | ChocolArm64/Introspection/ILReader.cs:17-43 | filling the two arrays field by field gives the tables of `Populate` |
| `CilReader.OpCodeAt` | ChocolArm64/Introspection/ILReader.cs:83-91 | a successful read consumes one byte, or two after the 0xFE prefix, within the stream, and returns the opcode stored in the one-byte table at the first byte or in the two-byte table at the second. It fails with end of stream exactly when the stream ends before the opcode does |
| `CilReader.OperandAt` | ChocolArm64/Introspection/ILReader.cs:93-158 | the reported operand size is exactly the number of bytes skipped, within the stream |
| `CilReader.WrapInt32` | ChocolArm64/Introspection/ILReader.cs:150 | the result is the `int` congruent to its argument modulo 2^32 |
| `CilReader.SwitchOperandAsWritten` | ChocolArm64/Introspection/ILReader.cs:145-151 | the signed-count switch case consumes at least its count field and stays within the stream; the reported size `4 + 4 * count` wraps to an `int` |
| `CilReader.SwitchNegativeCountMisreported` | ChocolArm64/Introspection/ILReader.cs:145-151 | count bytes FF FF FF FF: as written, 4 bytes are consumed but size 0 is reported; count bytes 00 00 00 80: 4 bytes are consumed and the wrapped size is 4; read unsigned, both streams are too short |
| `CilReader.SwitchAgreesOnNonNegativeCount` | ChocolArm64/Introspection/ILReader.cs:145-151 | when the count's top bit is clear and the stream fits a `byte[]`, the as-written and the unsigned readings agree |
| `CilReader.OperandSizeByType` | ChocolArm64/Introspection/ILReader.cs:97-155 | every fixed operand type skips its byte count whatever the bytes hold; the decoder throws NotSupported if and only if the type is InlinePhi |
| `CilReader.Layout` | ChocolArm64/Introspection/ILReader.cs:97-155 | the operand-size table: InlinePhi is the only unsupported type and InlineSwitch the only variable-length one; every other type has 0, 1, 2, 4 or 8 bytes |
| `CilReader.StepAt` | ChocolArm64/Introspection/ILReader.cs:71-78 | one decoding step always advances the cursor and stays within the stream |
| `CilReader.StepAccounts` | ChocolArm64/Introspection/ILReader.cs:71-78 | a step advances the cursor by exactly the opcode's size plus the reported operand size |
| `CilReader.Decode` | ChocolArm64/Introspection/ILReader.cs:69-80 | a successful decode from a position yields at least one instruction exactly when bytes remain |
| `CilReader.DecodeAccountsForEveryByte` | ChocolArm64/Introspection/ILReader.cs:69-80 | the opcode and operand sizes of a successful decode add up to exactly the bytes decoded |
| `CilReader.ReadRangeAccounts` | ChocolArm64/Introspection/ILReader.cs:64-81 | a successful range decode implies a valid range and accounts for exactly stop - start bytes |
| `CilReader.ReadRange` | ChocolArm64/Introspection/ILReader.cs:64-81 | a successful range decode implies 0 <= start <= stop <= length and yields an instruction exactly when the range is non-empty |
| `CilReader.ReadRangeIgnoresOutside` | ChocolArm64/Introspection/ILReader.cs:66 | the range overload depends only on the bytes in [start, stop) |
| `CilReader.DecodeEncode` | ChocolArm64/Introspection/ILReader.cs:45-62 | decoding the bytes an emitter wrote gives back each opcode with its operand length, in order |
| `CilReader.ReadOpCode` | ChocolArm64/Introspection/ILReader.cs:83-91 | the byte-reading method returns what `OpCodeAt` specifies, errors included |
| `CilReader.SkipOperands` | ChocolArm64/Introspection/ILReader.cs:93-158 | the switch loop that skips targets one by one agrees with `OperandAt`, whose size accounting is stated above; it follows the corrected reading, with the count unsigned |
| `CilReader.ReadInstructions` | ChocolArm64/Introspection/ILReader.cs:64-81 | the cursor loop over [start, stop) yields exactly the decode of the range, or its first error, with the `switch` count read unsigned as corrected under Findings |
| `CilReader.ReadAllInstructions` | ChocolArm64/Introspection/ILReader.cs:45-62 | the whole-buffer overload decodes the whole buffer |
| `Introspection.SameEmitterSameKeyIff` | ChocolArm64/Introspection/ILIntrospectionCounter.cs:210-224 | two kinds with the same emitter are one key if and only if their types hash alike |
| `Introspection.HashCode` | ChocolArm64/Introspection/ILIntrospectionCounter.cs:215-224 | the emitter-name hash XOR the type hash; `SameEmitterSameKeyIff` and `MissingPartsHashAsEmpty` state its properties |
| `Introspection.SameKey` | ChocolArm64/Introspection/ILIntrospectionCounter.cs:210-213 | ILKey.Equals compares hash codes; `SameEmitterSameKeyIff` states when two kinds are one key |
| `Introspection.MissingPartsHashAsEmpty` | ChocolArm64/Introspection/ILIntrospectionCounter.cs:215-224 | a missing emitter method is the same key as an empty name, and a missing type the same key as a type hashing to 0 |
| `Introspection.KeyOf` | ChocolArm64/Introspection/ILIntrospectionCounter.cs:215-224 | an instruction kind's key is its 32-bit hash code |
| `Introspection.Latest` | ChocolArm64/Introspection/ILIntrospectionCounter.cs:12 | the window never holds more than 512 samples |
| `Introspection.PushWindow` | ChocolArm64/Introspection/ILIntrospectionCounter.cs:35-42 | the new sample is always last, and a window of at most 512 samples stays within 512; `PushWindowKeepsLatest` states it keeps the latest samples |
| `Introspection.PushWindowKeepsLatest` | ChocolArm64/Introspection/ILIntrospectionCounter.cs:35-42 | dequeue-when-full-then-enqueue keeps the latest 512 samples of the history, oldest first |
| `Introspection.AddDistinct` | ChocolArm64/Introspection/ILIntrospectionCounter.cs:50-55 | the size is in the list afterwards, the old list is a prefix, and at most one entry is added |
| `Introspection.AddDistinctKeepsOrder` | ChocolArm64/Introspection/ILIntrospectionCounter.cs:50-55 | the size list stays duplicate-free, holds exactly the sizes seen, in first-seen order; a known size changes nothing |
| `Introspection.TrackOpcode` | ChocolArm64/Introspection/ILIntrospectionCounter.cs:30-56 | after one Track the key is present in all three tables and its emit count is at least 1 |
| `Introspection.TrackOpcodeMatchesHistory` | ChocolArm64/Introspection/ILIntrospectionCounter.cs:30-56 | one Track keeps window, count and size list in agreement with the extended histories of every key |
| `Introspection.TrackOpcodeCounts` | ChocolArm64/Introspection/ILIntrospectionCounter.cs:35-55 | a key's first Track stores exactly its sample, count 1 and its size; each later one adds exactly 1 to the count |
| `Introspection.TrackTables` | ChocolArm64/Introspection/ILIntrospectionCounter.cs:30-56 | the three AddOrUpdate calls together give `TrackOpcode` |
| `Introspection.Enqueue` | ChocolArm64/Introspection/ILIntrospectionCounter.cs:35-42 | the emit-time AddOrUpdate gives `EnqueueTime`, whose window property is stated above |
| `Introspection.Increment` | ChocolArm64/Introspection/ILIntrospectionCounter.cs:45 | the emit-count AddOrUpdate gives `IncrementCount` |
| `Introspection.Record` | ChocolArm64/Introspection/ILIntrospectionCounter.cs:50-55 | the size AddOrUpdate gives `RecordSize`, whose order property is stated above |
| `Introspection.MergeInto` | ChocolArm64/Introspection/ILIntrospectionCounter.cs:99-115 | the field-by-field update of a stored record gives `MergeTimes` |
| `Introspection.FillOnce` | ChocolArm64/Introspection/ILIntrospectionCounter.cs:75-85 | a stored timing is kept; the result has a timing exactly when the stored or the incoming one does |
| `Introspection.MergeTimes` | ChocolArm64/Introspection/ILIntrospectionCounter.cs:74-90 | the update of a stored record; `MergeTimesWriteOnce` states it fills only missing timings and adds 1 to the count |
| `Introspection.MergeTimesWriteOnce` | ChocolArm64/Introspection/ILIntrospectionCounter.cs:74-90 | a stored timing is never overwritten; an absent one takes the incoming value; the count grows by exactly 1 |
| `Introspection.MergeTimesExtendsAggregate` | ChocolArm64/Introspection/ILIntrospectionCounter.cs:99-115 | merging one more observation into the aggregate of earlier ones gives the aggregate of all of them |
| `Introspection.TrackJitTime` | ChocolArm64/Introspection/ILIntrospectionCounter.cs:64-90 | the AddOrUpdate adds the address and changes no other; its count becomes 1 for a new address and grows by 1 for a known one |
| `Introspection.TrackJitTimeAggregates` | ChocolArm64/Introspection/ILIntrospectionCounter.cs:58-91 | each address's record is the aggregate of its observations: the first value of each timing, and their number as count. No other address changes |
| `Introspection.StoreObservation` | ChocolArm64/Introspection/ILIntrospectionCounter.cs:64-90 | the timing-table update gives `TrackJitTime` and keeps every record equal to the aggregate of its address's observations |
| `Introspection.MergeExample` | ChocolArm64/Introspection/ILIntrospectionCounter.cs:74-90 | (tier0 = 5) then (tier1 = 3) for one address yields tier0 = 5, tier1 = 3, count 2 |
| `Introspection.IntrospectionCounter.constructor` | ChocolArm64/Introspection/ILIntrospectionCounter.cs:21-28 | the four dictionaries start empty and the invariant holds |
| `Introspection.IntrospectionCounter.Track` | ChocolArm64/Introspection/ILIntrospectionCounter.cs:30-56 | the tables become `TrackOpcode` under the opcode's key, the invariant against the histories is kept, and the subroutine timings are untouched |
| `Introspection.IntrospectionCounter.TrackKey` | ChocolArm64/Introspection/ILIntrospectionCounter.cs:34-55 | the same, once the key is computed |
| `Introspection.IntrospectionCounter.TrackSubroutine` | ChocolArm64/Introspection/ILIntrospectionCounter.cs:58-91 | the timing table becomes `TrackJitTime` with a fresh count-1 record, and stays the aggregate of every observation per address; opcode tables untouched |
| `Introspection.IntrospectionCounter.TrackSubroutineSet` | ChocolArm64/Introspection/ILIntrospectionCounter.cs:93-116 | the record's count is reset to 1 and then merged exactly as by the other overload |

## Left out

- Execution of guest code is not modelled. Every iteration's next address, the thread's
  `Running` flag and the four stopwatch readings come from a script of outcomes. The
  dummy-JIT run and the subtraction that yields the RyuJIT time are left out for the
  same reason (Translator.cs:69-85).
- `Translation.ExecuteSubroutine`: the loop is bounded by the length of the script. A
  run that would go on longer is cut off with `halted` false.
- `TranslatedSub.ShouldReJit` is not part of this model. Re-JIT happens when the entry
  is marked or when the scripted `thresholdTripped` is set. Whether the real policy
  clears the mark when it fires is not modelled.
- `TranslatedSub`'s caller list is not modelled from emitter registrations. Each build
  supplies it.
- `Decoder`, `ILEmitterCtx`, `LocalAlloc` and `ILBlock.Emit` are not part of this model.
  Their results are inputs: the block's opcode count, the IL block counts, the live-in
  masks and the emitted IL bytes.
- `DynamicMethod`, `ILGenerator` and the reflective `BakeByteArray` call are not
  modelled. The prologue is a list of (argument, local) moves.
- `ForceAheadOfTimeCompilation` is left out, because it only runs code.
- The `CpuTrace` event is not modelled beyond the position it carries. The model
  records a trace entry whenever `EnableCpuTrace` is set, whether or not a handler is
  attached.
- Concurrency is not modelled: the concurrent dictionaries are plain maps and each
  `AddOrUpdate` is one atomic update. Translation races between threads are out of
  scope.
- Object identity is not modelled. Subroutines and timing records are values, and no
  object is shared between cache entries or callers.
- `PrintStatistics` (ILIntrospectionCounter.cs:118-198) is left out because it is
  console output only. The dump of large ranges is returned as lines instead of printed.
- `ILKey` hashing is only partly modelled: the runtime's string and type hash
  functions are parameters of the counter.
- `CilReader.OpCodeAt`: an unpopulated table slot gives `default(OpCode)` in the source,
  whose size and operand type come from the runtime's internal flag encoding. The model
  reports `UnknownOpCode` instead.
- `MethodBuilding.FieldType`: the `ArgumentException` path is unreachable, because
  register classes are exactly Flag, Int and Vector.
- `Translation.Translator.Iterate`: building a subroutine never fails in the model.
  In the source `GetSubroutine` can throw `ArgumentOutOfRangeException`
  (ILMethodBuilder.cs:146) or, through the introspection pass, `NotSupportedException`
  and `EndOfStreamException` from the reader (ILReader.cs:154) and a
  `NullReferenceException` from the dump header (ILMethodBuilder.cs:173). Such an exception leaves
  `ExecuteSubroutine` before the subroutine is published or `TrackSubroutine` runs. These
  exit paths are not modelled here; `SubArgs` and `ProcessInstructionIntrospection`
  model the errors themselves.
- `Translation.Translator.Iterate`: the per-opcode `Track` calls that the introspection
  pass of each build makes are not modelled in the loop. Its contract leaves the
  counter's opcode tables unstated. `ProcessInstructionIntrospection` states them for
  one build.
- `Translation.Translator.TranslateTier0`: the build is an input and never fails; see
  `Translation.Translator.Iterate`.
- `Translation.Translator.TranslateTier1`: the build is an input and never fails; see
  `Translation.Translator.Iterate`.
- `Translation.Translator.ExecuteSubroutine`: a failing build does not end the loop
  with an exception, and the opcode tables are unstated; see
  `Translation.Translator.Iterate`.
- `Translation.Translator.TranslateTier1`: `ilOpCount` is an unbounded sum, and the
  source's `int` wrap-around past 2^31 - 1 is not modelled.
- `Introspection.IntrospectionCounter.Track`: the `ulong` emit count is unbounded.
- `Introspection.IntrospectionCounter.TrackSubroutine`: the `ulong` `ExecutionCount`
  (SubroutineExecutionTime.cs:13) is unbounded, and its wrap-around past 2^64 - 1 is not
  modelled.
- `CilReader.ReadAllInstructions`: the buffer must be shorter than 2^31 bytes, the
  largest `byte[]` length the runtime allows.
- The lazy `yield` enumeration of `ReadInstructions` is not modelled. The model returns
  the whole list or the first exception, as `.ToArray()` at ILMethodBuilder.cs:169
  observes it.

## Findings

| source | as written | input that shows it | evidently intended | confidence | as-written member | corrected member |
|---|---|---|---|---|---|---|
| ChocolArm64/Introspection/ILReader.cs:145-151 | the `switch` count is read as a signed `int`. A negative count skips no targets but reports an operand size of `4 + 4 * count` modulo 2^32 | a `switch` whose count bytes are FF FF FF FF: 4 bytes are consumed and size 0 is reported, so the dump offsets after it drift. Count bytes 00 00 00 80 report size 4 after consuming 4 bytes, hiding the bad count | the count is unsigned (ECMA-335 Partition III, section 3.66), and the reported size equals the bytes skipped | not executed | `CilReader.SwitchNegativeCountMisreported` | `CilReader.OperandAt` |
