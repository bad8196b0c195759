# MoEspresso host state: a Dafny model

MoEspresso runs a mixture-of-experts language model on one machine. Its GPU kernels are outside this
project, except for what the row decoder computes; the host code around them keeps several pieces of state whose correctness is subtle, and
those are modelled and proved here.

- **KVarN cache** (`KvarnLayout`, `Kvarn`, `KvarnRestore`, `RecordGrowth`): an append-only sequence of key and value
  rows stored as a fixed sink, packed 128-token records and an exact tail ring of 8320 slots. The
  buffers are proved to be functions of the plain sequence of appended rows, so nothing unsealed is
  ever overwritten and the way appends are split does not matter.
- **Record arithmetic** (`Hadamard`, `Quantize`, `TileRecord`, `TileCodec`, with `Bf16` for word tests): the
  in-place Walsh-Hadamard butterfly, the 4-bit row quantiser, the packed byte layout, and their
  composition into the tile encoder, with a bound on how far a decoded row lands from the row
  appended. The arithmetic is over the reals. `ButterflyLanes` is the decoder's lockstep butterfly, and
  `KvarnDecode` joins decoder, records and cache: every row of a valid cache is gathered exactly or within that bound.
- **Bounded expert pool** (`ExpertPool`, `ExpertDemand`, `ExpertDecay`, `ExpertOps`, `ExpertHotlist`, `ExpertRecency`, `Experts`, `PrefillScope`,
  `PrefillRounds`):
  a least-frequently-used cache over physical slots, its serial and overlapped loaders, seeding,
  release and growth, and the overlap scope in which rows load while GPU readers are outstanding. The
  slot policy is a set of functions on a pool value; the class methods are proved equal to it.
- **Adaptive memory policy** (`MemoryPolicy`, `MemorySystem`, `MemoryEvidence`, `MemoryRuns`, `MemoryPlanned`,
  `MemoryExample`, `MemoryPacing`, `MemoryRefusal`, `MemoryRejection`, `MemoryRelief`, `MemoryProgress`, `MemoryController`): growth, trials, rollback, release and workspace phases. `MemoryEvidence` keeps a
  journal of samples beside the policy; an extent is only ever earned with a certificate drawn from it.
- **Generation loop** (`Generation`, `GenerationSchedule`): a run is a log of polls, engine actions and deliveries; a log is
  faithful when each event is the one the request allows after those before it.
- **IQ_K relayout** (`HostCopy`, `Iqk`, `IqkSlots`): strided in-place slot writes into one slab agree with
  the append-only stream splitter.
- **Session commit** (`SessionState`, `SessionSteps`): one frontier across the token record, the producer spans,
  the PLE history and every layer, and the windowed servicing of expert demands.

Things outside the host code are parameters of the methods: whether a reservation, a row read, a slot
write, a device step or an allocation succeeds, the clock, the kernel's pressure level and counters,
cancellation, and what the engine answers. Statements over a run hold for every choice of them,
and for every sampled reading; the run given as an example only makes readings its counters give. In
the cache the record encoder is an arbitrary function of the 128 rows it is given; `TileCodec` models the
one the code uses. Engine expert capacity is assumed to change only
through the memory controller's own release, recovery and planned-resize paths.

Three places where the code does something a reader might not expect:

- A planned workspace resize does not discard validation credit unless a trial is pending
  (`src/adaptive_memory.rs:232-253`), so "no capacity change since the credit began" is false:
  `MemoryExample.EarnedAcrossPlannedResizes` is a run that earns an extent across a planned change. It holds
  when every planned change meets a pending trial or no credit (`MemoryPlanned.NoChangeAmong`); any other planned
  change keeps its credit (`MemoryPlanned.CreditOutlivesIff`). Every credited interval is at exactly the
  extent that is earned in either case.
- A hotlist that fails to load leaves the prior counts in the pool without rescaling them
  (`src/experts.rs:1190-1196`), which can exceed the count bound (`ExpertHotlist.FailedHotlistCanExceed`);
  `ExpertHotlist.FailedHotlistBound` gives the exact condition under which it does not. The engine
  propagates the error (`src/engine.rs:697-698`), so such a pool never runs.
- A cancelled prefill chunk returns without an error but leaves the session invalid
  (`src/engine.rs:849-866`).

## Model

| member | source | states |
|---|---|---|
| KvarnLayout.Partition | src/kvarn.rs:46-56 | The sink end never passes the body end, the body end is the exact-tail start, and neither passes the frontier. |
| KvarnLayout.PackedTiles | src/kvarn.rs:458-464 | The record count computed from the partition equals the number of tiles whose rows are all followed by 8192 exact rows. |
| KvarnLayout.BodyIsMaximal | src/kvarn.rs:46-56 | A tile is packed if and only if the frontier is at least 8192 rows past its end; past the sink the body ends at the last packed tile, and the frontier is always below the next seal. |
| KvarnLayout.RowPlacement | src/kvarn.rs:517-543 | For every row ever appended: below 128 it is in the sink, below the body frontier it is in its packed tile, otherwise at ring slot (i-128) mod 8320, unchanged. |
| KvarnLayout.RingHoldsRecent | src/kvarn.rs:486-495 | Each of the last 8320 rows past the sink is still at its ring slot, for both heads. |
| KvarnLayout.SplitIndependence | src/kvarn.rs:434-549 | Two caches reached by any two ways of splitting the same rows into accepted appends have the same sink, ring, records and frontier. |
| KvarnLayout.SafeChunk | src/kvarn.rs:426-430 | A nonzero request always gets a nonzero safe width, no larger than asked, that does not pass the next seal. |
| KvarnLayout.AtMostOneSeal | src/kvarn.rs:454-463 | An append of a safe width completes at most one tile, exactly when it reaches the next seal. |
| KvarnLayout.RingStep | src/kvarn.rs:529-541 | Writing one more row to its slot of a ring that holds the newest rows gives the ring of the longer sequence. |
| KvarnLayout.SinkStep | src/kvarn.rs:523-541 | Writing one more row to the sink, or past it, gives the sink of the longer sequence. |
| Kvarn.TileCellIsOriginal | src/kvarn.rs:486-502 | Each row collected for a tile, from the ring or from the incoming block, is the row originally appended at that position. |
| Kvarn.GatherTile | src/kvarn.rs:477-507 | The loop collects exactly the 128 original rows of the next tile, both heads, partly from the ring and partly from the incoming rows. |
| Kvarn.WritePlane | src/kvarn.rs:519-543 | The in-place write loop takes the sink and ring of a sequence to the sink and ring of the sequence extended by the block, with every flat head-major offset in bounds. |
| Kvarn.RecordsSealed | src/kvarn.rs:477-516 | Appending the encoding of the completed tile keeps every record the encoding of its own original rows. |
| Kvarn.KvarnState.Zero | src/kvarn.rs:310-322 | An empty cache is given exactly for a context in the released range, and represents the empty sequence. |
| Kvarn.KvarnState.SafeChunkTokens | src/kvarn.rs:426-430 | The safe width is the request cut at the next seal; zero is refused. |
| Kvarn.KvarnState.Preflight | src/kvarn.rs:435-463 | The shape, value, context and seal checks accept exactly the well-formed blocks, and the two-seal check never fires after the safe-width check. |
| Kvarn.KvarnState.Reserve | src/kvarn.rs:464-476 | Reservation leaves enough backing, however much more the allocator grants, or refuses, before anything else changes; within the context neither the growth arithmetic nor the occupied-length check ever fails. |
| Kvarn.KvarnState.Seal | src/kvarn.rs:477-516 | The record to push, if any, makes the records match the extended rows; refused exactly when the completed tile does not encode to a whole record. |
| Kvarn.KvarnState.Append | src/kvarn.rs:434-549 | An append succeeds exactly when it is admissible; it then extends the represented rows by the block in token order, and otherwise leaves all logical state unchanged. |
| Kvarn.KvarnState.AppendGreedily | src/kvarn.rs:426-549 | Whatever reservations are refused, appending by the safe width each time terminates, never asks for an unsafe width, stores a prefix on error, and otherwise stores everything in one append per seal plus at most one. |
| KvarnRestore.CheckMetadata | src/kvarn.rs:145-166 | The check accepts exactly whole tiles all of whose FP16 scales and zeros are finite. |
| KvarnRestore.ValidateParts | src/kvarn.rs:358-396 | Validation accepts exactly parts of the right geometry and record count with finite rows and metadata. |
| KvarnRestore.Restore | src/kvarn.rs:326-356 | A restore succeeds exactly on valid parts (and reserved memory), returns a state holding exactly them, and is a valid cache of any rows the parts represent. |
| KvarnRestore.OwnContentsValid | src/kvarn.rs:326-396 | Round trip: the contents of every valid state whose records are encoded tiles pass validation. |
| KvarnRestore.EncodedTileFinite | src/kvarn.rs:138-166 | Two encoded heads end to end are one whole tile, and it passes the metadata check. |
| RecordGrowth.RecordGrowthTarget | src/kvarn.rs:58-81 | A growth target holds the required records, is whole records, and never passes the context's maximum; no growth means the backing suffices. |
| RecordGrowth.RecordGrowthAtFrontier | src/kvarn.rs:83-93 | Within the context range the query never fails, and a target covers the records at the next frontier. |
| RecordGrowth.NoOverflowInContext | src/kvarn.rs:58-81 | Within the released context range the only refusal is asking for more records than the context holds. |
| RecordGrowth.GrowthIsLeast | src/kvarn.rs:58-81 | A growth target is the requirement or twice what was held, within the context's maximum, and so never more than twice what is needed. |
| RecordGrowth.GrowthRunBounds | src/kvarn.rs:58-93 | Over every run of growth from empty, the backing holds every request, stays within the context's records, and the old backings moved total less than twice the final one. |
| Hadamard.WhtIsMatrix | src/kvarn.rs:168-184 | The recursive butterfly equals multiplication by the Walsh-Hadamard sign matrix, for every size 2^k. |
| Hadamard.Butterflies | src/kvarn.rs:168-181 | The in-place stages leave in the row the unnormalised transform of what was there. |
| Hadamard.Rotate | src/kvarn.rs:168-184 | The in-place rotation leaves exactly the orthonormal transform of the old row. |
| Hadamard.RotationIsMatrix | src/kvarn.rs:168-184 | Each output is the signed sum of all 256 inputs by its matrix row, over sixteen. |
| Hadamard.RotationIsInvolution | src/kvarn.rs:168-184 | Rotating twice returns the input. |
| Hadamard.RotationKeepsEnergy | src/kvarn.rs:168-184 | Rotating keeps the sum of squares. |
| Quantize.CodeIsNearest | src/kvarn.rs:186-203 | The 0..15 clamp never changes a code of a value in the row's range; the code's decoded value is the nearest of all sixteen and at most half a step away. |
| Quantize.EndsAreExact | src/kvarn.rs:192-198 | A row uses the whole range: its ends are codes 0 and 15 and decode exactly. |
| Quantize.RowCodedIsNearest | src/kvarn.rs:186-203 | Every value of a quantised row decodes, by the nearest of all codes, to within half its step, which is a thirtieth of the row's own spread; the least value is code 0 and exact, and so is the greatest at code 15 unless the row is all but constant. |
| Quantize.QuantizeRow | src/kvarn.rs:189-200 | One row is coded in place with its own minimum and step, and no other row is touched. |
| Quantize.QuantizeRows | src/kvarn.rs:186-203 | Every row is coded with its own minimum and step. |
| TileRecord.KeyCodesRead | src/kvarn.rs:245-252 | A key code packed two to a byte from the channel-major matrix reads back at its channel and token. |
| TileRecord.ValueCodesRead | src/kvarn.rs:271-278 | A value code packed two to a byte from the token-major matrix reads back at its channel and token. |
| TileRecord.PackKeyCodes | src/kvarn.rs:245-252 | The transposed packing loop writes exactly the key code bytes and nothing else. |
| TileRecord.PackValueCodes | src/kvarn.rs:271-278 | The packing loop writes exactly the value code bytes and nothing else. |
| TileRecord.EncodeHead | src/kvarn.rs:242-296 | A head record is produced exactly when all scales and zeros are finite, and then every code, scale and zero reads back from its place. |
| TileCodec.RotateRows | src/kvarn.rs:222-235 | Each token row of a head is read and rotated in place, token-major. |
| TileCodec.Transpose | src/kvarn.rs:236-241 | The nested loop hands the normaliser the rotated keys channel-major. |
| TileCodec.EncodeHead | src/kvarn.rs:219-299 | A head is encoded exactly when both matrices are balanced and every factor is finite in FP16; every code read back from the packed record then decodes to within half its row's step of the balanced matrix, by the nearest of all codes, beside that row's narrowed factors. |
| TileCodec.EncodeTile | src/kvarn.rs:205-301 | A tile is encoded exactly when it is whole, finite and both heads can be; the result is one whole record of the two heads that passes the metadata check. |
| TileCodec.KeyRowError | kernels/metal/kvarn_decode.metal:60-70 | A key row rotated back from the numbers its packed record stores misses the row appended by at most their misses: the squared error is at most the sum over channels of (a thirtieth of the balanced row's scaled spread plus what FP16 moved) squared. |
| TileCodec.ValueRowError | kernels/metal/kvarn_decode.metal:60-70 | The same for a value row, whose balanced rows are its tokens. |
| TileCodec.HeldWithinSpread | src/kvarn.rs:243-278 | A code read back from a record decodes to within a thirtieth of its balanced row's spread. |
| TileCodec.ExactFactorsMiss | kernels/metal/kvarn_decode.metal:60-70 | Where FP16 holds the factors exactly, a stored number misses by at most a thirtieth of its row's scaled spread. |
| ButterflyLanes.StageIsLevel | kernels/metal/kvarn_decode.metal:71-93 | One lockstep stage at stride 2^k turns transformed blocks of 2^k values into transformed blocks of 2^(k+1). |
| ButterflyLanes.LanesRotate | kernels/metal/kvarn_decode.metal:71-95 | The decoder's lockstep stages over all 256 lanes, then a sixteenth, are the encoder's rotation, and so undo it. |
| KvarnDecode.GatherExact | kernels/metal/kvarn_decode.metal:26-46 | Rows in the sink and from the body frontier on are gathered word for word as appended; invalid selections give zeros. |
| KvarnDecode.PackedRowDecodes | kernels/metal/kvarn_decode.metal:48-95 | In a valid cache of encoded tiles every row below the body frontier and past the sink decodes from its tile's record, before rounding, to within the misses of its stored numbers of the row originally appended. |
| KvarnDecode.GatherPacked | kernels/metal/kvarn_decode.metal:26-95 | The gathered BF16 row is full and its squared error is at most twice that bound plus twice what its final rounding moved. |
| ExpertPool.LeastFrequentSlot | src/experts.rs:69-88 | The scan finds an evictable slot if there is one, and no evictable slot precedes it in (frequency, recency) order. |
| ExpertPool.VictimExists | src/experts.rs:1085-1091 | Pigeonhole: a missing source of a protected set that fits the pool always finds a slot, and the slot holds no protected source. |
| ExpertPool.PublishConsistent | src/experts.rs:90-110 | Replacing a slot keeps the two maps inverse whether or not the write succeeds. |
| ExpertPool.ServeConsistent | src/experts.rs:899-933 | Serving a source keeps the two maps inverse, on every outcome. |
| ExpertDemand.ServeKeeps | src/experts.rs:899-933 | One step of a validated group never runs out of victims and moves no resident protected source. |
| ExpertDemand.DemandKeeps | src/experts.rs:888-938 | A whole group, failing or not, never runs out of victims and leaves every resident protected source at its slot; on success every source is resident. |
| ExpertDemand.DemandCounts | src/experts.rs:898-938 | On success hits + misses is the group size and evictions are max(0, residents before + misses - capacity). |
| ExpertDemand.MissesKnownUpFront | src/experts.rs:910-917 | A source's turn finds it missing exactly when it was missing at the start, so the miss list computed up front is the sequence of misses met. |
| ExpertDemand.FailedDemandIsPrefix | src/experts.rs:899-937 | A group that fails part-way, for any reason, leaves exactly the effect of a prefix of it, plus what its failing row left: nothing, one emptied slot, or a row in place but unstamped. |
| ExpertDemand.FirstErrorSticks | src/experts.rs:899-933 | The first error ends the group: later sources have no effect. |
| ExpertDecay.DemandBounded | src/experts.rs:1093-1109 | Every demand keeps each count within 128 plus the touches since the last halving; the frequency overflow cannot occur; recency stamps stay distinct while the 64-bit clock has room. |
| ExpertDecay.DemandTotal | src/experts.rs:1093-1109 | The sum of all counts obeys the same bound through every demand. |
| ExpertDecay.DemandSucceedsIff | src/experts.rs:888-938 | A validated group succeeds if and only if every source missing at its start loads, while the clock has room. |
| ExpertDecay.VictimIsUnique | src/experts.rs:69-88 | With distinct stamps the victim strictly precedes every other candidate. |
| ExpertOps.GroupServes | src/experts.rs:888-960 | A validated group served in ascending order always finds victims, keeps protected sources in place, and on success accounts for every hit, miss and eviction. |
| ExpertOps.ReleaseKeeps | src/experts.rs:277-288 | A suffix release keeps the maps inverse and moves no surviving source. |
| ExpertOps.EvictedAccounted | src/experts.rs:654-686 | A release evicts exactly the sources beyond the target. |
| ExpertOps.GrowthKeeps | src/experts.rs:248-262 | Growth keeps the maps inverse and every published source where it was. |
| ExpertOps.GrowThenRelease | src/experts.rs:248-288 | Growing and releasing back to the old capacity gives the same pool. |
| ExpertOps.RankingIsSorted | src/experts.rs:1188-1190 | The hotlist ranking is by count, most used first, lower ids first on ties. |
| ExpertOps.RankingIsComplete | src/experts.rs:1188-1190 | The ranking leaves no counted source out. |
| ExpertOps.HotlistBounded | src/experts.rs:1177-1206 | However large the prior counts, a hotlist that loads leaves every count at most 8, the maps inverse and the stamps distinct. |
| ExpertHotlist.HotAreHighest | src/experts.rs:1188-1191 | A hotlist preloads as many sources as it counts, or as the pool holds, and each outranks every one left out. |
| ExpertHotlist.RescalesInOrder | src/experts.rs:1197-1204 | Rescaling brings the largest count to eight, keeps the order of counts, rounds each to its nearest share, and leaves none at zero. |
| ExpertHotlist.TopIsReached | src/experts.rs:1197-1198 | The count scaled by is the largest there is. |
| ExpertHotlist.HotlistFills | src/experts.rs:1177-1206 | A hotlist loads into a new pool, with every preloaded row resident, whenever its rows load and no prior count is at the end of its 64 bits. |
| ExpertHotlist.SeedingFills | src/experts.rs:1149-1175 | A new pool is seeded with any sources it can hold whose rows load. |
| ExpertRecency.RunRecalls | src/experts.rs:1093-1109 | In every run whose hotlists load, until the 64-bit clock runs out, each resident source's slot carries the place of its last use in the sequence of sources served. |
| ExpertRecency.RunCounts | src/experts.rs:1093-1109 | In every run without a hotlist a count is the prior count and one for each use since, all halved at every 128th use. |
| ExpertRecency.EvictsOldest | src/experts.rs:69-88 | In every run of a new pool whose hotlists load, a full pool evicts, of all it may, a source with the fewest uses, and of those the one whose last use is oldest. |
| ExpertRecency.UsesFade | src/experts.rs:1093-1109 | From a new pool those uses are the servings so far, fading by halves. |
| ExpertHotlist.FailedHotlistBound | src/experts.rs:1177-1206 | After a hotlist that fails, for any reason and after any number of rows, the count bound holds exactly when every prior count, with the touches and halvings of the rows served, obeys it. |
| ExpertHotlist.FailedHotlistBoundEarly | src/experts.rs:1177-1206 | Before the first halving that is: each prior count, plus one if its row was served, is at most 128 plus the rows served. |
| ExpertHotlist.FailedHotlistCanExceed | src/experts.rs:1190-1196 | An instance over the bound: one prior count of 129 and no readable row. |
| ExpertHotlist.RunSeeded | src/experts.rs:1093-1206 | From any bounded pool, every run of seedings, hotlists that load, demands, releases and growth keeps every count bounded, and stamps distinct until the 64-bit clock runs out. |
| ExpertHotlist.SeededRunBounded | src/experts.rs:1069-1206 | However a new pool is seeded and whatever follows, counts are bounded, no two slots share a stamp, and the eviction victim is unique. |
| ExpertOps.RunBounded | src/experts.rs:1093-1175 | In every run without a hotlist the counts, and their sum, stay within 128 plus the touches since the last halving, and stamps stay distinct. |
| ExpertOps.ApplyConsistent | src/experts.rs:248-288 | Seeding, demand, release and growth, accepted or failing, keep the maps inverse. |
| Experts.CursorMatches | src/package/prefill_reader.rs:392-484 | The row cursor, advanced once per miss, stands on each missed source when it is met. |
| Experts.BoundedExperts.ChooseVictim | src/experts.rs:1085-1091 | The scan returns the first empty slot, else the least frequent, least recent unprotected one. |
| Experts.BoundedExperts.PublishReplacement | src/experts.rs:90-110 | The victim is dropped before the write; a failed write leaves the slot empty and unmapped. |
| Experts.BoundedExperts.TouchSource | src/experts.rs:1093-1109 | A touch advances the clock, the count and the stamp, and halves all counts every 128 touches, so stamps and counts are those `ExpertRecency` reads off the history. |
| Experts.BoundedExperts.LoadRow | src/experts.rs:1012-1035 | A missing source goes to the chosen slot; the outstanding-reader check never fires when readers' slots hold protected sources. |
| Experts.BoundedExperts.ServeAll | src/experts.rs:966-1009 | The overlapped loop with its row cursor does exactly what the slot policy says; the cursor errors cannot occur. |
| Experts.BoundedExperts.EnsureGroupProtected | src/experts.rs:888-960 | The serial loader rejects exactly the invalid groups, unchanged, and otherwise ends in exactly the pool and counts of the slot policy. |
| Experts.BoundedExperts.EnsureGroupDisjoint | src/experts.rs:962-1035 | The overlapped loader ends in the serial loader's pool with the same verdict, and never meets an outstanding reader's slot. |
| Experts.BoundedExperts.Ensure | src/experts.rs:1209-1270 | The ten selected sources end resident with complete rows at the reported slots; it is refused for want of write access or of a reader exactly when rows are missing, and the unpublished and stale-mapping errors cannot occur. |
| Experts.BoundedExperts.SeedResidents | src/experts.rs:1149-1175 | Seeding an empty pool is one touch per source in id order; invalid seeds change nothing. |
| Experts.BoundedExperts.SeedHot | src/experts.rs:1177-1206 | Hotlist seeding loads in rank order under the prior counts, then rescales them. |
| Experts.BoundedExperts.Release | src/experts.rs:654-686 | A release happens exactly for an idle pool and a target of at least ten, below the capacity, that ends a storage chunk; it evicts exactly the sources beyond it. |
| Experts.BoundedExperts.Grow | src/experts.rs:248-262 | Growth appends empty, never-used slots and changes nothing else. |
| Experts.SlotsDistinct | src/experts.rs:1257-1269 | Distinct selected sources are read from distinct slots. |
| PrefillScope.LoadNeverTouchesReaders | src/experts.rs:376-406 | Every row written during a load lands outside every running reader, in each intermediate pool. |
| PrefillScope.LoadKeepsGroups | src/experts.rs:376-406 | Whatever a load does, before or after failing, no unretired group's source moves. |
| PrefillScope.StepSafe | src/experts.rs:348-442 | Every scope step, failing or not, keeps the captured groups held and the running readers covered. |
| PrefillScope.ServedGroupResident | src/experts.rs:299-323 | After a served load the captured map never misses a source and never aliases a slot. |
| PrefillScope.RunReadersIntact | src/experts.rs:326-453 | In every run of a scope each running reader still sees the complete rows it was encoded for, at the slots its captured map recorded. |
| PrefillRounds.LoadedIff | src/experts.rs:962-1035 | A group is loaded exactly when it fits beside what is being read, every row it lacks loads, and a reader needed for two or more rows starts. |
| PrefillRounds.LoadGoesAhead | src/experts.rs:376-406 | A scope loads a group exactly when it has at most one group, submitted, and the group can be loaded beside it; the group is then captured where it was put. |
| PrefillRounds.BatchesInFlight | src/experts.rs:360-442 | A running batch is dropped only by a retirement that waits for it or by a failure that drains everything, and added only by a submission that encodes and flushes; each step fails exactly when it must. |
| PrefillRounds.RoundsNeverStall | src/mlp_batch.rs:780-807 | However many chunks, rounds of retire, load and submit never fail and the scope can finish, as long as each chunk fits beside the one before it and its rows load. |
| PrefillScope.PrefillLoadScope.RetirePrevious | src/experts.rs:360-374 | Retiring waits out and drops the older of two groups, as one scope step. |
| PrefillScope.PrefillLoadScope.Load | src/experts.rs:376-406 | Loading a group is one scope step: it needs at most one, submitted, group outstanding, and captures what it loaded. |
| PrefillScope.PrefillLoadScope.SubmitGroup | src/experts.rs:415-432 | Submitting encodes the last group's captured map once, as one scope step. |
| PrefillScope.PrefillLoadScope.FinishScope | src/experts.rs:435-442 | A scope finishes only with every group submitted. |
| MemorySystem.StepBounded | src/adaptive_memory.rs:203-658 | Every event keeps 64 <= base <= trial <= capacity <= maximum, base present exactly with the trial, and earned, validated, phase and delay values in range. |
| MemorySystem.RunBounded | src/adaptive_memory.rs:159-658 | So does every run from construction. |
| MemorySystem.EveryActionInRange | src/adaptive_memory.rs:562-614 | In every reachable state a release, rollback or churn release targets a 16-aligned value in [64, capacity), and a recovery one in (capacity, min(capacity+16, maximum)]. |
| MemorySystem.NextCapacityStep | src/adaptive_memory.rs:379-392 | Growth makes progress by at most sixteen slots, within the maximum, and restoration never passes the earned target. |
| MemorySystem.RestorationArrives | src/adaptive_memory.rs:379-392 | Repeated restoration reaches the earned target exactly in at most ceil(distance/16)+1 steps, and stays. |
| MemoryRelief.CriticalReleases | src/adaptive_memory.rs:562-566 | Critical pressure above the floor takes the engine to the floor at the next sample. |
| MemoryRelief.WarningReleases | src/adaptive_memory.rs:580-592 | Warning pressure takes it to the largest multiple of sixteen below, unless a release was less than five seconds ago, and then it stays. |
| MemoryRelief.BusyRollsBack | src/adaptive_memory.rs:594-601 | A busy sample that completes fifteen adverse seconds takes a trial back to the multiple of sixteen at or below its start. |
| MemoryRelief.ChurnGivesBack | src/adaptive_memory.rs:602-611 | A sample that completes fifteen churning seconds takes the engine to the largest multiple of sixteen below. |
| MemoryRelief.GrowsWhenDue | src/adaptive_memory.rs:379-447 | A due sample grows the engine exactly when the machine is quiet and settled, every wait has passed and a restoration or an allowed trial is left to make; then by one step, to the next multiple of sixteen or the nearer target. |
| MemoryRelief.GrowsBetweenSamples | src/adaptive_memory.rs:449-461 | Between samples it grows exactly when the last sample left growth due. |
| MemoryRelief.GapStartsOver | src/adaptive_memory.rs:494-510 | A sample that comes too late, or is the first, grows nothing and starts the quiet time over. |
| MemoryRelief.PressureArrives | src/adaptive_memory.rs:467-479 | Pressure that arrives on a trial or within fifteen seconds of an increase backs off by twice the delay, and otherwise leaves the backoff alone. |
| MemoryRelief.PressureAfterGrowth | src/adaptive_memory.rs:467-479 | So pressure within fifteen seconds of any growth backs off. |
| MemoryRelief.RestoresWhenDue | src/adaptive_memory.rs:255-276 | A phase's end restores the ordinary extent exactly when it released nothing, no trial is pending and the machine is quiet, settled and not backing off. |
| MemoryProgress.WarningsStepDown | src/adaptive_memory.rs:580-592 | Warning samples at least five seconds apart with accepted releases take the engine down to the multiple of sixteen below and then by sixteen each. |
| MemoryProgress.WarningsReachFloor | src/adaptive_memory.rs:580-592 | So they reach the floor in at most one sample for each sixteen slots above it. |
| MemoryProgress.RunLastRelease | src/adaptive_memory.rs:580-644 | In every run the five seconds between releases are counted from the last release there was. |
| MemoryProgress.BusyTrialIsTakenBack | src/adaptive_memory.rs:511-600 | A trial whose request keeps the machine busy stands until it has been busy for fifteen seconds, and is then taken back. |
| MemoryProgress.GrowthIsTakenBack | src/adaptive_memory.rs:511-644 | Round trip: growth past everything earned, met by fifteen busy seconds, is undone to the multiple of sixteen at or below the extent it grew from. |
| MemoryProgress.ChurnGivesSlotsBack | src/adaptive_memory.rs:602-700 | Operations that keep churning give slots back exactly once they have churned for fifteen seconds. |
| MemoryProgress.CalmOperation | src/adaptive_memory.rs:660-692 | An operation without churn takes its interval off the churning time again, one that cannot be judged clears it, and nothing is given back for it. |
| MemoryProgress.CleanTimeEarns | src/adaptive_memory.rs:315-358 | The converse of the certificate: fifteen clean seconds at one extent, over a completed request and those before it, earn that extent. |
| MemoryProgress.OutgrownIsEarned | src/adaptive_memory.rs:315-358 | An extent that was clean for fifteen seconds and outgrown within the request is earned when the request completes. |
| MemoryProgress.QuietGrows | src/adaptive_memory.rs:404-447 | Below the maximum with no trial pending, or restoring, a machine that stays quiet grows by the first sample after every wait has passed. |
| MemoryProgress.QuietGrowsPastTrial | src/adaptive_memory.rs:404-447 | Past a pending trial, between requests, fifteen quiet seconds of preparation are enough. |
| MemoryProgress.CleanTrialGrows | src/adaptive_memory.rs:404-447 | And within a request once the trial's extent has been clean for fifteen seconds too. |
| MemoryProgress.QuietAlwaysGrows | src/adaptive_memory.rs:404-479 | From any quiet state a run reaches with a step to take, 120 quiet seconds are always enough. |
| MemoryEvidence.SamplingSound | src/adaptive_memory.rs:511-556 | Every due sample that adds clean time logs an interval quiet at both ends, within one request, at the extent under validation. |
| MemoryEvidence.ChangingSound | src/adaptive_memory.rs:616-644 | A capacity change keeps only the evidence that outgrown validation may still use. |
| MemoryEvidence.EndingSound | src/adaptive_memory.rs:315-358 | Ending a request turns its intervals into completed evidence, and acceptance happens only with enough of it. |
| MemoryRuns.StepSound | src/adaptive_memory.rs:203-658 | Every event keeps each amount of credit backed by logged clean intervals of exactly that length. |
| MemoryRuns.EarnedIsCertified | src/adaptive_memory.rs:232-358 | In every run an extent is earned only by at least 15 s of distinct clean intervals at exactly that extent, inside completed requests, with no adaptive change, pressure entry or credit-dropping planned change among them; it never exceeds the maximum. |
| MemoryRuns.EarnedNeverFalls | src/adaptive_memory.rs:315-358 | No event lowers the earned target, and only the end of a completed request moves it. |
| MemoryPlanned.OnlyKeptChangesAmong | src/adaptive_memory.rs:232-358 | In every run an earned extent has a certificate whose intervals have no change of the engine's extent of any kind among them, except planned changes that met neither a pending trial nor empty credit. |
| MemoryPlanned.NoChangeAmong | src/adaptive_memory.rs:232-358 | So in every run whose planned changes and phase-end restorations each met a pending trial or no credit, no extent change at all lies among the intervals. |
| MemoryPlanned.KeptIff | src/adaptive_memory.rs:232-253 | The journal marks a surviving planned change exactly when some planned change met neither. |
| MemoryPlanned.CreditOutlivesIff | src/adaptive_memory.rs:232-253 | A planned change leaves credit exactly when it meets neither a pending trial nor empty credit, and then it leaves all of it. |
| MemoryExample.EarnedAcrossPlannedResizes | src/adaptive_memory.rs:232-358 | A run from construction, whose readings are what its counters give, that earns 128 slots although every certificate for them has a planned change among its intervals. |
| MemoryExample.AlwaysDisturbed | src/adaptive_memory.rs:315-358 | With that run's samples no choice of fifteen clean seconds avoids the change. |
| MemoryPacing.GrowthAlwaysWaits | src/adaptive_memory.rs:255-276 | In every run with a monotone clock, controller growth comes only after the backoff of every interruption so far and 5 s after any capacity change; never inside a workspace phase, and at its end only if it released nothing. |
| MemoryPacing.InterruptionBacksOff | src/adaptive_memory.rs:467-479 | An interruption that backs off owes twice the delay in force, between 10 and 120 s. |
| MemoryRefusal.RefusalBacksOff | src/adaptive_memory.rs:654-658 | In every run with a monotone clock, after a growth the engine refused nothing grows until twice the delay in force has passed, unless a trial has been accepted in between. |
| MemoryRefusal.AcceptanceForgets | src/adaptive_memory.rs:334-357 | Accepting a trial clears the backoff and starts the delay over. |
| MemoryRefusal.WaitIsBounded | src/adaptive_memory.rs:467-479 | In every run with a monotone clock the backoff ends within the delay in force, at most 120 s, of the latest event. |
| MemoryRefusal.StepMoves | src/adaptive_memory.rs:203-658 | Every event keeps the backoff or renews it for twice the delay, except an acceptance, and no event grows the engine before it has passed. |
| MemoryPacing.StepPaced | src/adaptive_memory.rs:404-479 | Every event keeps the owed wait no longer than what the policy enforces. |
| MemoryRejection.RejectionIsPaidFor | src/adaptive_memory.rs:581-613 | In every run a trial is rolled back only after at least 15 s of busy sampled intervals while it was pending, and churn takes slots away only after at least three churning operations since the controller last changed the extent. |
| MemoryRejection.StepToll | src/adaptive_memory.rs:511-546 | Every event keeps the recorded churn and adverse time within what was sampled, and none is held against a trial that is not pending. |
| MemoryRejection.VetoIsRate | src/adaptive_memory.rs:60-76 | The cross-multiplied test is the comparison of bytes per second with 16 MiB per second. |
| MemoryRejection.VerdictsAgree | src/adaptive_memory.rs:60-89 | A verdict needs every counter to have moved forward with one page size; quiet and churn are given together and never both. |
| MemoryRejection.QuietMeans | src/adaptive_memory.rs:60-76 | A verdict exists exactly when time passed, the page size is the same and each counter moved forward by a representable byte count; it is quiet exactly when nothing was swapped out and compression stayed below 16 MiB a second. |
| MemoryRejection.ChurnMeans | src/adaptive_memory.rs:78-89 | It churns exactly when it is not quiet and something was swapped out or decompression reached 16 MiB a second. |
| MemoryController.Controller.TryBeginWorkspacePhase | src/adaptive_memory.rs:742-751 | A phase begins exactly when none is active, the extent and the target are in range, and the last sample was not under pressure; otherwise nothing changes. |
| MemoryController.Controller.SyncPlannedWorkspaceCapacity | src/adaptive_memory.rs:757-760 | A planned resize is recorded exactly when a phase is active and the extent is inside it. |
| MemoryController.Controller.FinishWorkspacePhase | src/adaptive_memory.rs:765-799 | Finishing syncs, restores the ordinary extent if still allowed and leaves the phase; refused, it changes nothing. |
| MemoryController.Controller.ApplyObservation | src/adaptive_memory.rs:938-994 | One poll is exactly one checked event of the system; it refuses an extent outside the operating range, unchanged, reports growth or release exactly when the extent changed, and refuses work only at the floor with the stop latched. |
| MemoryController.Controller.ReleaseCapacity | src/adaptive_memory.rs:996-1023 | A release advances the pressure epoch and interrupts work as its kind demands; a refused one changes nothing. |
| MemoryController.PollLatch | src/adaptive_memory.rs:552-580 | A due sample latches the stop, or keeps it latched, exactly when it is critical and either the stop was latched or the sample before it was critical and this one was taken at the floor. |
| MemoryController.RunLatch | src/adaptive_memory.rs:552-580 | In every run the stop is latched exactly when the critical samples up to now include one at the floor that is not the first of them; pressure is remembered exactly while the last sample was critical. |
| Generation.FaithfulInStep | src/generation.rs:365-465 | After every prefix of every run the committed tokens are the rest of the prompt and then delivered tokens, all but at most the last; nothing is delivered before the prompt is complete; no stop token is delivered; the context and token limits hold. |
| Generation.CommittedTokens | src/generation.rs:365-465 | Tokens committed to the engine are prompt[initial..] in order followed by the delivered tokens in order, without the last when it was never committed. |
| Generation.SamplingHistory | src/generation.rs:371-376 | Every engine action, so every sample, is conditioned on exactly the prompt and the tokens delivered so far. |
| Generation.SampleOnlyFirst | src/generation.rs:404-414 | A sample-only action happens only as a run's first action, over a completely restored prompt, hence at most once. |
| Generation.SameAnswersSameRun | src/generation.rs:365-465 | The schedule leaves no choice: two runs given the same answers are the same. |
| Generation.FinishFrontier | src/generation.rs:419-435 | The frontier is prompt + generated on a stop token, prompt + generated - 1 on max tokens or context limit, and never exceeds the context. |
| Generation.Prefill | src/generation.rs:363-399 | The chunk loop commits the prompt suffix by the prefill width and stops, explained, on any cancellation, failure or disagreement. |
| Generation.Decode | src/generation.rs:400-465 | The decode loop terminates and each outcome is explained by its log. |
| Generation.RunLoop | src/generation.rs:322-466 | For all engine answers, cancellations and delivery failures: an inadmissible request is refused; otherwise the run follows the schedule, ends, and its statistics or error are read off its log. |
| GenerationSchedule.ActionsScheduled | src/generation.rs:365-445 | Every consume below the prompt's end is unbiased, takes exactly the smaller of the prefill width and the rest of the prompt, and samples exactly when it reaches the end; every other is the last delivered token alone, in the request's decode mode, sampling. Each follows a poll that did not cancel. |
| GenerationSchedule.AnswersChecked | src/generation.rs:383-395 | A run goes on only after an answer that consumed the whole request, left the frontier where that puts it, and chose a token exactly when asked to. |
| GenerationSchedule.DeliveriesChosen | src/generation.rs:400-425 | Every delivered token is the one chosen last, and no stop token. |
| GenerationSchedule.OutcomeReads | src/generation.rs:322-465 | The statistics of a finished run are the totals of its log, and its finish reason holds of them. |
| HostCopy.CopyStridedRows | src/host_copy.rs:7-43 | The copy is made exactly when it is valid; then the destination span is the source span of each row in order, and no byte outside it changes. Refused, nothing changes. |
| HostCopy.CopyRows | src/host_copy.rs:36-41 | The row loop writes each row's span at its place. |
| HostCopy.StridedRow | src/host_copy.rs:36-41 | Each row's span is found again where the copy put it. |
| Iqk.SpansFillRow | src/iqk.rs:115-129 | The six stream widths fill a stored row exactly, for either codec and any whole number of blocks. |
| Iqk.WidthsPerBlock | src/iqk.rs:115-129 | Each stream's width is its share of every 256-weight block: two bits a weight, a third bit in IQ3, four scale bits and one extra bit for each sixteen weights, their signs in IQ3, and one two-byte scale. |
| Iqk.NewPlan | src/iqk.rs:158-199 | With at least one slot the plan always exists and lays the spans end to end. |
| Iqk.SplitStreams.AppendRows | src/iqk.rs:308-343 | Appending a payload of the right size extends each stream by its spans of that payload, row by row; otherwise nothing changes. |
| Iqk.JoinedSlot | src/iqk.rs:308-343 | Each expert's stream is a contiguous block at its own index of the joined stream. |
| Iqk.RowRecovered | src/iqk.rs:327-339 | Every stored row is its spans of the six split streams, end to end. |
| Iqk.SplitDetermines | src/iqk.rs:308-343 | Equal split streams come from equal payloads. |
| IqkSlots.NeighboursDecide | src/iqk.rs:588-592 | Checking neighbours of the spans sorted by start decides whether any two overlap, both ways. |
| IqkSlots.PresentPairwise | src/iqk.rs:567-587 | The spans collected for the check are pairwise apart exactly when the present streams are. |
| IqkSlots.CheckSlab | src/iqk.rs:555-593 | Offsets are accepted exactly when every present stream is aligned and inside the slab, absent ones have offset zero, and no two overlap. |
| IqkSlots.SlotSpansApart | src/iqk.rs:219-246 | Spans of different streams or slots share no byte. |
| IqkSlots.SlotStreams.WriteSlot | src/iqk.rs:679-712 | A write replaces all six spans of its slot or, refused, nothing; every other slot still holds its last payload and no other byte changes. |
| IqkSlots.LastWriteWins | src/iqk.rs:679-712 | After any sequence of writes each slot holds its own last one, or what it held before if it was never written. |
| IqkSlots.AgreesWithSplitter | src/iqk.rs:308-343 | Once each slot's final payload is what the splitter appended in slot order, the slab's streams are the splitter's. |
| SessionState.CoalesceKeepsOrigins | src/engine.rs:267-276 | Merging a step into the last span loses no token: the origin of every token is kept, and the widths add up. |
| SessionState.EncodeThenPublish | src/engine.rs:1155-1171 | A layer at a frontier that encodes some rows and publishes stands exactly that many rows further; in between it has no frontier. |
| SessionState.AdvancedPle | src/ple.rs:470-502 | Advancing PLE over tokens leaves its context the last two consumed tokens and its offset their count. |
| SessionState.ExtendsSound | src/engine.rs:248-280 | A commit keeps every agreement of a valid session. |
| SessionState.HistorySound | src/engine.rs:166-280 | In every history of engine calls a valid session has frontier = consumed tokens = span widths = every layer frontier = PLE offset; one that became invalid stays as it is for good. |
| SessionSteps.LiveSession.ValidateCommitted | src/engine.rs:199-246 | The explicit check accepts exactly the valid sessions that agree, with last-row logits of the right shape and finite. |
| SessionSteps.LiveSession.LastLogits | src/engine.rs:309-330 | Reading the last row's logits succeeds exactly on a committed nonempty session with a finite row, keeps the first row read, and otherwise changes nothing. |
| SessionSteps.LiveSession.CommitDeviceOutput | src/engine.rs:248-280 | A commit is accepted exactly for an invalid session and a matching producer width, frontier, vocabulary and device logits length, and appends the tokens and the span; refused, it changes nothing. |
| SessionSteps.ServicedOnce | src/engine.rs:974-1118 | In an in-window demand log each serviced layer is serviced exactly once, after it was enqueued. |
| SessionSteps.LiveSession.EncodeGraph | src/engine.rs:974-1118 | Layers are encoded in windows with at most four demands unserviced at any time, and PLE advances once if its layer exists. |
| SessionSteps.LiveSession.StepInner | src/engine.rs:921-1183 | A decode step commits one token everywhere exactly when it is admitted and lookup, PLE, every encode, every service in event decode, head, completion and every publish succeed; refused admission changes nothing, and any later failure invalidates the session for good. Event decode services every layer once; the unserviced-demand and not-advanced checks never fire. |
| SessionSteps.LiveSession.PrefillChunkInner | src/engine.rs:791-904 | A chunk commits all its tokens everywhere exactly when it is admitted and every step of it succeeds without cancellation, reports a cancellation exactly when one comes after a layer it has encoded, and otherwise changes nothing or invalidates the session. |
| SessionSteps.LiveSession.ConsumeForGeneration | src/engine.rs:1187-1218 | It succeeds exactly as the step or, without bias, the chunk does; a reported frontier is the old one plus the tokens, which are exactly what was appended to the consumed tokens, under the producer they came from. |

## Left out

- KvarnDecode.Gathered: one head of one selected row; the parallel grid and the buffers it is uploaded through are not modelled.
- Metal kernels, streams, buffers and events: a device step is an outcome that may succeed, be refused or fail part-way.
- BF16, FP16 and f32 rounding and KVarN variance normalisation: the butterfly, the quantiser and the tile codec are over the reals. The normaliser is a parameter, known only to divide each element by its row's and its column's positive factor, and so are the conversions to and from BF16 and FP16.
- Byte and channel offsets inside one 256-channel head row, and a trailing half BF16 word: the KVarN buffers hold whole head rows, so those checks are the shape checks here.
- RecordGrowth.GrowthRunBounds: each grant is exactly its target; `Kvarn.KvarnState.Reserve` allows any amount beyond.
- Experts.BoundedExperts.SeedHot, ExpertOps.Rescaled: prior counts are rescaled by their exact ratio, rounded once; the source divides and multiplies in f64, with two roundings before that one.
- Experts.BoundedExperts.Release: whether the target ends a storage chunk is a parameter; the chunks and their bytes are not modelled.
- MemoryPolicy.Policy: a value with one function per transition instead of a record of 28 mutable fields, because methods over that many heap fields do not verify within the resource limit; the order of statements inside one transition is not captured. The controller that owns it is a class.
- MemoryPolicy.ReachesVeto: the rate comparison is exact, by integer cross-multiplication, so it does not model floating-point rounding of the rate.
- MemoryController.Engine.Resize: engine resizes are accepted or refused whole; chunk boundaries and byte budgets inside them are not modelled, nor is the report's byte accounting.
- Durations are unbounded naturals: saturation of a 64-bit nanosecond clock is not modelled.
- IqkSlots.SlotStreams: all six streams are spans of one slab; the variant with one buffer per stream and offset zero is the same layout with separate allocations.
- IqkSlots.CheckSlab: the value-table size check and pipeline compilation are not modelled.
- Gated publication of expert rows and the decode handoff: their safety rests on stream and lease code that is not part of this model.
- SessionState.LayerState: a layer is its published and pending frontiers and whether it is published; its tensors are not modelled, and device-status and logits contents are part of whether a step completes.
- SessionSteps.LiveSession.StepInner: embedding lookup, residual composition and flushes are outcomes; whether backing growth is due is a parameter.
- Prompt-cache lookup, disk checkpoints, expert chunk storage, memory planning, text decoding, sampling, timing statistics and logging.
- GEMV descriptors, buffer-extent checks around dispatches, argument parsing and host limits: simple bounds that would only add easy members.
