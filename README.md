# SDR post-processing thread: a Dafny model

This project models the core of CubicSDR's SDR post-processing thread
(`SDRPostThread`). That thread takes raw interleaved I/Q byte blocks from the
radio and decodes them through a 65536-entry lookup table. It runs a DC
blocker over the result, then hands the filtered block to a primary output
queue, a visual queue and every bound demodulator. The model covers:

- the lookup tables built by the constructor, and the per-block decoding,
  with or without I/Q swap;
- the demodulator registry (`bindDemodulator`, `removeDemodulator`);
- the reusable buffer pool: the first buffer whose reader count is at most
  zero is reused, otherwise exactly one buffer is appended;
- the two-pass dispatch. Pass 1 counts the demodulators near the block's
  frequency. That count becomes the pooled buffer's reader count. Pass 2
  runs each demodulator's Active/Inactive state machine, which covers the
  dummy block on deactivation, the "follow" retune and the choice of the
  active demodulator. Pass 2 then hands the buffer to every active
  demodulator. The count is reset to 0 when nobody received the buffer.

Layout, one module per component:

- `samples.dfy` (`Samples`): bytes, samples as (real byte, imaginary byte)
  pairs, the two table entry functions, `Decoded`, and the round trip with
  `Encoded`.
- `registry.dfy` (`Optional`, `Registry`): `IndexOf` (what `std::find`
  returns), `RemoveFirst`, and their lemmas.
- `pool.dfy` (`Pool`): buffers with reader counts, `FreeIndex`, `Acquire`
  and `Release`.
- `dispatch.dfy` (`Dispatch`):
  - the window tests and the pass-1 count;
  - one demodulator's step, and pass 2 as a left fold `Fold` over the
    registry;
  - the receiver count the reader count calls for;
  - the lemmas about the state machine and the counts.
- `engine.dfy` (`Engine`):
  - the whole state touched by one loop iteration (`State`);
  - `BlockStep`, the specification of one iteration, with lemmas about it;
  - `Run`, a series of iterations, with lemmas about a demodulator across
    many blocks.
- `post_thread.dfy` (`PostThread`): the class `SDRPostThread`. Its fields are
  sequences, maps and flags, and its methods are proved against the
  functions above. `ProcessBlock` ensures
  `Snap() == BlockStep(old(Snap()), block, dc)`.

Modelling choices:

- Demodulator instances are objects owned by the application. They are
  modelled as a map `demods` from identity (`DemodId`, the pointer) to their
  state: frequency, `active`, `follow`, `tracking`, and the items pushed
  onto their input queue. The registry is a sequence of identities. This
  keeps aliasing exact: `bindDemodulator` may bind the same instance twice,
  and pass 2 then steps it twice.
- Two methods stand for code outside the thread. `PutDemodulator` is the
  application creating or editing an instance. `ReleaseBuffer` is a
  consumer finishing with a pooled buffer.
- A queue item is either `Dummy(frequency, sampleRate)` (the empty block
  of line 204) or `Shared(k)`, which is buffer `k` of the pool. The pool
  only grows, so positions are stable.
- The application singleton (`wxGetApp()`) is explicit state `App` with
  four parts:
  - the tuned frequency;
  - the device sample rate;
  - the demodulator manager's last active demodulator, which line 215 reads;
  - the manager's active demodulator, which line 216 writes.

  The manager's own code is not part of this model. So the two slots are
  kept apart, and the model relies on nothing that links them.
- The DC blocker is the parameter `dc`. The only thing assumed of it is
  that it keeps the block's length (`LengthPreserving`). Its state across
  blocks is abstracted by letting the caller pass any such function to
  each call.
- `sampleRate / 2` follows C++ truncating division (`HalfRate`).
  Frequencies and rates are unbounded integers.
- The visual snapshot copies `numVisSamples` samples of the filtered block.
  `ProcessBlock` requires `0 <= numVisSamples <= |block| / 2` whenever a
  snapshot will be taken. Otherwise line 150 reads past the end of the
  block, which is undefined behaviour and not modelled.

## Model

| member | source | states |
|---|---|---|
| `Samples.LutEntry` | src/sdr/SDRPostThread.cpp:15-17 | normal-table entry `i` has the low byte of `i` as real part and the high byte as imaginary part; its byte pair indexes back to `i` |
| `Samples.SwapEntry` | src/sdr/SDRPostThread.cpp:15-18 | swapped-table entry `i` has the high byte as real part and the low byte as imaginary part; read the other way round, its byte pair indexes back to `i` |
| `Samples.PairIndex` | src/sdr/SDRPostThread.cpp:118-122 | the little-endian `uint16_t` read of a byte pair: the index's low byte is the first byte and its high byte the second |
| `Samples.Table` | src/sdr/SDRPostThread.cpp:116-124 | the table the swap flag picks maps index `i` to a sample whose bytes, read in that mode's order, index back to `i` |
| `Samples.Decoded` | src/sdr/SDRPostThread.cpp:106-124 | a block becomes one table entry per byte pair, from the table the swap flag picks; it has `n/2` samples |
| `Samples.SwapTableIsSwapped` | src/sdr/SDRPostThread.cpp:15-18 | every swapped-table entry is the normal entry with real and imaginary parts exchanged |
| `Samples.LutEntryOfPair` | src/sdr/SDRPostThread.cpp:15-16 | the entry at the little-endian index `b0 + 256*b1` is `(b0, b1)` in the normal table and `(b1, b0)` in the swapped one |
| `Samples.DecodedSamples` | src/sdr/SDRPostThread.cpp:106-124 | a block of `n` bytes decodes to `n/2` samples; sample `k` is `(byte 2k, byte 2k+1)`, or the other way round in swap mode |
| `Samples.DecodedSwapped` | src/sdr/SDRPostThread.cpp:116-124 | swap mode yields the same samples with parts exchanged |
| `Samples.DecodeEncode` | src/sdr/SDRPostThread.cpp:12-25 | decoding the byte encoding of any samples gives them back, in both modes, for all byte values 0..255 |
| `Samples.EncodeDecode` | src/sdr/SDRPostThread.cpp:12-25 | encoding a decoded even-length block gives back its bytes |
| `Registry.IndexOf` | src/sdr/SDRPostThread.cpp:43 | the result is the first position holding the demodulator, or the length when it is absent |
| `Registry.RemoveFirst` | src/sdr/SDRPostThread.cpp:43-47 | reference definition of erasing the first occurrence, by recursion on the list |
| `Registry.RemoveFirstAt` | src/sdr/SDRPostThread.cpp:43-47 | removal cuts out exactly the element `std::find` finds, keeping the order of the rest; an absent demodulator leaves the list unchanged |
| `Registry.RemoveFirstContents` | src/sdr/SDRPostThread.cpp:37-49 | removing a bound demodulator shortens the list by one and takes away exactly one occurrence |
| `Registry.BindThenRemove` | src/sdr/SDRPostThread.cpp:31-49 | binding a new demodulator and removing it restores the registry |
| `Registry.RebindThenRemove` | src/sdr/SDRPostThread.cpp:31-49 | after binding an already-bound demodulator again, removal erases the older binding and keeps the new one at the end |
| `Pool.FreeIndex` | src/sdr/SDRPostThread.cpp:178-183 | the scan yields the first buffer in creation order whose reader count is at most 0, or the pool length when none is free |
| `Pool.NewBuffer` | src/sdr/SDRPostThread.cpp:186 | a freshly allocated buffer has no readers, no metadata and no samples; lines 191-194 overwrite its fields before anything reads them |
| `Pool.Acquire` | src/sdr/SDRPostThread.cpp:178-188 | the acquired buffer is free and the first free one; the old pool is an unchanged prefix; the pool grows by one exactly when no buffer was free |
| `Pool.AcquireReusesOnlyFree` | src/sdr/SDRPostThread.cpp:178-183 | when exactly one buffer is free, that buffer is reused and nothing is allocated |
| `Pool.AcquireGrowsWhenNoneFree` | src/sdr/SDRPostThread.cpp:185-188 | when no buffer is free, exactly one new buffer is appended and taken |
| `Pool.ReleaseLastReaderReused` | src/sdr/SDRPostThread.cpp:178-183 | once the last reader of a buffer releases it, the next block reuses that buffer if no earlier one is free |
| `Pool.IsFree` | src/sdr/SDRPostThread.cpp:179 | the scan's test: a buffer is free when its reader count is at most 0 |
| `Pool.Release` | src/sdr/SDRPostThread.cpp:179 | a consumer's release lowers buffer `k`'s reader count by one and changes no other buffer |
| `Dispatch.HalfRate` | src/sdr/SDRPostThread.cpp:168 | half the sample rate with C++ truncation toward zero |
| `Dispatch.Abs` | src/sdr/SDRPostThread.cpp:201 | the `abs` of the frequency difference at lines 168 and 201: non-negative, and the value or its negation |
| `Dispatch.InWindow` | src/sdr/SDRPostThread.cpp:201 | the pass-2 test: the block is within half the sample rate of the demodulator's frequency |
| `Dispatch.CountedInPass1` | src/sdr/SDRPostThread.cpp:167-168 | the pass-1 test: an exact frequency match, or the pass-2 window |
| `Dispatch.Pass1Count` | src/sdr/SDRPostThread.cpp:159-172 | pass 1 counts at most one per registry entry |
| `Dispatch.Transition` | src/sdr/SDRPostThread.cpp:201-218 | a demodulator keeps its frequency and flags; it is active afterwards exactly when it is in the window, or was active and follow or tracking; it gets a dummy block exactly when it goes from active to inactive |
| `Dispatch.StepRecord` | src/sdr/SDRPostThread.cpp:198-228 | one entry's effect on its instance: frequency and tracking kept; active as `Transition` says; an active one never keeps "follow"; an inactive one keeps it |
| `Dispatch.StepApp` | src/sdr/SDRPostThread.cpp:210-217 | one entry's effect on the application: the sample rate and the last active slot never change; the active slot can only become this entry |
| `Dispatch.Step` | src/sdr/SDRPostThread.cpp:198-228 | the pass-2 body for one entry: its instance, the application and the delivery list |
| `Dispatch.Fold` | src/sdr/SDRPostThread.cpp:196-229 | pass 2 creates and destroys no instance and leaves the sample rate alone |
| `Dispatch.FoldPreserves` | src/sdr/SDRPostThread.cpp:196-229 | pass 2 changes no demodulator's frequency or tracking flag and never sets "follow" |
| `Dispatch.FoldRecord` | src/sdr/SDRPostThread.cpp:196-229 | after pass 2 each instance is its own step applied once per registry occurrence, whatever the other demodulators do |
| `Dispatch.Iterate` | src/sdr/SDRPostThread.cpp:198-228 | definition: the body of lines 198-228 run once per repeated registry entry of the same instance, for one block |
| `Dispatch.IterateShape` | src/sdr/SDRPostThread.cpp:198-228 | after one or more steps for a block, a demodulator is active exactly when it is in the window, or was active and tracking, or was active and follow and took one step; an active one is never follow |
| `Dispatch.PassUntouched` | src/sdr/SDRPostThread.cpp:196-229 | an unregistered demodulator is not touched |
| `Dispatch.PassDeactivates` | src/sdr/SDRPostThread.cpp:201-208 | an out-of-window, active, non-follow, non-tracking demodulator, bound any number of times, becomes inactive and gets exactly one dummy block and no buffer |
| `Dispatch.PassSilentWhenInactive` | src/sdr/SDRPostThread.cpp:201-222 | an out-of-window inactive demodulator, however often bound, gets nothing and keeps every flag, "follow" included |
| `Dispatch.PassKeepsExempt` | src/sdr/SDRPostThread.cpp:201-227 | bound once, an out-of-window active follow or tracking demodulator stays active, gets the buffer once and has "follow" cleared |
| `Dispatch.PassFollowBoundTwice` | src/sdr/SDRPostThread.cpp:201-227 | bound twice, an out-of-window active follow demodulator that is not tracking first gets the buffer (clearing "follow"), then is deactivated and gets a dummy block |
| `Dispatch.PassActivates` | src/sdr/SDRPostThread.cpp:213-227 | bound once, an in-window demodulator is active afterwards (inactive ones are activated), gets the buffer once and has "follow" cleared |
| `Dispatch.DeliveredMatchesQueues` | src/sdr/SDRPostThread.cpp:220-228 | each entry of the delivery list is exactly one push of the buffer onto that demodulator's queue |
| `Dispatch.DeliveredAtMostRegistered` | src/sdr/SDRPostThread.cpp:196-229 | a demodulator gets the buffer at most as often as it is registered, so at most once when bound once |
| `Dispatch.Pass1CountAtMostDeliveries` | src/sdr/SDRPostThread.cpp:165-228 | with a non-negative sample rate, the pass-1 count is at most the number of deliveries |
| `Dispatch.Pass1CountExactWithoutExemptions` | src/sdr/SDRPostThread.cpp:165-228 | with a non-negative sample rate and no follow or tracking demodulator registered, the pass-1 count equals the number of deliveries |
| `Dispatch.Pass1CountUndercounts` | src/sdr/SDRPostThread.cpp:165-228 | a far-away active tracking demodulator is counted 0 times yet delivered to; the receiver count says 1 |
| `Dispatch.OccurrenceReceives` | src/sdr/SDRPostThread.cpp:201-227 | the `k`-th entry for a demodulator gets the buffer when it is in the window, or active and tracking, or active and follow at its first entry |
| `Dispatch.IterateReceives` | src/sdr/SDRPostThread.cpp:198-228 | the `k`-th entry for a demodulator gets the buffer exactly when `OccurrenceReceives` says so |
| `Dispatch.ReceiverCount` | src/sdr/SDRPostThread.cpp:193-227 | the reader count the pushes call for, judged on the state before the pass; at most one per entry |
| `Dispatch.ReceiverCountIsDeliveries` | src/sdr/SDRPostThread.cpp:193-227 | for every registry, the receiver count equals the number of deliveries |
| `Dispatch.Receivers` | src/sdr/SDRPostThread.cpp:196-227 | the registry entries that get the buffer, in registry order, judged on the state before the pass; as many as the receiver count, all registered |
| `Dispatch.DeliveredInOrder` | src/sdr/SDRPostThread.cpp:196-227 | the delivery list is exactly the receivers, in registry order, for every registry |
| `Dispatch.LastActiveUnchanged` | src/sdr/SDRPostThread.cpp:215 | pass 2 never writes the manager's last active slot |
| `Dispatch.ActiveDemodKept` | src/sdr/SDRPostThread.cpp:215-216 | when a last active demodulator is set, pass 2 never changes the active one |
| `Dispatch.LastActivated` | src/sdr/SDRPostThread.cpp:213-217 | the last registry entry the block activates is a registered, in-window demodulator that was inactive |
| `Dispatch.ActiveIsLastActivated` | src/sdr/SDRPostThread.cpp:213-217 | with no last active demodulator, the active slot ends as the last entry the block activates, or stays as it was when the block activates none |
| `Dispatch.FollowRetunes` | src/sdr/SDRPostThread.cpp:210-212 | over a registry without repeats, the application ends tuned to the last out-of-window follow demodulator's frequency, or unchanged |
| `Dispatch.FollowTarget` | src/sdr/SDRPostThread.cpp:210-211 | reference for the retune: the frequency of the last out-of-window follow entry, or the tuned frequency when there is none |
| `Engine.Converted` | src/sdr/SDRPostThread.cpp:106-126 | definition: the decoded block, the DC blocker's output and the grown capacity |
| `Engine.Published` | src/sdr/SDRPostThread.cpp:128-155 | definition: the primary push and the gated visual snapshot |
| `Engine.Dispatched` | src/sdr/SDRPostThread.cpp:157-235 | definition: pass 1, pool acquire and fill, pass 2 and the reset to 0 |
| `Engine.DispatchIndex` | src/sdr/SDRPostThread.cpp:178-188 | definition: the pool position `Acquire` gives the block's buffer; `Engine.BlockStepPool` proves it is `FreeIndex` of the pool |
| `Engine.SecondPass` | src/sdr/SDRPostThread.cpp:196-229 | pass 2 on the engine state, starting with no deliveries; it keeps the instance set and the sample rate |
| `Engine.BlockStep` | src/sdr/SDRPostThread.cpp:105-238 | definition: one loop iteration, a no-op on an empty block |
| `Engine.VisualGateOpen` | src/sdr/SDRPostThread.cpp:137 | the snapshot gate: the visual queue exists and is empty |
| `Engine.EmptyBlockChangesNothing` | src/sdr/SDRPostThread.cpp:105 | an empty block leaves the whole state unchanged |
| `Engine.BlockStepDecodes` | src/sdr/SDRPostThread.cpp:106-126 | `fpData` holds the `n/2` decoded samples, `dataOut` is the DC blocker applied to them, and the reserved capacity only grows |
| `Engine.BlockStepOutputs` | src/sdr/SDRPostThread.cpp:128-155 | a set primary queue gets one copy of the filtered block; the visual queue gets a snapshot of `numVisSamples` samples only when it exists and is empty |
| `Engine.SecondSnapshotDropped` | src/sdr/SDRPostThread.cpp:137-152 | of two blocks with no visual drain in between, only the first snapshot is queued |
| `Engine.BlockStepPool` | src/sdr/SDRPostThread.cpp:174-194 | the pool never shrinks; the block takes the first free buffer or one appended buffer; no other buffer changes; the taken buffer holds the block |
| `Engine.BlockStepRefCount` | src/sdr/SDRPostThread.cpp:159-233 | the reader count is the pass-1 count, or 0 when nobody got the buffer; with a non-negative sample rate it is at most the deliveries, and equal to them without follow or tracking demodulators |
| `Engine.CorrectedDispatched` | src/sdr/SDRPostThread.cpp:193-233 | definition: the dispatch with `ReceiverCount` as the buffer's reader count |
| `Engine.CorrectedRefCountIsReceivers` | src/sdr/SDRPostThread.cpp:193-233 | with the corrected count, the buffer's reader count always equals the number of demodulators it was pushed to, and nothing else differs |
| `Engine.RefCountUndercountExample` | src/sdr/SDRPostThread.cpp:159-233 | a buffer handed to a tracking demodulator can be left with reader count 0 |
| `Engine.EndToEndExample` | src/sdr/SDRPostThread.cpp:105-233 | an 8-byte block reaches the single in-window demodulator, activating it and making it the active one, through one 4-sample buffer with one reader |
| `Engine.BlockStepRecord` | src/sdr/SDRPostThread.cpp:157-229 | a non-empty block applies each instance's own step once per registry entry for it; registry, instance set, sample rate and snapshot size stay |
| `Engine.NonEmptyCount` | src/sdr/SDRPostThread.cpp:105 | the number of blocks of a series that the loop body does not skip |
| `Engine.Run` | src/sdr/SDRPostThread.cpp:99-239 | the loop: a series of iterations, which keeps the registry, the instance set, the sample rate and the swap flag and never shrinks the pool |
| `Engine.RunInactiveStaysSilent` | src/sdr/SDRPostThread.cpp:201-222 | over any series of blocks out of its window, an inactive demodulator gets nothing and keeps all its state |
| `Engine.RunExactlyOneDummy` | src/sdr/SDRPostThread.cpp:201-208 | over any series of out-of-window blocks starting with a non-empty one, a bound active non-follow non-tracking demodulator gets exactly one dummy in all, for the first block |
| `Engine.RunTrackingStaysActive` | src/sdr/SDRPostThread.cpp:201-227 | bound once, an active tracking demodulator stays active over any series of blocks, and its queue gains exactly one shared buffer per non-empty block and nothing else |
| `PostThread.Resized` | src/sdr/SDRPostThread.cpp:111-114 | a resize gives the requested length and keeps the common prefix |
| `PostThread.SDRPostThread.constructor` | src/sdr/SDRPostThread.cpp:8-26 | both tables are built entry by entry; no queues, no registry, empty pool, swap off, 32768 visual samples |
| `PostThread.SDRPostThread.BindDemodulator` | src/sdr/SDRPostThread.cpp:31-35 | appends the demodulator at the end of the registry |
| `PostThread.SDRPostThread.FindDemodulator` | src/sdr/SDRPostThread.cpp:43 | the linear search returns the first occurrence, or the registry length |
| `PostThread.SDRPostThread.RemoveDemodulator` | src/sdr/SDRPostThread.cpp:37-49 | null is a no-op; otherwise the registry becomes `RemoveFirst` of the old one |
| `PostThread.SDRPostThread.SetDataOutQueue` | src/sdr/SDRPostThread.cpp:54-56 | replaces the primary queue |
| `PostThread.SDRPostThread.SetVisualQueue` | src/sdr/SDRPostThread.cpp:57-59 | replaces the visual queue |
| `PostThread.SDRPostThread.SetNumVisSamples` | src/sdr/SDRPostThread.cpp:61-63 | sets the snapshot size, any integer accepted |
| `PostThread.SDRPostThread.SetSwapIQ` | src/sdr/SDRPostThread.cpp:69-71 | sets swap mode |
| `PostThread.SDRPostThread.CountInWindow` | src/sdr/SDRPostThread.cpp:159-172 | the pass-1 loop computes `Pass1Count` |
| `PostThread.SDRPostThread.FindFreeBuffer` | src/sdr/SDRPostThread.cpp:178-183 | the pool scan finds the first free buffer, or the pool length |
| `PostThread.SDRPostThread.AcquireBuffer` | src/sdr/SDRPostThread.cpp:178-188 | the pool and the returned position are those of `Acquire` |
| `PostThread.SDRPostThread.ReleaseBuffer` | src/sdr/SDRPostThread.cpp:179 | a consumer drops the reader count that the scan tests by one, as `Release` says |
| `PostThread.SDRPostThread.ResizeScratch` | src/sdr/SDRPostThread.cpp:106-114 | both scratch buffers become `Resized` of their old contents at the block's sample count; capacity becomes the larger of old capacity and that count |
| `PostThread.SDRPostThread.Decode` | src/sdr/SDRPostThread.cpp:116-124 | the decode loop fills the scratch buffer with `Decoded(data, swapIQ)` |
| `PostThread.SDRPostThread.DispatchEntry` | src/sdr/SDRPostThread.cpp:198-228 | one pass-2 iteration updates the instance and the application as one `Step` |
| `PostThread.SDRPostThread.RunSecondPass` | src/sdr/SDRPostThread.cpp:196-229 | the pass-2 loop yields `Fold`'s instances and application; `pushedData` holds exactly when someone got the buffer |
| `PostThread.SDRPostThread.ConvertBlock` | src/sdr/SDRPostThread.cpp:106-126 | resize, decode and DC filter give `Converted` |
| `PostThread.SDRPostThread.PublishOutputs` | src/sdr/SDRPostThread.cpp:128-155 | the primary and visual pushes give `Published` |
| `PostThread.SDRPostThread.DispatchBlock` | src/sdr/SDRPostThread.cpp:157-235 | count, acquire, fill, pass 2 and the reset to 0 give `Dispatched` |
| `PostThread.SDRPostThread.ProcessBlock` | src/sdr/SDRPostThread.cpp:105-238 | one loop iteration changes the state exactly as `BlockStep` says, and keeps the tables |

## Findings

| source | as written | input that shows it | evidently intended | confidence | as-written member | corrected member |
|---|---|---|---|---|---|---|
| src/sdr/SDRPostThread.cpp:165-172, 193 | the reader count is the number of demodulators within half the sample rate of the block, or at its exact frequency | one active tracking demodulator at 200 MHz, block at 100 MHz, sample rate 2 MHz: counted 0, yet pushed the buffer at line 227 | the count equals the number of pushes at line 227 | high, not executed | `Engine.RefCountUndercountExample` | `Engine.CorrectedRefCountIsReceivers` |

The intent comes from the code itself. Line 193 sets the count just
before the pushes at line 227, and each reader of a pushed buffer releases
it once. Lines 231-233 reset the count to 0 exactly when nothing was
pushed. The pool scan at line 179 treats a count of 0 or less as free. So
an undercount lets the next block overwrite a buffer that a demodulator
has not read yet.

In the as-written half:

- `Dispatch.Pass1CountUndercounts` and `Engine.RefCountUndercountExample`
  exhibit the undercount.
- `Engine.BlockStepRefCount` bounds the count by the deliveries when the
  sample rate is non-negative. It also shows the count is exact when no
  follow or tracking demodulator is registered.

The corrected half has three parts:

- `Dispatch.ReceiverCount` is the intended count.
- `Dispatch.ReceiverCountIsDeliveries` proves it equals the number of
  pushes for every registry.
- `Engine.CorrectedDispatched` is the dispatch with that count.

The class `SDRPostThread` keeps the count as written, since it models the
thread as it behaves.

## Other behaviour of the code worth knowing

- "Follow" is cleared on every delivery (lines 223-224), not only when a
  demodulator enters Active. An out-of-window active follow demodulator
  also has it cleared. Bound twice, such a demodulator is then deactivated
  by the same block at its second entry (`Dispatch.PassFollowBoundTwice`).
- A demodulator gets the shared buffer at most once per block only when it
  is bound once. Bound twice and in the window, it gets the buffer at both
  entries (`Dispatch.DeliveredAtMostRegistered` bounds the deliveries by the
  registry count; `Dispatch.FoldRecord` and `Dispatch.IterateShape` give the
  repeated step).
- The retune request (line 210) is only evaluated for out-of-window
  demodulators. For an active out-of-window demodulator it runs after the
  deactivation check and before delivery.
- Line 105 skips a null block, but line 239 then dereferences it. Only
  empty blocks (line 105) are modelled as no-ops, and `ProcessBlock` takes a
  block, never a null. The block `terminate` pushes (line 260) is an empty
  one.
- Pass 1 also admits an exact frequency match (line 167). This only differs
  from the pass-2 window when the sample rate is below -1.

## Left out

- Threads, the `busy_demod` and `busy_rw` mutexes, the atomics, the blocking
  `pop` on the input queue and the `terminate` sentinel (lines 32-48,
  99-102, 139, 154, 258-262). These only matter for concurrency. The model
  runs one loop iteration per `ProcessBlock` call.
- The liquid-dsp DC blocker (lines 88, 126): foreign floating-point IIR
  code. It is the length-preserving parameter `dc`.
- The float normalisation `(b - 127.4) / 128` and the complex float type.
  Samples are byte pairs. `Resized` fills new elements with the placeholder
  `Sample(0, 0)`, which stands for the byte pair (0, 0), not the float zero
  that value-initialisation gives. No byte pair represents that zero. The
  decode loop overwrites every such element before it is read, so the
  placeholder is never observed.
- The big-endian branch (lines 19-24). The index is fixed little-endian,
  `b0 + 256 * b1`, in place of the `uint16_t*` cast.
- Thread priority, logging, and the buffer and visual cleanup at shutdown
  (lines 81-86, 92, 242-255).
- The visual buffer's reserve/resize (lines 141-146). The same
  `visualDataOut` object is pushed each time; the model pushes the
  snapshot's value, so the race with a slow reader is not captured.
- `getNumVisSamples`, `getSwapIQ` and `setIQDataInQueue` (lines 51-53,
  65-67, 73-75). The getters are plain field reads. The input queue is
  replaced by the block passed to `ProcessBlock`.
- `data_in->decRefCount()` (line 239) and the buffer class's own
  `setRefCount`, `getRefCount` and `decRefCount`. The buffer class is not
  part of this model. The model assumes `setRefCount` stores its argument
  and that a consumer's release lowers the count by exactly one
  (`ReleaseBuffer`).
- The demodulator manager's `getLastActiveDemodulator` and
  `setActiveDemodulator` (lines 215-216) are not part of this model. The
  model keeps the last active and the active demodulator as separate slots.
  It assumes only that `setActiveDemodulator` records its argument as
  active and leaves the last active slot alone. If the manager's setter
  also filled the last active slot, only the first activation of a block
  would take effect.
- The application's `setFrequency` and `getFrequency` (line 211). The model
  assumes the setter stores its argument, that the getter returns it, and
  that retuning changes neither `getSampleRate()` nor any demodulator
  during the pass.
- `bindDemodulator(NULL)` (line 33). The model's `BindDemodulator` requires
  a live instance; a null pointer would be dereferenced by pass 1.
- Integer widths. Frequencies (`long long`) and the sample rate are
  unbounded integers, so an overflow in `abs` or in the subtraction is not
  modelled.
- Dispatch.Pass1Count: its own contract only bounds the count by the
  registry length. Its relation to deliveries is stated by the lemmas
  `Pass1CountAtMostDeliveries`, `Pass1CountExactWithoutExemptions` and
  `ReceiverCountIsDeliveries`.
- Dispatch.FollowRetunes: stated only for a registry without repeated
  entries. With repeats, a demodulator's follow flag may already have been
  cleared by its earlier occurrence.
- Dispatch.PassKeepsExempt and Dispatch.PassActivates: stated for a
  demodulator bound once. `Dispatch.FoldRecord` and `Dispatch.IterateShape`
  give its state for any number of bindings, and
  `Dispatch.PassFollowBoundTwice` shows a case where the two differ.
- Engine.RunTrackingStaysActive: the queue's new items are stated to be
  shared buffers, one per non-empty block. Their pool positions are not
  stated.
