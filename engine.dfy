/** What one iteration of the post-processing loop does to the whole
    state of the dispatcher, as a function of the old state and the raw
    block popped from the input queue. */
module Engine {
  import opened Optional
  import opened Samples
  import opened Registry
  import opened Pool
  import opened Dispatch

  /** A raw block from the radio: interleaved sample bytes. */
  datatype RawBlock = RawBlock(frequency: int, sampleRate: int, data: seq<Byte>)

  /** A converted block as pushed onto the primary and visual queues. */
  datatype Block = Block(frequency: int, sampleRate: int, data: seq<Sample>)

  /** Everything the loop body reads or writes, besides the two fixed
      lookup tables: configuration, registry, demodulator instances,
      application, pool, scratch buffers and the two optional queues
      (None when the queue pointer is null). */
  datatype State = State(
    swapIQ: bool,
    numVisSamples: int,
    registry: seq<DemodId>,
    demods: map<DemodId, Demod>,
    app: App,
    buffers: seq<Buffer>,
    fpData: seq<Sample>,
    dataOut: seq<Sample>,
    capacity: nat,
    outQueue: Option<seq<Block>>,
    visQueue: Option<seq<Block>>)

  /** The DC blocker, which this model leaves uninterpreted, keeps the
      length of the block it filters. */
  ghost predicate LengthPreserving(dc: seq<Sample> -> seq<Sample>) {
    forall xs :: |dc(xs)| == |xs|
  }

  /** The visual snapshot is taken only when the visual queue exists and
      is empty. */
  predicate VisualGateOpen(q: Option<seq<Block>>) {
    q == Some([])
  }

  /** What the loop body demands: every registered demodulator is live,
      and a snapshot that will be taken does not read past the block. */
  predicate Ready(s: State, b: RawBlock) {
    Bound(s.registry, s.demods)
    && (|b.data| > 0 && VisualGateOpen(s.visQueue) ==> 0 <= s.numVisSamples <= |b.data| / 2)
  }

  /** The position in the pool the block's buffer takes. */
  function DispatchIndex(s: State): nat {
    Acquire(s.buffers).1
  }

  /** The second pass run for block `b` on state `s`. */
  function SecondPass(s: State, b: RawBlock): (r: Pass)
    requires Bound(s.registry, s.demods)
    ensures r.demods.Keys == s.demods.Keys && r.app.sampleRate == s.app.sampleRate
  {
    Fold(Pass(s.demods, s.app, []), s.registry, b.frequency, b.sampleRate, DispatchIndex(s))
  }

  /** Decoding and filtering: the scratch buffers hold the decoded block
      and the DC blocker's output, and the scratch capacity has grown to
      the block's sample count if it was smaller. */
  function Converted(s: State, b: RawBlock, dc: seq<Sample> -> seq<Sample>): State
    requires LengthPreserving(dc)
  {
    var fp := Decoded(b.data, s.swapIQ);
    s.(fpData := fp, dataOut := dc(fp), capacity := if |b.data| / 2 > s.capacity then |b.data| / 2 else s.capacity)
  }

  /** The primary and visual outputs of the filtered block. */
  function Published(s: State, b: RawBlock): State
    requires VisualGateOpen(s.visQueue) ==> 0 <= s.numVisSamples <= |s.dataOut|
  {
    var outQ := if s.outQueue.Some? then Some(s.outQueue.value + [Block(b.frequency, b.sampleRate, s.dataOut)]) else None;
    var visQ := if VisualGateOpen(s.visQueue) then Some([Block(b.frequency, b.sampleRate, s.dataOut[..s.numVisSamples])]) else s.visQueue;
    s.(outQueue := outQ, visQueue := visQ)
  }

  /** The demodulator dispatch of the filtered block: nothing when no
      demodulator is bound; otherwise the acquired buffer receives the
      block with the first pass's count as reader count (0 when nobody was
      handed it), and the second pass updates instances and application. */
  function Dispatched(s: State, b: RawBlock): State
    requires Bound(s.registry, s.demods)
  {
    if |s.registry| == 0 then s
    else
      var count := Pass1Count(s.registry, s.demods, b.frequency, s.app.sampleRate);
      var pool := Acquire(s.buffers).0;
      var k := DispatchIndex(s);
      var r := SecondPass(s, b);
      var refCount := if |r.delivered| > 0 then count else 0;
      s.(buffers := pool[k := Buffer(refCount, b.frequency, b.sampleRate, s.dataOut)], demods := r.demods, app := r.app)
  }

  /** The state after one loop iteration on block `b`. */
  function BlockStep(s: State, b: RawBlock, dc: seq<Sample> -> seq<Sample>): State
    requires Ready(s, b) && LengthPreserving(dc)
  {
    if |b.data| == 0 then s
    else Dispatched(Published(Converted(s, b, dc), b), b)
  }

  /** An empty block changes nothing. */
  lemma EmptyBlockChangesNothing(s: State, b: RawBlock, dc: seq<Sample> -> seq<Sample>)
    requires Ready(s, b) && LengthPreserving(dc) && |b.data| == 0
    ensures BlockStep(s, b, dc) == s
  {
  }

  /** A non-empty block of `n` bytes is decoded into `n / 2` samples, the
      filtered block is the DC blocker applied to them, and the scratch
      capacity only grows. */
  lemma BlockStepDecodes(s: State, b: RawBlock, dc: seq<Sample> -> seq<Sample>)
    requires Ready(s, b) && LengthPreserving(dc) && |b.data| > 0
    ensures var t := BlockStep(s, b, dc);
      |t.fpData| == |b.data| / 2 && |t.dataOut| == |b.data| / 2
      && t.dataOut == dc(t.fpData)
      && (forall k :: 0 <= k < |b.data| / 2 ==>
            t.fpData[k] == if s.swapIQ then Sample(b.data[2 * k + 1], b.data[2 * k]) else Sample(b.data[2 * k], b.data[2 * k + 1]))
      && t.capacity >= s.capacity && t.capacity >= |b.data| / 2
  {
    DecodedSamples(b.data, s.swapIQ);
  }

  /** The primary queue, when set, receives one copy of the filtered block;
      the visual queue receives a snapshot of `numVisSamples` samples only
      when it exists and is empty, and otherwise is left as it is. */
  lemma BlockStepOutputs(s: State, b: RawBlock, dc: seq<Sample> -> seq<Sample>)
    requires Ready(s, b) && LengthPreserving(dc) && |b.data| > 0
    ensures var t := BlockStep(s, b, dc);
      t.outQueue.Some? == s.outQueue.Some?
      && (s.outQueue.Some? ==> t.outQueue.value == s.outQueue.value + [Block(b.frequency, b.sampleRate, t.dataOut)])
      && (VisualGateOpen(s.visQueue) ==> t.visQueue == Some([Block(b.frequency, b.sampleRate, t.dataOut[..s.numVisSamples])]))
      && (VisualGateOpen(s.visQueue) ==> |t.visQueue.value[0].data| == s.numVisSamples)
      && (!VisualGateOpen(s.visQueue) ==> t.visQueue == s.visQueue)
  {
  }

  /** Visual back-pressure: of two blocks in a row with no drain of the
      visual queue in between, only the first one's snapshot is queued. */
  lemma SecondSnapshotDropped(s: State, b1: RawBlock, b2: RawBlock, dc: seq<Sample> -> seq<Sample>)
    requires LengthPreserving(dc) && Ready(s, b1) && |b1.data| > 0 && VisualGateOpen(s.visQueue)
    requires Ready(BlockStep(s, b1, dc), b2)
    ensures BlockStep(BlockStep(s, b1, dc), b2, dc).visQueue == BlockStep(s, b1, dc).visQueue
    ensures |BlockStep(BlockStep(s, b1, dc), b2, dc).visQueue.value| == 1
  {
  }

  /** The pool: with no demodulator bound it is untouched; otherwise the
      block takes the first free buffer, or one buffer appended when none
      is free, and no other buffer changes. The pool never shrinks. */
  lemma BlockStepPool(s: State, b: RawBlock, dc: seq<Sample> -> seq<Sample>)
    requires Ready(s, b) && LengthPreserving(dc)
    ensures var t := BlockStep(s, b, dc);
      |t.buffers| >= |s.buffers|
      && (|b.data| == 0 || |s.registry| == 0 ==> t.buffers == s.buffers)
      && (|b.data| > 0 && |s.registry| > 0 ==>
            var k := DispatchIndex(s);
            k == FreeIndex(s.buffers)
            && (k < |s.buffers| ==> |t.buffers| == |s.buffers|)
            && (k == |s.buffers| ==> |t.buffers| == |s.buffers| + 1)
            && (forall j :: 0 <= j < |s.buffers| && j != k ==> t.buffers[j] == s.buffers[j])
            && t.buffers[k] == Buffer(t.buffers[k].refCount, b.frequency, b.sampleRate, t.dataOut))
  {
  }

  /** The dispatched buffer's reader count: the first pass's count when
      some demodulator was handed the buffer, and 0 otherwise. With a
      non-negative sample rate it is never more than the number of
      deliveries, and it equals that number when no registered
      demodulator is follow or tracking. */
  lemma BlockStepRefCount(s: State, b: RawBlock, dc: seq<Sample> -> seq<Sample>)
    requires Ready(s, b) && LengthPreserving(dc) && |b.data| > 0 && |s.registry| > 0
    ensures var t := BlockStep(s, b, dc);
      var receivers := |SecondPass(s, b).delivered|;
      var rc := t.buffers[DispatchIndex(s)].refCount;
      rc == (if receivers > 0 then Pass1Count(s.registry, s.demods, b.frequency, s.app.sampleRate) else 0)
      && (s.app.sampleRate >= 0 ==> 0 <= rc <= receivers)
      && ((s.app.sampleRate >= 0 && forall x :: x in s.registry ==> !s.demods[x].follow && !s.demods[x].tracking)
            ==> rc == receivers)
  {
    var p := Pass(s.demods, s.app, []);
    if s.app.sampleRate >= 0 {
      Pass1CountAtMostDeliveries(p, s.registry, b.frequency, b.sampleRate, DispatchIndex(s));
    }
    if s.app.sampleRate >= 0 && (forall x :: x in s.registry ==> !s.demods[x].follow && !s.demods[x].tracking) {
      Pass1CountExactWithoutExemptions(p, s.registry, b.frequency, b.sampleRate, DispatchIndex(s));
    }
  }

  /** The dispatch as the reader count evidently intends it: the same as
      Dispatched, except that the buffer's reader count is the number of
      entries the second pass hands it to. */
  function CorrectedDispatched(s: State, b: RawBlock): State
    requires Bound(s.registry, s.demods)
  {
    var t := Dispatched(s, b);
    if |s.registry| == 0 then t
    else
      var k := DispatchIndex(s);
      t.(buffers := t.buffers[k := t.buffers[k].(refCount := ReceiverCount(s.registry, s.demods, b.frequency, s.app.sampleRate))])
  }

  /** With the corrected count, the buffer's reader count is always the
      number of demodulators it was pushed to, and nothing else differs
      from the dispatch as written. */
  lemma CorrectedRefCountIsReceivers(s: State, b: RawBlock)
    requires Bound(s.registry, s.demods) && |s.registry| > 0
    ensures var t := CorrectedDispatched(s, b);
      var u := Dispatched(s, b);
      t.buffers[DispatchIndex(s)].refCount == |SecondPass(s, b).delivered|
      && |t.buffers| == |u.buffers|
      && (forall j :: 0 <= j < |u.buffers| && j != DispatchIndex(s) ==> t.buffers[j] == u.buffers[j])
      && t.buffers[DispatchIndex(s)] == u.buffers[DispatchIndex(s)].(refCount := t.buffers[DispatchIndex(s)].refCount)
      && t.demods == u.demods && t.app == u.app
  {
    ReceiverCountIsDeliveries(Pass(s.demods, s.app, []), s.registry, b.frequency, b.sampleRate, DispatchIndex(s));
  }

  /** The shape of a block that shows the undercount: one active tracking
      demodulator far from the block is handed the buffer, yet the buffer
      is left with reader count 0, free for reuse by the next block. */
  lemma RefCountUndercountExample()
    ensures var s := State(false, 0, [7], map[7 := Demod(200000000, true, false, true, [])],
                           App(100000000, 2000000, None, None), [], [], [], 0, None, None);
      var b := RawBlock(100000000, 2000000, [1, 2]);
      var t := BlockStep(s, b, xs => xs);
      t.buffers == [Buffer(0, 100000000, 2000000, [Sample(1, 2)])]
      && t.demods[7].queue == [Shared(0)]
  {
    var s := State(false, 0, [7], map[7 := Demod(200000000, true, false, true, [])],
                   App(100000000, 2000000, None, None), [], [], [], 0, None, None);
    var b := RawBlock(100000000, 2000000, [1, 2]);
    Pass1CountUndercounts();
    DecodedSamples(b.data, false);
    assert Decoded(b.data, false) == [Sample(1, 2)];
    assert Acquire([]) == ([NewBuffer], 0);
    assert SecondPass(s, b).delivered == [7];
    assert SecondPass(s, b).demods[7].queue == [Shared(0)];
  }

  /** The end-to-end case: a block of 8 bytes at 100 MHz reaches the one
      inactive demodulator bound at 100 MHz, which is activated, is made
      the active one and is handed a 4-sample buffer with one reader,
      the only buffer in the pool. */
  lemma EndToEndExample()
    ensures var s := State(false, 0, [3], map[3 := Demod(100000000, false, false, false, [])],
                           App(100000000, 2000000, None, None), [], [], [], 0, None, None);
      var b := RawBlock(100000000, 2000000, [128, 127, 0, 255, 255, 0, 10, 20]);
      var t := BlockStep(s, b, xs => xs);
      t.buffers == [Buffer(1, 100000000, 2000000, [Sample(128, 127), Sample(0, 255), Sample(255, 0), Sample(10, 20)])]
      && t.demods[3] == Demod(100000000, true, false, false, [Shared(0)])
      && t.app.activeDemod == Some(3) && t.app.lastActive == None
  {
    var s := State(false, 0, [3], map[3 := Demod(100000000, false, false, false, [])],
                   App(100000000, 2000000, None, None), [], [], [], 0, None, None);
    var b := RawBlock(100000000, 2000000, [128, 127, 0, 255, 255, 0, 10, 20]);
    DecodedSamples(b.data, false);
    assert Decoded(b.data, false) == [Sample(128, 127), Sample(0, 255), Sample(255, 0), Sample(10, 20)];
    assert [3][..0] == [];
    assert InWindow(100000000, 100000000, 2000000);
  }

  /** What a non-empty block does to one demodulator instance: its own
      step once per registry entry for it, with the buffer at the position
      the pool hands out; the registry, the set of instances, the sample
      rate and the snapshot size stay. */
  lemma BlockStepRecord(s: State, b: RawBlock, dc: seq<Sample> -> seq<Sample>, x: DemodId)
    requires Ready(s, b) && LengthPreserving(dc) && |b.data| > 0 && x in s.demods
    ensures var t := BlockStep(s, b, dc);
      t.registry == s.registry && t.demods.Keys == s.demods.Keys
      && t.app.sampleRate == s.app.sampleRate && t.numVisSamples == s.numVisSamples
      && t.demods[x] == Iterate(s.demods[x], Count(s.registry, x), b.frequency, b.sampleRate, s.app.sampleRate, DispatchIndex(s))
  {
    if |s.registry| > 0 {
      FoldRecord(Pass(s.demods, s.app, []), s.registry, x, b.frequency, b.sampleRate, DispatchIndex(s));
    }
  }

  /** Whether each block of a series meets the loop body's demands in the
      state the blocks before it leave. */
  predicate RunReady(s: State, bs: seq<RawBlock>, dc: seq<Sample> -> seq<Sample>)
    requires LengthPreserving(dc)
    decreases |bs|
  {
    bs == [] || (Ready(s, bs[0]) && RunReady(BlockStep(s, bs[0], dc), bs[1..], dc))
  }

  /** The state after the loop has processed the blocks `bs` in order. */
  function Run(s: State, bs: seq<RawBlock>, dc: seq<Sample> -> seq<Sample>): (t: State)
    requires LengthPreserving(dc) && RunReady(s, bs, dc)
    ensures t.registry == s.registry && t.demods.Keys == s.demods.Keys
    ensures t.app.sampleRate == s.app.sampleRate && t.swapIQ == s.swapIQ
    ensures |t.buffers| >= |s.buffers|
    decreases |bs|
  {
    if bs == [] then s else Run(BlockStep(s, bs[0], dc), bs[1..], dc)
  }

  predicate AllOutOfWindow(bs: seq<RawBlock>, demodFreq: int, sampleRate: int) {
    forall i :: 0 <= i < |bs| ==> !InWindow(bs[i].frequency, demodFreq, sampleRate)
  }

  /** How many blocks of a series are non-empty. */
  function NonEmptyCount(bs: seq<RawBlock>): (n: nat)
    ensures n <= |bs|
  {
    if bs == [] then 0 else (if |bs[0].data| > 0 then 1 else 0) + NonEmptyCount(bs[1..])
  }

  /** An inactive demodulator receives nothing, and keeps every flag, while
      the blocks stay out of its window, however often it is bound. */
  lemma {:induction false} RunInactiveStaysSilent(s: State, bs: seq<RawBlock>, dc: seq<Sample> -> seq<Sample>, x: DemodId)
    requires LengthPreserving(dc) && RunReady(s, bs, dc)
    requires x in s.demods && !s.demods[x].active
    requires AllOutOfWindow(bs, s.demods[x].frequency, s.app.sampleRate)
    ensures x in Run(s, bs, dc).demods && Run(s, bs, dc).demods[x] == s.demods[x]
    decreases |bs|
  {
    if bs != [] {
      var t := BlockStep(s, bs[0], dc);
      if |bs[0].data| > 0 {
        BlockStepRecord(s, bs[0], dc, x);
        assert !InWindow(bs[0].frequency, s.demods[x].frequency, s.app.sampleRate);
        IterateFixed(s.demods[x], Count(s.registry, x), bs[0].frequency, bs[0].sampleRate, s.app.sampleRate, DispatchIndex(s));
      }
      assert AllOutOfWindow(bs[1..], t.demods[x].frequency, t.app.sampleRate) by {
        forall i | 0 <= i < |bs[1..]| ensures !InWindow(bs[1..][i].frequency, t.demods[x].frequency, t.app.sampleRate) {
          assert bs[1..][i] == bs[i + 1];
        }
      }
      RunInactiveStaysSilent(t, bs[1..], dc, x);
    }
  }

  /** Exactly one dummy per deactivation: over a series of blocks out of
      its window whose first block is non-empty, a bound active demodulator
      that is neither follow nor tracking becomes inactive at the first
      block and receives one dummy block in all, for that block. */
  lemma RunExactlyOneDummy(s: State, bs: seq<RawBlock>, dc: seq<Sample> -> seq<Sample>, x: DemodId)
    requires LengthPreserving(dc) && RunReady(s, bs, dc)
    requires bs != [] && |bs[0].data| > 0
    requires x in s.demods && Count(s.registry, x) >= 1
    requires s.demods[x].active && !s.demods[x].follow && !s.demods[x].tracking
    requires AllOutOfWindow(bs, s.demods[x].frequency, s.app.sampleRate)
    ensures x in Run(s, bs, dc).demods
    ensures Run(s, bs, dc).demods[x]
         == s.demods[x].(active := false, queue := s.demods[x].queue + [Dummy(bs[0].frequency, bs[0].sampleRate)])
  {
    var t := BlockStep(s, bs[0], dc);
    BlockStepRecord(s, bs[0], dc, x);
    assert !InWindow(bs[0].frequency, s.demods[x].frequency, s.app.sampleRate);
    IterateSettles(s.demods[x], Count(s.registry, x), bs[0].frequency, bs[0].sampleRate, s.app.sampleRate, DispatchIndex(s));
    assert AllOutOfWindow(bs[1..], t.demods[x].frequency, t.app.sampleRate) by {
      forall i | 0 <= i < |bs[1..]| ensures !InWindow(bs[1..][i].frequency, t.demods[x].frequency, t.app.sampleRate) {
        assert bs[1..][i] == bs[i + 1];
      }
    }
    RunInactiveStaysSilent(t, bs[1..], dc, x);
  }

  /** Queue `r` is queue `q` followed by `n` shared-buffer pushes. */
  predicate SharedTail(q: seq<QueueItem>, r: seq<QueueItem>, n: nat) {
    |r| == |q| + n && r[..|q|] == q && forall j :: |q| <= j < |r| ==> r[j].Shared?
  }

  lemma SharedTailTrans(q: seq<QueueItem>, m: seq<QueueItem>, r: seq<QueueItem>, a: nat, b: nat)
    requires SharedTail(q, m, a) && SharedTail(m, r, b)
    ensures SharedTail(q, r, a + b)
  {
    assert r[..|q|] == r[..|m|][..|q|];
    forall j | |q| <= j < |r|
      ensures r[j].Shared?
    {
      if j < |m| {
        assert r[j] == r[..|m|][j];
      }
    }
  }

  /** An active tracking demodulator bound once stays active wherever the
      blocks are, and its queue gains exactly one shared buffer per
      non-empty block and nothing else. */
  lemma {:induction false} RunTrackingStaysActive(s: State, bs: seq<RawBlock>, dc: seq<Sample> -> seq<Sample>, x: DemodId)
    requires LengthPreserving(dc) && RunReady(s, bs, dc)
    requires x in s.demods && Count(s.registry, x) == 1
    requires s.demods[x].active && s.demods[x].tracking
    ensures var r := Run(s, bs, dc);
      x in r.demods && r.demods[x].active
      && SharedTail(s.demods[x].queue, r.demods[x].queue, NonEmptyCount(bs))
    decreases |bs|
  {
    if bs != [] {
      var t := BlockStep(s, bs[0], dc);
      var q := s.demods[x].queue;
      var a := if |bs[0].data| > 0 then 1 else 0;
      if |bs[0].data| > 0 {
        BlockStepRecord(s, bs[0], dc, x);
        assert t.demods[x] == StepRecord(s.demods[x], bs[0].frequency, bs[0].sampleRate, s.app.sampleRate, DispatchIndex(s));
        assert t.demods[x].queue == q + [Shared(DispatchIndex(s))];
      }
      assert SharedTail(q, t.demods[x].queue, a);
      RunTrackingStaysActive(t, bs[1..], dc, x);
      SharedTailTrans(q, t.demods[x].queue, Run(t, bs[1..], dc).demods[x].queue, a, NonEmptyCount(bs[1..]));
    }
  }
}
