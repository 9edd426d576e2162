/** The SDR post-processing thread as an object: its lookup tables, its
    configuration, the demodulator registry, the buffer pool and scratch
    buffers, and the body of one iteration of its loop. The application
    state and the demodulator instances it reads and writes are held as
    fields too. */
module PostThread {
  import opened Optional
  import opened Samples
  import opened Registry
  import opened Pool
  import opened Dispatch
  import opened Engine

  /** `v` resized to `n` elements as std::vector::resize does: the common
      prefix is kept. New elements get the placeholder `Sample(0, 0)`; the
      float zero that value-initialisation gives has no byte pair, and the
      decode loop overwrites every element before it is read. */
  function Resized(v: seq<Sample>, n: nat): (r: seq<Sample>)
    ensures |r| == n
    ensures forall k :: 0 <= k < n && k < |v| ==> r[k] == v[k]
  {
    if n <= |v| then v[..n] else v + seq(n - |v|, _ => Sample(0, 0))
  }

  class SDRPostThread {
    var lut: seq<Sample>
    var lutSwap: seq<Sample>
    var swapIQ: bool
    var numVisSamples: int
    var registry: seq<DemodId>
    /** The demodulator instances, owned by the application. */
    var demods: map<DemodId, Demod>
    /** The application singleton's tuned frequency and sample rate, and
        its demodulator manager's last active and active demodulators. */
    var app: App
    var buffers: seq<Buffer>
    var fpData: seq<Sample>
    var dataOut: seq<Sample>
    /** The reserved capacity of the two scratch buffers. */
    var capacity: nat
    var outQueue: Option<seq<Block>>
    var visQueue: Option<seq<Block>>

    ghost predicate Valid()
      reads this
    {
      |lut| == TableSize && |lutSwap| == TableSize
      && (forall i :: 0 <= i < TableSize ==> lut[i] == LutEntry(i))
      && (forall i :: 0 <= i < TableSize ==> lutSwap[i] == SwapEntry(i))
      && Bound(registry, demods)
      && |dataOut| == |fpData|
    }

    /** The abstract state the loop body is specified on. */
    function Snap(): State
      reads this
    {
      State(swapIQ, numVisSamples, registry, demods, app, buffers, fpData, dataOut, capacity, outQueue, visQueue)
    }

    /** Builds both lookup tables, one entry per 16-bit raw value; the
        thread starts with no queues, no demodulators, an empty pool,
        swap mode off and 32768 visual samples. */
    constructor (instances: map<DemodId, Demod>, application: App)
      ensures Valid()
      ensures Snap() == State(false, 32768, [], instances, application, [], [], [], 0, None, None)
    {
      var table: seq<Sample> := [];
      var tableSwap: seq<Sample> := [];
      var i := 0;
      while i < TableSize
        invariant 0 <= i <= TableSize
        invariant |table| == i && |tableSwap| == i
        invariant forall k :: 0 <= k < i ==> table[k] == LutEntry(k)
        invariant forall k :: 0 <= k < i ==> tableSwap[k] == SwapEntry(k)
      {
        table := table + [LutEntry(i)];
        tableSwap := tableSwap + [SwapEntry(i)];
        i := i + 1;
      }
      lut, lutSwap := table, tableSwap;
      swapIQ, numVisSamples := false, 32768;
      registry, demods, app := [], instances, application;
      buffers, fpData, dataOut, capacity := [], [], [], 0;
      outQueue, visQueue := None, None;
    }

    /** Appends a demodulator to the registry, even one already bound. */
    method BindDemodulator(demod: DemodId)
      requires Valid() && demod in demods
      modifies this`registry
      ensures Valid()
      ensures registry == old(registry) + [demod]
    {
      registry := registry + [demod];
    }

    /** The position std::find returns: the first occurrence of `demod`,
        or the length of the registry when it is not bound. */
    method FindDemodulator(demod: DemodId) returns (i: nat)
      ensures i == IndexOf(registry, demod)
    {
      i := 0;
      while i < |registry| && registry[i] != demod
        invariant i <= |registry|
        invariant forall j :: 0 <= j < i ==> registry[j] != demod
      {
        i := i + 1;
      }
    }

    /** Erases the first occurrence of a demodulator; null or an unbound
        demodulator leaves the registry as it is. */
    method RemoveDemodulator(demod: Option<DemodId>)
      requires Valid()
      modifies this`registry
      ensures Valid()
      ensures registry == if demod.None? then old(registry) else RemoveFirst(old(registry), demod.value)
    {
      if demod.None? {
        return;
      }
      var i := FindDemodulator(demod.value);
      RemoveFirstAt(registry, demod.value);
      if i < |registry| {
        registry := registry[..i] + registry[i + 1..];
      }
    }

    method SetDataOutQueue(queue: Option<seq<Block>>)
      modifies this`outQueue
      ensures outQueue == queue
    {
      outQueue := queue;
    }

    method SetVisualQueue(queue: Option<seq<Block>>)
      modifies this`visQueue
      ensures visQueue == queue
    {
      visQueue := queue;
    }

    method SetNumVisSamples(n: int)
      modifies this`numVisSamples
      ensures numVisSamples == n
    {
      numVisSamples := n;
    }

    method SetSwapIQ(swap: bool)
      modifies this`swapIQ
      ensures swapIQ == swap
    {
      swapIQ := swap;
    }

    /** The first pass: counts the registry entries whose frequency equals
        the block's or lies within half the device sample rate of it. */
    method CountInWindow(blockFreq: int) returns (activeDemods: nat)
      requires Bound(registry, demods)
      ensures activeDemods == Pass1Count(registry, demods, blockFreq, app.sampleRate)
    {
      activeDemods := 0;
      var i := 0;
      while i < |registry|
        invariant 0 <= i <= |registry|
        invariant activeDemods == Pass1Count(registry[..i], demods, blockFreq, app.sampleRate)
      {
        var demod := demods[registry[i]];
        assert registry[..i + 1][..i] == registry[..i];
        if demod.frequency != blockFreq && Abs(blockFreq - demod.frequency) > HalfRate(app.sampleRate) {
          i := i + 1;
          continue;
        }
        activeDemods := activeDemods + 1;
        i := i + 1;
      }
      assert registry[..i] == registry;
    }

    /** The scan of the pool in creation order for a buffer with no
        pending readers; the pool's length when there is none. */
    method FindFreeBuffer() returns (k: nat)
      ensures k == FreeIndex(buffers)
    {
      k := 0;
      while k < |buffers|
        invariant k <= |buffers|
        invariant forall j :: 0 <= j < k ==> buffers[j].refCount > 0
      {
        if buffers[k].refCount <= 0 {
          return;
        }
        k := k + 1;
      }
    }

    /** Takes the first free buffer, or appends one new buffer to the
        pool and takes it. */
    method AcquireBuffer() returns (k: nat)
      modifies this`buffers
      ensures (buffers, k) == Acquire(old(buffers))
    {
      k := FindFreeBuffer();
      if k == |buffers| {
        buffers := buffers + [NewBuffer];
      }
    }

    /** Brings both scratch buffers to `n` samples, reserving capacity
        first when `n` exceeds it. */
    method ResizeScratch(n: nat)
      requires Valid()
      modifies this`fpData, this`dataOut, this`capacity
      ensures Valid()
      ensures |fpData| == n && |dataOut| == n
      ensures fpData == Resized(old(fpData), n) && dataOut == Resized(old(dataOut), n)
      ensures capacity == if n > old(capacity) then n else old(capacity)
    {
      if n > capacity {
        capacity := n;
      }
      if n != |fpData| {
        fpData := Resized(fpData, n);
        dataOut := Resized(dataOut, n);
      }
    }

    /** Fills the scratch buffer with one table entry per raw byte pair,
        from the swapped table when swap mode is on; the table is chosen
        once per block, not per sample. */
    method Decode(data: seq<Byte>)
      requires Valid() && |fpData| == |data| / 2
      modifies this`fpData
      ensures fpData == Decoded(data, swapIQ)
    {
      var dataSize := |data| / 2;
      var table := if swapIQ then lutSwap else lut;
      assert forall j :: 0 <= j < TableSize ==> table[j] == Table(swapIQ, j);
      var v := fpData;
      for i := 0 to dataSize
        invariant |v| == dataSize
        invariant forall k :: 0 <= k < i ==> v[k] == Table(swapIQ, PairIndex(data[2 * k], data[2 * k + 1]))
      {
        v := v[i := table[PairIndex(data[2 * i], data[2 * i + 1])]];
      }
      fpData := v;
    }

    /** The second pass's body for one registry entry `id`: the
        Active/Inactive transition, the follow retune, and delivery of the
        buffer when the demodulator is active. */
    method DispatchEntry(id: DemodId, blockFreq: int, blockRate: int, buffer: nat) returns (pushed: bool)
      requires id in demods
      modifies this`demods, this`app
      ensures demods == old(demods)[id := StepRecord(old(demods)[id], blockFreq, blockRate, old(app).sampleRate, buffer)]
      ensures app == StepApp(old(app), id, old(demods)[id], blockFreq)
      ensures pushed == Transition(old(demods)[id], blockFreq, blockRate, old(app).sampleRate).active
    {
      var demod := demods[id];
      if Abs(blockFreq - demod.frequency) > HalfRate(app.sampleRate) {
        if demod.active && !demod.follow && !demod.tracking {
          demod := demod.(active := false, queue := demod.queue + [Dummy(blockFreq, blockRate)]);
        }
        if demod.follow && app.frequency != demod.frequency {
          app := app.(frequency := demod.frequency);
        }
      } else if !demod.active {
        demod := demod.(active := true);
        if app.lastActive.None? {
          app := app.(activeDemod := Some(id));
        }
      }
      pushed := demod.active;
      if demod.active {
        if demod.follow {
          demod := demod.(follow := false);
        }
        demod := demod.(queue := demod.queue + [Shared(buffer)]);
      }
      demods := demods[id := demod];
    }

    /** The second pass over the registry for a block with centre
        frequency `blockFreq` and sample rate `blockRate` whose buffer sits
        at pool position `buffer`; reports whether anything was pushed. */
    method RunSecondPass(blockFreq: int, blockRate: int, buffer: nat) returns (pushedData: bool)
      requires Bound(registry, demods)
      modifies this`demods, this`app
      ensures Bound(registry, demods)
      ensures var r := Fold(Pass(old(demods), old(app), []), registry, blockFreq, blockRate, buffer);
        demods == r.demods && app == r.app && pushedData == (|r.delivered| > 0)
    {
      pushedData := false;
      ghost var delivered: seq<DemodId> := [];
      ghost var start := Pass(demods, app, []);
      var i := 0;
      while i < |registry|
        invariant 0 <= i <= |registry|
        invariant Bound(registry, demods)
        invariant Pass(demods, app, delivered) == Fold(start, registry[..i], blockFreq, blockRate, buffer)
        invariant pushedData == (|delivered| > 0)
      {
        var id := registry[i];
        ghost var before := Pass(demods, app, delivered);
        assert registry[..i + 1][..i] == registry[..i];
        assert Fold(start, registry[..i + 1], blockFreq, blockRate, buffer) == Step(before, id, blockFreq, blockRate, buffer);
        var pushed := DispatchEntry(id, blockFreq, blockRate, buffer);
        if pushed {
          delivered := delivered + [id];
          pushedData := true;
        }
        assert Pass(demods, app, delivered) == Step(before, id, blockFreq, blockRate, buffer);
        i := i + 1;
      }
      assert registry[..i] == registry;
    }

    /** Decodes the block into the scratch buffer and runs the DC blocker
        from it into the second scratch buffer. */
    method ConvertBlock(block: RawBlock, dc: seq<Sample> -> seq<Sample>)
      requires Valid() && LengthPreserving(dc)
      modifies this`fpData, this`dataOut, this`capacity
      ensures Valid()
      ensures Snap() == Converted(old(Snap()), block, dc)
    {
      ResizeScratch(|block.data| / 2);
      Decode(block.data);
      dataOut := dc(fpData);
    }

    /** Pushes a copy of the filtered block onto the primary queue when it
        is set, and a snapshot of `numVisSamples` samples onto the visual
        queue when that is set and empty. */
    method PublishOutputs(block: RawBlock)
      requires VisualGateOpen(visQueue) ==> 0 <= numVisSamples <= |dataOut|
      modifies this`outQueue, this`visQueue
      ensures Snap() == Published(old(Snap()), block)
    {
      if outQueue.Some? {
        outQueue := Some(outQueue.value + [Block(block.frequency, block.sampleRate, dataOut)]);
      }
      if visQueue.Some? && visQueue.value == [] {
        visQueue := Some([Block(block.frequency, block.sampleRate, dataOut[..numVisSamples])]);
      }
    }

    /** When demodulators are bound: counts them (first pass), acquires a
        buffer, fills it with the block and the count, runs the second pass
        and clears the count when nothing was pushed. */
    method DispatchBlock(block: RawBlock)
      requires Bound(registry, demods)
      modifies this`buffers, this`demods, this`app
      ensures Bound(registry, demods)
      ensures Snap() == Dispatched(old(Snap()), block)
    {
      ghost var s := Snap();
      if |registry| > 0 {
        ghost var pool := Acquire(s.buffers).0;
        ghost var r := SecondPass(s, block);
        ghost var count := Pass1Count(s.registry, s.demods, block.frequency, s.app.sampleRate);
        var activeDemods := CountInWindow(block.frequency);
        var k := AcquireBuffer();
        assert k == DispatchIndex(s) && buffers == pool;
        buffers := buffers[k := Buffer(activeDemods, block.frequency, block.sampleRate, dataOut)];
        var pushedData := RunSecondPass(block.frequency, block.sampleRate, k);
        assert demods == r.demods && app == r.app && pushedData == (|r.delivered| > 0);
        if !pushedData {
          buffers := buffers[k := buffers[k].(refCount := 0)];
        }
        assert buffers == pool[k := Buffer(if |r.delivered| > 0 then count else 0, block.frequency, block.sampleRate, s.dataOut)];
        assert Dispatched(s, block) == s.(buffers := buffers, demods := demods, app := app);
        assert Snap() == s.(buffers := buffers, demods := demods, app := app);
      }
    }

    /** One iteration of the loop on the popped block `block`, with `dc`
        standing for the DC blocker applied to the decoded samples. An
        empty block changes nothing; otherwise the block is decoded and
        filtered, published to the primary and visual queues, and
        dispatched to the bound demodulators through a pooled buffer. */
    method ProcessBlock(block: RawBlock, dc: seq<Sample> -> seq<Sample>)
      requires Valid() && Ready(Snap(), block) && LengthPreserving(dc)
      modifies this
      ensures Valid()
      ensures lut == old(lut) && lutSwap == old(lutSwap)
      ensures Snap() == BlockStep(old(Snap()), block, dc)
    {
      if |block.data| == 0 {
        return;
      }
      ConvertBlock(block, dc);
      PublishOutputs(block);
      DispatchBlock(block);
    }

    /** A consumer finishing with pooled buffer `k`; not part of the
        thread, but how a buffer with readers becomes free again. */
    method ReleaseBuffer(k: nat)
      requires k < |buffers|
      modifies this`buffers
      ensures buffers == Release(old(buffers), k)
    {
      buffers := buffers[k := buffers[k].(refCount := buffers[k].refCount - 1)];
    }

    /** The application creating or editing a demodulator instance; not
        part of the thread, but how instances come to exist. */
    method PutDemodulator(id: DemodId, demod: Demod)
      requires Valid()
      modifies this`demods
      ensures Valid()
      ensures demods == old(demods)[id := demod]
    {
      demods := demods[id := demod];
    }
  }
}
