/** The demodulator dispatch of one block: the first pass that counts the
    demodulators in the block's window, and the second pass that runs each
    bound demodulator's Active/Inactive state machine, pushes the dummy
    block on deactivation, asks the application to retune for a "follow"
    demodulator and delivers the shared buffer to every active one. */
module Dispatch {
  import opened Optional
  import opened Registry

  /** What a demodulator's input queue receives: an empty block carrying
      only frequency and sample rate, or the pooled buffer at a position. */
  datatype QueueItem = Dummy(frequency: int, sampleRate: int) | Shared(buffer: nat)

  /** The state of one demodulator instance that the dispatcher reads and
      writes, and the items pushed so far onto its input queue. */
  datatype Demod = Demod(frequency: int, active: bool, follow: bool, tracking: bool, queue: seq<QueueItem>)

  /** The application state the dispatcher reads and writes: the tuned
      frequency, the device sample rate, the demodulator manager's last
      active demodulator (which the dispatcher only reads) and its active
      demodulator (which the dispatcher only writes). */
  datatype App = App(frequency: int, sampleRate: int, lastActive: Option<DemodId>, activeDemod: Option<DemodId>)

  /** The state threaded through the second pass: all demodulator
      instances, the application, and the demodulators that were handed
      the shared buffer so far, in the order they were handed it. */
  datatype Pass = Pass(demods: map<DemodId, Demod>, app: App, delivered: seq<DemodId>)

  function Abs(x: int): (r: nat)
    ensures r == x || r == -x
  {
    if x < 0 then -x else x
  }

  /** `sampleRate / 2` on a C++ `int`: division truncates toward zero. */
  function HalfRate(sampleRate: int): (r: int)
    ensures sampleRate >= 0 ==> 0 <= 2 * r <= sampleRate < 2 * r + 2
    ensures sampleRate < 0 ==> 2 * r - 2 < sampleRate <= 2 * r <= 0
  {
    if sampleRate >= 0 then sampleRate / 2 else -((-sampleRate) / 2)
  }

  /** The window test of the second pass: the block's centre frequency is
      within half the device sample rate of the demodulator's frequency. */
  predicate InWindow(blockFreq: int, demodFreq: int, sampleRate: int) {
    Abs(blockFreq - demodFreq) <= HalfRate(sampleRate)
  }

  /** The test of the first pass, which also admits an exact frequency
      match outright. */
  predicate CountedInPass1(blockFreq: int, demodFreq: int, sampleRate: int) {
    demodFreq == blockFreq || InWindow(blockFreq, demodFreq, sampleRate)
  }

  /** Every registered demodulator is a live instance. */
  predicate Bound(ids: seq<DemodId>, demods: map<DemodId, Demod>) {
    forall x :: x in ids ==> x in demods
  }

  /** How often `x` occurs in `ids`. */
  function Count(ids: seq<DemodId>, x: DemodId): nat {
    multiset(ids)[x]
  }

  predicate Distinct(ids: seq<DemodId>) {
    forall i, j :: 0 <= i < j < |ids| ==> ids[i] != ids[j]
  }

  /** The first pass: how many registry entries the first pass counts. */
  function Pass1Count(ids: seq<DemodId>, demods: map<DemodId, Demod>, blockFreq: int, sampleRate: int): (n: nat)
    requires Bound(ids, demods)
    ensures n <= |ids|
    decreases |ids|
  {
    if ids == [] then 0
    else
      var last := ids[|ids| - 1];
      Pass1Count(ids[..|ids| - 1], demods, blockFreq, sampleRate)
        + (if CountedInPass1(blockFreq, demods[last].frequency, sampleRate) then 1 else 0)
  }

  /** The activation step of one demodulator (before delivery): out of
      window, an active demodulator that is neither follow nor tracking
      becomes inactive and is sent one dummy block; in window, an inactive
      demodulator becomes active. */
  function Transition(d: Demod, blockFreq: int, blockRate: int, sampleRate: int): (r: Demod)
    ensures r.frequency == d.frequency && r.follow == d.follow && r.tracking == d.tracking
    ensures r.active == (InWindow(blockFreq, d.frequency, sampleRate) || (d.active && (d.follow || d.tracking)))
    ensures r.queue == if d.active && !r.active then d.queue + [Dummy(blockFreq, blockRate)] else d.queue
  {
    if !InWindow(blockFreq, d.frequency, sampleRate) then
      if d.active && !d.follow && !d.tracking then
        d.(active := false, queue := d.queue + [Dummy(blockFreq, blockRate)])
      else d
    else if !d.active then d.(active := true)
    else d
  }

  /** One demodulator's full step: the transition, then, when it is
      active, delivery of the shared buffer and clearing of "follow". */
  function StepRecord(d: Demod, blockFreq: int, blockRate: int, sampleRate: int, buffer: nat): (r: Demod)
    ensures r.frequency == d.frequency && r.tracking == d.tracking
    ensures r.active == Transition(d, blockFreq, blockRate, sampleRate).active
    ensures r.active ==> !r.follow
    ensures !r.active ==> r.follow == d.follow
  {
    var t := Transition(d, blockFreq, blockRate, sampleRate);
    if t.active then t.(follow := false, queue := t.queue + [Shared(buffer)]) else t
  }

  /** The step's effect on the application: an out-of-window "follow"
      demodulator retunes the application to its own frequency; an
      activated demodulator is made the active one when there is no last
      active demodulator. */
  function StepApp(app: App, id: DemodId, d: Demod, blockFreq: int): (r: App)
    ensures r.sampleRate == app.sampleRate && r.lastActive == app.lastActive
    ensures r.activeDemod != app.activeDemod ==> r.activeDemod == Some(id)
  {
    if !InWindow(blockFreq, d.frequency, app.sampleRate) then
      if d.follow && app.frequency != d.frequency then app.(frequency := d.frequency) else app
    else if !d.active && app.lastActive.None? then app.(activeDemod := Some(id))
    else app
  }

  /** The second pass's body for the registry entry `id`. */
  function Step(p: Pass, id: DemodId, blockFreq: int, blockRate: int, buffer: nat): Pass
    requires id in p.demods
  {
    var d := p.demods[id];
    var sr := p.app.sampleRate;
    Pass(p.demods[id := StepRecord(d, blockFreq, blockRate, sr, buffer)],
         StepApp(p.app, id, d, blockFreq),
         if Transition(d, blockFreq, blockRate, sr).active then p.delivered + [id] else p.delivered)
  }

  /** The second pass over the registry entries `ids`, in order. No
      instance is created or destroyed and the sample rate stays. */
  function Fold(p: Pass, ids: seq<DemodId>, blockFreq: int, blockRate: int, buffer: nat): (r: Pass)
    requires Bound(ids, p.demods)
    ensures r.demods.Keys == p.demods.Keys
    ensures r.app.sampleRate == p.app.sampleRate
    decreases |ids|
  {
    if ids == [] then p
    else
      var q := Fold(p, ids[..|ids| - 1], blockFreq, blockRate, buffer);
      Step(q, ids[|ids| - 1], blockFreq, blockRate, buffer)
  }

  /** The pass changes no demodulator's frequency or tracking flag, and
      only ever clears "follow". */
  lemma {:induction false} FoldPreserves(p: Pass, ids: seq<DemodId>, x: DemodId, blockFreq: int, blockRate: int, buffer: nat)
    requires Bound(ids, p.demods) && x in p.demods
    ensures var r := Fold(p, ids, blockFreq, blockRate, buffer);
      r.demods[x].frequency == p.demods[x].frequency
      && r.demods[x].tracking == p.demods[x].tracking
      && (r.demods[x].follow ==> p.demods[x].follow)
    decreases |ids|
  {
    if ids != [] {
      FoldPreserves(p, ids[..|ids| - 1], x, blockFreq, blockRate, buffer);
    }
  }

  /** `n` consecutive steps of one demodulator for the same block. */
  function Iterate(d: Demod, n: nat, blockFreq: int, blockRate: int, sampleRate: int, buffer: nat): Demod {
    if n == 0 then d
    else StepRecord(Iterate(d, n - 1, blockFreq, blockRate, sampleRate, buffer), blockFreq, blockRate, sampleRate, buffer)
  }

  lemma CountSnoc(ids: seq<DemodId>, x: DemodId)
    requires ids != []
    ensures Count(ids, x) == Count(ids[..|ids| - 1], x) + (if ids[|ids| - 1] == x then 1 else 0)
  {
    assert ids == ids[..|ids| - 1] + [ids[|ids| - 1]];
  }

  /** After the second pass, each instance is what its own steps made of
      it: one step per occurrence in the registry, independent of the
      other demodulators. */
  lemma {:induction false} FoldRecord(p: Pass, ids: seq<DemodId>, x: DemodId, blockFreq: int, blockRate: int, buffer: nat)
    requires Bound(ids, p.demods) && x in p.demods
    ensures Fold(p, ids, blockFreq, blockRate, buffer).demods[x]
         == Iterate(p.demods[x], Count(ids, x), blockFreq, blockRate, p.app.sampleRate, buffer)
    decreases |ids|
  {
    if ids != [] {
      var pre := ids[..|ids| - 1];
      var y := ids[|ids| - 1];
      FoldRecord(p, pre, x, blockFreq, blockRate, buffer);
      CountSnoc(ids, x);
      StepAt(Fold(p, pre, blockFreq, blockRate, buffer), y, x, blockFreq, blockRate, buffer);
    }
  }

  /** One step changes only the instance of its own entry. */
  lemma StepAt(q: Pass, y: DemodId, x: DemodId, blockFreq: int, blockRate: int, buffer: nat)
    requires y in q.demods && x in q.demods
    ensures x in Step(q, y, blockFreq, blockRate, buffer).demods
    ensures Step(q, y, blockFreq, blockRate, buffer).demods[x]
         == if x == y then StepRecord(q.demods[x], blockFreq, blockRate, q.app.sampleRate, buffer) else q.demods[x]
  {
  }

  /** A demodulator that is not registered is left alone by the pass. */
  lemma PassUntouched(p: Pass, ids: seq<DemodId>, x: DemodId, blockFreq: int, blockRate: int, buffer: nat)
    requires Bound(ids, p.demods) && x in p.demods && x !in ids
    ensures Fold(p, ids, blockFreq, blockRate, buffer).demods[x] == p.demods[x]
  {
    FoldRecord(p, ids, x, blockFreq, blockRate, buffer);
  }

  /** A demodulator that one step leaves as it is stays so over any
      number of steps. */
  lemma {:induction false} IterateFixed(d: Demod, n: nat, blockFreq: int, blockRate: int, sampleRate: int, buffer: nat)
    requires StepRecord(d, blockFreq, blockRate, sampleRate, buffer) == d
    ensures Iterate(d, n, blockFreq, blockRate, sampleRate, buffer) == d
  {
    if n > 0 {
      IterateFixed(d, n - 1, blockFreq, blockRate, sampleRate, buffer);
    }
  }

  /** A demodulator whose first step reaches a state the step leaves as it
      is stays in that state over any further steps. */
  lemma {:induction false} IterateSettles(d: Demod, n: nat, blockFreq: int, blockRate: int, sampleRate: int, buffer: nat)
    requires n >= 1
    requires var d1 := StepRecord(d, blockFreq, blockRate, sampleRate, buffer);
      StepRecord(d1, blockFreq, blockRate, sampleRate, buffer) == d1
    ensures Iterate(d, n, blockFreq, blockRate, sampleRate, buffer) == StepRecord(d, blockFreq, blockRate, sampleRate, buffer)
  {
    if n > 1 {
      IterateSettles(d, n - 1, blockFreq, blockRate, sampleRate, buffer);
    }
  }

  /** Deactivation: a registered demodulator that is active, neither
      follow nor tracking, and out of the block's window becomes inactive
      and receives exactly one dummy block and not the buffer, however
      often it is registered. */
  lemma PassDeactivates(p: Pass, ids: seq<DemodId>, x: DemodId, blockFreq: int, blockRate: int, buffer: nat)
    requires Bound(ids, p.demods) && x in p.demods && Count(ids, x) >= 1
    requires !InWindow(blockFreq, p.demods[x].frequency, p.app.sampleRate)
    requires p.demods[x].active && !p.demods[x].follow && !p.demods[x].tracking
    ensures Fold(p, ids, blockFreq, blockRate, buffer).demods[x]
         == p.demods[x].(active := false, queue := p.demods[x].queue + [Dummy(blockFreq, blockRate)])
  {
    FoldRecord(p, ids, x, blockFreq, blockRate, buffer);
    IterateSettles(p.demods[x], Count(ids, x), blockFreq, blockRate, p.app.sampleRate, buffer);
  }

  /** An inactive demodulator out of the window is pushed nothing and keeps
      all its flags, "follow" included, however often it is registered. */
  lemma PassSilentWhenInactive(p: Pass, ids: seq<DemodId>, x: DemodId, blockFreq: int, blockRate: int, buffer: nat)
    requires Bound(ids, p.demods) && x in p.demods
    requires !InWindow(blockFreq, p.demods[x].frequency, p.app.sampleRate)
    requires !p.demods[x].active
    ensures Fold(p, ids, blockFreq, blockRate, buffer).demods[x] == p.demods[x]
  {
    FoldRecord(p, ids, x, blockFreq, blockRate, buffer);
    IterateFixed(p.demods[x], Count(ids, x), blockFreq, blockRate, p.app.sampleRate, buffer);
  }

  /** An active follow or tracking demodulator registered once stays
      active out of the window: it receives the buffer and its "follow"
      flag is cleared. */
  lemma PassKeepsExempt(p: Pass, ids: seq<DemodId>, x: DemodId, blockFreq: int, blockRate: int, buffer: nat)
    requires Bound(ids, p.demods) && x in p.demods && Count(ids, x) == 1
    requires !InWindow(blockFreq, p.demods[x].frequency, p.app.sampleRate)
    requires p.demods[x].active && (p.demods[x].follow || p.demods[x].tracking)
    ensures Fold(p, ids, blockFreq, blockRate, buffer).demods[x]
         == p.demods[x].(follow := false, queue := p.demods[x].queue + [Shared(buffer)])
  {
    FoldRecord(p, ids, x, blockFreq, blockRate, buffer);
  }

  /** A follow demodulator that is not tracking and is bound twice is
      handed the buffer at its first entry, which clears "follow", and is
      deactivated at its second, out of the window. */
  lemma PassFollowBoundTwice(p: Pass, ids: seq<DemodId>, x: DemodId, blockFreq: int, blockRate: int, buffer: nat)
    requires Bound(ids, p.demods) && x in p.demods && Count(ids, x) == 2
    requires !InWindow(blockFreq, p.demods[x].frequency, p.app.sampleRate)
    requires p.demods[x].active && p.demods[x].follow && !p.demods[x].tracking
    ensures Fold(p, ids, blockFreq, blockRate, buffer).demods[x]
         == p.demods[x].(active := false, follow := false,
                         queue := p.demods[x].queue + [Shared(buffer), Dummy(blockFreq, blockRate)])
  {
    FoldRecord(p, ids, x, blockFreq, blockRate, buffer);
    var d := p.demods[x];
    var d1 := StepRecord(d, blockFreq, blockRate, p.app.sampleRate, buffer);
    assert d1 == d.(follow := false, queue := d.queue + [Shared(buffer)]);
    assert Iterate(d, 1, blockFreq, blockRate, p.app.sampleRate, buffer) == d1;
    assert Iterate(d, 2, blockFreq, blockRate, p.app.sampleRate, buffer) == StepRecord(d1, blockFreq, blockRate, p.app.sampleRate, buffer);
    assert d1.queue + [Dummy(blockFreq, blockRate)] == d.queue + [Shared(buffer), Dummy(blockFreq, blockRate)];
  }

  /** Activation and delivery in the window: a demodulator registered once
      whose window holds the block is active afterwards (inactive ones are
      activated, active ones stay so), gets the buffer once, and has its
      "follow" flag cleared. */
  lemma PassActivates(p: Pass, ids: seq<DemodId>, x: DemodId, blockFreq: int, blockRate: int, buffer: nat)
    requires Bound(ids, p.demods) && x in p.demods && Count(ids, x) == 1
    requires InWindow(blockFreq, p.demods[x].frequency, p.app.sampleRate)
    ensures Fold(p, ids, blockFreq, blockRate, buffer).demods[x]
         == p.demods[x].(active := true, follow := false, queue := p.demods[x].queue + [Shared(buffer)])
  {
    FoldRecord(p, ids, x, blockFreq, blockRate, buffer);
  }

  /** The number of times buffer `buffer` was pushed onto a queue. */
  function SharedCount(q: seq<QueueItem>, buffer: nat): nat {
    multiset(q)[Shared(buffer)]
  }

  /** The delivery list is exactly what the queues received: each
      demodulator gained one copy of the buffer per entry in it. */
  lemma {:induction false} DeliveredMatchesQueues(p: Pass, ids: seq<DemodId>, x: DemodId, blockFreq: int, blockRate: int, buffer: nat)
    requires Bound(ids, p.demods) && x in p.demods
    ensures var r := Fold(p, ids, blockFreq, blockRate, buffer);
      SharedCount(r.demods[x].queue, buffer) + multiset(p.delivered)[x]
        == SharedCount(p.demods[x].queue, buffer) + multiset(r.delivered)[x]
    decreases |ids|
  {
    if ids != [] {
      var q := Fold(p, ids[..|ids| - 1], blockFreq, blockRate, buffer);
      DeliveredMatchesQueues(p, ids[..|ids| - 1], x, blockFreq, blockRate, buffer);
      var y := ids[|ids| - 1];
      var d := q.demods[y];
      var t := Transition(d, blockFreq, blockRate, q.app.sampleRate);
      if y == x {
        assert multiset(t.queue)[Shared(buffer)] == multiset(d.queue)[Shared(buffer)] by {
          if t.queue != d.queue {
            assert t.queue == d.queue + [Dummy(blockFreq, blockRate)];
          }
        }
        if t.active {
          assert multiset(t.queue + [Shared(buffer)]) == multiset(t.queue) + multiset{Shared(buffer)};
          assert multiset(q.delivered + [y]) == multiset(q.delivered) + multiset{y};
        }
      } else if t.active {
        assert multiset(q.delivered + [y]) == multiset(q.delivered) + multiset{y};
      }
    }
  }

  /** A demodulator receives the buffer at most as often as it is
      registered: once per block when it is registered once. */
  lemma {:induction false} DeliveredAtMostRegistered(p: Pass, ids: seq<DemodId>, x: DemodId, blockFreq: int, blockRate: int, buffer: nat)
    requires Bound(ids, p.demods)
    ensures var r := Fold(p, ids, blockFreq, blockRate, buffer);
      multiset(r.delivered)[x] <= multiset(p.delivered)[x] + Count(ids, x)
    decreases |ids|
  {
    if ids != [] {
      var q := Fold(p, ids[..|ids| - 1], blockFreq, blockRate, buffer);
      DeliveredAtMostRegistered(p, ids[..|ids| - 1], x, blockFreq, blockRate, buffer);
      CountSnoc(ids, x);
      var y := ids[|ids| - 1];
      assert multiset(q.delivered + [y]) == multiset(q.delivered) + multiset{y};
    }
  }

  /** With a non-negative sample rate, every entry the first pass counts
      is also delivered to, so the count never exceeds the deliveries. */
  lemma {:induction false} Pass1CountAtMostDeliveries(p: Pass, ids: seq<DemodId>, blockFreq: int, blockRate: int, buffer: nat)
    requires Bound(ids, p.demods) && p.app.sampleRate >= 0
    ensures |Fold(p, ids, blockFreq, blockRate, buffer).delivered|
         >= |p.delivered| + Pass1Count(ids, p.demods, blockFreq, p.app.sampleRate)
    decreases |ids|
  {
    if ids != [] {
      Pass1CountAtMostDeliveries(p, ids[..|ids| - 1], blockFreq, blockRate, buffer);
      FoldPreserves(p, ids[..|ids| - 1], ids[|ids| - 1], blockFreq, blockRate, buffer);
    }
  }

  /** When no registered demodulator is follow or tracking (and the sample
      rate is non-negative), the first pass counts exactly the deliveries. */
  lemma {:induction false} Pass1CountExactWithoutExemptions(p: Pass, ids: seq<DemodId>, blockFreq: int, blockRate: int, buffer: nat)
    requires Bound(ids, p.demods) && p.app.sampleRate >= 0
    requires forall x :: x in ids ==> !p.demods[x].follow && !p.demods[x].tracking
    ensures |Fold(p, ids, blockFreq, blockRate, buffer).delivered|
         == |p.delivered| + Pass1Count(ids, p.demods, blockFreq, p.app.sampleRate)
    decreases |ids|
  {
    if ids != [] {
      Pass1CountExactWithoutExemptions(p, ids[..|ids| - 1], blockFreq, blockRate, buffer);
      FoldPreserves(p, ids[..|ids| - 1], ids[|ids| - 1], blockFreq, blockRate, buffer);
    }
  }

  /** After `k >= 1` steps for the same block, a demodulator keeps its
      frequency and tracking flag; it is active exactly when it is in the
      window, or was active and tracking, or was active and follow and took
      only one step (that delivery clears "follow"); an active one is never
      follow. */
  lemma {:induction false} IterateShape(d: Demod, k: nat, blockFreq: int, blockRate: int, sampleRate: int, buffer: nat)
    requires k >= 1
    ensures var e := Iterate(d, k, blockFreq, blockRate, sampleRate, buffer);
      e.frequency == d.frequency && e.tracking == d.tracking
      && e.active == (InWindow(blockFreq, d.frequency, sampleRate) || (d.active && (d.tracking || (d.follow && k == 1))))
      && (e.active ==> !e.follow)
  {
    if k > 1 {
      IterateShape(d, k - 1, blockFreq, blockRate, sampleRate, buffer);
    }
  }

  /** Whether the `k`-th entry (counting from 0) for a demodulator that was
      in state `d` before the pass is handed the buffer: it is in the
      window, or it is active and tracking, or it is active and follow and
      this is its first entry. */
  predicate OccurrenceReceives(d: Demod, k: nat, blockFreq: int, sampleRate: int) {
    InWindow(blockFreq, d.frequency, sampleRate) || (d.active && (d.tracking || (d.follow && k == 0)))
  }

  lemma IterateReceives(d: Demod, k: nat, blockFreq: int, blockRate: int, sampleRate: int, buffer: nat)
    ensures Transition(Iterate(d, k, blockFreq, blockRate, sampleRate, buffer), blockFreq, blockRate, sampleRate).active
         == OccurrenceReceives(d, k, blockFreq, sampleRate)
  {
    if k >= 1 {
      IterateShape(d, k, blockFreq, blockRate, sampleRate, buffer);
    }
  }

  /** The reader count the buffer calls for: the number of registry
      entries the second pass hands it to, judged on the state before the
      pass. */
  function ReceiverCount(ids: seq<DemodId>, demods: map<DemodId, Demod>, blockFreq: int, sampleRate: int): (n: nat)
    requires Bound(ids, demods)
    ensures n <= |ids|
    decreases |ids|
  {
    if ids == [] then 0
    else
      var pre := ids[..|ids| - 1];
      var y := ids[|ids| - 1];
      ReceiverCount(pre, demods, blockFreq, sampleRate)
        + (if OccurrenceReceives(demods[y], Count(pre, y), blockFreq, sampleRate) then 1 else 0)
  }

  /** The receiver count is exactly the number of deliveries, for every
      registry, duplicates, follow and tracking demodulators included. */
  lemma {:induction false} ReceiverCountIsDeliveries(p: Pass, ids: seq<DemodId>, blockFreq: int, blockRate: int, buffer: nat)
    requires Bound(ids, p.demods)
    ensures |Fold(p, ids, blockFreq, blockRate, buffer).delivered|
         == |p.delivered| + ReceiverCount(ids, p.demods, blockFreq, p.app.sampleRate)
    decreases |ids|
  {
    if ids != [] {
      var pre := ids[..|ids| - 1];
      var y := ids[|ids| - 1];
      ReceiverCountIsDeliveries(p, pre, blockFreq, blockRate, buffer);
      FoldRecord(p, pre, y, blockFreq, blockRate, buffer);
      IterateReceives(p.demods[y], Count(pre, y), blockFreq, blockRate, p.app.sampleRate, buffer);
    }
  }

  /** The registry entries the second pass hands the buffer to, in
      registry order, judged on the state before the pass; as many as the
      receiver count. */
  function Receivers(ids: seq<DemodId>, demods: map<DemodId, Demod>, blockFreq: int, sampleRate: int): (r: seq<DemodId>)
    requires Bound(ids, demods)
    ensures |r| == ReceiverCount(ids, demods, blockFreq, sampleRate)
    ensures forall y :: y in r ==> y in ids
    decreases |ids|
  {
    if ids == [] then []
    else
      var pre := ids[..|ids| - 1];
      var y := ids[|ids| - 1];
      Receivers(pre, demods, blockFreq, sampleRate)
        + (if OccurrenceReceives(demods[y], Count(pre, y), blockFreq, sampleRate) then [y] else [])
  }

  /** The delivery list is exactly the receivers, in registry order. */
  lemma {:induction false} DeliveredInOrder(p: Pass, ids: seq<DemodId>, blockFreq: int, blockRate: int, buffer: nat)
    requires Bound(ids, p.demods)
    ensures Fold(p, ids, blockFreq, blockRate, buffer).delivered
         == p.delivered + Receivers(ids, p.demods, blockFreq, p.app.sampleRate)
    decreases |ids|
  {
    if ids != [] {
      var pre := ids[..|ids| - 1];
      var y := ids[|ids| - 1];
      DeliveredInOrder(p, pre, blockFreq, blockRate, buffer);
      FoldRecord(p, pre, y, blockFreq, blockRate, buffer);
      IterateReceives(p.demods[y], Count(pre, y), blockFreq, blockRate, p.app.sampleRate, buffer);
    }
  }

  /** The first pass can undercount: one registered demodulator that is
      active, tracking and far out of the window is counted zero times and
      yet is handed the buffer, which the receiver count records. */
  lemma Pass1CountUndercounts()
    ensures var d := Demod(200000000, true, false, true, []);
      var p := Pass(map[7 := d], App(100000000, 2000000, None, None), []);
      Pass1Count([7], p.demods, 100000000, 2000000) == 0
      && ReceiverCount([7], p.demods, 100000000, 2000000) == 1
      && Fold(p, [7], 100000000, 2000000, 0).delivered == [7]
  {
    var d := Demod(200000000, true, false, true, []);
    var p := Pass(map[7 := d], App(100000000, 2000000, None, None), []);
    assert [7][..0] == [];
    assert !InWindow(100000000, 200000000, 2000000);
  }

  /** The pass never writes the manager's last active demodulator. */
  lemma {:induction false} LastActiveUnchanged(p: Pass, ids: seq<DemodId>, blockFreq: int, blockRate: int, buffer: nat)
    requires Bound(ids, p.demods)
    ensures Fold(p, ids, blockFreq, blockRate, buffer).app.lastActive == p.app.lastActive
    decreases |ids|
  {
    if ids != [] {
      LastActiveUnchanged(p, ids[..|ids| - 1], blockFreq, blockRate, buffer);
    }
  }

  /** When the manager has a last active demodulator, the pass never
      changes the active one. */
  lemma {:induction false} ActiveDemodKept(p: Pass, ids: seq<DemodId>, blockFreq: int, blockRate: int, buffer: nat)
    requires Bound(ids, p.demods) && p.app.lastActive.Some?
    ensures Fold(p, ids, blockFreq, blockRate, buffer).app.activeDemod == p.app.activeDemod
    decreases |ids|
  {
    if ids != [] {
      ActiveDemodKept(p, ids[..|ids| - 1], blockFreq, blockRate, buffer);
      LastActiveUnchanged(p, ids[..|ids| - 1], blockFreq, blockRate, buffer);
    }
  }

  /** The last registry entry, in registry order, that the block activates:
      in its window, inactive before the pass, and not activated already by
      an earlier entry for the same instance. */
  function LastActivated(demods: map<DemodId, Demod>, ids: seq<DemodId>, blockFreq: int, sampleRate: int): (r: Option<DemodId>)
    requires Bound(ids, demods)
    ensures r.Some? ==>
      r.value in ids && InWindow(blockFreq, demods[r.value].frequency, sampleRate) && !demods[r.value].active
    decreases |ids|
  {
    if ids == [] then None
    else
      var y := ids[|ids| - 1];
      var pre := ids[..|ids| - 1];
      if InWindow(blockFreq, demods[y].frequency, sampleRate) && !demods[y].active && y !in pre then Some(y)
      else LastActivated(demods, pre, blockFreq, sampleRate)
  }

  /** When the manager has no last active demodulator, every activation
      makes the activated demodulator the active one, so the last entry the
      block activates ends up active (and nothing changes when the block
      activates none). */
  lemma {:induction false} ActiveIsLastActivated(p: Pass, ids: seq<DemodId>, blockFreq: int, blockRate: int, buffer: nat)
    requires Bound(ids, p.demods) && p.app.lastActive.None?
    ensures var a := LastActivated(p.demods, ids, blockFreq, p.app.sampleRate);
      Fold(p, ids, blockFreq, blockRate, buffer).app.activeDemod == if a.Some? then a else p.app.activeDemod
    decreases |ids|
  {
    if ids != [] {
      var pre := ids[..|ids| - 1];
      var y := ids[|ids| - 1];
      ActiveIsLastActivated(p, pre, blockFreq, blockRate, buffer);
      LastActiveUnchanged(p, pre, blockFreq, blockRate, buffer);
      FoldPreserves(p, pre, y, blockFreq, blockRate, buffer);
      FoldRecord(p, pre, y, blockFreq, blockRate, buffer);
      if y in pre {
        assert Count(pre, y) >= 1;
        IterateShape(p.demods[y], Count(pre, y), blockFreq, blockRate, p.app.sampleRate, buffer);
      } else {
        assert Count(pre, y) == 0;
      }
    }
  }

  /** The frequency a pass over distinct entries leaves the application
      tuned to: that of the last out-of-window "follow" entry, or the old
      one when there is none. */
  function FollowTarget(demods: map<DemodId, Demod>, ids: seq<DemodId>, blockFreq: int, sampleRate: int, tuned: int): int
    requires Bound(ids, demods)
    decreases |ids|
  {
    if ids == [] then tuned
    else
      var y := ids[|ids| - 1];
      if !InWindow(blockFreq, demods[y].frequency, sampleRate) && demods[y].follow then demods[y].frequency
      else FollowTarget(demods, ids[..|ids| - 1], blockFreq, sampleRate, tuned)
  }

  /** Follow retune: over a registry without repeated entries, the
      application ends up tuned as FollowTarget says. */
  lemma {:induction false} FollowRetunes(p: Pass, ids: seq<DemodId>, blockFreq: int, blockRate: int, buffer: nat)
    requires Bound(ids, p.demods) && Distinct(ids)
    ensures Fold(p, ids, blockFreq, blockRate, buffer).app.frequency
         == FollowTarget(p.demods, ids, blockFreq, p.app.sampleRate, p.app.frequency)
    decreases |ids|
  {
    if ids != [] {
      var pre := ids[..|ids| - 1];
      var y := ids[|ids| - 1];
      assert Distinct(pre);
      FollowRetunes(p, pre, blockFreq, blockRate, buffer);
      assert y !in pre;
      PassUntouched(p, pre, y, blockFreq, blockRate, buffer);
    }
  }
}
