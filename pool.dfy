/** The reusable buffer pool of the dispatcher: a deque of output buffers,
    each with the count of demodulators still to read it. A buffer whose
    count is at most zero is free; the pool only ever grows. */
module Pool {
  import opened Samples

  /** One pooled output buffer (a DemodulatorThreadIQData in the source). */
  datatype Buffer = Buffer(refCount: int, frequency: int, sampleRate: int, data: seq<Sample>)

  /** A freshly allocated buffer: no readers, no metadata, no samples. */
  const NewBuffer: Buffer := Buffer(0, 0, 0, [])

  predicate IsFree(b: Buffer) {
    b.refCount <= 0
  }

  /** Position of the first free buffer in creation order, or `|pool|`
      when every buffer still has readers. */
  function FreeIndex(pool: seq<Buffer>): (k: nat)
    ensures k <= |pool|
    ensures k < |pool| ==> IsFree(pool[k])
    ensures forall j :: 0 <= j < k ==> !IsFree(pool[j])
  {
    if pool == [] then 0
    else if IsFree(pool[0]) then 0
    else 1 + FreeIndex(pool[1..])
  }

  /** Acquiring a buffer: the first free one, or else one new buffer
      appended at the end. Yields the new pool and the chosen position. */
  function Acquire(pool: seq<Buffer>): (r: (seq<Buffer>, nat))
    ensures r.1 < |r.0|
    ensures IsFree(r.0[r.1])
    ensures forall j :: 0 <= j < r.1 ==> !IsFree(r.0[j])
    ensures |r.0| == if FreeIndex(pool) < |pool| then |pool| else |pool| + 1
    ensures r.0[..|pool|] == pool
  {
    var k := FreeIndex(pool);
    if k < |pool| then (pool, k) else (pool + [NewBuffer], |pool|)
  }

  /** When exactly one buffer is free, acquiring returns that buffer and
      allocates nothing. */
  lemma AcquireReusesOnlyFree(pool: seq<Buffer>, j: nat)
    requires j < |pool| && IsFree(pool[j])
    requires forall i :: 0 <= i < |pool| && i != j ==> !IsFree(pool[i])
    ensures Acquire(pool) == (pool, j)
  {
  }

  /** When no buffer is free, acquiring appends exactly one new buffer. */
  lemma AcquireGrowsWhenNoneFree(pool: seq<Buffer>)
    requires forall i :: 0 <= i < |pool| ==> !IsFree(pool[i])
    ensures Acquire(pool) == (pool + [NewBuffer], |pool|)
  {
  }

  /** A reader finishing with buffer `k`: its reader count drops by one
      and nothing else changes. */
  function Release(pool: seq<Buffer>, k: nat): (r: seq<Buffer>)
    requires k < |pool|
    ensures |r| == |pool|
    ensures r[k] == pool[k].(refCount := pool[k].refCount - 1)
    ensures forall j :: 0 <= j < |pool| && j != k ==> r[j] == pool[j]
  {
    pool[k := pool[k].(refCount := pool[k].refCount - 1)]
  }

  /** Once the last reader of a buffer releases it, the next block reuses
      that buffer, provided no earlier buffer is free. */
  lemma ReleaseLastReaderReused(pool: seq<Buffer>, k: nat)
    requires k < |pool| && pool[k].refCount == 1
    requires forall j :: 0 <= j < k ==> !IsFree(pool[j])
    ensures Acquire(Release(pool, k)) == (Release(pool, k), k)
  {
    var r := Release(pool, k);
    assert IsFree(r[k]);
    assert forall j :: 0 <= j < k ==> !IsFree(r[j]);
    FreeIndexFirst(r, k);
  }

  /** The first free buffer is where the scan stops. */
  lemma {:induction false} FreeIndexFirst(pool: seq<Buffer>, k: nat)
    requires k < |pool| && IsFree(pool[k])
    requires forall j :: 0 <= j < k ==> !IsFree(pool[j])
    ensures FreeIndex(pool) == k
  {
    if k > 0 {
      FreeIndexFirst(pool[1..], k - 1);
    }
  }
}
