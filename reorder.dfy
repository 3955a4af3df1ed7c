/**
 * The in-order reassembly buffer of Run: results from the worker pool arrive
 * in any order and are kept in resultBuffer under their index; after each
 * arrival the buffer is drained in a contiguous run from nextIndex, handing
 * each result to processResult.
 */
module Reorder {
  import opened Worker
  import opened Resolver

  /** m without the keys lo, ..., hi - 1. */
  function Without<T>(m: map<nat, T>, lo: nat, hi: nat): (m': map<nat, T>)
    ensures forall k :: k in m' <==> k in m && !(lo <= k < hi)
    ensures forall k :: k in m' ==> m'[k] == m[k]
  {
    map k | k in m && !(lo <= k < hi) :: m[k]
  }

  /** Position t of d holds the buffered result m[start + t]. */
  ghost predicate Slot(m: map<nat, WorkResult>, start: nat, d: seq<WorkResult>, t: nat)
    requires t < |d|
  {
    start + t in m && d[t] == m[start + t]
  }

  /** d is m[start], m[start + 1], ..., each of them present. */
  ghost predicate RunFrom(m: map<nat, WorkResult>, start: nat, d: seq<WorkResult>) {
    forall t: nat :: t < |d| ==> Slot(m, start, d, t)
  }

  lemma RunFromSnoc(m: map<nat, WorkResult>, start: nat, d: seq<WorkResult>)
    requires RunFrom(m, start, d) && start + |d| in m
    ensures RunFrom(m, start, d + [m[start + |d|]])
  {
    var d' := d + [m[start + |d|]];
    forall t: nat | t < |d'| ensures Slot(m, start, d', t) {
      if t < |d| {
        assert Slot(m, start, d, t);
        assert d'[t] == d[t];
      }
    }
  }

  /** Each element of a run is the buffered result at its position. */
  lemma RunFromAt(m: map<nat, WorkResult>, start: nat, d: seq<WorkResult>, t: nat)
    requires RunFrom(m, start, d) && t < |d|
    ensures start + t in m && d[t] == m[start + t]
  {
    assert Slot(m, start, d, t);
  }

  lemma WithoutStep<T>(m0: map<nat, T>, start: nat, next: nat)
    requires start <= next
    requires next in Without(m0, start, next)
    ensures Without(m0, start, next) - {next} == Without(m0, start, next + 1)
  {
  }

  /** Every result in m sits under its own index. */
  ghost predicate IndexedBy(m: map<nat, WorkResult>) {
    forall k :: k in m ==> m[k].index == k
  }

  lemma WithoutIndexed(m: map<nat, WorkResult>, lo: nat, hi: nat)
    requires IndexedBy(m)
    ensures IndexedBy(Without(m, lo, hi))
  {
  }

  /** One turn of the drain loop: the buffered result at the next position extends the run. */
  lemma DrainStep(m0: map<nat, WorkResult>, start: nat, d: seq<WorkResult>, m: map<nat, WorkResult>)
    requires m == Without(m0, start, start + |d|)
    requires RunFrom(m0, start, d)
    requires start + |d| in m
    ensures m[start + |d|] == m0[start + |d|]
    ensures m - {start + |d|} == Without(m0, start, start + |d| + 1)
    ensures RunFrom(m0, start, d + [m[start + |d|]])
  {
    WithoutStep(m0, start, start + |d|);
    RunFromSnoc(m0, start, d);
  }

  // ---------------------------------------------------------------------
  // Arrivals in any order

  /** order lists each of 0, ..., n - 1 exactly once. */
  ghost predicate IsPermutation(order: seq<nat>, n: nat) {
    && (forall k :: 0 <= k < |order| ==> order[k] < n)
    && (forall j, k :: 0 <= j < k < |order| ==> order[j] != order[k])
    && (forall i :: 0 <= i < n ==> i in order)
  }

  /** The indices of the first k arrivals. */
  function ArrivedSet(order: seq<nat>, k: nat): set<nat>
    requires k <= |order|
  {
    set j | 0 <= j < k :: order[j]
  }

  lemma ArrivedSetSnoc(order: seq<nat>, k: nat)
    requires k < |order|
    ensures ArrivedSet(order, k + 1) == ArrivedSet(order, k) + {order[k]}
  {
    forall x | x in ArrivedSet(order, k + 1) ensures x in ArrivedSet(order, k) + {order[k]} {
      var j :| 0 <= j < k + 1 && order[j] == x;
      if j < k { assert x in ArrivedSet(order, k); }
    }
  }

  /**
   * The reorder state after the first k arrivals of order, where results[i]
   * is the result for index i: every index below next has arrived and been
   * drained; every buffered result sits above next, under its own index,
   * and has arrived; every arrival is drained or buffered.
   */
  ghost predicate Arrived(order: seq<nat>, k: nat, next: nat, buffer: map<nat, WorkResult>, results: seq<WorkResult>)
    requires k <= |order|
  {
    && next <= |results|
    && (forall key :: key in buffer ==> next < key < |results| && buffer[key] == results[key])
    && (forall key :: key in buffer ==> key in ArrivedSet(order, k))
    && (forall i :: i in ArrivedSet(order, k) ==> i < next || i in buffer)
    && (forall i :: 0 <= i < next ==> i in ArrivedSet(order, k))
  }

  /** An index arrives once: the k-th arrival was neither drained nor buffered before. */
  lemma ArrivalIsNew(order: seq<nat>, results: seq<WorkResult>, k: nat, a: nat, buffer: map<nat, WorkResult>)
    requires IsPermutation(order, |results|) && k < |order|
    requires Arrived(order, k, a, buffer, results)
    ensures a <= order[k] < |results| && order[k] !in buffer
  {
    assert forall j :: 0 <= j < k ==> order[j] != order[k];
    assert order[k] !in ArrivedSet(order, k);
  }

  /** After an arrival and its drain, the buffered results are the undrained arrivals. */
  lemma ArrivalStepBuffer(order: seq<nat>, results: seq<WorkResult>, k: nat, a: nat, buffer: map<nat, WorkResult>,
                          delivered: seq<WorkResult>)
    requires IsPermutation(order, |results|) && k < |order|
    requires Arrived(order, k, a, buffer, results)
    requires RunFrom(buffer[order[k] := results[order[k]]], a, delivered)
    requires a + |delivered| !in buffer[order[k] := results[order[k]]]
    ensures var m' := Without(buffer[order[k] := results[order[k]]], a, a + |delivered|);
      && a + |delivered| <= |results|
      && (forall key :: key in m' ==> a + |delivered| < key < |results| && m'[key] == results[key])
      && (forall key :: key in m' ==> key in ArrivedSet(order, k + 1))
      && (forall i :: i in ArrivedSet(order, k + 1) ==> i < a + |delivered| || i in m')
  {
    var i := order[k];
    var m := buffer[i := results[i]];
    ArrivalIsNew(order, results, k, a, buffer);
    ArrivedSetSnoc(order, k);
    if |delivered| > 0 {
      RunFromAt(m, a, delivered, |delivered| - 1);
    }
  }

  /** After an arrival and its drain, every drained index has arrived and the drained results are in order. */
  lemma ArrivalStepDrained(order: seq<nat>, results: seq<WorkResult>, k: nat, a: nat, buffer: map<nat, WorkResult>,
                           delivered: seq<WorkResult>)
    requires IsPermutation(order, |results|) && k < |order|
    requires Arrived(order, k, a, buffer, results)
    requires RunFrom(buffer[order[k] := results[order[k]]], a, delivered)
    ensures a + |delivered| <= |results|
    ensures var k1 := k + 1; forall i :: 0 <= i < a + |delivered| ==> i in ArrivedSet(order, k1)
    ensures results[..a] + delivered == results[..a + |delivered|]
  {
    var i, k1 := order[k], k + 1;
    var m := buffer[i := results[i]];
    var b := a + |delivered|;
    ArrivalIsNew(order, results, k, a, buffer);
    ArrivedSetSnoc(order, k);
    if |delivered| > 0 {
      RunFromAt(m, a, delivered, |delivered| - 1);
    }
    forall i' | 0 <= i' < b ensures i' in ArrivedSet(order, k1) {
      if a <= i' {
        RunFromAt(m, a, delivered, i' - a);
      }
    }
    forall t | 0 <= t < |delivered| ensures delivered[t] == results[a + t] {
      RunFromAt(m, a, delivered, t);
    }
    assert results[..a] + delivered == results[..b];
  }

  /**
   * One arrival and the drain after it keep Arrived, and the drained results
   * extend the in-order prefix of results.
   */
  lemma ArrivalStep(order: seq<nat>, results: seq<WorkResult>, k: nat, a: nat, buffer: map<nat, WorkResult>,
                    delivered: seq<WorkResult>)
    requires IsPermutation(order, |results|) && k < |order|
    requires Arrived(order, k, a, buffer, results)
    requires RunFrom(buffer[order[k] := results[order[k]]], a, delivered)
    requires a + |delivered| !in buffer[order[k] := results[order[k]]]
    ensures Arrived(order, k + 1, a + |delivered|,
                    Without(buffer[order[k] := results[order[k]]], a, a + |delivered|), results)
    ensures results[..a] + delivered == results[..a + |delivered|]
  {
    ArrivalStepBuffer(order, results, k, a, buffer, delivered);
    ArrivalStepDrained(order, results, k, a, buffer, delivered);
  }

  /** Every index of a permutation arrives. */
  lemma AllArrive(order: seq<nat>, n: nat)
    requires IsPermutation(order, n)
    ensures forall i :: 0 <= i < n ==> i in ArrivedSet(order, |order|)
  {
    forall i | 0 <= i < n ensures i in ArrivedSet(order, |order|) {
      assert i in order;
      var j :| 0 <= j < |order| && order[j] == i;
    }
  }

  /** Once every index has arrived, all have been drained and the buffer is empty. */
  lemma ArrivalsDone(order: seq<nat>, results: seq<WorkResult>, next: nat, buffer: map<nat, WorkResult>)
    requires IsPermutation(order, |results|)
    requires Arrived(order, |order|, next, buffer, results)
    requires next !in buffer
    ensures next == |results| && buffer == map[]
  {
    AllArrive(order, |results|);
    var all := ArrivedSet(order, |order|);
    assert next >= |results| || next in all;
    assert forall key :: key !in buffer;
  }

  class ReorderBuffer {
    var nextIndex: nat
    var resultBuffer: map<nat, WorkResult>

    /** Between arrivals the next expected result is never buffered, and every result sits under its own index. */
    ghost predicate Valid()
      reads this
    {
      && nextIndex !in resultBuffer
      && IndexedBy(resultBuffer)
    }

    constructor ()
      ensures Valid() && nextIndex == 0 && resultBuffer == map[]
    {
      nextIndex := 0;
      resultBuffer := map[];
    }

    /**
     * One iteration of the outer loop over the results channel (line 74 and
     * the inner loop after it): buffer res under its index, then drain.
     * `delivered` is the sequence of results passed to processResult.
     */
    method Insert(res: WorkResult, ledger: Ledger, fs: FileSystem, renameOk: nat -> bool)
      returns (ghost delivered: seq<WorkResult>)
      requires Valid()
      modifies this, ledger, fs
      ensures Valid()
      ensures nextIndex == old(nextIndex) + |delivered|
      ensures RunFrom(old(resultBuffer)[res.index := res], old(nextIndex), delivered)
      ensures nextIndex !in old(resultBuffer)[res.index := res]
      ensures resultBuffer == Without(old(resultBuffer)[res.index := res], old(nextIndex), nextIndex)
      ensures StateOf(ledger, fs) == ProcessAll(old(StateOf(ledger, fs)), delivered, renameOk)
    {
      resultBuffer := resultBuffer[res.index := res];
      delivered := Drain(ledger, fs, renameOk);
    }

    /**
     * The inner loop: while the result for nextIndex is buffered, remove it,
     * process it and advance nextIndex.
     */
    method Drain(ledger: Ledger, fs: FileSystem, renameOk: nat -> bool)
      returns (ghost delivered: seq<WorkResult>)
      requires IndexedBy(resultBuffer)
      modifies this, ledger, fs
      ensures Valid()
      ensures nextIndex == old(nextIndex) + |delivered|
      ensures RunFrom(old(resultBuffer), old(nextIndex), delivered)
      ensures nextIndex !in old(resultBuffer)
      ensures resultBuffer == Without(old(resultBuffer), old(nextIndex), nextIndex)
      ensures StateOf(ledger, fs) == ProcessAll(old(StateOf(ledger, fs)), delivered, renameOk)
    {
      ghost var m0, start, s0 := resultBuffer, nextIndex, StateOf(ledger, fs);
      delivered := [];
      while nextIndex in resultBuffer
        invariant nextIndex == start + |delivered|
        invariant resultBuffer == Without(m0, start, nextIndex)
        invariant RunFrom(m0, start, delivered)
        invariant StateOf(ledger, fs) == ProcessAll(s0, delivered, renameOk)
        decreases |resultBuffer|
      {
        var r := resultBuffer[nextIndex];
        DrainStep(m0, start, delivered, resultBuffer);
        resultBuffer := resultBuffer - {nextIndex};
        ProcessResult(r, ledger, fs, renameOk(r.index));
        ProcessAllSnoc(s0, delivered, r, renameOk);
        delivered := delivered + [r];
        nextIndex := nextIndex + 1;
      }
      WithoutIndexed(m0, start, nextIndex);
    }
  }
}
