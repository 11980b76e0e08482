/** The sequential meaning of the frame-batch pattern shared by
    `SplitAllFrames*`, `GenerateAllBasTextWithParallel` and
    `ParseAllFrameWithParallel`: one goroutine per item writes its result into
    slot `idx`, failures go to an error channel in the order they happen, and
    after all goroutines finish the first error read from the channel, if any,
    is returned instead of the results.

    The goroutines, the semaphore and the `WaitGroup` are abstracted into a
    completion order: the order in which the workers finish. Any order is
    possible whatever the concurrency bound, so the bound itself has no
    observable effect here. */
module Batch {
  import opened Wrappers

  /** `order` lists every index below `n` exactly once. */
  predicate IsCompletionOrder(order: seq<nat>, n: nat)
  {
    && |order| == n
    && (forall k | 0 <= k < |order| :: order[k] < n)
    && (forall i | 0 <= i < n :: i in order)
    && (forall k, l | 0 <= k < l < |order| :: order[k] != order[l])
  }

  /** The indices whose worker succeeds. */
  function Succeeding<T, U, E>(items: seq<T>, work: T --> Result<U, E>): set<nat>
    requires forall i | 0 <= i < |items| :: work.requires(items[i])
  {
    set i: nat | i < |items| && work(items[i]).Success?
  }

  /** Runs `work` on every item, the workers finishing in `order`. On success
      result `i` is the worker's result for item `i`, whatever the order; if
      any worker fails the results are discarded and the error returned is
      that of the first worker to fail. `progress` counts the workers that
      succeeded, each once, failed ones never. */
  method RunBatch<T, U, E>(items: seq<T>, work: T --> Result<U, E>, order: seq<nat>)
    returns (r: Result<seq<U>, E>, progress: nat)
    requires IsCompletionOrder(order, |items|)
    requires forall i | 0 <= i < |items| :: work.requires(items[i])
    ensures r.Success? <==> forall i | 0 <= i < |items| :: work(items[i]).Success?
    ensures r.Success? ==>
      |r.value| == |items| && forall i | 0 <= i < |items| :: r.value[i] == work(items[i]).value
    ensures r.Failure? ==> exists k | 0 <= k < |order| ::
      && work(items[order[k]]) == Failure(r.error)
      && forall l | 0 <= l < k :: work(items[order[l]]).Success?
    ensures progress == |Succeeding(items, work)|
  {
    var slots, errs;
    ghost var firstFailure, succeeded;
    slots, errs, progress, firstFailure, succeeded := Collect(items, work, order);
    SucceededAreSucceeding(items, work, order, succeeded);
    if |errs| > 0 {
      r := Failure(errs[0]);
    } else {
      forall i | 0 <= i < |items|
        ensures slots[i].Some?
      {
        assert i in order;
        var l :| 0 <= l < |order| && order[l] == i;
        assert work(items[order[l]]).Success?;
      }
      r := Success(seq(|items|, i requires 0 <= i < |items| && slots[i].Some? => slots[i].value));
    }
  }

  /** What the workers' loop knows after the first `k` workers in `order`
      have finished. */
  ghost predicate Collected<T, U, E>(items: seq<T>, work: T --> Result<U, E>, order: seq<nat>, k: nat,
    slots: seq<Option<U>>, errs: seq<E>, progress: nat, firstFailure: nat, succeeded: set<nat>)
    requires IsCompletionOrder(order, |items|)
    requires forall i | 0 <= i < |items| :: work.requires(items[i])
    requires k <= |order|
  {
    && |slots| == |items|
    && (forall l | 0 <= l < k :: work(items[order[l]]).Success? ==> slots[order[l]].Some?)
    && (forall i | 0 <= i < |items| :: slots[i].Some? ==> work(items[i]).Success? && slots[i].value == work(items[i]).value)
    && (|errs| == 0 <==> forall l | 0 <= l < k :: work(items[order[l]]).Success?)
    && (|errs| > 0 ==>
          && firstFailure < k
          && work(items[order[firstFailure]]) == Failure(errs[0])
          && forall m | 0 <= m < firstFailure :: work(items[order[m]]).Success?)
    && (forall i | i in succeeded :: i in order[..k] && i < |items| && work(items[i]).Success?)
    && (forall l | 0 <= l < k :: work(items[order[l]]).Success? ==> order[l] in succeeded)
    && progress == |succeeded|
  }

  /** A failing worker appends its error and leaves the slots alone. */
  lemma CollectFailure<T, U, E>(items: seq<T>, work: T --> Result<U, E>, order: seq<nat>, k: nat,
    slots: seq<Option<U>>, errs: seq<E>, progress: nat, firstFailure: nat, succeeded: set<nat>)
    requires IsCompletionOrder(order, |items|)
    requires forall i | 0 <= i < |items| :: work.requires(items[i])
    requires k < |order|
    requires Collected(items, work, order, k, slots, errs, progress, firstFailure, succeeded)
    requires work(items[order[k]]).Failure?
    ensures Collected(items, work, order, k + 1, slots, errs + [work(items[order[k]]).error], progress,
      if |errs| == 0 then k else firstFailure, succeeded)
  {
    assert order[..k + 1] == order[..k] + [order[k]];
  }

  /** A succeeding worker fills its own slot, which no earlier worker touched. */
  lemma CollectSuccess<T, U, E>(items: seq<T>, work: T --> Result<U, E>, order: seq<nat>, k: nat,
    slots: seq<Option<U>>, errs: seq<E>, progress: nat, firstFailure: nat, succeeded: set<nat>)
    requires IsCompletionOrder(order, |items|)
    requires forall i | 0 <= i < |items| :: work.requires(items[i])
    requires k < |order|
    requires Collected(items, work, order, k, slots, errs, progress, firstFailure, succeeded)
    requires work(items[order[k]]).Success?
    ensures Collected(items, work, order, k + 1, slots[order[k] := Some(work(items[order[k]]).value)], errs,
      progress + 1, firstFailure, succeeded + {order[k]})
  {
    var idx := order[k];
    assert idx !in order[..k];
    assert order[..k + 1] == order[..k] + [idx];
  }

  /** The workers' loop: every worker stores its result in its own slot or
      sends its error, in completion order. */
  method Collect<T, U, E>(items: seq<T>, work: T --> Result<U, E>, order: seq<nat>)
    returns (slots: seq<Option<U>>, errs: seq<E>, progress: nat, ghost firstFailure: nat, ghost succeeded: set<nat>)
    requires IsCompletionOrder(order, |items|)
    requires forall i | 0 <= i < |items| :: work.requires(items[i])
    ensures Collected(items, work, order, |order|, slots, errs, progress, firstFailure, succeeded)
  {
    slots := seq(|items|, _ => None);
    errs := [];
    progress := 0;
    succeeded := {};
    firstFailure := 0;
    var k := 0;
    while k < |order|
      invariant 0 <= k <= |order|
      invariant Collected(items, work, order, k, slots, errs, progress, firstFailure, succeeded)
    {
      var idx := order[k];
      var outcome := work(items[idx]);
      if outcome.Failure? {
        CollectFailure(items, work, order, k, slots, errs, progress, firstFailure, succeeded);
        if |errs| == 0 {
          firstFailure := k;
        }
        errs := errs + [outcome.error];
      } else {
        CollectSuccess(items, work, order, k, slots, errs, progress, firstFailure, succeeded);
        slots := slots[idx := Some(outcome.value)];
        succeeded := succeeded + {idx};
        progress := progress + 1;
      }
      k := k + 1;
    }
  }

  /** Once every worker has finished, the succeeded set is exactly `Succeeding`. */
  lemma SucceededAreSucceeding<T, U, E>(items: seq<T>, work: T --> Result<U, E>, order: seq<nat>, succeeded: set<nat>)
    requires IsCompletionOrder(order, |items|)
    requires forall i | 0 <= i < |items| :: work.requires(items[i])
    requires forall i | i in succeeded :: i < |items| && work(items[i]).Success?
    requires forall l | 0 <= l < |order| :: work(items[order[l]]).Success? ==> order[l] in succeeded
    ensures succeeded == Succeeding(items, work)
  {
    forall i | 0 <= i < |items| && work(items[i]).Success?
      ensures i in succeeded
    {
      assert i in order;
      var l :| 0 <= l < |order| && order[l] == i;
    }
  }

  /** The same pattern for a worker that cannot fail: result `i` is the
      worker's result for item `i`, whatever order the workers finish in. */
  method RunAll<T, U>(items: seq<T>, work: T --> U, order: seq<nat>) returns (results: seq<U>)
    requires IsCompletionOrder(order, |items|)
    requires forall i | 0 <= i < |items| :: work.requires(items[i])
    ensures |results| == |items|
    ensures forall i | 0 <= i < |items| :: results[i] == work(items[i])
  {
    var r, _ := RunBatch<T, U, ()>(items, x requires work.requires(x) => Success(work(x)), order);
    results := r.value;
  }
}
