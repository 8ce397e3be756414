/** What the models of concurrent programs share: completion records, and the turns others take between two steps. */
module Interleaving {
  /** `comp->status` */
  datatype RecordStatus = Pending | Completed

  /** The turn before step `k` of a program; once the given ones are used up, nobody moves. */
  function TurnAt<T>(given: seq<seq<T>>, k: nat): seq<T> {
    if k < |given| then given[k] else []
  }

  /** One of the turns from `k` on, fewer than `window` later, completes record `i`. */
  ghost predicate CompletedIn(given: seq<seq<nat>>, k: nat, window: nat, i: nat) {
    exists j: nat :: k <= j < k + window && i in TurnAt(given, j)
  }

  /** Any `window` consecutive turns complete every record below `total`. */
  ghost predicate EachCompletedWithin(given: seq<seq<nat>>, total: nat, window: nat) {
    forall k, i :: 0 <= k <= |given| - window && 0 <= i < total ==> CompletedIn(given, k, window, i)
  }

  /** Whoever has seen no turn complete record `i` since `k` has not waited long. */
  lemma NotWaitedLong(given: seq<seq<nat>>, total: nat, window: nat, k: nat, n: nat, i: nat)
    requires EachCompletedWithin(given, total, window) && k + window <= |given| && i < total
    requires forall j: nat :: k <= j < n ==> i !in TurnAt(given, j)
    ensures n < k + window
  {
    hide TurnAt;
    assert CompletedIn(given, k, window, i);
  }
}
