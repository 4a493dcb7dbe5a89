/**
 A long organize plan is cut into batches, each previewed and decided on its own: approving one runs it and
 queues the next, rejecting one or ending the session drops the rest.
 */
module Batches {

  const BATCH_CAP := 50

  /** Consecutive slices of at most `cap` operations. */
  function Chunk<T>(operations: seq<T>, cap: nat): seq<seq<T>>
    requires cap >= 1
  {
    if |operations| <= cap then (if operations == [] then [] else [operations])
    else [operations[..cap]] + Chunk(operations[cap..], cap)
  }

  function Concat<T>(parts: seq<seq<T>>): seq<T> {
    if parts == [] then [] else parts[0] + Concat(parts[1..])
  }

  /** The batches, one after another, are the plan. */
  lemma {:induction false} ChunksAreThePlan<T>(operations: seq<T>, cap: nat)
    requires cap >= 1
    ensures Concat(Chunk(operations, cap)) == operations
  {
    if 0 < |operations| <= cap {
      assert Concat([operations]) == operations + Concat([]);
    } else if |operations| > cap {
      ChunksAreThePlan(operations[cap..], cap);
      assert operations[..cap] + operations[cap..] == operations;
    }
  }

  /** All batches but the last are full, and the last is not empty. */
  lemma {:induction false} ChunksAreFull<T>(operations: seq<T>, cap: nat)
    requires cap >= 1
    ensures var parts := Chunk(operations, cap);
            && (forall i | 0 <= i < |parts| - 1 :: |parts[i]| == cap)
            && (parts != [] ==> 0 < |parts[|parts| - 1]| <= cap)
  {
    if |operations| > cap {
      ChunksAreFull(operations[cap..], cap);
      var rest := Chunk(operations[cap..], cap);
      assert rest != [];
      assert forall i | 1 <= i < |rest| + 1 :: Chunk(operations, cap)[i] == rest[i - 1];
    }
  }

  /** There are as many batches as needed and no more. */
  lemma {:induction false} ChunkCount<T>(operations: seq<T>, cap: nat)
    requires cap >= 1
    ensures |Chunk(operations, cap)| == (|operations| + cap - 1) / cap
  {
    if operations == [] {
      assert (cap - 1) / cap == 0;
    } else if |operations| <= cap {
      OneChunk(|operations|, cap);
    } else {
      ChunkCount(operations[cap..], cap);
      MoreChunks(|operations|, cap);
    }
  }

  lemma OneChunk(n: nat, cap: nat)
    requires 0 < n <= cap
    ensures (n + cap - 1) / cap == 1
  {
  }

  lemma MoreChunks(n: nat, cap: nat)
    requires 0 < cap < n
    ensures (n + cap - 1) / cap == (n - cap + cap - 1) / cap + 1
  {
    var a := n - 1;
    var q, q' := a / cap, (a + cap) / cap;
    assert q * cap <= a < q * cap + cap && q' * cap <= a + cap < q' * cap + cap;
    assert (q + 1) * cap == q * cap + cap;
    TimesIsMonotone(q', q, cap);
    TimesIsMonotone(q + 2, q', cap);
  }

  lemma TimesIsMonotone(x: int, y: int, c: nat)
    ensures x <= y ==> x * c <= y * c
  {
  }

  /** The operations in the first `k` batches. */
  lemma {:induction false} PrefixOfPlan<T>(operations: seq<T>, cap: nat, k: nat)
    requires cap >= 1 && k <= |Chunk(operations, cap)|
    ensures Concat(Chunk(operations, cap)[..k])
            == operations[..if k * cap <= |operations| then k * cap else |operations|]
    decreases k
  {
    var parts := Chunk(operations, cap);
    if k > 0 && |operations| > cap {
      assert parts[..k] == [operations[..cap]] + parts[1..][..k - 1];
      assert parts[1..] == Chunk(operations[cap..], cap);
      PrefixOfPlan(operations[cap..], cap, k - 1);
      assert k * cap == (k - 1) * cap + cap;
      var m := if (k - 1) * cap <= |operations| - cap then (k - 1) * cap else |operations| - cap;
      assert operations[..cap] + operations[cap..][..m] == operations[..cap + m];
    } else if k > 0 {
      assert k == 1 && parts[..1] == [operations];
      assert Concat([operations]) == operations + Concat([]);
    } else {
      assert parts[..0] == [];
    }
  }

  /** What can reach a paused gate. */
  datatype Event = Approved | Rejected | SessionEnded

  /** How many approvals come before the first event that is not one. */
  function ApprovedPrefix(events: seq<Event>): (n: nat)
    ensures n <= |events|
    ensures forall i | 0 <= i < n :: events[i].Approved?
    ensures n < |events| ==> !events[n].Approved?
  {
    if events == [] || !events[0].Approved? then 0 else 1 + ApprovedPrefix(events[1..])
  }
}
