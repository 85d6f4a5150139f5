/**
 Cutting a list into batches: `items[start : start + size]` for `start` in steps of `size`
 (serving/app/services/screening.py, `_batches`; serving/app/services/indexing.py).
 */
module Batching {
  import opened Sorting

  function Batches<T>(items: seq<T>, size: nat): seq<seq<T>>
    requires size > 0
    decreases |items|
  {
    if items == [] then []
    else if |items| <= size then [items]
    else [items[..size]] + Batches(items[size..], size)
  }

  /** Batches are nonempty, all but the last are full, and put back together they are the list in order. */
  lemma {:induction false} BatchesPartition<T>(items: seq<T>, size: nat)
    requires size > 0
    ensures Flatten(Batches(items, size)) == items
    ensures forall k :: 0 <= k < |Batches(items, size)| ==> 1 <= |Batches(items, size)[k]| <= size
    ensures forall k :: 0 <= k < |Batches(items, size)| - 1 ==> |Batches(items, size)[k]| == size
    decreases |items|
  {
    if |items| > size {
      BatchesPartition(items[size..], size);
      assert items == items[..size] + items[size..];
    } else if items != [] {
      assert Flatten([items]) == items + Flatten([]);
    }
  }

  /** The batch number `b` is the slice that begins at `start`, the size times `b`. */
  lemma {:induction false} BatchFrom<T>(items: seq<T>, size: nat, b: nat, start: nat)
    requires size > 0 && start == size * b
    ensures b < |Batches(items, size)| <==> start < |items|
    ensures start < |items| ==>
              Batches(items, size)[b] == items[start..if start + size <= |items| then start + size else |items|]
    decreases b
  {
    if b > 0 {
      OneLess(size, b, start);
      if |items| > size {
        BatchFrom(items[size..], size, b - 1, start - size);
      }
    }
  }

  lemma OneLess(size: nat, b: nat, start: nat)
    requires b > 0 && start == size * b
    ensures start - size == size * (b - 1) >= 0
  {
  }
}
