/**
 Writing a list in fixed-size slices: `for i in range(0, len(xs), size): batch = xs[i:i+size]`,
 one remote call per batch and a running count of what was written.
 */
module Batching {

  /** The batches written one after another. */
  function Flatten<T>(batches: seq<seq<T>>): seq<T>
  {
    if |batches| == 0 then []
    else Flatten(batches[..|batches| - 1]) + batches[|batches| - 1]
  }

  /** Every batch is non-empty and holds at most `size` elements; all but the last hold exactly `size`. */
  ghost predicate WellBatched<T>(batches: seq<seq<T>>, size: nat)
  {
    && (forall k :: 0 <= k < |batches| ==> 0 < |batches[k]| <= size)
    && (forall k :: 0 <= k < |batches| - 1 ==> |batches[k]| == size)
  }

  /**
   The range-stepped write loop: `batches` are the slices handed to the remote
   batch call, in order, and `count` is the running total the loop keeps.
   */
  method WriteInBatches<T>(xs: seq<T>, size: nat) returns (batches: seq<seq<T>>, count: nat)
    requires size > 0
    ensures Flatten(batches) == xs
    ensures WellBatched(batches, size)
    ensures count == |xs|
  {
    batches, count := [], 0;
    var i := 0;
    while i < |xs|
      invariant i <= |xs| ==> Flatten(batches) == xs[..i] && count == i
      invariant i > |xs| ==> Flatten(batches) == xs && count == |xs|
      invariant WellBatched(batches, size)
      invariant i <= |xs| ==> forall k :: 0 <= k < |batches| ==> |batches[k]| == size
      invariant i < |xs| + size
    {
      var end := if i + size <= |xs| then i + size else |xs|;
      var batch := xs[i..end];
      assert (batches + [batch])[..|batches|] == batches;
      assert xs[..i] + batch == xs[..end];
      batches := batches + [batch];
      count := count + |batch|;
      i := i + size;
    }
    assert xs[..|xs|] == xs;
  }
}
