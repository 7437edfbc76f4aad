/**
 Slicing a folder's image list into batches, as the dispatch loop does with
 `for i in range(0, len(images), batch_size): images[i : i + batch_size]`.
 */
module Batching {
  import opened Seqs

  function Min(a: int, b: int): int {
    if a <= b then a else b
  }

  /**
   The batches that start at offsets `from`, `from + size`, ... below
   `|xs|`; Python's slice stops at the end of the list, so the last batch
   may be shorter.
   */
  function BatchesFrom<T>(xs: seq<T>, size: nat, from: nat): (bs: seq<seq<T>>)
    requires size >= 1 && from <= |xs|
    ensures Flatten(bs) == xs[from..]
    ensures forall i :: 0 <= i < |bs| ==> 1 <= |bs[i]| <= size
    ensures forall i :: 0 <= i < |bs| - 1 ==> |bs[i]| == size
    ensures |bs| == 0 <==> from == |xs|
    ensures |bs| > 0 ==> (|bs| - 1) * size < |xs| - from <= |bs| * size
    decreases |xs| - from
  {
    if from == |xs| then []
    else
      var stop := Min(from + size, |xs|);
      var rest := BatchesFrom(xs, size, stop);
      var bs := [xs[from..stop]] + rest;
      assert bs[1..] == rest;
      assert xs[from..] == xs[from..stop] + xs[stop..];
      CountStep(|rest|, size);
      bs
  }

  lemma CountStep(k: nat, size: nat)
    ensures (k + 1) * size == k * size + size
    ensures k > 0 ==> (k - 1) * size == k * size - size
  {
  }

  /**
   The batches of a whole list: concatenated in order they give the list
   back, none is empty or longer than `size`, all but the last hold exactly
   `size` images, and there are ceil(|xs| / size) of them.
   */
  function Batches<T>(xs: seq<T>, size: nat): (bs: seq<seq<T>>)
    requires size >= 1
    ensures Flatten(bs) == xs
    ensures forall i :: 0 <= i < |bs| ==> 1 <= |bs[i]| <= size
    ensures forall i :: 0 <= i < |bs| - 1 ==> |bs[i]| == size
    ensures |bs| == 0 <==> |xs| == 0
    ensures |bs| > 0 ==> (|bs| - 1) * size < |xs| <= |bs| * size
  {
    BatchesFrom(xs, size, 0)
  }
}
