/** Batch planning for bulk e-mail sends: the loop
    `for (i = 0; i < Math.ceil(n / 1000); i++) slice(i * 1000, min((i + 1) * 1000, n))`
    that both the campaign table and the CSV loader run over their recipients. */
module Batching {
  import opened Seqs
  import opened Paging

  /** The number of recipients per request. */
  const BatchSize: nat := 1000

  /** The batch loop, with the bounds the components compute. The batches
      are the chunks of `items`: as many as `Math.ceil(n / size)`, each
      non-empty and at most `size` long, concatenating back to `items`. */
  method PlanBatches<T>(items: seq<T>, size: nat) returns (batches: seq<seq<T>>)
    requires size > 0
    ensures batches == Chunks(items, size)
    ensures |batches| == CeilDiv(|items|, size)
    ensures forall k :: 0 <= k < |batches| ==> 0 < |batches[k]| <= size
    ensures Concat(batches) == items
  {
    var n := |items|;
    var count := CeilDiv(n, size);
    ghost var c := Chunks(items, size);
    batches := [];
    var i := 0;
    while i < count
      invariant 0 <= i <= count
      invariant batches == c[..i]
    {
      var start := Times(i, size);
      var end := Min(Times(i + 1, size), n);
      BatchIsChunk(items, size, i);
      batches := batches + [items[start..end]];
      i := i + 1;
    }
    assert c[..count] == c;
  }

  /** The `i`-th batch the loop slices is the `i`-th chunk. */
  lemma BatchIsChunk<T>(items: seq<T>, size: nat, i: nat)
    requires size > 0 && i < CeilDiv(|items|, size)
    ensures Times(i, size) <= Min(Times(i + 1, size), |items|)
    ensures Chunks(items, size)[..i + 1]
         == Chunks(items, size)[..i] + [items[Times(i, size)..Min(Times(i + 1, size), |items|)]]
  {
    var c := Chunks(items, size);
    TimesMonotone(i, CeilDiv(|items|, size) - 1, size);
    ChunkIsPage(items, size, i);
    assert c[..i + 1] == c[..i] + [c[i]];
  }
}
