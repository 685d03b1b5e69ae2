/**
 * How `get_results` (run.py:71-101) cuts the item sequence into batches: an
 * item is appended to the batch, a batch that reaches fifteen items is
 * flushed and emptied, and a non-empty remainder is flushed after the loop.
 * `Chunks` is the resulting sequence of flushed batches, stated on its own.
 */
module Batching {

  /** `batch_size` in `get_results` */
  const BatchSize: nat := 15

  function Flatten<T>(ss: seq<seq<T>>): seq<T>
    decreases |ss|
  {
    if ss == [] then [] else Flatten(ss[..|ss| - 1]) + ss[|ss| - 1]
  }

  /** The batches `get_results` flushes, in order: runs of BatchSize
      consecutive items, the last one possibly shorter. */
  function Chunks<T>(s: seq<T>): seq<seq<T>>
    decreases |s|
  {
    if s == [] then []
    else
      var n := (|s| - 1) / BatchSize * BatchSize;
      Chunks(s[..n]) + [s[n..]]
  }

  function ChunkEnd(k: nat, len: nat): nat {
    if k * BatchSize + BatchSize <= len then k * BatchSize + BatchSize else len
  }

  /** Flattening distributes over concatenation. */
  lemma {:induction false} FlattenAppend<T>(xs: seq<seq<T>>, ys: seq<seq<T>>)
    ensures Flatten(xs + ys) == Flatten(xs) + Flatten(ys)
    decreases |ys|
  {
    if ys == [] {
      assert xs + ys == xs;
    } else {
      var init := ys[..|ys| - 1];
      assert (xs + ys)[..|xs + ys| - 1] == xs + init;
      FlattenAppend(xs, init);
    }
  }

  /** Batch k holds the items from k * BatchSize on: BatchSize of them, or
      what is left at the end; there are ceil(N / BatchSize) batches. */
  lemma {:induction false} ChunkAt<T>(s: seq<T>)
    ensures |Chunks(s)| == (|s| + BatchSize - 1) / BatchSize
    ensures forall k :: 0 <= k < |Chunks(s)| ==>
      k * BatchSize < |s| && Chunks(s)[k] == s[k * BatchSize .. ChunkEnd(k, |s|)]
    decreases |s|
  {
    if s != [] {
      var n := (|s| - 1) / BatchSize * BatchSize;
      var init := s[..n];
      ChunkAt(init);
      LastBatch(|s|);
      forall k | 0 <= k < |Chunks(s)|
        ensures k * BatchSize < |s| && Chunks(s)[k] == s[k * BatchSize .. ChunkEnd(k, |s|)]
      {
        if k < |Chunks(init)| {
          assert Chunks(s)[k] == Chunks(init)[k];
          assert ChunkEnd(k, n) == ChunkEnd(k, |s|);
        } else {
          assert k == (|s| - 1) / BatchSize;
          assert k * BatchSize == n && ChunkEnd(k, |s|) == |s|;
          assert Chunks(s)[k] == s[n..];
        }
      }
    }
  }

  /** The last batch of len items starts at n, after q whole batches, and
      holds 1 to BatchSize items. */
  lemma LastBatch(len: nat)
    requires 0 < len
    ensures var q := (len - 1) / BatchSize; var n := q * BatchSize;
      n < len <= n + BatchSize &&
      (n + BatchSize - 1) / BatchSize == q &&
      (len + BatchSize - 1) / BatchSize == q + 1
  {
  }

  /** There are ceil(|s| / BatchSize) batches; every batch but the last is
      full, and the last holds |s| mod BatchSize items, or BatchSize when
      that is 0. */
  lemma ChunkSizes<T>(s: seq<T>)
    ensures |Chunks(s)| == (|s| + BatchSize - 1) / BatchSize
    ensures forall k :: 0 <= k < |Chunks(s)| - 1 ==> |Chunks(s)[k]| == BatchSize
    ensures s != [] ==>
      |Chunks(s)[|Chunks(s)| - 1]| == if |s| % BatchSize == 0 then BatchSize else |s| % BatchSize
  {
    ChunkAt(s);
  }

  /** Concatenating the batches in flush order gives back the items. */
  lemma {:induction false} ChunksFlatten<T>(s: seq<T>)
    ensures Flatten(Chunks(s)) == s
    decreases |s|
  {
    if s != [] {
      var n := (|s| - 1) / BatchSize * BatchSize;
      ChunksFlatten(s[..n]);
      var cs := Chunks(s[..n]) + [s[n..]];
      assert cs[..|cs| - 1] == Chunks(s[..n]);
    }
  }

  /** Items already cut into whole batches are not re-cut by what follows. */
  lemma {:induction false} ChunksAppend<T>(a: seq<T>, b: seq<T>)
    requires |a| % BatchSize == 0
    ensures Chunks(a + b) == Chunks(a) + Chunks(b)
    decreases |b|
  {
    if b == [] {
      assert a + b == a;
    } else {
      var m := (|b| - 1) / BatchSize * BatchSize;
      LastCut(|a|, |b|);
      assert (|a + b| - 1) / BatchSize * BatchSize == |a| + m;
      assert (a + b)[..|a| + m] == a + b[..m];
      assert (a + b)[|a| + m..] == b[m..];
      ChunksAppend(a, b[..m]);
    }
  }

  /** Where the last batch starts, after whole batches of length a. */
  lemma LastCut(a: nat, b: nat)
    requires a % BatchSize == 0 && 0 < b
    ensures (a + b - 1) / BatchSize * BatchSize == a + (b - 1) / BatchSize * BatchSize
  {
    var q := a / BatchSize;
    assert a == q * BatchSize;
    assert (q * BatchSize + (b - 1)) / BatchSize == q + (b - 1) / BatchSize;
  }

  /** The first f batches are the batches of the first f * BatchSize items,
      and batch f starts right after them. */
  lemma FlushedPrefix<T>(s: seq<T>, f: nat)
    requires f < |Chunks(s)|
    ensures f * BatchSize < |s|
    ensures Chunks(s)[..f] == Chunks(s[..f * BatchSize])
    ensures Flatten(Chunks(s)[..f]) == s[..f * BatchSize]
    ensures Chunks(s)[f] == s[f * BatchSize..ChunkEnd(f, |s|)]
  {
    ChunkAt(s);
    var p := f * BatchSize;
    MultipleOfBatchSize(f);
    ChunksSplit(s, p);
    var head := Chunks(s[..p]);
    WholeBatches(s[..p], f);
    assert (head + Chunks(s[p..]))[..f] == head;
    ChunksFlatten(s[..p]);
  }

  /** f whole batches of items cut into f batches. */
  lemma WholeBatches<T>(s: seq<T>, f: nat)
    requires |s| == f * BatchSize
    ensures |Chunks(s)| == f
  {
    ChunkAt(s);
    assert (f * BatchSize + BatchSize - 1) / BatchSize == f;
  }

  lemma MultipleOfBatchSize(k: nat)
    ensures (k * BatchSize) % BatchSize == 0
  {
  }

  /** Cutting at a batch boundary, or at the end, splits the batches. */
  lemma ChunksSplit<T>(s: seq<T>, j: nat)
    requires j <= |s| && (j % BatchSize == 0 || j == |s|)
    ensures Chunks(s) == Chunks(s[..j]) + Chunks(s[j..])
  {
    if j == |s| {
      assert s[..j] == s && s[j..] == [];
    } else {
      ChunksAppend(s[..j], s[j..]);
      assert s[..j] + s[j..] == s;
    }
  }

  /** One more flushed batch: a batch of 1 to BatchSize items after whole batches. */
  lemma ChunksSnoc<T>(a: seq<T>, batch: seq<T>)
    requires |a| % BatchSize == 0 && 0 < |batch| <= BatchSize
    ensures Chunks(a + batch) == Chunks(a) + [batch]
  {
    ChunksAppend(a, batch);
    SingleChunk(batch);
  }

  /** At most BatchSize items make one batch. */
  lemma SingleChunk<T>(batch: seq<T>)
    requires 0 < |batch| <= BatchSize
    ensures Chunks(batch) == [batch]
  {
    assert (|batch| - 1) / BatchSize == 0;
    assert batch[..0] == [] && batch[0..] == batch;
  }

  /** Sixteen items make two batches, of fifteen and of one. */
  lemma SixteenItems<T>(s: seq<T>)
    requires |s| == 16
    ensures |Chunks(s)| == 2 && |Chunks(s)[0]| == 15 && |Chunks(s)[1]| == 1
  {
    ChunkSizes(s);
  }
}
