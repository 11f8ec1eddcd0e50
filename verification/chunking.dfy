/** Splitting the normalised list into Firestore write batches: consecutive
    slices `exercises.slice(i, i + BATCH_SIZE)` for i = 0, 500, 1000, ... */
module Chunking {

  /** Firestore's limit on the writes in one batch. */
  const BatchSize: nat := 500

  /** How many batches the loop runs for n records: ceil(n / 500). */
  function BatchCount(n: nat): nat {
    (n + BatchSize - 1) / BatchSize
  }

  /** Batch number b exists exactly when its first record does. */
  lemma BatchIndex(b: nat, n: nat)
    ensures b < BatchCount(n) <==> b * BatchSize < n
  {
  }

  function Min(a: int, b: int): int {
    if a <= b then a else b
  }

  /** The slices the batch loop visits, in order. */
  function Chunks<T>(xs: seq<T>): (cs: seq<seq<T>>)
    ensures |cs| == BatchCount(|xs|)
    decreases |xs|
  {
    if |xs| == 0 then []
    else if |xs| <= BatchSize then [xs]
    else [xs[..BatchSize]] + Chunks(xs[BatchSize..])
  }

  /** Concatenation of a list of slices. */
  function Flatten<T>(cs: seq<seq<T>>): seq<T> {
    if cs == [] then [] else cs[0] + Flatten(cs[1..])
  }

  /** Batch k is exactly the slice starting at k * 500 that the loop takes. */
  lemma {:induction false} ChunkAt<T>(xs: seq<T>, k: nat)
    requires k < |Chunks(xs)|
    ensures k * BatchSize <= Min((k + 1) * BatchSize, |xs|) <= |xs|
    ensures Chunks(xs)[k] == xs[k * BatchSize .. Min((k + 1) * BatchSize, |xs|)]
    decreases |xs|
  {
    if k > 0 {
      var rest := xs[BatchSize..];
      ChunkAt(rest, k - 1);
      assert Chunks(xs)[k] == Chunks(rest)[k - 1];
      assert rest[(k - 1) * BatchSize .. Min(k * BatchSize, |rest|)]
          == xs[k * BatchSize .. Min((k + 1) * BatchSize, |xs|)];
    }
  }

  /** The batches partition the input: joined back together they give it. */
  lemma {:induction false} ChunksPartition<T>(xs: seq<T>)
    ensures Flatten(Chunks(xs)) == xs
    decreases |xs|
  {
    if |xs| > BatchSize {
      ChunksPartition(xs[BatchSize..]);
      assert Chunks(xs)[1..] == Chunks(xs[BatchSize..]);
      assert xs == xs[..BatchSize] + xs[BatchSize..];
    } else if |xs| > 0 {
      assert Chunks(xs)[1..] == [];
    }
  }

  /** Every batch is non-empty and holds at most 500 records; every batch but
      the last holds exactly 500. */
  lemma ChunkSizes<T>(xs: seq<T>, k: nat)
    requires k < |Chunks(xs)|
    ensures 0 < |Chunks(xs)[k]| <= BatchSize
    ensures k < |Chunks(xs)| - 1 ==> |Chunks(xs)[k]| == BatchSize
  {
    ChunkAt(xs, k);
  }

  /** Joining a list of slices with one more slice appended. */
  lemma {:induction false} FlattenSnoc<T>(cs: seq<seq<T>>, c: seq<T>)
    ensures Flatten(cs + [c]) == Flatten(cs) + c
  {
    if cs != [] {
      assert (cs + [c])[1..] == cs[1..] + [c];
      FlattenSnoc(cs[1..], c);
    } else {
      assert Flatten([c]) == c + Flatten([]);
    }
  }

  /** 1200 records make three batches, of 500, 500 and 200, in that order. */
  lemma TwelveHundredRecords<T>(xs: seq<T>)
    requires |xs| == 1200
    ensures |Chunks(xs)| == 3
    ensures |Chunks(xs)[0]| == 500 && |Chunks(xs)[1]| == 500 && |Chunks(xs)[2]| == 200
    ensures Chunks(xs)[2] == xs[1000..]
  {
    ChunkAt(xs, 0);
    ChunkAt(xs, 1);
    ChunkAt(xs, 2);
  }
}
