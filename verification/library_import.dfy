/** The library importer's write path: the `exercises_library` collection as
    a keyed store with merge-on-write, and the loop that commits the
    normalised records in batches of 500, tallying each batch as imported or
    failed. */
module LibraryImport {
  import opened Js
  import opened LibraryRecord
  import opened Chunking

  /** The `exercises_library` collection: document id to document fields. */
  type Store = map<string, Object>

  /** The fields of document `k`; a missing document reads as empty. */
  function Lookup(s: Store, k: string): Object {
    if k in s then s[k] else map[]
  }

  /** `set(doc(k), fields, { merge: true })` once committed. */
  function MergeSet(s: Store, k: string, fields: Object): (r: Store)
    ensures k in r && r[k].Keys == Lookup(s, k).Keys + fields.Keys
  {
    s[k := Lookup(s, k) + fields]
  }

  /** Merge semantics: after the write the document exists, every given
      field holds the new value, and every other field already there is
      kept. No other document changes. */
  lemma MergeSemantics(s: Store, k: string, fields: Object)
    ensures MergeSet(s, k, fields).Keys == s.Keys + {k}
    ensures forall j :: j in s && j != k ==> MergeSet(s, k, fields)[j] == s[j]
    ensures MergeSet(s, k, fields)[k].Keys == Lookup(s, k).Keys + fields.Keys
    ensures forall f :: f in fields ==> MergeSet(s, k, fields)[k][f] == fields[f]
    ensures forall f :: f in Lookup(s, k) && f !in fields ==> MergeSet(s, k, fields)[k][f] == Lookup(s, k)[f]
  {
  }

  /** One `batch.set` of a normalised record, as it lands when the batch
      commits. A record without a string id never gets this far (see
      `StageBatch`); for it the store is left alone. */
  function Write(s: Store, e: Exercise): Store {
    match KeyOf(e)
    case Some(k) => MergeSet(s, k, Fields(e))
    case None => s
  }

  /** The records' writes applied in list order. */
  function ApplyWrites(s: Store, es: seq<Exercise>): Store
    decreases |es|
  {
    if es == [] then s else Write(ApplyWrites(s, es[..|es| - 1]), es[|es| - 1])
  }

  /** Every record names a document, so `doc(exercise.id)` cannot throw. */
  predicate AllKeyed(es: seq<Exercise>) {
    forall i :: 0 <= i < |es| ==> KeyOf(es[i]).Some?
  }

  /** The document ids the records write to. */
  ghost function KeySet(es: seq<Exercise>): set<string>
    decreases |es|
  {
    if es == [] then {}
    else
      KeySet(es[..|es| - 1]) +
      match KeyOf(es[|es| - 1]) case Some(k) => {k} case None => {}
  }

  // ---------------------------------------------------------------------
  // Merge semantics
  // ---------------------------------------------------------------------

  lemma {:induction false} ApplyWritesAppend(s: Store, a: seq<Exercise>, b: seq<Exercise>)
    ensures ApplyWrites(s, a + b) == ApplyWrites(ApplyWrites(s, a), b)
    decreases |b|
  {
    if b == [] {
      assert a + b == a;
    } else {
      assert (a + b)[..|a + b| - 1] == a + b[..|b| - 1];
      ApplyWritesAppend(s, a, b[..|b| - 1]);
    }
  }

  lemma {:induction false} KeySetAppend(a: seq<Exercise>, b: seq<Exercise>)
    ensures KeySet(a + b) == KeySet(a) + KeySet(b)
    decreases |b|
  {
    if b == [] {
      assert a + b == a;
    } else {
      assert (a + b)[..|a + b| - 1] == a + b[..|b| - 1];
      KeySetAppend(a, b[..|b| - 1]);
    }
  }

  /** Two record lists with the same document id at every position write
      to the same documents. */
  lemma {:induction false} KeySetPointwise(a: seq<Exercise>, b: seq<Exercise>)
    requires |a| == |b|
    requires forall i :: 0 <= i < |a| ==> KeyOf(a[i]) == KeyOf(b[i])
    ensures KeySet(a) == KeySet(b)
    decreases |a|
  {
    if a != [] {
      KeySetPointwise(a[..|a| - 1], b[..|b| - 1]);
    }
  }

  lemma AllKeyedAppend(a: seq<Exercise>, b: seq<Exercise>)
    ensures AllKeyed(a + b) <==> AllKeyed(a) && AllKeyed(b)
  {
    if AllKeyed(a) && AllKeyed(b) {
      forall i | 0 <= i < |a + b| ensures KeyOf((a + b)[i]).Some? {
        if i >= |a| {
          assert (a + b)[i] == b[i - |a|];
        }
      }
    }
    if AllKeyed(a + b) {
      forall i | 0 <= i < |b| ensures KeyOf(b[i]).Some? {
        assert (a + b)[|a| + i] == b[i];
      }
      forall i | 0 <= i < |a| ensures KeyOf(a[i]).Some? {
        assert (a + b)[i] == a[i];
      }
    }
  }

  /** After the writes, the collection holds the documents it held before
      plus one per distinct id written; nothing is deleted. */
  lemma {:induction false} ApplyWritesKeys(s: Store, es: seq<Exercise>)
    ensures ApplyWrites(s, es).Keys == s.Keys + KeySet(es)
    decreases |es|
  {
    if es != [] {
      ApplyWritesKeys(s, es[..|es| - 1]);
    }
  }

  /** A document that no record writes to is left exactly as it was. */
  lemma {:induction false} Untouched(s: Store, es: seq<Exercise>, k: string)
    requires k !in KeySet(es)
    ensures (k in ApplyWrites(s, es) <==> k in s)
    ensures Lookup(ApplyWrites(s, es), k) == Lookup(s, k)
    decreases |es|
  {
    if es != [] {
      Untouched(s, es[..|es| - 1], k);
    }
  }

  /** Fields of a document outside the eleven the importer writes survive
      any number of merges. */
  lemma {:induction false} ExtraFieldsKept(s: Store, es: seq<Exercise>, k: string)
    ensures Lookup(ApplyWrites(s, es), k) - FieldNames == Lookup(s, k) - FieldNames
    decreases |es|
  {
    if es != [] {
      var prev := ApplyWrites(s, es[..|es| - 1]);
      ExtraFieldsKept(s, es[..|es| - 1], k);
      match KeyOf(es[|es| - 1])
      case None =>
      case Some(j) =>
        if j == k {
          ResidueOfOverride(Lookup(prev, k), Fields(es[|es| - 1]));
        }
    }
  }

  lemma ResidueOfOverride(a: Object, f: Object)
    requires f.Keys == FieldNames
    ensures (a + f) - FieldNames == a - FieldNames
  {
  }

  /** Merging a full record over two documents that agree outside the
      record's fields gives the same document. */
  lemma OverrideAll(a: Object, b: Object, f: Object)
    requires f.Keys == FieldNames
    requires a - FieldNames == b - FieldNames
    ensures a + f == b + f
  {
    forall x | x in a && x !in FieldNames ensures x in b && b[x] == a[x] {
      assert x in a - FieldNames;
    }
    forall x | x in b && x !in FieldNames ensures x in a {
      assert x in b - FieldNames;
    }
  }

  /** Last writer wins: when several records share a document id, the
      document ends up with the fields of the last of them, over whatever
      fields it had before the run. */
  lemma {:induction false} LastWriterWins(s: Store, es: seq<Exercise>, j: nat)
    requires j < |es| && KeyOf(es[j]).Some?
    requires forall i :: j < i < |es| ==> KeyOf(es[i]) != KeyOf(es[j])
    ensures KeyOf(es[j]).value in ApplyWrites(s, es)
    ensures ApplyWrites(s, es)[KeyOf(es[j]).value] == Lookup(s, KeyOf(es[j]).value) + Fields(es[j])
    decreases |es|
  {
    var k := KeyOf(es[j]).value;
    var p := es[..|es| - 1];
    var prev := ApplyWrites(s, p);
    if j == |es| - 1 {
      ExtraFieldsKept(s, p, k);
      OverrideAll(Lookup(prev, k), Lookup(s, k), Fields(es[j]));
    } else {
      assert p[j] == es[j];
      LastWriterWins(s, p, j);
    }
  }

  // ---------------------------------------------------------------------
  // Rerun: stores that differ only in what the run itself writes
  // ---------------------------------------------------------------------

  /** `x` and `y` are the same collection, except that documents in
      `pending` may differ in (or lack) the eleven importer fields. */
  ghost predicate Similar(x: Store, y: Store, pending: set<string>) {
    (forall k :: k !in pending ==> (k in x <==> k in y) && Lookup(x, k) == Lookup(y, k)) &&
    (forall k :: Lookup(x, k) - FieldNames == Lookup(y, k) - FieldNames)
  }

  /** Writes to ids inside `pending` keep a store similar to where it
      started. */
  lemma WritesStaySimilar(s: Store, es: seq<Exercise>, pending: set<string>)
    requires KeySet(es) <= pending
    ensures Similar(ApplyWrites(s, es), s, pending)
  {
    forall k | k !in pending
      ensures (k in ApplyWrites(s, es) <==> k in s) && Lookup(ApplyWrites(s, es), k) == Lookup(s, k)
    {
      Untouched(s, es, k);
    }
    forall k ensures Lookup(ApplyWrites(s, es), k) - FieldNames == Lookup(s, k) - FieldNames {
      ExtraFieldsKept(s, es, k);
    }
  }

  lemma SimilarTrans(x: Store, y: Store, z: Store, pending: set<string>)
    requires Similar(x, y, pending) && Similar(y, z, pending)
    ensures Similar(x, z, pending)
  {
  }

  lemma MergeBothSimilar(x: Store, y: Store, pending: set<string>, k: string, f: Object)
    requires Similar(x, y, pending) && f.Keys == FieldNames
    ensures Similar(MergeSet(x, k, f), MergeSet(y, k, f), pending - {k})
  {
    OverrideAll(Lookup(x, k), Lookup(y, k), f);
    var x', y' := MergeSet(x, k, f), MergeSet(y, k, f);
    forall j ensures Lookup(x', j) - FieldNames == Lookup(y', j) - FieldNames {
      if j != k {
        assert Lookup(x', j) == Lookup(x, j) && Lookup(y', j) == Lookup(y, j);
      }
    }
  }

  /** Applying the same writes to two similar stores removes every written
      id from the set where they may differ. */
  lemma {:induction false} WritesConverge(x: Store, y: Store, pending: set<string>, es: seq<Exercise>)
    requires Similar(x, y, pending)
    ensures Similar(ApplyWrites(x, es), ApplyWrites(y, es), pending - KeySet(es))
    decreases |es|
  {
    if es != [] {
      var p := es[..|es| - 1];
      WritesConverge(x, y, pending, p);
      var e := es[|es| - 1];
      match KeyOf(e)
      case None =>
      case Some(k) =>
        MergeBothSimilar(ApplyWrites(x, p), ApplyWrites(y, p), pending - KeySet(p), k, Fields(e));
        assert pending - KeySet(p) - {k} == pending - KeySet(es);
    }
  }

  lemma SimilarNothingPending(x: Store, y: Store)
    requires Similar(x, y, {})
    ensures x == y
  {
    forall k | k in x ensures k in y && x[k] == y[k] {
      assert Lookup(x, k) == Lookup(y, k);
    }
  }

  // ---------------------------------------------------------------------
  // The batch loop
  // ---------------------------------------------------------------------

  /** The loop's running state: the collection, the two tallies, and whether
      an exception escaped the loop (which ends the run). */
  datatype ImportState = ImportState(store: Store, imported: nat, errors: nat, aborted: bool)

  function Start(s: Store): ImportState {
    ImportState(s, 0, 0, false)
  }

  /** One pass of the loop body for one slice: stage every write (a record
      whose id names no document throws here, before the commit), then
      commit. A commit that succeeds applies the whole slice and adds its
      length to `imported`; one that fails applies nothing and adds its
      length to `errors`. */
  function CommitBatch(st: ImportState, batch: seq<Exercise>, ok: bool): (r: ImportState)
    ensures st.aborted ==> r == st
    ensures !st.aborted ==> (r.aborted <==> !AllKeyed(batch))
    ensures !r.aborted ==> r.imported + r.errors == st.imported + st.errors + |batch|
    ensures !ok ==> r.store == st.store && r.imported == st.imported
    ensures ok ==> r.errors == st.errors
  {
    if st.aborted then st
    else if !AllKeyed(batch) then st.(aborted := true)
    else if ok then st.(store := ApplyWrites(st.store, batch), imported := st.imported + |batch|)
    else st.(errors := st.errors + |batch|)
  }

  /** The loop over the slices, in order; `oks[b]` is how the b-th commit
      came back. */
  function RunBatches(st: ImportState, cs: seq<seq<Exercise>>, oks: seq<bool>): (r: ImportState)
    requires |oks| == |cs|
    ensures st.aborted ==> r == st
    ensures r.imported >= st.imported && r.errors >= st.errors
    decreases |cs|
  {
    if cs == [] then st
    else CommitBatch(RunBatches(st, cs[..|cs| - 1], oks[..|oks| - 1]), cs[|cs| - 1], oks[|oks| - 1])
  }

  /** The whole import of a normalised list into a collection. */
  function Import(s: Store, exercises: seq<Exercise>, commitOk: seq<bool>): (r: ImportState)
    requires |commitOk| == BatchCount(|exercises|)
    ensures r.aborted <==> !AllKeyed(exercises)
    ensures !r.aborted ==> r.imported + r.errors == |exercises|
  {
    ChunksPartition(exercises);
    RunFacts(Start(s), Chunks(exercises), commitOk);
    TallyTotal(Chunks(exercises), commitOk);
    RunBatches(Start(s), Chunks(exercises), commitOk)
  }

  /** Sum of the lengths of the slices whose commit outcome is `want`. */
  function Tally(cs: seq<seq<Exercise>>, oks: seq<bool>, want: bool): nat
    requires |oks| == |cs|
    decreases |cs|
  {
    if cs == [] then 0
    else
      Tally(cs[..|cs| - 1], oks[..|oks| - 1], want) +
      (if oks[|oks| - 1] == want then |cs[|cs| - 1]| else 0)
  }

  /** The slices whose commit succeeded, in order. */
  function Committed(cs: seq<seq<Exercise>>, oks: seq<bool>): seq<seq<Exercise>>
    requires |oks| == |cs|
    decreases |cs|
  {
    if cs == [] then []
    else
      Committed(cs[..|cs| - 1], oks[..|oks| - 1]) +
      (if oks[|oks| - 1] then [cs[|cs| - 1]] else [])
  }

  /** Every record lands in exactly one of the two tallies. */
  lemma {:induction false} TallyTotal(cs: seq<seq<Exercise>>, oks: seq<bool>)
    requires |oks| == |cs|
    ensures Tally(cs, oks, true) + Tally(cs, oks, false) == |Flatten(cs)|
    decreases |cs|
  {
    if cs != [] {
      var p := cs[..|cs| - 1];
      TallyTotal(p, oks[..|oks| - 1]);
      FlattenSnoc(p, cs[|cs| - 1]);
      assert cs == p + [cs[|cs| - 1]];
    }
  }

  /** The loop over the first b + 1 slices is the loop over the first b
      followed by the body for slice b. */
  lemma RunBatchesStep(st: ImportState, cs: seq<seq<Exercise>>, oks: seq<bool>, b: nat)
    requires |oks| == |cs| && b < |cs|
    ensures RunBatches(st, cs[..b + 1], oks[..b + 1]) == CommitBatch(RunBatches(st, cs[..b], oks[..b]), cs[b], oks[b])
  {
    assert cs[..b + 1][..b] == cs[..b] && oks[..b + 1][..b] == oks[..b];
  }

  /** Once the loop has been left by an exception, later slices change
      nothing. */
  lemma {:induction false} AbortSticks(st: ImportState, cs: seq<seq<Exercise>>, oks: seq<bool>, p: nat)
    requires |oks| == |cs| && p <= |cs|
    requires RunBatches(st, cs[..p], oks[..p]).aborted
    ensures RunBatches(st, cs, oks) == RunBatches(st, cs[..p], oks[..p])
    decreases |cs|
  {
    if p < |cs| {
      var n := |cs|;
      assert cs[..n - 1][..p] == cs[..p] && oks[..n - 1][..p] == oks[..p];
      AbortSticks(st, cs[..n - 1], oks[..n - 1], p);
    } else {
      assert cs[..p] == cs && oks[..p] == oks;
    }
  }

  /** What the loop computes, slice by slice: it stops early exactly when
      some record has no usable document id; otherwise each slice is counted
      once, as imported when its commit succeeded and as errors when it
      failed, and the collection holds the writes of the successful slices
      only. */
  lemma {:induction false} RunFacts(st: ImportState, cs: seq<seq<Exercise>>, oks: seq<bool>)
    requires |oks| == |cs| && !st.aborted
    ensures RunBatches(st, cs, oks).aborted <==> !AllKeyed(Flatten(cs))
    ensures !RunBatches(st, cs, oks).aborted ==>
      && RunBatches(st, cs, oks).imported == st.imported + Tally(cs, oks, true)
      && RunBatches(st, cs, oks).errors == st.errors + Tally(cs, oks, false)
      && RunBatches(st, cs, oks).store == ApplyWrites(st.store, Flatten(Committed(cs, oks)))
    decreases |cs|
  {
    if cs != [] {
      var n := |cs|;
      var p, op, c := cs[..n - 1], oks[..n - 1], cs[n - 1];
      RunFacts(st, p, op);
      assert cs == p + [c];
      FlattenSnoc(p, c);
      AllKeyedAppend(Flatten(p), c);
      var prev := RunBatches(st, p, op);
      if !prev.aborted && AllKeyed(c) && oks[n - 1] {
        FlattenSnoc(Committed(p, op), c);
        ApplyWritesAppend(st.store, Flatten(Committed(p, op)), c);
      } else if !prev.aborted && AllKeyed(c) {
        assert Committed(cs, oks) == Committed(p, op) + [];
        assert Committed(cs, oks) == Committed(p, op);
        assert RunBatches(st, cs, oks).store == prev.store;
      }
    } else {
      assert AllKeyed(Flatten(cs));
    }
  }

  /** Whatever the commit outcomes, the collection after the loop differs
      from the one before only in the importer's fields of the documents
      the records name. */
  lemma {:induction false} RunStaysSimilar(st: ImportState, cs: seq<seq<Exercise>>, oks: seq<bool>)
    requires |oks| == |cs|
    ensures Similar(RunBatches(st, cs, oks).store, st.store, KeySet(Flatten(cs)))
    decreases |cs|
  {
    if cs == [] {
      assert Similar(st.store, st.store, {});
    } else {
      var n := |cs|;
      var p, op, c := cs[..n - 1], oks[..n - 1], cs[n - 1];
      RunStaysSimilar(st, p, op);
      assert cs == p + [c];
      FlattenSnoc(p, c);
      KeySetAppend(Flatten(p), c);
      var pending := KeySet(Flatten(cs));
      var prev := RunBatches(st, p, op);
      assert Similar(prev.store, st.store, pending);
      if !prev.aborted && AllKeyed(c) && oks[n - 1] {
        WritesStaySimilar(prev.store, c, pending);
        SimilarTrans(ApplyWrites(prev.store, c), prev.store, st.store, pending);
      }
    }
  }

  /** The totals printed at the end of the run: the loop is left early
      exactly when some record's id is not a string; otherwise
      `totalImported + totalErrors` is the number of records, each tally
      being the summed length of the slices whose commit succeeded,
      respectively failed. */
  lemma ImportTotals(s: Store, exercises: seq<Exercise>, commitOk: seq<bool>)
    requires |commitOk| == BatchCount(|exercises|)
    ensures Import(s, exercises, commitOk).aborted <==> !AllKeyed(exercises)
    ensures !AllKeyed(exercises) ==> Import(s, exercises, commitOk).imported + Import(s, exercises, commitOk).errors < |exercises|
    ensures AllKeyed(exercises) ==>
      && Import(s, exercises, commitOk).imported + Import(s, exercises, commitOk).errors == |exercises|
      && Import(s, exercises, commitOk).imported == Tally(Chunks(exercises), commitOk, true)
      && Import(s, exercises, commitOk).errors == Tally(Chunks(exercises), commitOk, false)
  {
    var cs := Chunks(exercises);
    ChunksPartition(exercises);
    RunFacts(Start(s), cs, commitOk);
    TallyTotal(cs, commitOk);
    if !AllKeyed(exercises) {
      forall b | 0 <= b < |cs| ensures |cs[b]| > 0 {
        ChunkSizes(exercises, b);
      }
      ProcessedBeforeAbort(Start(s), cs, commitOk);
    }
  }

  /** Before the abort, the tallies cover the slices already done, and the
      slice that threw is among the ones left: fewer than all records are
      counted. */
  lemma {:induction false} ProcessedBeforeAbort(st: ImportState, cs: seq<seq<Exercise>>, oks: seq<bool>)
    requires |oks| == |cs| && !st.aborted
    requires forall b :: 0 <= b < |cs| ==> |cs[b]| > 0
    ensures RunBatches(st, cs, oks).imported + RunBatches(st, cs, oks).errors <= st.imported + st.errors + |Flatten(cs)|
    ensures RunBatches(st, cs, oks).aborted ==>
      RunBatches(st, cs, oks).imported + RunBatches(st, cs, oks).errors < st.imported + st.errors + |Flatten(cs)|
    decreases |cs|
  {
    if cs != [] {
      var n := |cs|;
      var p, op, c := cs[..n - 1], oks[..n - 1], cs[n - 1];
      ProcessedBeforeAbort(st, p, op);
      assert cs == p + [c];
      FlattenSnoc(p, c);
    }
  }

  /** The collection after the loop holds exactly the writes of the slices
      whose commit succeeded, applied in order: a failed slice leaves no
      trace and does not stop the slices after it. */
  lemma ImportStore(s: Store, exercises: seq<Exercise>, commitOk: seq<bool>)
    requires |commitOk| == BatchCount(|exercises|)
    requires AllKeyed(exercises)
    ensures Import(s, exercises, commitOk).store == ApplyWrites(s, Flatten(Committed(Chunks(exercises), commitOk)))
  {
    ChunksPartition(exercises);
    RunFacts(Start(s), Chunks(exercises), commitOk);
  }

  /** When every commit succeeds, every record is imported, no error is
      counted, and the collection is the result of writing every record in
      input order. */
  lemma ImportAllCommitted(s: Store, exercises: seq<Exercise>, commitOk: seq<bool>)
    requires |commitOk| == BatchCount(|exercises|)
    requires AllKeyed(exercises)
    requires forall b :: 0 <= b < |commitOk| ==> commitOk[b]
    ensures Import(s, exercises, commitOk) == ImportState(ApplyWrites(s, exercises), |exercises|, 0, false)
  {
    var cs := Chunks(exercises);
    ChunksPartition(exercises);
    RunFacts(Start(s), cs, commitOk);
    TallyTotal(cs, commitOk);
    AllSucceed(cs, commitOk);
  }

  lemma {:induction false} AllSucceed(cs: seq<seq<Exercise>>, oks: seq<bool>)
    requires |oks| == |cs|
    requires forall b :: 0 <= b < |oks| ==> oks[b]
    ensures Committed(cs, oks) == cs && Tally(cs, oks, false) == 0
    decreases |cs|
  {
    if cs != [] {
      AllSucceed(cs[..|cs| - 1], oks[..|oks| - 1]);
    }
  }

  /** Rerunning converges: a successful run over a collection that an
      earlier run (of records writing to no other ids, with any commit
      outcomes) has touched ends in the same state as that successful run
      over the untouched collection. */
  lemma RerunConverges(s: Store, e1: seq<Exercise>, o1: seq<bool>, e2: seq<Exercise>, o2: seq<bool>)
    requires |o1| == BatchCount(|e1|) && |o2| == BatchCount(|e2|)
    requires AllKeyed(e2) && KeySet(e1) <= KeySet(e2)
    requires forall b :: 0 <= b < |o2| ==> o2[b]
    ensures Import(Import(s, e1, o1).store, e2, o2) == Import(s, e2, o2)
  {
    var s1 := Import(s, e1, o1).store;
    ChunksPartition(e1);
    RunStaysSimilar(Start(s), Chunks(e1), o1);
    assert Similar(s1, s, KeySet(e2));
    WritesConverge(s1, s, KeySet(e2), e2);
    SimilarNothingPending(ApplyWrites(s1, e2), ApplyWrites(s, e2));
    ImportAllCommitted(s1, e2, o2);
    ImportAllCommitted(s, e2, o2);
  }

  /** The pipeline is safe to rerun when every source record carries its
      own string id (`id` or `exerciseId`): whatever the first run's random
      tokens, timestamp and commit failures, a second run whose commits all
      succeed leaves the collection as that second run alone would; and
      with the same timestamp, rerunning a successful import changes
      nothing. */
  lemma RerunIdempotent(
    s: Store, recs: seq<Object>,
    tokens1: seq<string>, syncedAt1: Value, commitOk1: seq<bool>,
    tokens2: seq<string>, syncedAt2: Value, commitOk2: seq<bool>)
    requires |tokens1| == |recs| && |tokens2| == |recs|
    requires forall k :: 0 <= k < |recs| ==> StableId(recs[k])
    requires |commitOk1| == BatchCount(|recs|) && |commitOk2| == BatchCount(|recs|)
    requires forall b :: 0 <= b < |commitOk2| ==> commitOk2[b]
    ensures
      var e1 := NormaliseAll(recs, tokens1, syncedAt1);
      var e2 := NormaliseAll(recs, tokens2, syncedAt2);
      Import(Import(s, e1, commitOk1).store, e2, commitOk2) == Import(s, e2, commitOk2)
    ensures
      var e2 := NormaliseAll(recs, tokens2, syncedAt2);
      Import(Import(s, e2, commitOk2).store, e2, commitOk2).store == Import(s, e2, commitOk2).store
  {
    var e1 := NormaliseAll(recs, tokens1, syncedAt1);
    var e2 := NormaliseAll(recs, tokens2, syncedAt2);
    forall k | 0 <= k < |recs| ensures KeyOf(e1[k]) == KeyOf(e2[k]) && KeyOf(e2[k]).Some? {
      NormaliseDeterministic(recs[k], tokens1[k], tokens2[k], syncedAt1, syncedAt2);
      NormaliseDeterministic(recs[k], tokens2[k], tokens2[k], syncedAt2, syncedAt2);
    }
    KeySetPointwise(e1, e2);
    RerunConverges(s, e1, commitOk1, e2, commitOk2);
    RerunConverges(s, e2, commitOk2, e2, commitOk2);
    ImportAllCommitted(s, e2, commitOk2);
  }

  /** The random id fallback breaks reruns: a record with neither `id` nor
      `exerciseId` gets a fresh id from each run's token, so after two
      successful runs with different tokens the collection holds, besides
      what it held before, two documents where one run leaves one. */
  lemma RandomIdBreaksRerun(
    s: Store, rec: Object, t1: string, syncedAt1: Value, t2: string, syncedAt2: Value)
    requires !Truthy(Get(rec, "id")) && !Truthy(Get(rec, "exerciseId"))
    requires t1 != t2 && RandomIdPrefix + t1 !in s
    ensures SingleRun(s, rec, t2, syncedAt2).Keys == s.Keys + {RandomIdPrefix + t2}
    ensures SingleRun(SingleRun(s, rec, t1, syncedAt1), rec, t2, syncedAt2).Keys
         == s.Keys + {RandomIdPrefix + t1, RandomIdPrefix + t2}
    ensures RandomIdPrefix + t1 !in SingleRun(s, rec, t2, syncedAt2)
  {
    assert RandomIdPrefix + t1 != RandomIdPrefix + t2 by {
      assert (RandomIdPrefix + t1)[|RandomIdPrefix|..] == t1;
      assert (RandomIdPrefix + t2)[|RandomIdPrefix|..] == t2;
    }
    FallbackRun(s, rec, t1, syncedAt1);
    FallbackRun(s, rec, t2, syncedAt2);
    FallbackRun(SingleRun(s, rec, t1, syncedAt1), rec, t2, syncedAt2);
  }

  /** The collection after one run over a file holding the single record
      `rec`, its one commit succeeding. */
  function SingleRun(s: Store, rec: Object, t: string, syncedAt: Value): Store {
    Import(s, NormaliseAll([rec], [t], syncedAt), [true]).store
  }

  /** One successful run over a single record that has no id of its own
      adds the document named by its random token. */
  lemma FallbackRun(s: Store, rec: Object, t: string, syncedAt: Value)
    requires !Truthy(Get(rec, "id")) && !Truthy(Get(rec, "exerciseId"))
    ensures SingleRun(s, rec, t, syncedAt).Keys == s.Keys + {RandomIdPrefix + t}
  {
    var x := Normalise(rec, t, syncedAt);
    assert NormaliseAll([rec], [t], syncedAt) == [x] by {
      assert NormaliseAll([rec], [t], syncedAt)[0] == x;
    }
    ImportOne(s, x);
  }

  /** Importing a single record with a string id adds its document. */
  lemma ImportOne(s: Store, e: Exercise)
    requires KeyOf(e).Some?
    ensures Import(s, [e], [true]).store.Keys == s.Keys + {KeyOf(e).value}
  {
    ImportAllCommitted(s, [e], [true]);
    ApplyWritesKeys(s, [e]);
    assert KeySet([e]) == {KeyOf(e).value} by {
      assert [e][..0] == [];
    }
  }

  /** Staging the first j + 1 writes is staging the first j, then one more. */
  lemma StagePrefix(store: Store, batch: seq<Exercise>, j: nat)
    requires j < |batch|
    ensures ApplyWrites(store, batch[..j + 1]) == Write(ApplyWrites(store, batch[..j]), batch[j])
  {
    assert batch[..j + 1][..j] == batch[..j];
  }

  /** The write of a record with a string id is a merge into that id. */
  lemma WriteKeyed(s: Store, e: Exercise)
    requires e.id.Str?
    ensures Write(s, e) == MergeSet(s, e.id.s, Fields(e))
  {
  }

  lemma StageKeyed(batch: seq<Exercise>, j: nat)
    requires j < |batch| && KeyOf(batch[j]).Some? && AllKeyed(batch[..j])
    ensures AllKeyed(batch[..j + 1])
  {
    var p := batch[..j + 1];
    forall i | 0 <= i < j + 1 ensures KeyOf(p[i]).Some? {
      if i < j {
        assert p[i] == batch[..j][i];
      }
    }
  }


  /** One pass of the outer loop, as the method takes it: slice b is the
      slice the loop cuts at b * 500, and the pass ends in the state the
      loop body computes. */
  lemma ImportStep(
    store: Store, exercises: seq<Exercise>, commitOk: seq<bool>, b: nat, batch: seq<Exercise>)
    requires |commitOk| == BatchCount(|exercises|) && b < BatchCount(|exercises|)
    requires b * BatchSize <= Min((b + 1) * BatchSize, |exercises|) <= |exercises|
    requires batch == exercises[b * BatchSize .. Min((b + 1) * BatchSize, |exercises|)]
    ensures RunBatches(Start(store), Chunks(exercises)[..b + 1], commitOk[..b + 1])
         == CommitBatch(RunBatches(Start(store), Chunks(exercises)[..b], commitOk[..b]), batch, commitOk[b])
  {
    ChunkAt(exercises, b);
    RunBatchesStep(Start(store), Chunks(exercises), commitOk, b);
  }

  /** A run that throws at slice b: it ends aborted, and the collection
      keeps the writes of the slices before b that committed, and nothing
      else. */
  lemma ImportAbortStore(s: Store, exercises: seq<Exercise>, commitOk: seq<bool>, b: nat)
    requires |commitOk| == BatchCount(|exercises|) && b < BatchCount(|exercises|)
    requires AllKeyed(Flatten(Chunks(exercises)[..b])) && !AllKeyed(Chunks(exercises)[b])
    ensures Import(s, exercises, commitOk).aborted
    ensures Import(s, exercises, commitOk).store
         == ApplyWrites(s, Flatten(Committed(Chunks(exercises)[..b], commitOk[..b])))
  {
    var cs := Chunks(exercises);
    RunFacts(Start(s), cs[..b], commitOk[..b]);
    RunBatchesStep(Start(s), cs, commitOk, b);
    AbortSticks(Start(s), cs, commitOk, b + 1);
  }

  /** Leaving the loop by an exception at slice b: the run's outcome is the
      state reached then, and some record has no usable id. */
  lemma ImportAbort(store: Store, exercises: seq<Exercise>, commitOk: seq<bool>, b: nat)
    requires |commitOk| == BatchCount(|exercises|) && b < BatchCount(|exercises|)
    requires RunBatches(Start(store), Chunks(exercises)[..b + 1], commitOk[..b + 1]).aborted
    ensures Import(store, exercises, commitOk) == RunBatches(Start(store), Chunks(exercises)[..b + 1], commitOk[..b + 1])
    ensures !AllKeyed(exercises)
  {
    AbortSticks(Start(store), Chunks(exercises), commitOk, b + 1);
    ImportTotals(store, exercises, commitOk);
  }

  /** The inner loop of one batch: `batch.set(doc(exercise.id), exercise,
      { merge: true })` for each record of the slice, in order. The writes
      are staged on a copy of the collection; `keyed` is false when some
      record's id is not a string, at which point `doc()` throws. */
  method StageBatch(store: Store, batch: seq<Exercise>) returns (staged: Store, keyed: bool)
    ensures keyed <==> AllKeyed(batch)
    ensures keyed ==> staged == ApplyWrites(store, batch)
  {
    staged := store;
    for j := 0 to |batch|
      invariant AllKeyed(batch[..j])
      invariant staged == ApplyWrites(store, batch[..j])
    {
      var exercise := batch[j];
      if !exercise.id.Str? {
        return staged, false;
      }
      StagePrefix(store, batch, j);
      StageKeyed(batch, j);
      WriteKeyed(staged, exercise);
      staged := MergeSet(staged, exercise.id.s, Fields(exercise));
    }
    assert batch[..|batch|] == batch;
    keyed := true;
  }

  /** One pass of the batch loop's body: stage the slice's writes, then
      commit them, and count the slice as imported or failed by how the
      commit came back. `threw` is set when staging threw, in which case
      nothing is committed or counted. */
  method CommitSlice(store: Store, imported: nat, errors: nat, batch: seq<Exercise>, ok: bool)
    returns (store': Store, imported': nat, errors': nat, threw: bool)
    ensures ImportState(store', imported', errors', threw) == CommitBatch(ImportState(store, imported, errors, false), batch, ok)
    ensures threw <==> !AllKeyed(batch)
    ensures !threw ==> imported' + errors' == imported + errors + |batch|
  {
    var staged, keyed := StageBatch(store, batch);
    if !keyed {
      return store, imported, errors, true;
    }
    store', imported', errors', threw := store, imported, errors, false;
    if ok {
      store' := staged;
      imported' := imported + |batch|;
    } else {
      errors' := errors + |batch|;
    }
  }

  /** The batch loop of the importer. Slices of `BatchSize` records are
      staged one `set` at a time and then committed; `commitOk[b]` is the
      outcome of the b-th commit. A record whose id is not a string makes
      `doc()` throw while staging, which leaves the loop (`aborted`); the
      slices committed before stay committed. */
  method ImportLibrary(store: Store, exercises: seq<Exercise>, commitOk: seq<bool>)
    returns (result: Store, totalImported: nat, totalErrors: nat, aborted: bool)
    requires |commitOk| == BatchCount(|exercises|)
    ensures ImportState(result, totalImported, totalErrors, aborted) == Import(store, exercises, commitOk)
    ensures aborted <==> !AllKeyed(exercises)
    ensures !aborted ==> totalImported + totalErrors == |exercises|
  {
    ghost var cs := Chunks(exercises);
    result, totalImported, totalErrors, aborted := store, 0, 0, false;
    var i := 0;
    var b := 0;
    BatchIndex(b, |exercises|);
    while i < |exercises|
      invariant b <= |cs| && i == b * BatchSize
      invariant b < |cs| <==> i < |exercises|
      invariant ImportState(result, totalImported, totalErrors, false) == RunBatches(Start(store), cs[..b], commitOk[..b])
    {
      var end := Min(i + BatchSize, |exercises|);
      var batch := exercises[i..end];
      ImportStep(store, exercises, commitOk, b, batch);
      result, totalImported, totalErrors, aborted := CommitSlice(result, totalImported, totalErrors, batch, commitOk[b]);
      if aborted {
        ImportAbort(store, exercises, commitOk, b);
        return;
      }
      i, b := i + BatchSize, b + 1;
      BatchIndex(b, |exercises|);
    }
    assert cs[..b] == cs && commitOk[..b] == commitOk;
  }
}
