/** The seed loader: one record at a time, in input order, look its `name`
    up in the `exercises` collection, skip the record when the name is
    taken, and otherwise add a new document carrying the record's fields
    plus `nameSearch` and `createdAt`. Every failure is counted and the loop
    goes on. */
module SeedLoader {
  import opened Js

  /** A document of the `exercises` collection. The collection is the list
      of its documents in the order they were added; the ids Firestore
      generates for them play no part in the loop. */
  type Doc = Object

  /** How the store calls made for one record come back: both succeed, the
      name query throws, or the query succeeds and `add` throws. */
  datatype Attempt = Succeeds | LookupFails | AddFails

  /** The collection and the three counters of the loop. */
  datatype SeedState = SeedState(docs: seq<Doc>, created: nat, skipped: nat, errors: nat)

  /** The query `where('name', '==', name).limit(1)` finds a document. */
  predicate NameTaken(docs: seq<Doc>, name: Value) {
    exists i :: 0 <= i < |docs| && Get(docs[i], "name") == name
  }

  /** `{ ...exercise, nameSearch: name.toLowerCase(), createdAt }`: every
      source field, with the two added fields overriding source fields of
      the same names. */
  function NewDoc(rec: Doc, name: string, createdAt: Value): (d: Doc)
    ensures d.Keys == rec.Keys + {"nameSearch", "createdAt"}
    ensures d["nameSearch"] == Str(Lower(name)) && d["createdAt"] == createdAt
    ensures forall f :: f in rec && f != "nameSearch" && f != "createdAt" ==> d[f] == rec[f]
  {
    rec["nameSearch" := Str(Lower(name))]["createdAt" := createdAt]
  }

  /** One pass of the loop body. The query throws when the store fails or
      when the record has no `name` (Firestore rejects `undefined` in a
      query); a taken name is skipped; `toLowerCase` throws on a name that
      is not a string; then `add` may throw. Every throw counts one error
      and writes nothing. */
  function SeedOne(st: SeedState, rec: Doc, attempt: Attempt, createdAt: Value): (r: SeedState)
    ensures r.created + r.skipped + r.errors == st.created + st.skipped + st.errors + 1
    ensures r.created == st.created ==> r.docs == st.docs
    ensures r.created != st.created ==>
      && r.created == st.created + 1 && r.skipped == st.skipped && r.errors == st.errors
      && Get(rec, "name").Str? && !NameTaken(st.docs, Get(rec, "name"))
      && r.docs == st.docs + [NewDoc(rec, Get(rec, "name").s, createdAt)]
    ensures attempt == LookupFails ==> r == st.(errors := st.errors + 1)
    ensures attempt != LookupFails && Get(rec, "name") != Undefined && NameTaken(st.docs, Get(rec, "name"))
      ==> r == st.(skipped := st.skipped + 1)
    ensures Get(rec, "name") == Undefined ==> r == st.(errors := st.errors + 1)
    ensures attempt != LookupFails && Get(rec, "name") != Undefined && !NameTaken(st.docs, Get(rec, "name"))
      && (attempt == AddFails || !Get(rec, "name").Str?)
      ==> r == st.(errors := st.errors + 1)
    ensures attempt == Succeeds && Get(rec, "name").Str? && !NameTaken(st.docs, Get(rec, "name"))
      ==> r == st.(docs := st.docs + [NewDoc(rec, Get(rec, "name").s, createdAt)], created := st.created + 1)
  {
    var name := Get(rec, "name");
    if attempt == LookupFails || name == Undefined then
      st.(errors := st.errors + 1)
    else if NameTaken(st.docs, name) then
      st.(skipped := st.skipped + 1)
    else if !name.Str? || attempt == AddFails then
      st.(errors := st.errors + 1)
    else
      st.(docs := st.docs + [NewDoc(rec, name.s, createdAt)], created := st.created + 1)
  }

  /** The loop over the records, in input order; `attempts[i]` is how the
      store calls for record i came back. */
  function Seed(st: SeedState, recs: seq<Doc>, attempts: seq<Attempt>, createdAt: Value): (r: SeedState)
    requires |attempts| == |recs|
    ensures r.created + r.skipped + r.errors == st.created + st.skipped + st.errors + |recs|
    ensures r.created >= st.created && |r.docs| == |st.docs| + (r.created - st.created)
    decreases |recs|
  {
    if recs == [] then st
    else
      SeedOne(
        Seed(st, recs[..|recs| - 1], attempts[..|attempts| - 1], createdAt),
        recs[|recs| - 1], attempts[|attempts| - 1], createdAt)
  }

  function Start(docs: seq<Doc>): SeedState {
    SeedState(docs, 0, 0, 0)
  }

  /** Every record is counted exactly once, as created, skipped or error;
      the collection only grows, by exactly one document per creation, and
      the documents that were there stay as they were. */
  lemma {:induction false} SeedCounts(st: SeedState, recs: seq<Doc>, attempts: seq<Attempt>, createdAt: Value)
    requires |attempts| == |recs|
    ensures var r := Seed(st, recs, attempts, createdAt);
      && r.created + r.skipped + r.errors == st.created + st.skipped + st.errors + |recs|
      && r.created >= st.created
      && |r.docs| == |st.docs| + (r.created - st.created)
      && r.docs[..|st.docs|] == st.docs
    decreases |recs|
  {
    if recs != [] {
      SeedCounts(st, recs[..|recs| - 1], attempts[..|attempts| - 1], createdAt);
    }
  }

  /** The documents from index `base` on were each added under a name that
      no earlier document had. */
  ghost predicate FreshNames(docs: seq<Doc>, base: nat) {
    forall i, j :: base <= i < |docs| && 0 <= j < i ==> Get(docs[j], "name") != Get(docs[i], "name")
  }

  /** No name is created twice: whatever the failures, each document the
      loop adds carries a name that no document before it had, neither one
      already in the collection nor one added earlier in the run. */
  lemma {:induction false} SeedNamesFresh(st: SeedState, base: nat, recs: seq<Doc>, attempts: seq<Attempt>, createdAt: Value)
    requires |attempts| == |recs|
    requires FreshNames(st.docs, base)
    ensures FreshNames(Seed(st, recs, attempts, createdAt).docs, base)
    decreases |recs|
  {
    if recs != [] {
      var prev := Seed(st, recs[..|recs| - 1], attempts[..|attempts| - 1], createdAt);
      SeedNamesFresh(st, base, recs[..|recs| - 1], attempts[..|attempts| - 1], createdAt);
      var r := Seed(st, recs, attempts, createdAt);
      if r.created != prev.created {
        var rec := recs[|recs| - 1];
        var n := |prev.docs|;
        assert Get(r.docs[n], "name") == Get(rec, "name");
        forall i, j | base <= i < |r.docs| && 0 <= j < i
          ensures Get(r.docs[j], "name") != Get(r.docs[i], "name")
        {
          if i == n {
            assert r.docs[j] == prev.docs[j];
          } else {
            assert r.docs[i] == prev.docs[i] && r.docs[j] == prev.docs[j];
          }
        }
      }
    }
  }

  /** A name query that found a match stays true as documents are added. */
  lemma {:induction false} NameStaysTaken(st: SeedState, recs: seq<Doc>, attempts: seq<Attempt>, createdAt: Value, name: Value)
    requires |attempts| == |recs|
    requires NameTaken(st.docs, name)
    ensures NameTaken(Seed(st, recs, attempts, createdAt).docs, name)
  {
    SeedCounts(st, recs, attempts, createdAt);
    var r := Seed(st, recs, attempts, createdAt);
    var i :| 0 <= i < |st.docs| && Get(st.docs[i], "name") == name;
    assert r.docs[i] == r.docs[..|st.docs|][i];
  }

  /** When every store call succeeds, every record with a string name has a
      document of that name afterwards: either one that was there, or the
      one its own pass (or an earlier record's pass) created. */
  lemma {:induction false} SeedCoversNames(st: SeedState, recs: seq<Doc>, attempts: seq<Attempt>, createdAt: Value)
    requires |attempts| == |recs|
    requires forall i :: 0 <= i < |attempts| ==> attempts[i] == Succeeds
    ensures forall k :: 0 <= k < |recs| && Get(recs[k], "name").Str? ==>
      NameTaken(Seed(st, recs, attempts, createdAt).docs, Get(recs[k], "name"))
    decreases |recs|
  {
    if recs != [] {
      var p, ap := recs[..|recs| - 1], attempts[..|attempts| - 1];
      var prev := Seed(st, p, ap, createdAt);
      SeedCoversNames(st, p, ap, createdAt);
      var rec := recs[|recs| - 1];
      var r := Seed(st, recs, attempts, createdAt);
      assert r == SeedOne(prev, rec, Succeeds, createdAt);
      forall k | 0 <= k < |recs| && Get(recs[k], "name").Str?
        ensures NameTaken(r.docs, Get(recs[k], "name"))
      {
        var name := Get(recs[k], "name");
        if k < |recs| - 1 {
          assert recs[k] == p[k];
          NameStaysTaken(prev, [rec], [Succeeds], createdAt, name);
          assert Seed(prev, [rec], [Succeeds], createdAt) == r by {
            assert [rec][..0] == [] && [Succeeds][..0] == [];
          }
        } else if !NameTaken(prev.docs, name) {
          assert Get(r.docs[|prev.docs|], "name") == name;
        }
      }
    }
  }

  /** A run over one record whose name is already in the collection: once
      the query gets through, the record is skipped and nothing is written,
      whether or not `add` would have failed. */
  lemma ExistingNameSkipped(docs: seq<Doc>, rec: Doc, attempt: Attempt, createdAt: Value)
    requires attempt != LookupFails && Get(rec, "name") != Undefined
    requires NameTaken(docs, Get(rec, "name"))
    ensures Seed(Start(docs), [rec], [attempt], createdAt) == SeedState(docs, 0, 1, 0)
  {
    assert [rec][..0] == [];
  }

  /** Two records with the same name in one input file, neither in the
      collection yet: the first is created, the second sees it and is
      skipped. */
  lemma DuplicateInInput(docs: seq<Doc>, r1: Doc, r2: Doc, name: string, createdAt: Value)
    requires !NameTaken(docs, Str(name))
    requires Get(r1, "name") == Str(name) && Get(r2, "name") == Str(name)
    ensures Seed(Start(docs), [r1, r2], [Succeeds, Succeeds], createdAt)
      == SeedState(docs + [NewDoc(r1, name, createdAt)], 1, 1, 0)
  {
    var one := Seed(Start(docs), [r1], [Succeeds], createdAt);
    assert [r1][..0] == [] && [Succeeds][..0] == [];
    assert Seed(Start(docs), [], [], createdAt) == Start(docs);
    assert one == SeedOne(Start(docs), r1, Succeeds, createdAt);
    assert one == SeedState(docs + [NewDoc(r1, name, createdAt)], 1, 0, 0);
    assert [r1, r2][..1] == [r1] && [Succeeds, Succeeds][..1] == [Succeeds];
    assert Get(one.docs[|docs|], "name") == Str(name);
  }

  /** The loop over the first i + 1 records is the loop over the first i
      followed by the body for record i. */
  lemma SeedStep(st: SeedState, recs: seq<Doc>, attempts: seq<Attempt>, createdAt: Value, i: nat)
    requires |attempts| == |recs| && i < |recs|
    ensures Seed(st, recs[..i + 1], attempts[..i + 1], createdAt)
         == SeedOne(Seed(st, recs[..i], attempts[..i], createdAt), recs[i], attempts[i], createdAt)
  {
    assert recs[..i + 1][..i] == recs[..i] && attempts[..i + 1][..i] == attempts[..i];
  }

  /** One pass of the loop body for record `exercise`, against the
      collection as it stands after the records before it; each early
      `return` is a `continue` of the source loop. */
  method SeedRecord(st: SeedState, exercise: Doc, attempt: Attempt, createdAt: Value)
    returns (st': SeedState)
    ensures st' == SeedOne(st, exercise, attempt, createdAt)
  {
    var name := Get(exercise, "name");
    if attempt == LookupFails || name == Undefined {
      return st.(errors := st.errors + 1);
    }
    var existing := NameTaken(st.docs, name);
    if existing {
      return st.(skipped := st.skipped + 1);
    }
    if !name.Str? || attempt == AddFails {
      return st.(errors := st.errors + 1);
    }
    var exerciseData := NewDoc(exercise, name.s, createdAt);
    st' := st.(docs := st.docs + [exerciseData], created := st.created + 1);
  }

  /** The seed loop. `attempts[i]` says how the store calls for record i
      come back; `createdAt` stands for the server timestamp. */
  method SeedExercises(docs: seq<Doc>, exercisesData: seq<Doc>, attempts: seq<Attempt>, createdAt: Value)
    returns (result: seq<Doc>, created: nat, skipped: nat, errors: nat)
    requires |attempts| == |exercisesData|
    ensures SeedState(result, created, skipped, errors) == Seed(Start(docs), exercisesData, attempts, createdAt)
    ensures created + skipped + errors == |exercisesData|
    ensures |result| == |docs| + created && result[..|docs|] == docs
    ensures FreshNames(result, |docs|)
  {
    var st := Start(docs);
    for i := 0 to |exercisesData|
      invariant st == Seed(Start(docs), exercisesData[..i], attempts[..i], createdAt)
    {
      SeedStep(Start(docs), exercisesData, attempts, createdAt, i);
      st := SeedRecord(st, exercisesData[i], attempts[i], createdAt);
    }
    result, created, skipped, errors := st.docs, st.created, st.skipped, st.errors;
    assert exercisesData[..|exercisesData|] == exercisesData && attempts[..|attempts|] == attempts;
    SeedCounts(Start(docs), exercisesData, attempts, createdAt);
    SeedNamesFresh(Start(docs), |docs|, exercisesData, attempts, createdAt);
  }
}
