# Exercise catalogue loaders, modelled in Dafny

Two one-shot Node.js scripts load a JSON catalogue of fitness exercises
into Firestore. This project models what they do to the data and proves
properties of that behaviour.

- **Library importer** (`scripts/import_exercise_library.js`):
  - Normalises every loose JSON record into an eleven-field exercise
    document. Missing or falsy fields are filled in with JavaScript's `||`.
    The id falls back to `ex_` plus a random token.
  - Cuts the normalised list into slices of 500, Firestore's limit on one
    write batch.
  - Stages one `set(doc(id), record, { merge: true })` per record of a
    slice, then commits the slice. A successful commit adds the slice
    length to `totalImported`; a failed one adds it to `totalErrors`.
- **Seed loader** (`scripts/seed_exercises_node.js`):
  - Takes the records one by one and queries the `exercises` collection
    for the record's `name`.
  - If a document has that name, the record is skipped.
  - Otherwise the loader adds a new document: the record's fields plus
    `nameSearch`, the lower-cased name, and `createdAt`.
  - Every failure counts as one error and the loop goes on.

The modules are:

- `Js` (`js.dfy`): JSON values, JavaScript truthiness, `a || b`, a missing
  property reading as `undefined`, and ASCII `toLowerCase`.
- `LibraryRecord` (`library_record.dfy`): the importer's per-record
  normaliser.
- `Chunking` (`chunking.dfy`): the slices of 500.
- `LibraryImport` (`library_import.dfy`):
  - `exercises_library` is a map from document id to fields, and a merge
    write overrides field by field.
  - `Import` is the batch loop, written as a fold.
  - Lemmas about totals, merging and reruns.
  - The imperative loop `ImportLibrary`, proved equal to that fold.
- `SeedLoader` (`seed_loader.dfy`):
  - The `exercises` collection is the list of its documents.
  - `Seed` is the loop, written as a fold.
  - The imperative loop `SeedExercises`, proved equal to that fold.

Both scripts keep only local counters as their own state. Each collection
lives in the store. So the loops are methods that take the collection in
and give it back, and their contracts tie the outcome to the folds.

The environment becomes inputs to the model:

- **Store failures:**
  - importer: one `bool` per batch commit;
  - seed loader: one `Attempt` per record (`Succeeds`, `LookupFails` or
    `AddFails`).
- **`Math.random` tokens:** one string per record.
- **`FieldValue.serverTimestamp()`:** one value per run.

## Model

| member | source | states |
|---|---|---|
| Js.Truthy | scripts/import_exercise_library.js:101-115 | A value is truthy exactly when it is none of `undefined`, `null`, `false`, `0` and the empty string; every array and object, even an empty one, is truthy. |
| Js.Or | scripts/import_exercise_library.js:101-115 | The logical-or default is truthy when either operand is. It returns the first operand when that is truthy, otherwise the second. |
| Js.Lower | scripts/seed_exercises_node.js:81 | `toLowerCase` keeps the length. It turns each capital letter into its small letter and keeps every other character. No capital letter is left. |
| Js.LowerIdempotent | scripts/seed_exercises_node.js:81 | Lower-casing `nameSearch` a second time changes nothing. |
| LibraryRecord.ResolveId | scripts/import_exercise_library.js:101 | The id is `id` if that is truthy, otherwise `exerciseId` if that is truthy, otherwise `ex_` + token. The result is never falsy. |
| LibraryRecord.Normalise | scripts/import_exercise_library.js:103-121 | Every field of the normalised record follows its logical-or default. `code` falls back to the id. `name` falls back to `exerciseName`, then to `Sans nom`. `description` falls back to the empty string. The four lists fall back to `[]`. A truthy source value, even an empty array, is kept. `id`, `code` and `name` are never falsy. `source` is `workout-api` and `hasImage` is false. |
| LibraryRecord.NormaliseAll | scripts/import_exercise_library.js:99-122 | `map` gives exactly one output per input record, in input order. Output k depends only on record k and its token. |
| LibraryRecord.Fields | scripts/import_exercise_library.js:103-121 | The document written has exactly the eleven importer fields, each holding the normalised record's value: `source` as a string and `hasImage` as a boolean. |
| LibraryRecord.StoredFields | scripts/import_exercise_library.js:101-121 | For a raw record, the stored `id`, `code` and `name` are the defaulted values and are never falsy. `source` is `workout-api`, `hasImage` is false and `syncedAt` is the run's timestamp. |
| LibraryRecord.KeyOf | scripts/import_exercise_library.js:144 | `doc(exercise.id)` names a document exactly when the id is a string. The document stored under that key carries the key as its `id` field. |
| LibraryRecord.NormaliseDeterministic | scripts/import_exercise_library.js:101-121 | For a record with its own string `id` or `exerciseId`, normalising in two runs gives documents that differ in `syncedAt` only, under the same document id. |
| Chunking.Chunks | scripts/import_exercise_library.js:139 | The loop runs ceil(n / 500) times. |
| Chunking.ChunkAt | scripts/import_exercise_library.js:139-141 | Batch k is exactly `slice(k*500, (k+1)*500)`, clipped at the end of the list. |
| Chunking.ChunksPartition | scripts/import_exercise_library.js:139-141 | The batches, joined in order, give back the whole list: every record is in exactly one batch. |
| Chunking.ChunkSizes | scripts/import_exercise_library.js:134-141 | Every batch holds 1 to 500 records. Every batch but the last holds exactly 500. |
| Chunking.TwelveHundredRecords | scripts/import_exercise_library.js:134-141 | 1200 records make three batches of 500, 500 and 200. The last batch is records 1000 onwards. |
| LibraryImport.MergeSet | scripts/import_exercise_library.js:145 | After a merge `set`, the document exists, and its fields are its earlier fields together with the written ones. |
| LibraryImport.WriteKeyed | scripts/import_exercise_library.js:144-145 | The write of a record with a string id is a merge of its eleven fields into the document of that id. |
| LibraryImport.MergeSemantics | scripts/import_exercise_library.js:144-145 | After a merge `set`, the document exists. Each written field holds the new value and each other field already there is kept. No other document changes. |
| LibraryImport.ApplyWritesKeys | scripts/import_exercise_library.js:143-146 | After the writes, the collection holds its earlier documents plus one per distinct id written. Nothing is deleted. |
| LibraryImport.Untouched | scripts/import_exercise_library.js:143-146 | A document that no record writes to keeps its presence and its contents. |
| LibraryImport.ExtraFieldsKept | scripts/import_exercise_library.js:145 | Fields outside the eleven importer fields survive any number of merges. |
| LibraryImport.LastWriterWins | scripts/import_exercise_library.js:143-146 | When records share an id, the document ends with the last record's fields merged over its pre-run fields. |
| LibraryImport.CommitBatch | scripts/import_exercise_library.js:140-155 | One pass of the loop does nothing after an abort. Otherwise it aborts exactly when a record's id is not a string. If it does not abort, the tallies grow by the batch size in total. A failed commit leaves the collection and `totalImported` as they were. A successful one leaves `totalErrors` as it was. |
| LibraryImport.RunBatches | scripts/import_exercise_library.js:139-156 | After an abort, later batches change nothing. Neither tally ever decreases. |
| LibraryImport.Import | scripts/import_exercise_library.js:134-156 | The run aborts exactly when some record's id is not a string. Otherwise `totalImported + totalErrors` is the number of records. |
| LibraryImport.ImportTotals | scripts/import_exercise_library.js:134-156 | If every id is a string: `totalImported + totalErrors` equals the number of records, and each tally is the summed size of the batches that committed or failed. If some id is not a string, the run aborts with fewer records counted. |
| LibraryImport.ProcessedBeforeAbort | scripts/import_exercise_library.js:139-156 | An aborted run has counted strictly fewer records than it was given. |
| LibraryImport.ImportStore | scripts/import_exercise_library.js:139-156 | The collection afterwards is the merge writes of the committed batches only, in order. A failed batch writes nothing. |
| LibraryImport.ImportAbortStore | scripts/import_exercise_library.js:139-156 | If the first batch holding a record with a non-string id is batch b, the run aborts. The collection then holds exactly the writes of the batches before b that committed. |
| LibraryImport.ImportAllCommitted | scripts/import_exercise_library.js:134-156 | When every commit succeeds, every record is merged in order, `totalImported` is n and `totalErrors` is 0. |
| LibraryImport.RerunConverges | scripts/import_exercise_library.js:139-156 | A fully successful run over a set of ids that covers an earlier run's ids leaves the same collection whether or not the earlier run happened. |
| LibraryImport.RerunIdempotent | scripts/import_exercise_library.js:99-156 | With stable ids, a successful rerun leaves the collection as that run alone would, whatever the first run's tokens, timestamp and failed batches. Repeating a successful import with the same timestamp changes nothing. |
| LibraryImport.RandomIdBreaksRerun | scripts/import_exercise_library.js:101 | Take any collection and any record with no truthy `id` or `exerciseId`. One run with token t2 adds the document `ex_`+t2. A run with token t1 followed by one with t2, where t1 differs from t2, adds both `ex_`+t1 and `ex_`+t2. So the rerun leaves a document that one run does not. |
| LibraryImport.StageBatch | scripts/import_exercise_library.js:143-146 | Staging a batch succeeds exactly when every id in it is a string, and the staged writes are the merges in order. |
| LibraryImport.CommitSlice | scripts/import_exercise_library.js:140-155 | One pass of the loop equals one step of the fold. It throws exactly when an id is not a string. Otherwise the tallies grow by the batch size. |
| LibraryImport.ImportLibrary | scripts/import_exercise_library.js:134-156 | The loop's final collection and tallies are those of the fold. It aborts exactly when some id is not a string. Otherwise the tallies sum to the number of records. |
| SeedLoader.NewDoc | scripts/seed_exercises_node.js:79-83 | A new document has every source field plus `nameSearch` (the lower-cased name) and `createdAt`. These two override source fields of the same name, and no other field changes. |
| SeedLoader.NameTaken | scripts/seed_exercises_node.js:67-72 | The name query finds a document exactly when some document in the collection has a `name` equal to the record's. |
| SeedLoader.SeedOne | scripts/seed_exercises_node.js:62-93 | Each record adds exactly one to exactly one counter. A failed query or a missing `name` is one error with no write. A taken name is skipped with no write. A free name that is not a string, or a failed `add`, is one error with no write. Otherwise exactly `NewDoc` is appended and `created` grows by one. |
| SeedLoader.Seed | scripts/seed_exercises_node.js:61-94 | `created + skipped + errors` grows by the number of records. The collection grows by exactly the number of documents created. |
| SeedLoader.SeedCounts | scripts/seed_exercises_node.js:53-94 | `created + skipped + errors` equals the number of records. The collection grows by exactly `created` documents. Existing documents are never modified. |
| SeedLoader.SeedNamesFresh | scripts/seed_exercises_node.js:67-85 | Every document the loop adds has a name that no earlier document had, so no name is created twice in one run. |
| SeedLoader.NameStaysTaken | scripts/seed_exercises_node.js:67-76 | Once a name is in the collection, later passes still find it. |
| SeedLoader.SeedCoversNames | scripts/seed_exercises_node.js:61-94 | When every store call succeeds, each record with a string name has a document of that name afterwards. |
| SeedLoader.ExistingNameSkipped | scripts/seed_exercises_node.js:72-76 | A run over one record whose name is already in the collection gives 0 created, 1 skipped and an unchanged collection, once the query succeeds, whatever `add` would have done. |
| SeedLoader.DuplicateInInput | scripts/seed_exercises_node.js:61-94 | Take two records with the same string name, not yet in the collection, and every call succeeding. The run gives 1 created and 1 skipped, and only the first record's document is added. |
| SeedLoader.SeedRecord | scripts/seed_exercises_node.js:62-93 | One pass of the loop body equals one step of the fold. |
| SeedLoader.SeedExercises | scripts/seed_exercises_node.js:53-94 | The loop's collection and counters are those of the fold. The counters sum to the number of records. The old documents are a prefix of the result, which grew by `created`. Every added document has a fresh name. |

## Left out

- Firebase initialisation and credentials (importer 31-79, seed loader
  23-45): external set-up, with no effect on the data.
- Reading and parsing the JSON files (importer 85-91, seed loader 47-50).
  The model starts from the parsed list.
- Console output, the `Math.floor(i / BATCH_SIZE) + 1` batch numbers in
  log lines, and the final summaries: presentation only.
- The post-import verification (importer 162-189): the `count()` query and
  the five-document sample are reads with no effect on the collection.
- Exit codes:
  - Both scripts call `process.exit(0)` even when records failed.
  - Only a thrown fatal error exits with 1.
  - A per-run "failed" signal and a non-zero exit on failures are not
    what the code does.
  - The model returns the tallies and, for the importer, an `aborted` flag.
- LibraryImport.ImportLibrary: a record whose resolved id is not a string
  makes `doc()` throw outside the commit's `try`. The real script then
  leaves through its fatal handler without printing tallies. The model
  returns `aborted` with the tallies reached so far, and the batches
  committed before stay committed.
- Per-record failure details and a `merged` counter: the code keeps
  neither. The importer counts whole batches as imported or failed.
- `Math.random().toString(36).substr(2, 9)`: the random token is a
  parameter (any string). Its base-36 alphabet and length are not modelled.
- `FieldValue.serverTimestamp()`: a single value per run stands for it.
  Per-commit timestamp resolution is not modelled.
- `toLowerCase` is modelled for ASCII only. Unicode case mapping, such as
  accented capitals in French names, is not modelled.
- Merge depth: merges are modelled per top-level field. A nested map inside
  a field is replaced, not merged recursively.
- Firestore document-path rules beyond "the id is a string" are not
  modelled. The model takes every string id to name one document of
  `exercises_library`. In Firestore a `/` in the id splits the path: an id
  with one slash (or any odd number) makes `doc()` throw, and an id with
  two slashes, such as `a/b/c`, sends the write to a document of a
  subcollection. Ids Firestore reserves, such as `__x__`, are not modelled
  either.
- Input elements that are not objects are not modelled; records are objects
  in the model. For example, a `null` element:
  - in the library file makes `exercise.id` throw inside `map`, so the
    importer leaves through its fatal handler before any write;
  - in the seed file makes `exercise.name` throw outside the `try`, so the
    seed loader stops at that element.
- Numbers are real numbers. JavaScript's double precision and Firestore's
  integer/double distinction in equality queries are not modelled.
- A failed commit is modelled as writing nothing, Firestore's atomic batch.
- The ids Firestore generates for `add` are not modelled. The seed
  collection is the list of its documents in insertion order.
- Concurrency: the scripts `await` each call in sequence. Other writers to
  the collections during a run are not modelled.
