/** The library importer's per-record normaliser: one loose JSON record in,
    one canonical exercise document out, with `||` defaulting. */
module LibraryRecord {
  import opened Js

  /** The document the importer writes for one catalogue entry. `id`, `code`
      and `name` are whatever truthy value the source supplied (normally a
      string); `syncedAt` is the value the server timestamp resolves to. */
  datatype Exercise = Exercise(
    id: Value,
    code: Value,
    name: Value,
    description: Value,
    primaryMuscles: Value,
    secondaryMuscles: Value,
    types: Value,
    categories: Value,
    syncedAt: Value,
    source: string,
    hasImage: bool)

  const Provenance := "workout-api"
  const Unnamed := "Sans nom"
  const RandomIdPrefix := "ex_"

  /** The eleven fields every normalised record carries. */
  const FieldNames: set<string> := {
    "id", "code", "name", "description", "primaryMuscles", "secondaryMuscles",
    "types", "categories", "syncedAt", "source", "hasImage"
  }

  /** `exercise.id || exercise.exerciseId || 'ex_' + token`, where `token`
      stands for the random base-36 text the source draws from Math.random
      (possibly empty). The result is never falsy. */
  function ResolveId(rec: Object, token: string): (id: Value)
    ensures Truthy(id)
    ensures Truthy(Get(rec, "id")) ==> id == Get(rec, "id")
    ensures !Truthy(Get(rec, "id")) && Truthy(Get(rec, "exerciseId")) ==> id == Get(rec, "exerciseId")
    ensures !Truthy(Get(rec, "id")) && !Truthy(Get(rec, "exerciseId")) ==> id == Str(RandomIdPrefix + token)
  {
    Or(Get(rec, "id"), Or(Get(rec, "exerciseId"), Str(RandomIdPrefix + token)))
  }

  /** A source field that defaults to a given value when it is falsy. A
      truthy source value, including an empty array, is kept as it is. */
  predicate Defaulted(rec: Object, field: string, default: Value, v: Value) {
    (Truthy(Get(rec, field)) ==> v == Get(rec, field)) &&
    (!Truthy(Get(rec, field)) ==> v == default)
  }

  /** The object literal built for each element of `exercisesData.map`. */
  function Normalise(rec: Object, token: string, syncedAt: Value): (e: Exercise)
    ensures e.id == ResolveId(rec, token) && Truthy(e.id)
    ensures Defaulted(rec, "code", e.id, e.code) && Truthy(e.code)
    ensures Truthy(e.name)
    ensures Truthy(Get(rec, "name")) ==> e.name == Get(rec, "name")
    ensures !Truthy(Get(rec, "name")) ==> Defaulted(rec, "exerciseName", Str(Unnamed), e.name)
    ensures Defaulted(rec, "description", Str(""), e.description)
    ensures Defaulted(rec, "primaryMuscles", Arr([]), e.primaryMuscles)
    ensures Defaulted(rec, "secondaryMuscles", Arr([]), e.secondaryMuscles)
    ensures Defaulted(rec, "types", Arr([]), e.types)
    ensures Defaulted(rec, "categories", Arr([]), e.categories)
    ensures e.syncedAt == syncedAt && e.source == Provenance && !e.hasImage
  {
    var id := ResolveId(rec, token);
    Exercise(
      id := id,
      code := Or(Get(rec, "code"), id),
      name := Or(Get(rec, "name"), Or(Get(rec, "exerciseName"), Str(Unnamed))),
      description := Or(Get(rec, "description"), Str("")),
      primaryMuscles := Or(Get(rec, "primaryMuscles"), Arr([])),
      secondaryMuscles := Or(Get(rec, "secondaryMuscles"), Arr([])),
      types := Or(Get(rec, "types"), Arr([])),
      categories := Or(Get(rec, "categories"), Arr([])),
      syncedAt := syncedAt,
      source := Provenance,
      hasImage := false)
  }

  /** `exercisesData.map(...)`: one output per input, in the same order, the
      k-th built from the k-th record (and its own random token) alone. */
  function NormaliseAll(recs: seq<Object>, tokens: seq<string>, syncedAt: Value): (es: seq<Exercise>)
    requires |tokens| == |recs|
    ensures |es| == |recs|
    ensures forall k :: 0 <= k < |recs| ==> es[k] == Normalise(recs[k], tokens[k], syncedAt)
  {
    seq(|recs|, k requires 0 <= k < |recs| => Normalise(recs[k], tokens[k], syncedAt))
  }

  /** The record as the field map handed to `batch.set`. */
  function Fields(e: Exercise): (m: Object)
    ensures m.Keys == FieldNames
    ensures m["id"] == e.id && m["code"] == e.code && m["name"] == e.name
    ensures m["description"] == e.description
    ensures m["primaryMuscles"] == e.primaryMuscles && m["secondaryMuscles"] == e.secondaryMuscles
    ensures m["types"] == e.types && m["categories"] == e.categories
    ensures m["syncedAt"] == e.syncedAt
    ensures m["source"] == Str(e.source) && m["hasImage"] == Bool(e.hasImage)
  {
    map[
      "id" := e.id,
      "code" := e.code,
      "name" := e.name,
      "description" := e.description,
      "primaryMuscles" := e.primaryMuscles,
      "secondaryMuscles" := e.secondaryMuscles,
      "types" := e.types,
      "categories" := e.categories,
      "syncedAt" := e.syncedAt,
      "source" := Str(e.source),
      "hasImage" := Bool(e.hasImage)
    ]
  }

  /** What lands in the collection for one raw record: its id, its
      defaulted `code` and `name`, the importer's provenance, no image, and
      the run's timestamp. */
  lemma StoredFields(rec: Object, token: string, syncedAt: Value)
    ensures var m := Fields(Normalise(rec, token, syncedAt));
      && m["id"] == ResolveId(rec, token)
      && m["code"] == Or(Get(rec, "code"), ResolveId(rec, token))
      && m["name"] == Or(Get(rec, "name"), Or(Get(rec, "exerciseName"), Str(Unnamed)))
      && Truthy(m["id"]) && Truthy(m["code"]) && Truthy(m["name"])
      && m["source"] == Str("workout-api") && m["hasImage"] == Bool(false)
      && m["syncedAt"] == syncedAt
  {
  }

  /** The document path `doc(exercise.id)`: only a string id names a
      document; any other value makes the SDK throw. The document stored
      under a key carries that key as its `id` field. */
  function KeyOf(e: Exercise): (k: Option<string>)
    ensures k.Some? <==> e.id.Str?
    ensures k.Some? ==> Fields(e)["id"] == Str(k.value)
  {
    if e.id.Str? then Some(e.id.s) else None
  }

  /** A record whose id comes from its own `id` or `exerciseId` field (so
      not from the random fallback) and is a string. */
  predicate StableId(rec: Object) {
    var v := Or(Get(rec, "id"), Get(rec, "exerciseId"));
    Truthy(v) && v.Str?
  }

  /** Normalisation is deterministic up to the timestamp: for a record with
      a stable id, the random token plays no part, and two runs differ in
      `syncedAt` alone. */
  lemma NormaliseDeterministic(rec: Object, t1: string, t2: string, s1: Value, s2: Value)
    requires StableId(rec)
    ensures Normalise(rec, t1, s1).(syncedAt := s2) == Normalise(rec, t2, s2)
    ensures KeyOf(Normalise(rec, t1, s1)) == Some(Or(Get(rec, "id"), Get(rec, "exerciseId")).s)
  {
  }
}
