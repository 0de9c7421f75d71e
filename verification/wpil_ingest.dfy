/** The only entry point to pattern memory (wpil_ingest.py): a pattern is stored when it has every
    structural field and none of the content keys. */
module WpilIngest {
  import opened Wrappers
  import opened WpilMemory

  const RequiredFields: seq<string> := ["platform", "niche", "intent", "hook", "structure", "cta"]

  const ForbiddenKeys: seq<string> := ["text", "content", "post", "caption", "sentiment", "tone", "emotion"]

  /** The index of the first of `keys` that `p` has (`present`) or lacks (`!present`). */
  function FirstKey(keys: seq<string>, p: Pattern, present: bool): (r: Option<nat>)
    ensures r.Some? ==> r.value < |keys| && (keys[r.value] in p) == present
    ensures r.Some? ==> forall j :: 0 <= j < r.value ==> (keys[j] in p) != present
    ensures r.None? ==> forall j :: 0 <= j < |keys| ==> (keys[j] in p) != present
  {
    if keys == [] then None
    else if (keys[0] in p) == present then Some(0)
    else
      var r := FirstKey(keys[1..], p, present);
      if r.Some? then Some(r.value + 1) else None
  }

  /** The `ValueError` messages. */
  function MissingField(f: string): string { "Missing required field: " + f }
  function ForbiddenKey(k: string): string { "Forbidden key detected: " + k }

  /** A pattern fit for memory: all structural fields, no content key. */
  predicate Structural(p: Pattern) {
    && (forall i :: 0 <= i < |RequiredFields| ==> RequiredFields[i] in p)
    && (forall i :: 0 <= i < |ForbiddenKeys| ==> ForbiddenKeys[i] !in p)
  }

  /** The memory after an ingestion, and the `ValueError` message when it was refused. */
  datatype Ingested = Ingested(file: MemoryFile, error: Option<string>)

  /** `ingest_pattern`: refused for the first missing required field (in listed order), then for
      the first forbidden key present; otherwise stored. */
  function Ingest(file: MemoryFile, p: Pattern): (r: Ingested)
    ensures r.error.None? <==> Structural(p)
    ensures r.error.Some? ==> r.file == file
    ensures r.error.None? ==> Load(r.file) == Load(file) + [p]
    ensures FirstKey(RequiredFields, p, false).Some? ==>
              r.error == Some(MissingField(RequiredFields[FirstKey(RequiredFields, p, false).value]))
    ensures FirstKey(RequiredFields, p, false).None? && FirstKey(ForbiddenKeys, p, true).Some? ==>
              r.error == Some(ForbiddenKey(ForbiddenKeys[FirstKey(ForbiddenKeys, p, true).value]))
  {
    var missing := FirstKey(RequiredFields, p, false);
    if missing.Some? then Ingested(file, Some(MissingField(RequiredFields[missing.value])))
    else
      var forbidden := FirstKey(ForbiddenKeys, p, true);
      if forbidden.Some? then Ingested(file, Some(ForbiddenKey(ForbiddenKeys[forbidden.value])))
      else Ingested(Store(file, p), None)
  }

  /** Memory filled only through ingestion holds only structural patterns. */
  lemma IngestKeepsStructural(file: MemoryFile, p: Pattern)
    requires forall i :: 0 <= i < |Load(file)| ==> Structural(Load(file)[i])
    ensures var m := Load(Ingest(file, p).file);
            forall i :: 0 <= i < |m| ==> Structural(m[i])
  {
    var r := Ingest(file, p);
    if r.error.None? {
      var m := Load(r.file);
      assert m == Load(file) + [p] && Structural(p);
      assert forall i :: 0 <= i < |m| ==> m[i] == if i < |Load(file)| then Load(file)[i] else p;
    }
  }

  /** A missing field is reported even when a forbidden key is also present. */
  lemma MissingBeforeForbidden(file: MemoryFile, p: Pattern)
    requires "platform" !in p && "text" in p
    ensures Ingest(file, p).error == Some(MissingField("platform"))
  {
    assert RequiredFields[0] == "platform";
    assert FirstKey(RequiredFields, p, false) == Some(0);
  }
}
