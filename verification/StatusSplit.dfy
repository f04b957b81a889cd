/** Writes to one object: through its main endpoint and through `/status` (`handler.rs`
    `preserve_immutable_meta`, `preserve_status`, `put_status`, `patch_status`,
    `scope_status_patch`; the pipeline of `write_plan.rs`; the store's commit in
    `state.rs`). */
module StatusSplit {
  import opened JsonValue
  import ObjectBody
  import Defaulting

  /** The object's kind, which serves `/status`, its name and namespace, and the uid the
      store would mint for it. */
  datatype Resource = Resource(group: string, version: string, kind: string, name: string, namespace: Option<string>,
                               minted: string)

  datatype Write =
    | Replace(body: Json)
    | MergePatch(patch: Json)
    | PutStatus(incoming: Json)
    | PatchStatus(patch: Json)

  predicate IsMain(w: Write) {
    w.Replace? || w.MergePatch?
  }

  /** A write that passed its precondition, and the revision it would commit at. */
  datatype Request = Request(write: Write, revision: string)

  // ---- metadata in place -----------------------------------------------------------------

  function MetaOf(o: Map): Json {
    if "metadata" in o then o["metadata"] else EMPTY
  }

  function PutMeta(o: Map, key: string, value: Json): Map {
    if MetaOf(o).Obj? then o["metadata" := Obj(MetaOf(o).members[key := value])] else o
  }

  function DropMeta(o: Map, key: string): Map {
    if MetaOf(o).Obj? then o["metadata" := Obj(MetaOf(o).members - {key})] else o
  }

  function MetaField(o: Map, key: string): Option<Json> {
    Field(Obj(o), "metadata", key)
  }

  function KeepField(o: Map, prior: Map, key: string): Map {
    var live := MetaField(prior, key);
    if live.Some? then PutMeta(o, key, live.value) else o
  }

  function PreserveMeta(o: Map, prior: Map): Map {
    var kept := KeepField(KeepField(o, prior, "creationTimestamp"), prior, "uid");
    var live := MetaField(prior, "deletionTimestamp");
    if live.Some? then PutMeta(kept, "deletionTimestamp", live.value) else DropMeta(kept, "deletionTimestamp")
  }

  method PreserveImmutableMeta(body: Map, existing: Map) returns (out: Map)
    ensures out == PreserveMeta(body, existing)
  {
    out := body;
    var fields := ["creationTimestamp", "uid"];
    for i := 0 to |fields|
      invariant out == if i == 0 then body
                       else if i == 1 then KeepField(body, existing, fields[0])
                       else KeepField(KeepField(body, existing, fields[0]), existing, fields[1])
    {
      var live := MetaField(existing, fields[i]);
      if live.Some? {
        out := PutMeta(out, fields[i], live.value);
      }
    }
    var live := MetaField(existing, "deletionTimestamp");
    if live.Some? {
      out := PutMeta(out, "deletionTimestamp", live.value);
    } else {
      out := DropMeta(out, "deletionTimestamp");
    }
  }

  function PreserveStatus(o: Map, prior: Map): Map {
    if "status" in prior then o["status" := prior["status"]] else o - {"status"}
  }

  // ---- the store -----------------------------------------------------------------------

  const COMPUTED := {"resourceVersion", "generation"}

  /** The write would leave the object as it is, but for what every write stamps. */
  predicate Unchanged(prior: Map, o: Map) {
    && prior.Keys == o.Keys
    && forall k | k in o ::
         if k == "metadata" && prior[k].Obj? && o[k].Obj?
         then prior[k].members - COMPUTED == o[k].members - COMPUTED
         else prior[k] == o[k]
  }

  predicate Terminating(o: Map) {
    var stamp := AsStr(MetaField(o, "deletionTimestamp"));
    stamp.Some? && stamp.value != ""
  }

  /** Terminating with no finalizer left: the write that stores this removes the object. */
  predicate Released(o: Map) {
    var finalizers := MetaField(o, "finalizers");
    Terminating(o) && !(finalizers.Some? && finalizers.value.Arr? && finalizers.value.items != [])
  }

  function GenerationOf(o: Map): int {
    var generation := MetaField(o, "generation");
    if generation.Some? && generation.value.Number? then generation.value.amount else 0
  }

  function NextGeneration(prior: Map, o: Map): int {
    var current := if GenerationOf(prior) < 1 then 1 else GenerationOf(prior);
    if Get(Obj(prior), "spec") == Get(Obj(o), "spec") then current else current + 1
  }

  predicate IsUid(uid: Option<Json>) {
    uid.Some? && !uid.value.Null? && uid.value != Str("")
  }

  function Identify(o: Map, prior: Map, minted: string): Map {
    var named :=
      if IsUid(MetaField(prior, "uid")) then PutMeta(o, "uid", MetaField(prior, "uid").value)
      else if IsUid(MetaField(o, "uid")) then o
      else PutMeta(o, "uid", Str(minted));
    KeepField(named, prior, "creationTimestamp")
  }

  /** The object after a write of `o` over `prior`; none when the write released it. */
  function Committed(prior: Map, o: Map, revision: string): Option<Map> {
    if Unchanged(prior, o) && !Released(o) then Some(prior)
    else
      var stamped := PutMeta(PutMeta(o, "resourceVersion", Str(revision)), "generation",
          Number(NextGeneration(prior, o)));
      if Released(stamped) then None else Some(stamped)
  }

  // ---- the main endpoint -----------------------------------------------------------------

  /** Normalized, named after the URL and defaulted; none when the write is refused. */
  ghost function Prepared(r: Resource, candidate: Json): Option<Map> {
    var normalized := ObjectBody.Normalized(r.group, r.kind, candidate);
    if normalized.Err? || !normalized.value.Obj? then None
    else
      var o := normalized.value.members;
      var name := AsStr(MetaField(o, "name"));
      if name.Some? && name.value != r.name then None
      else
        var applied := Defaulting.Apply(r.group, r.version, r.kind, Obj(PutMeta(o, "name", Str(r.name))));
        if applied.Obj? then Some(applied.members) else None
  }

  function Placed(r: Resource, o: Map): Map {
    var named := PutMeta(o, "name", Str(r.name));
    if r.namespace.Some? then PutMeta(named, "namespace", Str(r.namespace.value)) else named
  }

  function Owned(r: Resource, o: Map, prior: Map): Map {
    PreserveStatus(PreserveMeta(Placed(r, o), prior), prior)
  }

  function Stored(r: Resource, prior: Map, o: Map, revision: string): Option<Map> {
    if Unchanged(prior, o) && !Terminating(o) then Some(prior)
    else Committed(prior, Identify(o, prior, r.minted), revision)
  }

  ghost function MainStep(r: Resource, prior: Map, candidate: Json, revision: string): Option<Map> {
    var prepared := Prepared(r, candidate);
    if prepared.None? then Some(prior) else Stored(r, prior, Owned(r, prepared.value, prior), revision)
  }

  // ---- the status endpoint ---------------------------------------------------------------

  function StatusOf(incoming: Json): Json {
    var status := Get(incoming, "status");
    Obj(map["status" := if status.Some? then status.value else Null])
  }

  function ScopeStatusPatch(patch: Json): Json {
    var status, version := Get(patch, "status"), Field(patch, "metadata", "resourceVersion");
    var scoped: Map := if status.Some? then map["status" := status.value] else map[];
    Obj(if version.Some? then scoped["metadata" := Obj(map["resourceVersion" := version.value])] else scoped)
  }

  function StatusStep(prior: Map, scoped: Json, revision: string): Option<Map> {
    var merged := Merge(Obj(prior), scoped);
    if merged.Obj? then Committed(prior, merged.members, revision) else Some(prior)
  }

  // ---- runs --------------------------------------------------------------------------------

  ghost function Step(r: Resource, state: Option<Map>, q: Request): Option<Map> {
    if state.None? then None
    else
      match q.write
      case Replace(body) => MainStep(r, state.value, body, q.revision)
      case MergePatch(patch) => MainStep(r, state.value, Merge(Obj(state.value), patch), q.revision)
      case PutStatus(incoming) => StatusStep(state.value, StatusOf(incoming), q.revision)
      case PatchStatus(patch) => StatusStep(state.value, ScopeStatusPatch(patch), q.revision)
  }

  ghost function Run(r: Resource, state: Option<Map>, requests: seq<Request>): Option<Map> {
    if requests == [] then state
    else Step(r, Run(r, state, requests[..|requests| - 1]), requests[|requests| - 1])
  }

  function Only(requests: seq<Request>, main: bool): seq<Request> {
    if requests == [] then []
    else
      var last := requests[|requests| - 1];
      Only(requests[..|requests| - 1], main) + if IsMain(last.write) == main then [last] else []
  }

  /** What the store holds: metadata, a generation of at least 1, and not an object whose
      next write would remove it. */
  ghost predicate Sound(o: Map) {
    && "metadata" in o && o["metadata"].Obj?
    && MetaField(o, "generation").Some? && MetaField(o, "generation").value.Number? && GenerationOf(o) >= 1
    && !Released(o)
  }
}
