/** Normalizing the metadata of a body that will be stored (`object_body.rs`). */
module ObjectBody {
  import opened JsonValue
  import opened TextOrder

  datatype Kind = NullKind | BooleanKind | NumberKind | StringKind | ArrayKind | ObjectKind

  function KindOf(j: Json): Kind {
    match j
    case Null => NullKind
    case Bool(_) => BooleanKind
    case Number(_) => NumberKind
    case Fraction(_) => NumberKind
    case Str(_) => StringKind
    case Arr(_) => ArrayKind
    case Obj(_) => ObjectKind
  }

  datatype Segment = Member(name: string) | Entry(key: string) | Item(index: nat)

  function Child(j: Json, step: Segment): Option<Json> {
    match step
    case Member(name) => Get(j, name)
    case Entry(key) => Get(j, key)
    case Item(i) => if j.Arr? && i < |j.items| then Some(j.items[i]) else None
  }

  /** What a path leads to. */
  function ValueAt(j: Json, path: seq<Segment>): Option<Json> {
    if path == [] then Some(j)
    else if Child(j, path[0]).None? then None
    else ValueAt(Child(j, path[0]).value, path[1..])
  }

  datatype ShapeError = ShapeError(path: seq<Segment>, expected: Kind, found: Kind)

  // ---- one metadata object ---------------------------------------------------------------

  predicate IsLeast(k: string, keys: set<string>) {
    k in keys && forall j | j in keys :: j == k || Less(k, j)
  }

  lemma {:induction false} LeastExists(keys: set<string>) returns (k: string)
    requires keys != {}
    ensures IsLeast(k, keys)
    decreases |keys|
  {
    var some :| some in keys;
    if keys == {some} {
      k := some;
    } else {
      assert some !in keys - {some} && keys == keys - {some} + {some};
      k := LeastExists(keys - {some});
      if Less(some, k) {
        forall j | j in keys ensures j == some || Less(some, j) {
          if j != some && j != k {
            LessTransitive(some, k, j);
          }
        }
        k := some;
      } else {
        LessTotal(some, k);
      }
    }
  }

  ghost function Least(keys: set<string>): (k: string)
    requires keys != {}
    ensures IsLeast(k, keys)
  {
    assert exists k :: IsLeast(k, keys) by {
      var k := LeastExists(keys);
    }
    var k :| IsLeast(k, keys);
    k
  }

  lemma LeastIsUnique(k: string, keys: set<string>)
    requires IsLeast(k, keys)
    ensures Least(keys) == k
  {
    if Least(keys) != k {
      LessAsymmetric(k, Least(keys));
    }
  }

  function BadEntries(m: Map): set<string> {
    set k | k in m && !m[k].Null? && !m[k].Str?
  }

  function Filled(m: Map): Map {
    map k | k in m :: if m[k].Null? then Str("") else m[k]
  }

  /** The first item of another kind, the length when there is none. */
  function FirstOther(items: seq<Json>, kind: Kind): (at: nat)
    ensures at <= |items| && (at < |items| ==> KindOf(items[at]) != kind)
    ensures forall i | 0 <= i < at :: KindOf(items[i]) == kind
  {
    if items == [] || KindOf(items[0]) != kind then 0 else 1 + FirstOther(items[1..], kind)
  }

  ghost function MapFault(v: Json): Option<ShapeError> {
    if v.Null? then None
    else if !v.Obj? then Some(ShapeError([], ObjectKind, KindOf(v)))
    else if BadEntries(v.members) == {} then None
    else
      var k := Least(BadEntries(v.members));
      Some(ShapeError([Entry(k)], StringKind, KindOf(v.members[k])))
  }

  function ArrayFault(v: Json, kind: Kind): Option<ShapeError> {
    if v.Null? then None
    else if !v.Arr? then Some(ShapeError([], ArrayKind, KindOf(v)))
    else
      var at := FirstOther(v.items, kind);
      if at == |v.items| then None else Some(ShapeError([Item(at)], kind, KindOf(v.items[at])))
  }

  function Below(prefix: seq<Segment>, fault: Option<ShapeError>): Option<ShapeError> {
    if fault.None? then None else Some(fault.value.(path := prefix + fault.value.path))
  }

  ghost function FieldFault(meta: Map, field: string): Option<ShapeError> {
    if field !in meta then None
    else if field in {"labels", "annotations"} then Below([Member(field)], MapFault(meta[field]))
    else Below([Member(field)], ArrayFault(meta[field], if field == "ownerReferences" then ObjectKind else StringKind))
  }

  const FIELDS := ["labels", "annotations", "ownerReferences", "finalizers"]

  ghost function FirstFault(meta: Map, fields: seq<string>): Option<ShapeError> {
    if fields == [] then None
    else if FieldFault(meta, fields[0]).Some? then FieldFault(meta, fields[0])
    else FirstFault(meta, fields[1..])
  }

  predicate IsNull(meta: Map, field: string) {
    field in meta && meta[field].Null?
  }

  /** The metadata with one of its fields cleaned. */
  function CleanField(meta: Map, field: string): Map {
    if IsNull(meta, field) then meta - {field}
    else if field in {"labels", "annotations"} && field in meta && meta[field].Obj?
      then meta[field := Obj(Filled(meta[field].members))]
    else meta
  }

  function CleanFields(meta: Map, fields: seq<string>): Map {
    if fields == [] then meta else CleanFields(CleanField(meta, fields[0]), fields[1..])
  }

  // ---- the slots of a body ------------------------------------------------------------------

  ghost function SlotFault(container: Map): Option<ShapeError> {
    if "metadata" !in container || container["metadata"].Null? then None
    else if container["metadata"].Obj? then
        Below([Member("metadata")], FirstFault(container["metadata"].members, FIELDS))
    else Some(ShapeError([Member("metadata")], ObjectKind, KindOf(container["metadata"])))
  }

  function CleanSlot(container: Map): Map {
    if "metadata" !in container then container
    else if container["metadata"].Null? then container - {"metadata"}
    else if container["metadata"].Obj? then
        container["metadata" := Obj(CleanFields(container["metadata"].members, FIELDS))]
    else container
  }

  function EmbeddedParents(group: string, kind: string): seq<seq<string>> {
    if group == "apps" && kind in {"Deployment", "ReplicaSet", "DaemonSet", "StatefulSet"} then [["spec", "template"]]
    else if group == "batch" && kind == "Job" then [["spec", "template"]]
    else if group == "" && kind == "ReplicationController" then [["spec", "template"]]
    else if group == "" && kind == "PodTemplate" then [["template"]]
    else if group == "batch" && kind == "CronJob" then
        [["spec", "jobTemplate"], ["spec", "jobTemplate", "spec", "template"]]
    else []
  }

  function Slots(group: string, kind: string): seq<seq<string>> {
    [[]] + EmbeddedParents(group, kind)
  }

  /** The object at a path, when every step is an object. */
  function ObjectAt(root: Map, path: seq<string>): Option<Map>
    decreases |path|
  {
    if path == [] then Some(root)
    else if path[0] in root && root[path[0]].Obj? then ObjectAt(root[path[0]].members, path[1..])
    else None
  }

  function PutAt(root: Map, path: seq<string>, value: Map): Map
    requires ObjectAt(root, path).Some?
    decreases |path|
  {
    if path == [] then value
    else root[path[0] := Obj(PutAt(root[path[0]].members, path[1..], value))]
  }

  function CleanAt(root: Map, path: seq<string>): Map {
    var slot := ObjectAt(root, path);
    if slot.None? then root else PutAt(root, path, CleanSlot(slot.value))
  }

  function CleanAll(root: Map, slots: seq<seq<string>>): Map {
    if slots == [] then root else CleanAll(CleanAt(root, slots[0]), slots[1..])
  }

  function Steps(path: seq<string>): seq<Segment> {
    seq(|path|, i requires 0 <= i < |path| => Member(path[i]))
  }

  ghost function FaultAt(root: Map, path: seq<string>): Option<ShapeError> {
    var slot := ObjectAt(root, path);
    if slot.None? then None else Below(Steps(path), SlotFault(slot.value))
  }

  ghost function FaultIn(root: Map, slots: seq<seq<string>>): Option<ShapeError> {
    if slots == [] then None
    else if FaultAt(root, slots[0]).Some? then FaultAt(root, slots[0])
    else FaultIn(root, slots[1..])
  }

  /** Every slot is judged on the body as it came, and cleaned. */
  ghost function Normalized(group: string, kind: string, body: Json): Result<Json, ShapeError> {
    if !body.Obj? then Err(ShapeError([], ObjectKind, KindOf(body)))
    else
      var fault := FaultIn(body.members, Slots(group, kind));
      if fault.Some? then Err(fault.value) else Ok(Obj(CleanAll(body.members, Slots(group, kind))))
  }
}
