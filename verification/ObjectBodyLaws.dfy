/** What normalization accepts, changes and leaves alone. */
module ObjectBodyLaws {
  import opened JsonValue
  import opened ObjectBody

  // ---- one field at a time ---------------------------------------------------------------

  lemma CleanFieldElsewhere(meta: Map, field: string, other: string)
    requires other != field
    ensures other in CleanField(meta, field) <==> other in meta
    ensures other in meta ==> CleanField(meta, field)[other] == meta[other]
  {
  }

  lemma {:induction false} CleanFieldKeepsFaults(meta: Map, field: string, fields: seq<string>)
    requires field !in fields
    ensures FirstFault(CleanField(meta, field), fields) == FirstFault(meta, fields)
  {
    if fields != [] {
      CleanFieldElsewhere(meta, field, fields[0]);
      CleanFieldKeepsFaults(meta, field, fields[1..]);
    }
  }

  ghost predicate Distinct<T>(s: seq<T>) {
    forall i, j | 0 <= i < j < |s| :: s[i] != s[j]
  }

  /** Cleaning several fields cleans each as if alone, and no other key. */
  lemma {:induction false} CleanFieldsAt(meta: Map, fields: seq<string>, key: string)
    requires Distinct(fields)
    ensures Get(Obj(CleanFields(meta, fields)), key) ==
            if key in fields then Get(Obj(CleanField(meta, key)), key) else Get(Obj(meta), key)
  {
    if fields != [] {
      CleanFieldsAt(CleanField(meta, fields[0]), fields[1..], key);
      if key != fields[0] {
        CleanFieldElsewhere(meta, fields[0], key);
      }
    }
  }

  lemma {:induction false} NoFaultIff(meta: Map, fields: seq<string>)
    ensures FirstFault(meta, fields).None? <==> forall f | f in fields :: FieldFault(meta, f).None?
  {
    if fields != [] {
      NoFaultIff(meta, fields[1..]);
      assert fields == [fields[0]] + fields[1..];
    }
  }

  // ---- one slot at a time ------------------------------------------------------------------

  /** What the slot at a path holds as metadata; none when there is no object there. */
  function Held(root: Map, path: seq<string>): Option<Option<Json>> {
    var slot := ObjectAt(root, path);
    if slot.None? then None else Some(Get(Obj(slot.value), "metadata"))
  }

  lemma {:induction false} PutThenGet(root: Map, path: seq<string>, value: Map)
    requires ObjectAt(root, path).Some?
    ensures ObjectAt(PutAt(root, path, value), path) == Some(value)
    decreases |path|
  {
    if path != [] {
      PutThenGet(root[path[0]].members, path[1..], value);
    }
  }

  lemma {:induction false} CleanAtElsewhere(root: Map, path: seq<string>, other: seq<string>)
    requires path != other && "metadata" !in path && "metadata" !in other
    ensures Held(CleanAt(root, path), other) == Held(root, other)
    decreases |path|
  {
    if path != [] && path[0] in root && root[path[0]].Obj? && other != [] && other[0] == path[0] {
      assert path == [path[0]] + path[1..] && other == [other[0]] + other[1..];
      CleanAtElsewhere(root[path[0]].members, path[1..], other[1..]);
    }
  }

  lemma FaultIsHeld(root: Map, other: Map, path: seq<string>)
    requires Held(root, path) == Held(other, path)
    ensures FaultAt(root, path) == FaultAt(other, path)
  {
  }

  ghost predicate Separate(slots: seq<seq<string>>) {
    Distinct(slots) && forall i | 0 <= i < |slots| :: "metadata" !in slots[i]
  }

  lemma SlotsAreSeparate(group: string, kind: string)
    ensures Separate(Slots(group, kind))
  {
  }

  lemma {:induction false} CleanAtKeepsFaults(root: Map, path: seq<string>, slots: seq<seq<string>>)
    requires "metadata" !in path && path !in slots && Separate(slots)
    ensures FaultIn(CleanAt(root, path), slots) == FaultIn(root, slots)
  {
    if slots != [] {
      CleanAtElsewhere(root, path, slots[0]);
      FaultIsHeld(CleanAt(root, path), root, slots[0]);
      CleanAtKeepsFaults(root, path, slots[1..]);
    }
  }

  function CleanHeld(held: Option<Json>): Option<Json> {
    if held.None? || held.value.Null? then None
    else if held.value.Obj? then Some(Obj(CleanFields(held.value.members, FIELDS)))
    else held
  }

  lemma CleanAtHere(root: Map, path: seq<string>)
    ensures Held(CleanAt(root, path), path) ==
            if Held(root, path).None? then None else Some(CleanHeld(Held(root, path).value))
  {
    var slot := ObjectAt(root, path);
    if slot.Some? {
      PutThenGet(root, path, CleanSlot(slot.value));
    }
  }

  /** Each slot's metadata ends up cleaned, once, whatever the other slots hold. */
  lemma {:induction false} CleanAllHeld(root: Map, slots: seq<seq<string>>, path: seq<string>)
    requires Separate(slots) && "metadata" !in path
    ensures Held(CleanAll(root, slots), path) ==
            if path !in slots then Held(root, path)
            else if Held(root, path).None? then None
            else Some(CleanHeld(Held(root, path).value))
  {
    if slots != [] {
      CleanAllHeld(CleanAt(root, slots[0]), slots[1..], path);
      assert slots == [slots[0]] + slots[1..];
      if path == slots[0] {
        CleanAtHere(root, path);
      } else {
        CleanAtElsewhere(root, slots[0], path);
      }
    }
  }

  // ---- what is accepted -------------------------------------------------------------------

  ghost predicate StringMap(v: Json) {
    v.Null? || (v.Obj? && forall k | k in v.members :: v.members[k].Null? || v.members[k].Str?)
  }

  ghost predicate ArrayOf(v: Json, kind: Kind) {
    v.Null? || (v.Arr? && forall i | 0 <= i < |v.items| :: KindOf(v.items[i]) == kind)
  }

  ghost predicate WellShaped(meta: Map) {
    && ("labels" in meta ==> StringMap(meta["labels"]))
    && ("annotations" in meta ==> StringMap(meta["annotations"]))
    && ("ownerReferences" in meta ==> ArrayOf(meta["ownerReferences"], ObjectKind))
    && ("finalizers" in meta ==> ArrayOf(meta["finalizers"], StringKind))
  }

  ghost predicate WellShapedHeld(held: Option<Option<Json>>) {
    held.Some? && held.value.Some? ==>
        held.value.value.Null? || (held.value.value.Obj? && WellShaped(held.value.value.members))
  }

  lemma MapFaultIff(v: Json)
    ensures MapFault(v).None? <==> StringMap(v)
  {
    if v.Obj? {
      assert forall k | k in v.members :: k in BadEntries(v.members) <==> !(v.members[k].Null? || v.members[k].Str?);
      if BadEntries(v.members) != {} {
        assert Least(BadEntries(v.members)) in BadEntries(v.members);
      }
    }
  }

  lemma ArrayFaultIff(v: Json, kind: Kind)
    ensures ArrayFault(v, kind).None? <==> ArrayOf(v, kind)
  {
  }

  ghost predicate FieldShaped(meta: Map, field: string) {
    field in meta ==>
      if field in {"labels", "annotations"} then StringMap(meta[field])
      else ArrayOf(meta[field], if field == "ownerReferences" then ObjectKind else StringKind)
  }

  lemma FieldFaultIff(meta: Map, field: string)
    ensures FieldFault(meta, field).None? <==> FieldShaped(meta, field)
  {
    if field in meta {
      MapFaultIff(meta[field]);
      ArrayFaultIff(meta[field], if field == "ownerReferences" then ObjectKind else StringKind);
    }
  }

  lemma MetaFaultIff(meta: Map)
    ensures FirstFault(meta, FIELDS).None? <==> WellShaped(meta)
  {
    NoFaultIff(meta, FIELDS);
    forall f | f in FIELDS ensures FieldFault(meta, f).None? <==> FieldShaped(meta, f) {
      FieldFaultIff(meta, f);
    }
    assert FIELDS[0] == "labels" && FIELDS[1] == "annotations" && FIELDS[2] == "ownerReferences"
        && FIELDS[3] == "finalizers";
    assert FieldShaped(meta, FIELDS[0]) && FieldShaped(meta, FIELDS[1]) && FieldShaped(meta, FIELDS[2])
        && FieldShaped(meta, FIELDS[3])
      <==> WellShaped(meta);
  }

  lemma {:induction false} NoSlotFaultIff(root: Map, slots: seq<seq<string>>)
    ensures FaultIn(root, slots).None? <==> forall path | path in slots :: WellShapedHeld(Held(root, path))
  {
    if slots != [] {
      NoSlotFaultIff(root, slots[1..]);
      assert slots == [slots[0]] + slots[1..];
      var held := Held(root, slots[0]);
      if held.Some? && held.value.Some? && held.value.value.Obj? {
        MetaFaultIff(held.value.value.members);
      }
    }
  }

  /** A body is accepted exactly when it is an object and the metadata of every slot it has
      is null or well shaped. */
  lemma AcceptedIffWellShaped(group: string, kind: string, body: Json)
    ensures Normalized(group, kind, body).Ok? <==>
            body.Obj? && forall path | path in Slots(group, kind) :: WellShapedHeld(Held(body.members, path))
  {
    if body.Obj? {
      NoSlotFaultIff(body.members, Slots(group, kind));
    }
  }

  // ---- what comes out ------------------------------------------------------------------------

  ghost predicate Tidy(meta: Map) {
    && (forall f | f in FIELDS :: !IsNull(meta, f))
    && (forall f, k | f in {"labels", "annotations"} && f in meta && meta[f].Obj? && k in meta[f].members ::
       meta[f].members[k].Str?)
  }

  ghost predicate TidyHeld(held: Option<Option<Json>>) {
    held.Some? && held.value.Some? ==>
        held.value.value.Obj? && WellShaped(held.value.value.members) && Tidy(held.value.value.members)
  }

  lemma FieldsAreDistinct()
    ensures Distinct(FIELDS)
  {
  }

  lemma CleanFieldTidies(meta: Map, field: string)
    requires WellShaped(meta) && field in FIELDS
    ensures var after := CleanField(meta, field);
            && !IsNull(after, field)
            && (field in {"labels", "annotations"} && field in after ==>
                  after[field].Obj? && forall k | k in after[field].members :: after[field].members[k].Str?)
            && (field in {"ownerReferences", "finalizers"} && field in after ==> after[field] == meta[field])
  {
  }

  lemma CleanFieldsTidies(meta: Map)
    requires WellShaped(meta)
    ensures WellShaped(CleanFields(meta, FIELDS)) && Tidy(CleanFields(meta, FIELDS))
  {
    var after := CleanFields(meta, FIELDS);
    FieldsAreDistinct();
    forall f | f in FIELDS
      ensures Get(Obj(after), f) == Get(Obj(CleanField(meta, f)), f) && !IsNull(after, f)
    {
      CleanFieldsAt(meta, FIELDS, f);
      CleanFieldTidies(meta, f);
    }
    assert forall f | f in {"labels", "annotations", "ownerReferences", "finalizers"} :: f in FIELDS;
    forall f | f in {"labels", "annotations"} && f in after
      ensures after[f].Obj? && forall k | k in after[f].members :: after[f].members[k].Str?
    {
      assert f in FIELDS;
      CleanFieldTidies(meta, f);
      assert Get(Obj(after), f) == Some(after[f]);
    }
    forall f | f in {"ownerReferences", "finalizers"} && f in after ensures f in meta && after[f] == meta[f] {
      assert f in FIELDS;
      CleanFieldTidies(meta, f);
      assert Get(Obj(after), f) == Some(after[f]);
    }
  }

  /** In what comes out, no slot's metadata is null, none of its four fields is null, and
      every label and annotation is a string. */
  lemma NormalizedIsTidy(group: string, kind: string, body: Json)
    requires Normalized(group, kind, body).Ok?
    ensures Normalized(group, kind, body).value.Obj?
    ensures forall path | path in Slots(group, kind) ::
            TidyHeld(Held(Normalized(group, kind, body).value.members, path))
  {
    var slots := Slots(group, kind);
    AcceptedIffWellShaped(group, kind, body);
    SlotsAreSeparate(group, kind);
    forall path | path in slots ensures TidyHeld(Held(CleanAll(body.members, slots), path)) {
      assert WellShapedHeld(Held(body.members, path));
      CleanAllHeld(body.members, slots, path);
      var held := Held(body.members, path);
      if held.Some? && held.value.Some? && held.value.value.Obj? {
        CleanFieldsTidies(held.value.value.members);
      }
    }
  }

  // ---- doing it twice ------------------------------------------------------------------------

  lemma {:induction false} TidyFieldsStay(meta: Map, fields: seq<string>)
    requires forall f | f in fields :: CleanField(meta, f) == meta
    ensures CleanFields(meta, fields) == meta
  {
    if fields != [] {
      TidyFieldsStay(meta, fields[1..]);
    }
  }

  lemma TidyMetaStays(meta: Map)
    requires Tidy(meta)
    ensures CleanFields(meta, FIELDS) == meta
  {
    forall f | f in FIELDS ensures CleanField(meta, f) == meta {
      if f in {"labels", "annotations"} && f in meta && meta[f].Obj? {
        assert Filled(meta[f].members) == meta[f].members;
      }
    }
    TidyFieldsStay(meta, FIELDS);
  }

  lemma {:induction false} PutBack(root: Map, path: seq<string>)
    requires ObjectAt(root, path).Some?
    ensures PutAt(root, path, ObjectAt(root, path).value) == root
    decreases |path|
  {
    if path != [] {
      PutBack(root[path[0]].members, path[1..]);
    }
  }

  lemma {:induction false} TidyRootStays(root: Map, slots: seq<seq<string>>)
    requires forall path | path in slots :: TidyHeld(Held(root, path))
    ensures CleanAll(root, slots) == root
  {
    if slots != [] {
      assert TidyHeld(Held(root, slots[0]));
      var slot := ObjectAt(root, slots[0]);
      if slot.Some? {
        if "metadata" in slot.value {
          TidyMetaStays(slot.value["metadata"].members);
        }
        assert CleanSlot(slot.value) == slot.value;
        PutBack(root, slots[0]);
      }
      TidyRootStays(root, slots[1..]);
    }
  }

  /** Normalizing again changes nothing and refuses nothing. */
  lemma NormalizedTwice(group: string, kind: string, body: Json)
    requires Normalized(group, kind, body).Ok?
    ensures Normalized(group, kind, Normalized(group, kind, body).value) == Normalized(group, kind, body)
  {
    var once := Normalized(group, kind, body).value;
    NormalizedIsTidy(group, kind, body);
    forall path | path in Slots(group, kind) ensures WellShapedHeld(Held(once.members, path)) {
      assert TidyHeld(Held(once.members, path));
    }
    AcceptedIffWellShaped(group, kind, once);
    TidyRootStays(once.members, Slots(group, kind));
  }

  // ---- what is left alone ---------------------------------------------------------------------

  function Lookup(j: Json, path: seq<string>): Option<Json> {
    if path == [] then Some(j)
    else if Get(j, path[0]).None? then None
    else Lookup(Get(j, path[0]).value, path[1..])
  }

  /** The path leads neither towards the metadata of the slot nor into it. */
  predicate Apart(path: seq<string>, slot: seq<string>) {
    && path != []
    && if slot == [] then path[0] != "metadata" else path[0] != slot[0] || Apart(path[1..], slot[1..])
  }

  lemma {:induction false} CleanAtLeaves(root: Map, slot: seq<string>, path: seq<string>)
    requires Apart(path, slot) && "metadata" !in slot
    ensures Lookup(Obj(CleanAt(root, slot)), path) == Lookup(Obj(root), path)
    decreases |slot|
  {
    if slot != [] && slot[0] in root && root[slot[0]].Obj? && path[0] == slot[0] {
      CleanAtLeaves(root[slot[0]].members, slot[1..], path[1..]);
    } else if ObjectAt(root, slot).Some? {
      assert Get(Obj(CleanAt(root, slot)), path[0]) == Get(Obj(root), path[0]);
    }
  }

  lemma {:induction false} CleanAllLeaves(root: Map, slots: seq<seq<string>>, path: seq<string>)
    requires Separate(slots) && forall slot | slot in slots :: Apart(path, slot)
    ensures Lookup(Obj(CleanAll(root, slots)), path) == Lookup(Obj(root), path)
  {
    if slots != [] {
      assert slots[0] in slots;
      CleanAtLeaves(root, slots[0], path);
      CleanAllLeaves(CleanAt(root, slots[0]), slots[1..], path);
    }
  }

  /** Nothing outside the slots' metadata is touched; of a slot's metadata only the four
      fields are, a null one removed, and of its labels and annotations only the null
      entries, each made empty text. */
  lemma NormalizedLeavesTheRest(group: string, kind: string, body: Json)
    requires Normalized(group, kind, body).Ok?
    ensures var after := Normalized(group, kind, body).value;
            && (forall path: seq<string> | (forall slot | slot in Slots(group, kind) :: Apart(path, slot)) ::
                  Lookup(after, path) == Lookup(body, path))
            && (forall slot | slot in Slots(group, kind) && Held(body.members, slot).Some? ::
                  Held(after.members, slot) == Some(CleanHeld(Held(body.members, slot).value)))
  {
    var slots := Slots(group, kind);
    SlotsAreSeparate(group, kind);
    forall path: seq<string> | (forall slot | slot in slots :: Apart(path, slot))
      ensures Lookup(Obj(CleanAll(body.members, slots)), path) == Lookup(body, path)
    {
      CleanAllLeaves(body.members, slots, path);
    }
    forall slot | slot in slots && Held(body.members, slot).Some?
      ensures Held(CleanAll(body.members, slots), slot) == Some(CleanHeld(Held(body.members, slot).value))
    {
      CleanAllHeld(body.members, slots, slot);
    }
  }

  lemma CleanMetaPointwise(meta: Map, key: string, entry: string)
    ensures var after := CleanFields(meta, FIELDS);
            && (key !in FIELDS ==> Get(Obj(after), key) == Get(Obj(meta), key))
            && (key in FIELDS && IsNull(meta, key) ==> key !in after)
            && (key in {"ownerReferences", "finalizers"} && !IsNull(meta, key) ==>
               Get(Obj(after), key) == Get(Obj(meta), key))
            && (key in {"labels", "annotations"} && key in meta && meta[key].Obj? ==>
                  && key in after && after[key].Obj?
                  && Get(after[key], entry) ==
                     if Get(meta[key], entry) == Some(Null) then Some(Str("")) else Get(meta[key], entry))
  {
    FieldsAreDistinct();
    CleanFieldsAt(meta, FIELDS, key);
    assert FIELDS[0] == "labels" && FIELDS[1] == "annotations" && FIELDS[2] == "ownerReferences"
        && FIELDS[3] == "finalizers";
    var after := CleanFields(meta, FIELDS);
    assert key in after ==> Get(Obj(after), key) == Some(after[key]);
  }

  // ---- by path --------------------------------------------------------------------------------

  /** The kinds whose bodies embed metadata, by the path to the object that holds it. */
  predicate Embeds(group: string, kind: string, path: seq<string>) {
    || (path == ["template"] && (group, kind) == ("", "PodTemplate"))
    || (path == ["spec", "template"] &&
        (group, kind) in {("apps", "Deployment"), ("apps", "ReplicaSet"), ("apps", "DaemonSet"),
          ("apps", "StatefulSet"), ("batch", "Job"), ("", "ReplicationController")})
    || (path in {["spec", "jobTemplate"], ["spec", "jobTemplate", "spec", "template"]} &&
        (group, kind) == ("batch", "CronJob"))
  }

  lemma SlotIff(group: string, kind: string, path: seq<string>)
    ensures path in Slots(group, kind) <==> path == [] || Embeds(group, kind, path)
  {
  }

  lemma {:induction false} LookupHeld(root: Map, path: seq<string>, rest: seq<string>)
    ensures Lookup(Obj(root), path + (["metadata"] + rest)) ==
            if Held(root, path).None? || Held(root, path).value.None? then None
            else Lookup(Held(root, path).value.value, rest)
    decreases |path|
  {
    var whole := path + (["metadata"] + rest);
    if path == [] {
      assert whole == ["metadata"] + rest && whole[1..] == rest;
    } else {
      assert whole[0] == path[0] && whole[1..] == path[1..] + (["metadata"] + rest);
      if path[0] in root && root[path[0]].Obj? {
        LookupHeld(root[path[0]].members, path[1..], rest);
      } else if path[0] in root {
        assert whole[1..] != [];
      }
    }
  }

  lemma LookupTwo(j: Json, a: string, b: string)
    ensures Lookup(j, [a, b]) == if Get(j, a).None? then None else Get(Get(j, a).value, b)
  {
    assert [a, b][1..] == [b] && [b][1..] == [];
    if Get(j, a).Some? {
      assert Lookup(Get(j, a).value, [b]) == Get(Get(j, a).value, b);
    }
  }

  /** In the body itself and in each template it embeds, a label or annotation sent as null is
      stored as empty text, and any other as it was sent. */
  lemma TemplateEntriesAreFilled(group: string, kind: string, body: Json, path: seq<string>, field: string, key: string)
    requires Normalized(group, kind, body).Ok? && (path == [] || Embeds(group, kind, path))
    requires field == "labels" || field == "annotations"
    ensures var entry := path + ["metadata", field, key];
            Lookup(Normalized(group, kind, body).value, entry) ==
            if Lookup(body, entry) == Some(Null) then Some(Str("")) else Lookup(body, entry)
  {
    var after := Normalized(group, kind, body).value;
    SlotIff(group, kind, path);
    NormalizedIsTidy(group, kind, body);
    AcceptedIffWellShaped(group, kind, body);
    NormalizedLeavesTheRest(group, kind, body);
    assert ["metadata", field, key] == ["metadata"] + [field, key];
    LookupHeld(body.members, path, [field, key]);
    LookupHeld(after.members, path, [field, key]);
    HeldStays(group, kind, body, path);
    var held := Held(body.members, path);
    if held.Some? && held.value.Some? {
      assert WellShapedHeld(held);
      LookupTwo(held.value.value, field, key);
      if held.value.value.Obj? {
        EntryIsFilled(held.value.value.members, field, key);
        LookupTwo(Obj(CleanFields(held.value.value.members, FIELDS)), field, key);
      }
    }
  }

  lemma EntryIsFilled(meta: Map, field: string, key: string)
    requires WellShaped(meta) && (field == "labels" || field == "annotations")
    ensures var after := CleanFields(meta, FIELDS);
            var was := if field in meta then Get(meta[field], key) else None;
            (if field in after then Get(after[field], key) else None) ==
            if was == Some(Null) then Some(Str("")) else was
  {
    assert FIELDS[0] == "labels" && FIELDS[1] == "annotations";
    CleanMetaPointwise(meta, field, key);
    FieldsAreDistinct();
    CleanFieldsAt(meta, FIELDS, field);
  }

  lemma HeldStays(group: string, kind: string, body: Json, path: seq<string>)
    requires Normalized(group, kind, body).Ok? && path in Slots(group, kind)
    ensures Held(body.members, path).None? <==> Held(Normalized(group, kind, body).value.members, path).None?
  {
    SlotsAreSeparate(group, kind);
    CleanAllHeld(body.members, Slots(group, kind), path);
  }

  // ---- what a refusal says ----------------------------------------------------------------------

  /** The value the error names is there, of the kind it says and not of the one it wants. */
  ghost predicate Truthful(j: Json, e: ShapeError) {
    var v := ValueAt(j, e.path);
    v.Some? && KindOf(v.value) == e.found != e.expected
  }

  lemma TruthfulBelow(j: Json, name: string, e: ShapeError)
    requires Get(j, name).Some? && Truthful(Get(j, name).value, e)
    ensures Truthful(j, e.(path := [Member(name)] + e.path))
  {
    assert ([Member(name)] + e.path)[1..] == e.path;
  }

  lemma FieldFaultTruthful(meta: Map, field: string)
    requires FieldFault(meta, field).Some?
    ensures Truthful(Obj(meta), FieldFault(meta, field).value)
  {
    var v := meta[field];
    if field in {"labels", "annotations"} {
      var e := MapFault(v).value;
      if v.Obj? {
        assert Least(BadEntries(v.members)) in BadEntries(v.members);
        assert e.path[1..] == [];
      }
      TruthfulBelow(Obj(meta), field, e);
    } else {
      var e := ArrayFault(v, if field == "ownerReferences" then ObjectKind else StringKind).value;
      if v.Arr? {
        assert e.path[1..] == [];
      }
      TruthfulBelow(Obj(meta), field, e);
    }
  }

  lemma {:induction false} FirstFaultTruthful(meta: Map, fields: seq<string>)
    requires FirstFault(meta, fields).Some?
    ensures Truthful(Obj(meta), FirstFault(meta, fields).value)
  {
    if FieldFault(meta, fields[0]).Some? {
      FieldFaultTruthful(meta, fields[0]);
    } else {
      FirstFaultTruthful(meta, fields[1..]);
    }
  }

  lemma SlotFaultTruthful(container: Map)
    requires SlotFault(container).Some?
    ensures Truthful(Obj(container), SlotFault(container).value)
  {
    var v := container["metadata"];
    if v.Obj? {
      FirstFaultTruthful(v.members, FIELDS);
      TruthfulBelow(Obj(container), "metadata", FirstFault(v.members, FIELDS).value);
    } else {
      assert [Member("metadata")][1..] == [];
    }
  }

  lemma {:induction false} FaultAtTruthful(root: Map, path: seq<string>, e: ShapeError)
    requires ObjectAt(root, path).Some? && Truthful(Obj(ObjectAt(root, path).value), e)
    ensures Truthful(Obj(root), e.(path := Steps(path) + e.path))
    decreases |path|
  {
    if path == [] {
      assert Steps(path) + e.path == e.path;
    } else {
      var below := e.(path := Steps(path[1..]) + e.path);
      FaultAtTruthful(root[path[0]].members, path[1..], e);
      TruthfulBelow(Obj(root), path[0], below);
      StepsFirst(path, e.path);
    }
  }

  lemma StepsFirst(path: seq<string>, more: seq<Segment>)
    requires path != []
    ensures Steps(path) + more == [Member(path[0])] + (Steps(path[1..]) + more)
  {
    assert Steps(path) == [Member(path[0])] + Steps(path[1..]);
  }

  lemma {:induction false} FaultInTruthful(root: Map, slots: seq<seq<string>>)
    requires FaultIn(root, slots).Some?
    ensures Truthful(Obj(root), FaultIn(root, slots).value)
  {
    if FaultAt(root, slots[0]).Some? {
      var slot := ObjectAt(root, slots[0]).value;
      SlotFaultTruthful(slot);
      FaultAtTruthful(root, slots[0], SlotFault(slot).value);
    } else {
      FaultInTruthful(root, slots[1..]);
    }
  }

  /** A refusal points at a value of the body as it was sent, and tells its kind. */
  lemma RefusalIsTruthful(group: string, kind: string, body: Json)
    requires Normalized(group, kind, body).Err?
    ensures Truthful(body, Normalized(group, kind, body).error)
  {
    if body.Obj? {
      FaultInTruthful(body.members, Slots(group, kind));
    }
  }
}
