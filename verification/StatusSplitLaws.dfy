/** The main endpoint and `/status` do not interfere, however their writes interleave. */
module StatusSplitLaws {
  import opened JsonValue
  import opened StatusSplit
  import ObjectBody
  import ObjectBodyLaws
  import Defaulting
  import DefaultingLaws

  // ---- the main half of an object -----------------------------------------------------------

  /** The same metadata but for the revision. */
  ghost predicate SameMeta(x: Option<Json>, y: Option<Json>) {
    || x == y
    || (x.Some? && y.Some? && x.value.Obj? && y.value.Obj?
        && forall k :: k != "resourceVersion" ==> Get(x.value, k) == Get(y.value, k))
  }

  /** The same object but for its status and its revision. */
  ghost predicate Same(a: Map, b: Map) {
    && (forall k :: k != "status" && k != "metadata" ==> Get(Obj(a), k) == Get(Obj(b), k))
    && SameMeta(Get(Obj(a), "metadata"), Get(Obj(b), "metadata"))
  }

  ghost predicate SameState(s: Option<Map>, t: Option<Map>) {
    (s.None? && t.None?) || (s.Some? && t.Some? && Same(s.value, t.value))
  }

  lemma SameFields(a: Map, b: Map, key: string)
    requires Same(a, b) && key != "resourceVersion"
    ensures MetaField(a, key) == MetaField(b, key)
  {
  }

  lemma SetSame(a: Map, b: Map, key: string, value: Json)
    requires Same(a, b) && key != "metadata"
    ensures Same(a[key := value], b[key := value])
  {
    var x, y := Obj(a[key := value]), Obj(b[key := value]);
    forall k | k != "status" && k != "metadata" ensures Get(x, k) == Get(y, k) {
      assert Get(Obj(a), k) == Get(Obj(b), k);
    }
    assert Get(x, "metadata") == Get(Obj(a), "metadata") && Get(y, "metadata") == Get(Obj(b), "metadata");
  }

  lemma SetMetaSame(a: Map, b: Map, m: Json, n: Json)
    requires Same(a, b) && SameMeta(Some(m), Some(n))
    ensures Same(a["metadata" := m], b["metadata" := n])
  {
    var x, y := Obj(a["metadata" := m]), Obj(b["metadata" := n]);
    forall k | k != "status" && k != "metadata" ensures Get(x, k) == Get(y, k) {
      assert Get(Obj(a), k) == Get(Obj(b), k);
    }
    assert Get(x, "metadata") == Some(m) && Get(y, "metadata") == Some(n);
  }

  lemma NoMetaSame(a: Map, b: Map)
    requires Same(a, b)
    ensures Same(a - {"metadata"}, b - {"metadata"})
  {
    var x, y := Obj(a - {"metadata"}), Obj(b - {"metadata"});
    forall k | k != "status" && k != "metadata" ensures Get(x, k) == Get(y, k) {
      assert Get(Obj(a), k) == Get(Obj(b), k);
    }
    assert Get(x, "metadata") == None && Get(y, "metadata") == None;
  }

  lemma MetaOfSame(a: Map, b: Map)
    requires Same(a, b)
    ensures SameMeta(Some(MetaOf(a)), Some(MetaOf(b)))
  {
  }

  lemma PutMetaSame(a: Map, b: Map, key: string, value: Json)
    requires Same(a, b)
    ensures Same(PutMeta(a, key, value), PutMeta(b, key, value))
  {
    MetaOfSame(a, b);
    var x, y := MetaOf(a), MetaOf(b);
    if x.Obj? {
      var m, n := Obj(x.members[key := value]), Obj(y.members[key := value]);
      forall k | k != "resourceVersion" ensures Get(m, k) == Get(n, k) {
        assert Get(x, k) == Get(y, k);
      }
      SetMetaSame(a, b, m, n);
    }
  }

  lemma DropMetaSame(a: Map, b: Map, key: string)
    requires Same(a, b)
    ensures Same(DropMeta(a, key), DropMeta(b, key))
  {
    MetaOfSame(a, b);
    var x, y := MetaOf(a), MetaOf(b);
    if x.Obj? {
      var m, n := Obj(x.members - {key}), Obj(y.members - {key});
      forall k | k != "resourceVersion" ensures Get(m, k) == Get(n, k) {
        assert Get(x, k) == Get(y, k);
      }
      SetMetaSame(a, b, m, n);
    }
  }

  lemma PreserveStatusSame(a: Map, b: Map, p: Map, q: Map)
    requires Same(a, b)
    ensures Same(PreserveStatus(a, p), PreserveStatus(b, q))
    ensures Get(Obj(PreserveStatus(a, p)), "status") == Get(Obj(p), "status")
  {
    var x, y := PreserveStatus(a, p), PreserveStatus(b, q);
    forall k | k != "status" && k != "metadata" ensures Get(Obj(x), k) == Get(Obj(y), k) {
      assert Get(Obj(a), k) == Get(Obj(b), k);
    }
    assert Get(Obj(x), "metadata") == Get(Obj(a), "metadata") && Get(Obj(y), "metadata") == Get(Obj(b), "metadata");
  }

  lemma KeepFieldSame(a: Map, b: Map, p: Map, q: Map, key: string)
    requires Same(a, b) && Same(p, q) && key != "resourceVersion"
    ensures Same(KeepField(a, p, key), KeepField(b, q, key))
  {
    SameFields(p, q, key);
    if MetaField(p, key).Some? {
      PutMetaSame(a, b, key, MetaField(p, key).value);
    }
  }

  lemma PreserveMetaSame(a: Map, b: Map, p: Map, q: Map)
    requires Same(a, b) && Same(p, q)
    ensures Same(PreserveMeta(a, p), PreserveMeta(b, q))
  {
    var x, y := KeepField(a, p, "creationTimestamp"), KeepField(b, q, "creationTimestamp");
    KeepFieldSame(a, b, p, q, "creationTimestamp");
    KeepFieldSame(x, y, p, q, "uid");
    SameFields(p, q, "deletionTimestamp");
    var live := MetaField(p, "deletionTimestamp");
    if live.Some? {
      PutMetaSame(KeepField(x, p, "uid"), KeepField(y, q, "uid"), "deletionTimestamp", live.value);
    } else {
      DropMetaSame(KeepField(x, p, "uid"), KeepField(y, q, "uid"), "deletionTimestamp");
    }
  }

  lemma PlacedSame(r: Resource, a: Map, b: Map)
    requires Same(a, b)
    ensures Same(Placed(r, a), Placed(r, b))
  {
    PutMetaSame(a, b, "name", Str(r.name));
    if r.namespace.Some? {
      PutMetaSame(PutMeta(a, "name", Str(r.name)), PutMeta(b, "name", Str(r.name)), "namespace",
          Str(r.namespace.value));
    }
  }

  lemma OwnedSame(r: Resource, a: Map, b: Map, p: Map, q: Map)
    requires Same(a, b) && Same(p, q)
    ensures Same(Owned(r, a, p), Owned(r, b, q))
    ensures Get(Obj(Owned(r, a, p)), "status") == Get(Obj(p), "status")
  {
    PlacedSame(r, a, b);
    PreserveMetaSame(Placed(r, a), Placed(r, b), p, q);
    PreserveStatusSame(PreserveMeta(Placed(r, a), p), PreserveMeta(Placed(r, b), q), p, q);
  }

  lemma IdentifySame(a: Map, b: Map, p: Map, q: Map, minted: string)
    requires Same(a, b) && Same(p, q)
    ensures Same(Identify(a, p, minted), Identify(b, q, minted))
  {
    SameFields(p, q, "uid");
    SameFields(a, b, "uid");
    var uid := if IsUid(MetaField(p, "uid")) then MetaField(p, "uid").value else Str(minted);
    PutMetaSame(a, b, "uid", uid);
    if !IsUid(MetaField(p, "uid")) && IsUid(MetaField(a, "uid")) {
      KeepFieldSame(a, b, p, q, "creationTimestamp");
    } else {
      KeepFieldSame(PutMeta(a, "uid", uid), PutMeta(b, "uid", uid), p, q, "creationTimestamp");
    }
  }

  // ---- the candidate ---------------------------------------------------------------------------

  lemma MergeSame(a: Map, b: Map, patch: Json)
    requires Same(a, b)
    ensures var x, y := Merge(Obj(a), patch), Merge(Obj(b), patch);
            x == y || (x.Obj? && y.Obj? && Same(x.members, y.members))
  {
    if patch.Obj? {
      var x, y := Merge(Obj(a), patch), Merge(Obj(b), patch);
      forall k | k != "status" && k != "metadata" ensures Get(x, k) == Get(y, k) {
        MergeMember(Obj(a), patch, k);
        MergeMember(Obj(b), patch, k);
        assert Get(Obj(a), k) == Get(Obj(b), k);
      }
      MergeMember(Obj(a), patch, "metadata");
      MergeMember(Obj(b), patch, "metadata");
      if "metadata" in patch.members && patch.members["metadata"].Obj? {
        var meta := patch.members["metadata"];
        var l, r := MemberOrNull(Obj(a), "metadata"), MemberOrNull(Obj(b), "metadata");
        assert l == r || (l.Obj? && r.Obj? && forall k :: k != "resourceVersion" ==> Get(l, k) == Get(r, k));
        MergeMetaSame(l, r, meta);
      }
    }
  }

  lemma MergeMetaSame(l: Json, r: Json, patch: Json)
    requires patch.Obj?
    requires l == r || (l.Obj? && r.Obj? && forall k :: k != "resourceVersion" ==> Get(l, k) == Get(r, k))
    ensures SameMeta(Some(Merge(l, patch)), Some(Merge(r, patch)))
  {
    if l != r {
      forall k | k != "resourceVersion" ensures Get(Merge(l, patch), k) == Get(Merge(r, patch), k) {
        MergeMember(l, patch, k);
        MergeMember(r, patch, k);
        assert Get(l, k) == Get(r, k);
      }
    }
  }

  lemma {:induction false} FaultsSame(a: Map, b: Map, fields: seq<string>)
    requires forall f | f in fields :: Get(Obj(a), f) == Get(Obj(b), f)
    ensures ObjectBody.FirstFault(a, fields) == ObjectBody.FirstFault(b, fields)
  {
    if fields != [] {
      assert Get(Obj(a), fields[0]) == Get(Obj(b), fields[0]);
      assert fields[0] in a ==> a[fields[0]] == Get(Obj(a), fields[0]).value;
      FaultsSame(a, b, fields[1..]);
    }
  }

  lemma CleanFieldsSame(a: Map, b: Map, key: string)
    requires Get(Obj(a), key) == Get(Obj(b), key)
    ensures Get(Obj(ObjectBody.CleanFields(a, ObjectBody.FIELDS)), key) ==
            Get(Obj(ObjectBody.CleanFields(b, ObjectBody.FIELDS)), key)
  {
    ObjectBodyLaws.FieldsAreDistinct();
    ObjectBodyLaws.CleanFieldsAt(a, ObjectBody.FIELDS, key);
    ObjectBodyLaws.CleanFieldsAt(b, ObjectBody.FIELDS, key);
  }

  lemma CleanMetaSame(m: Map, n: Map)
    requires SameMeta(Some(Obj(m)), Some(Obj(n)))
    ensures SameMeta(Some(Obj(ObjectBody.CleanFields(m, ObjectBody.FIELDS))),
            Some(Obj(ObjectBody.CleanFields(n, ObjectBody.FIELDS))))
    ensures ObjectBody.FirstFault(m, ObjectBody.FIELDS) == ObjectBody.FirstFault(n, ObjectBody.FIELDS)
  {
    forall f | f in ObjectBody.FIELDS ensures Get(Obj(m), f) == Get(Obj(n), f) {
      assert f != "resourceVersion";
    }
    FaultsSame(m, n, ObjectBody.FIELDS);
    forall k | k != "resourceVersion"
      ensures Get(Obj(ObjectBody.CleanFields(m, ObjectBody.FIELDS)), k) ==
              Get(Obj(ObjectBody.CleanFields(n, ObjectBody.FIELDS)), k)
    {
      CleanFieldsSame(m, n, k);
    }
  }

  lemma RootSlotSame(a: Map, b: Map)
    requires Same(a, b)
    ensures ObjectBody.SlotFault(a) == ObjectBody.SlotFault(b)
    ensures Same(ObjectBody.CleanSlot(a), ObjectBody.CleanSlot(b))
  {
    if "metadata" in a {
      var x, y := a["metadata"], b["metadata"];
      assert Get(Obj(a), "metadata") == Some(x) && Get(Obj(b), "metadata") == Some(y);
      NoMetaSame(a, b);
      if x.Obj? {
        CleanMetaSame(x.members, y.members);
        SetMetaSame(a, b, ObjectBody.CleanSlot(a)["metadata"], ObjectBody.CleanSlot(b)["metadata"]);
      }
    }
  }

  predicate MainSlot(path: seq<string>) {
    path == [] || (path[0] != "status" && path[0] != "metadata")
  }

  lemma SlotSame(a: Map, b: Map, path: seq<string>)
    requires Same(a, b) && MainSlot(path)
    ensures ObjectBody.FaultAt(a, path) == ObjectBody.FaultAt(b, path)
    ensures Same(ObjectBody.CleanAt(a, path), ObjectBody.CleanAt(b, path))
  {
    if path == [] {
      RootSlotSame(a, b);
    } else {
      assert Get(Obj(a), path[0]) == Get(Obj(b), path[0]);
      var slot := ObjectBody.ObjectAt(a, path);
      assert ObjectBody.ObjectAt(b, path) == slot;
      if slot.Some? {
        assert a[path[0]] == b[path[0]];
        SetSame(a, b, path[0], ObjectBody.CleanAt(a, path)[path[0]]);
      }
    }
  }

  lemma {:induction false} SlotsSame(a: Map, b: Map, slots: seq<seq<string>>)
    requires Same(a, b) && forall p | p in slots :: MainSlot(p)
    ensures ObjectBody.FaultIn(a, slots) == ObjectBody.FaultIn(b, slots)
    ensures Same(ObjectBody.CleanAll(a, slots), ObjectBody.CleanAll(b, slots))
  {
    if slots != [] {
      assert slots[0] in slots;
      SlotSame(a, b, slots[0]);
      SlotsSame(ObjectBody.CleanAt(a, slots[0]), ObjectBody.CleanAt(b, slots[0]), slots[1..]);
      SlotsFaultSame(a, b, slots[1..]);
    }
  }

  lemma {:induction false} SlotsFaultSame(a: Map, b: Map, slots: seq<seq<string>>)
    requires Same(a, b) && forall p | p in slots :: MainSlot(p)
    ensures ObjectBody.FaultIn(a, slots) == ObjectBody.FaultIn(b, slots)
  {
    if slots != [] {
      assert slots[0] in slots;
      SlotSame(a, b, slots[0]);
      SlotsFaultSame(a, b, slots[1..]);
    }
  }

  lemma SlotsAreMain(group: string, kind: string)
    ensures forall p | p in ObjectBody.Slots(group, kind) :: MainSlot(p)
  {
  }

  /** Defaulting decides every member by that member alone. */
  lemma ApplySame(r: Resource, a: Map, b: Map)
    requires Same(a, b)
    ensures var x, y := Defaulting.Apply(r.group, r.version, r.kind, Obj(a)),
            Defaulting.Apply(r.group, r.version, r.kind, Obj(b));
            x.Obj? && y.Obj? && Same(x.members, y.members) && Get(x, "metadata") == Get(Obj(a), "metadata")
  {
    if r.group == "" && r.version == "v1" && r.kind in {"Pod", "Secret", "Service"} {
      var key := DefaultingLaws.SettingKey(r.kind);
      DefaultingLaws.AppliedIsSet(r.kind, a);
      DefaultingLaws.AppliedIsSet(r.kind, b);
      assert Get(Obj(a), key) == Get(Obj(b), key);
      var value := DefaultingLaws.Setting(r.kind, Get(Obj(a), key));
      if value.Some? {
        SetSame(a, b, key, value.value);
      }
    }
  }

  lemma PreparedSame(r: Resource, x: Json, y: Json)
    requires x == y || (x.Obj? && y.Obj? && Same(x.members, y.members))
    ensures SameState(Prepared(r, x), Prepared(r, y))
  {
    if x != y {
      var slots := ObjectBody.Slots(r.group, r.kind);
      SlotsAreMain(r.group, r.kind);
      SlotsSame(x.members, y.members, slots);
      var a, b := ObjectBody.CleanAll(x.members, slots), ObjectBody.CleanAll(y.members, slots);
      SameFields(a, b, "name");
      PutMetaSame(a, b, "name", Str(r.name));
      ApplySame(r, PutMeta(a, "name", Str(r.name)), PutMeta(b, "name", Str(r.name)));
    }
  }

  // ---- the commit --------------------------------------------------------------------------------

  ghost predicate KeptMeta(x: Option<Json>, y: Option<Json>) {
    || x == y
    || (x.Some? && y.Some? && x.value.Obj? && y.value.Obj? && forall k :: k !in COMPUTED ==>
       Get(x.value, k) == Get(y.value, k))
  }

  /** `Unchanged`, key by key. */
  lemma UnchangedIff(p: Map, o: Map)
    ensures Unchanged(p, o) <==>
            && (forall k :: k != "metadata" ==> Get(Obj(p), k) == Get(Obj(o), k))
            && KeptMeta(Get(Obj(p), "metadata"), Get(Obj(o), "metadata"))
  {
    var x, y := Get(Obj(p), "metadata"), Get(Obj(o), "metadata");
    if x.Some? && y.Some? && x.value.Obj? && y.value.Obj? {
      MinusComputed(x.value.members, y.value.members);
    }
    if (forall k :: k != "metadata" ==> Get(Obj(p), k) == Get(Obj(o), k)) && KeptMeta(x, y) {
      forall k ensures k in p <==> k in o {
        assert k != "metadata" ==> Get(Obj(p), k) == Get(Obj(o), k);
      }
      forall k | k in o && k != "metadata" ensures p[k] == o[k] {
        assert Get(Obj(p), k) == Get(Obj(o), k);
      }
    }
  }

  lemma MinusComputed(m: Map, n: Map)
    ensures m - COMPUTED == n - COMPUTED <==> forall k :: k !in COMPUTED ==> Get(Obj(m), k) == Get(Obj(n), k)
  {
    if m - COMPUTED == n - COMPUTED {
      forall k | k !in COMPUTED ensures Get(Obj(m), k) == Get(Obj(n), k) {
        assert k in m <==> k in m - COMPUTED;
        assert k in n <==> k in n - COMPUTED;
        assert k in m ==> (m - COMPUTED)[k] == m[k];
        assert k in n ==> (n - COMPUTED)[k] == n[k];
      }
    }
    if forall k :: k !in COMPUTED ==> Get(Obj(m), k) == Get(Obj(n), k) {
      assert forall k :: k in m - COMPUTED <==> k in n - COMPUTED by {
        forall k ensures k in m - COMPUTED <==> k in n - COMPUTED {
          assert k !in COMPUTED ==> Get(Obj(m), k) == Get(Obj(n), k);
        }
      }
      forall k | k in m - COMPUTED ensures (m - COMPUTED)[k] == (n - COMPUTED)[k] {
        assert Get(Obj(m), k) == Get(Obj(n), k);
      }
      assert m - COMPUTED == n - COMPUTED;
    }
  }

  lemma UnchangedSame(p: Map, o: Map, q: Map, u: Map)
    requires Same(p, q) && Same(o, u)
    requires Get(Obj(o), "status") == Get(Obj(p), "status") && Get(Obj(u), "status") == Get(Obj(q), "status")
    requires Unchanged(p, o)
    ensures Unchanged(q, u)
  {
    UnchangedIff(p, o);
    UnchangedIff(q, u);
    forall k | k != "metadata" ensures Get(Obj(q), k) == Get(Obj(u), k) {
      assert Get(Obj(p), k) == Get(Obj(o), k);
      if k != "status" {
        assert Get(Obj(p), k) == Get(Obj(q), k);
        assert Get(Obj(o), k) == Get(Obj(u), k);
      }
    }
    KeptMetaSame(Get(Obj(p), "metadata"), Get(Obj(o), "metadata"), Get(Obj(q), "metadata"), Get(Obj(u), "metadata"));
  }

  lemma KeptMetaSame(p: Option<Json>, o: Option<Json>, q: Option<Json>, u: Option<Json>)
    requires SameMeta(p, q) && SameMeta(o, u) && KeptMeta(p, o)
    ensures KeptMeta(q, u)
  {
    if q.Some? && q.value.Obj? {
      forall k | k !in COMPUTED ensures Get(q.value, k) == Get(u.value, k) {
        assert Get(p.value, k) == Get(o.value, k);
        assert k != "resourceVersion";
        assert Get(p.value, k) == Get(q.value, k);
        assert Get(o.value, k) == Get(u.value, k);
      }
    }
  }

  lemma SameFlips(a: Map, b: Map)
    requires Same(a, b)
    ensures Same(b, a)
  {
    forall k | k != "status" && k != "metadata" ensures Get(Obj(b), k) == Get(Obj(a), k) {
      assert Get(Obj(a), k) == Get(Obj(b), k);
    }
    var x, y := Get(Obj(a), "metadata"), Get(Obj(b), "metadata");
    if x != y {
      forall k | k != "resourceVersion" ensures Get(y.value, k) == Get(x.value, k) {
        assert Get(x.value, k) == Get(y.value, k);
      }
    }
  }

  lemma ReleasedSame(a: Map, b: Map)
    requires Same(a, b)
    ensures Released(a) == Released(b) && Terminating(a) == Terminating(b)
  {
    SameFields(a, b, "deletionTimestamp");
    SameFields(a, b, "finalizers");
  }

  lemma GenerationSame(p: Map, o: Map, q: Map, u: Map)
    requires Same(p, q) && Same(o, u)
    ensures NextGeneration(p, o) == NextGeneration(q, u)
  {
    SameFields(p, q, "generation");
    assert Get(Obj(p), "spec") == Get(Obj(q), "spec");
    assert Get(Obj(o), "spec") == Get(Obj(u), "spec");
  }

  /** The store's verdict on a write, and the main half of what it stores, do not depend on
      status or revision, as long as the write carries the status it found. */
  lemma CommittedSame(p: Map, o: Map, q: Map, u: Map, revision: string, other: string)
    requires Same(p, q) && Same(o, u)
    requires Get(Obj(o), "status") == Get(Obj(p), "status") && Get(Obj(u), "status") == Get(Obj(q), "status")
    ensures SameState(Committed(p, o, revision), Committed(q, u, other))
  {
    SameFlips(p, q);
    SameFlips(o, u);
    if Unchanged(p, o) {
      UnchangedSame(p, o, q, u);
    } else if Unchanged(q, u) {
      UnchangedSame(q, u, p, o);
    }
    ReleasedSame(o, u);
    GenerationSame(p, o, q, u);
    var x, y := PutMeta(o, "resourceVersion", Str(revision)), PutMeta(u, "resourceVersion", Str(other));
    RevisionSame(o, u, revision, other);
    PutMetaSame(x, y, "generation", Number(NextGeneration(p, o)));
    ReleasedSame(PutMeta(x, "generation", Number(NextGeneration(p, o))),
        PutMeta(y, "generation", Number(NextGeneration(p, o))));
  }

  lemma RevisionSame(a: Map, b: Map, revision: string, other: string)
    requires Same(a, b)
    ensures Same(PutMeta(a, "resourceVersion", Str(revision)), PutMeta(b, "resourceVersion", Str(other)))
  {
    MetaOfSame(a, b);
    var x, y := MetaOf(a), MetaOf(b);
    if x.Obj? {
      var m, n := Obj(x.members["resourceVersion" := Str(revision)]), Obj(y.members["resourceVersion" := Str(other)]);
      forall k | k != "resourceVersion" ensures Get(m, k) == Get(n, k) {
        assert Get(x, k) == Get(y, k);
      }
      SetMetaSame(a, b, m, n);
    }
  }
}
