/** Which main writes are accepted, and what an accepted one stores of what the client sent. */
module StatusSplitAccepted {
  import opened JsonValue
  import ObjectBody
  import ObjectBodyLaws
  import Defaulting
  import opened StatusSplit
  import opened StatusSplitLaws
  import opened StatusSplitRuns

  /** The body is an object, the metadata in it and in its templates is well shaped, and it bears
      no other name than the one written to. */
  ghost predicate Acceptable(r: Resource, body: Json) {
    && body.Obj?
    && (forall path | path == [] || ObjectBodyLaws.Embeds(r.group, r.kind, path) ::
          ObjectBodyLaws.WellShapedHeld(ObjectBodyLaws.Held(body.members, path)))
    && (forall name | Field(body, "metadata", "name") == Some(Str(name)) :: name == r.name)
  }

  /** No template of the kind lies under this root member. */
  ghost predicate NoTemplateUnder(r: Resource, root: string) {
    forall path | ObjectBodyLaws.Embeds(r.group, r.kind, path) :: path[0] != root
  }

  /** The path leads neither into the body's metadata or status nor into a template's metadata. */
  ghost predicate OutsideMetadata(r: Resource, path: seq<string>) {
    && path != [] && path[0] !in {"metadata", "status"}
    && forall slot | ObjectBodyLaws.Embeds(r.group, r.kind, slot) :: ObjectBodyLaws.Apart(path, slot)
  }

  predicate HasDefaults(r: Resource) {
    r.group == "" && r.version == "v1" && r.kind in {"Pod", "Secret", "Service"}
  }

  lemma ShapedIff(r: Resource, body: Json)
    ensures ObjectBody.Normalized(r.group, r.kind, body).Ok? <==>
            && body.Obj?
            && forall path | path == [] || ObjectBodyLaws.Embeds(r.group, r.kind, path) ::
                 ObjectBodyLaws.WellShapedHeld(ObjectBodyLaws.Held(body.members, path))
  {
    ObjectBodyLaws.AcceptedIffWellShaped(r.group, r.kind, body);
    forall path
      ensures path in ObjectBody.Slots(r.group, r.kind) <==> path == [] || ObjectBodyLaws.Embeds(r.group, r.kind, path)
    {
      ObjectBodyLaws.SlotIff(r.group, r.kind, path);
    }
  }

  /** Normalizing keeps what lies outside metadata. */
  lemma NormalizedKeeps(r: Resource, body: Json, path: seq<string>)
    requires ObjectBody.Normalized(r.group, r.kind, body).Ok? && OutsideMetadata(r, path)
    ensures var o := ObjectBody.Normalized(r.group, r.kind, body).value;
            o.Obj? && ObjectBodyLaws.Lookup(o, path) == ObjectBodyLaws.Lookup(body, path)
  {
    ObjectBodyLaws.NormalizedIsTidy(r.group, r.kind, body);
    ObjectBodyLaws.NormalizedLeavesTheRest(r.group, r.kind, body);
    forall slot | slot in ObjectBody.Slots(r.group, r.kind) ensures ObjectBodyLaws.Apart(path, slot) {
      ObjectBodyLaws.SlotIff(r.group, r.kind, slot);
    }
  }

  lemma RootIsOutside(r: Resource, root: string)
    requires root !in {"metadata", "status"} && NoTemplateUnder(r, root)
    ensures OutsideMetadata(r, [root])
  {
  }

  lemma LookupRoot(j: Json, root: string, rest: seq<string>)
    ensures ObjectBodyLaws.Lookup(j, [root]) == Get(j, root)
    ensures ObjectBodyLaws.Lookup(j, [root] + rest) ==
            if Get(j, root).None? then None else ObjectBodyLaws.Lookup(Get(j, root).value, rest)
  {
    assert [root][1..] == [] && ([root] + rest)[1..] == rest;
  }

  lemma NameStays(r: Resource, body: Json)
    requires ObjectBody.Normalized(r.group, r.kind, body).Ok?
    ensures Field(ObjectBody.Normalized(r.group, r.kind, body).value, "metadata", "name") ==
            Field(body, "metadata", "name")
  {
    var slots := ObjectBody.Slots(r.group, r.kind);
    ObjectBodyLaws.SlotsAreSeparate(r.group, r.kind);
    assert slots[0] == [];
    ObjectBodyLaws.CleanAllHeld(body.members, slots, []);
    var held := Get(body, "metadata");
    assert ObjectBodyLaws.Held(body.members, []) == Some(held);
    if held.Some? && held.value.Obj? {
      ObjectBodyLaws.CleanMetaPointwise(held.value.members, "name", "");
    }
  }

  /** A main write is accepted if and only if its body is acceptable. */
  lemma AcceptedIff(r: Resource, body: Json)
    ensures Prepared(r, body).Some? <==> Acceptable(r, body)
  {
    ShapedIff(r, body);
    if ObjectBody.Normalized(r.group, r.kind, body).Ok? {
      ObjectBodyLaws.NormalizedIsTidy(r.group, r.kind, body);
      NameStays(r, body);
      DefaultedIsObject(r, PutMeta(ObjectBody.Normalized(r.group, r.kind, body).value.members, "name", Str(r.name)));
    }
  }

  lemma DefaultedIsObject(r: Resource, o: Map)
    ensures Defaulting.Apply(r.group, r.version, r.kind, Obj(o)).Obj?
  {
  }

  /** What defaulting makes of one root member depends on that member alone. */
  lemma DefaultedRoot(r: Resource, a: Map, b: Map, root: string)
    requires Get(Obj(a), root) == Get(Obj(b), root)
    ensures Get(Defaulting.Apply(r.group, r.version, r.kind, Obj(a)), root) ==
            Get(Defaulting.Apply(r.group, r.version, r.kind, Obj(b)), root)
  {
  }

  lemma PreparedRoot(r: Resource, body: Json, root: string)
    requires Prepared(r, body).Some? && root !in {"metadata", "status"} && NoTemplateUnder(r, root)
    ensures Get(Obj(Prepared(r, body).value), root) ==
            Get(Defaulting.Apply(r.group, r.version, r.kind, body), root)
  {
    var o := ObjectBody.Normalized(r.group, r.kind, body).value.members;
    RootIsOutside(r, root);
    NormalizedKeeps(r, body, [root]);
    LookupRoot(Obj(o), root, []);
    LookupRoot(body, root, []);
    PutMetaFrame(o, "name", Str(r.name), root);
    DefaultedRoot(r, PutMeta(o, "name", Str(r.name)), body.members, root);
  }

  lemma PreparedPath(r: Resource, body: Json, path: seq<string>)
    requires Prepared(r, body).Some? && OutsideMetadata(r, path) && !HasDefaults(r)
    ensures ObjectBodyLaws.Lookup(Obj(Prepared(r, body).value), path) == ObjectBodyLaws.Lookup(body, path)
  {
    var o := ObjectBody.Normalized(r.group, r.kind, body).value.members;
    NormalizedKeeps(r, body, path);
    PutMetaFrame(o, "name", Str(r.name), path[0]);
    assert path == [path[0]] + path[1..];
    LookupRoot(Obj(o), path[0], path[1..]);
    LookupRoot(Obj(Prepared(r, body).value), path[0], path[1..]);
  }

  lemma PreparedStores(r: Resource, prior: Map, body: Json, revision: string, root: string, member: Option<Json>)
    requires Sound(prior) && root !in {"metadata", "status"} && Prepared(r, body).Some?
    requires Get(Obj(Prepared(r, body).value), root) == member
    ensures MainStep(r, prior, body, revision).Some? ==>
              Get(Obj(MainStep(r, prior, body, revision).value), root) == member
  {
    if MainStep(r, prior, body, revision).Some? {
      MainStepTakes(r, prior, body, revision, root, "labels");
    }
  }

  /** A refused write leaves the object as it is. An accepted one stores, under every root member
      but metadata, status and one that leads to a template, what the client sent with its defaults. */
  lemma MainWriteStores(r: Resource, prior: Map, body: Json, revision: string, root: string)
    requires Sound(prior) && root !in {"metadata", "status"} && NoTemplateUnder(r, root)
    ensures var after := MainStep(r, prior, body, revision);
            && (!Acceptable(r, body) ==> after == Some(prior))
            && (Acceptable(r, body) && after.Some? ==>
                  Get(Obj(after.value), root) == Get(Defaulting.Apply(r.group, r.version, r.kind, body), root))
  {
    AcceptedIff(r, body);
    if Acceptable(r, body) {
      PreparedRoot(r, body, root);
      PreparedStores(r, prior, body, revision, root, Get(Defaulting.Apply(r.group, r.version, r.kind, body), root));
    }
  }

  lemma SameRootSamePath(a: Json, b: Json, path: seq<string>)
    requires path != [] && Get(a, path[0]) == Get(b, path[0])
    ensures ObjectBodyLaws.Lookup(a, path) == ObjectBodyLaws.Lookup(b, path)
  {
  }

  /** Of a kind without defaults it stores, at every path outside metadata and status, templates
      included, exactly what the client sent there. */
  lemma MainWriteStoresAsSent(r: Resource, prior: Map, body: Json, revision: string, path: seq<string>)
    requires Sound(prior) && OutsideMetadata(r, path) && !HasDefaults(r) && Acceptable(r, body)
    ensures var after := MainStep(r, prior, body, revision);
            after.Some? ==> ObjectBodyLaws.Lookup(Obj(after.value), path) == ObjectBodyLaws.Lookup(body, path)
  {
    var after := MainStep(r, prior, body, revision);
    AcceptedIff(r, body);
    if after.Some? {
      PreparedPath(r, body, path);
      MainStepTakes(r, prior, body, revision, path[0], "labels");
      SameRootSamePath(Obj(after.value), Obj(Prepared(r, body).value), path);
    }
  }

  // ---- the metadata the server decides ------------------------------------------------------------

  /** A field of the metadata that normalizing and defaulting leave alone. */
  lemma PreparedMeta(r: Resource, body: Json, key: string)
    requires Prepared(r, body).Some? && key != "name" && key !in ObjectBody.FIELDS
    ensures MetaField(Prepared(r, body).value, key) == Field(body, "metadata", key)
  {
    var slots := ObjectBody.Slots(r.group, r.kind);
    var o := ObjectBody.Normalized(r.group, r.kind, body).value.members;
    ObjectBodyLaws.SlotsAreSeparate(r.group, r.kind);
    assert slots[0] == [];
    ObjectBodyLaws.CleanAllHeld(body.members, slots, []);
    var held := Get(body, "metadata");
    assert ObjectBodyLaws.Held(body.members, []) == Some(held);
    if held.Some? && held.value.Obj? {
      ObjectBodyLaws.CleanMetaPointwise(held.value.members, key, "");
    }
    PutMetaFrame(o, "name", Str(r.name), key);
    DefaultedMeta(r, PutMeta(o, "name", Str(r.name)));
  }

  lemma PlacedNames(r: Resource, o: Map)
    requires MetaOf(o).Obj?
    ensures MetaOf(Placed(r, o)).Obj? && MetaField(Placed(r, o), "name") == Some(Str(r.name))
    ensures MetaField(Placed(r, o), "namespace") ==
            if r.namespace.Some? then Some(Str(r.namespace.value)) else MetaField(o, "namespace")
    ensures MetaField(Placed(r, o), "uid") == MetaField(o, "uid")
  {
    var named := PutMeta(o, "name", Str(r.name));
    forall k | k in {"name", "namespace", "uid"}
      ensures MetaField(named, k) == (if k == "name" then Some(Str(r.name)) else MetaField(o, k)) && MetaOf(named).Obj?
    {
      PutMetaFrame(o, "name", Str(r.name), k);
    }
    if r.namespace.Some? {
      PutMetaFrame(named, "namespace", Str(r.namespace.value), "name");
      PutMetaFrame(named, "namespace", Str(r.namespace.value), "namespace");
      PutMetaFrame(named, "namespace", Str(r.namespace.value), "uid");
    }
  }

  lemma WholeNames(r: Resource, o: Map, prior: Map, key: string)
    requires MetaOf(o).Obj? && key in {"name", "namespace"}
    ensures MetaField(Owned(r, o, prior), key) == MetaField(Whole(r, o, prior), key) == MetaField(Placed(r, o), key)
  {
    PlacedNames(r, o);
    PreservedTakes(Placed(r, o), prior, "spec", key);
    OwnedKeeps(r, o, prior, "uid");
    IdentifyTakes(Owned(r, o, prior), prior, r.minted, "spec", key);
  }

  /** The name and namespace stored are those written to, whatever the body says. */
  lemma MainWriteNames(r: Resource, prior: Map, body: Json, revision: string)
    requires Sound(prior) && Acceptable(r, body)
    ensures var after := MainStep(r, prior, body, revision);
            after.Some? ==>
              && MetaField(after.value, "name") == Some(Str(r.name))
              && MetaField(after.value, "namespace") ==
                 if r.namespace.Some? then Some(Str(r.namespace.value)) else Field(body, "metadata", "namespace")
  {
    AcceptedIff(r, body);
    var o, after := Prepared(r, body).value, MainStep(r, prior, body, revision);
    PreparedHasMeta(r, body);
    PlacedNames(r, o);
    assert "namespace" !in ObjectBody.FIELDS;
    PreparedMeta(r, body, "namespace");
    forall key | key in {"name", "namespace"} && after.Some?
      ensures MetaField(after.value, key) == MetaField(Placed(r, o), key)
    {
      StoredField(r, prior, body, revision, key);
    }
  }

  lemma StoredField(r: Resource, prior: Map, body: Json, revision: string, key: string)
    requires Sound(prior) && Prepared(r, body).Some? && MainStep(r, prior, body, revision).Some?
    requires key in {"name", "namespace"}
    ensures MetaField(MainStep(r, prior, body, revision).value, key) ==
            MetaField(Placed(r, Prepared(r, body).value), key)
  {
    var o := Prepared(r, body).value;
    PreparedHasMeta(r, body);
    WholeNames(r, o, prior, key);
    OwnedKeeps(r, o, prior, "uid");
    WholeKeeps(r, o, prior, "uid");
    StoredMeta(r, prior, Owned(r, o, prior), revision, key);
  }

  lemma StoredMeta(r: Resource, prior: Map, owned: Map, revision: string, key: string)
    requires Sound(prior) && MetaOf(owned).Obj? && Stored(r, prior, owned, revision).Some? && key !in COMPUTED
    requires var whole := Identify(owned, prior, r.minted);
             MetaOf(whole).Obj? && MetaField(whole, key) == MetaField(owned, key)
    ensures MetaField(Stored(r, prior, owned, revision).value, key) == MetaField(owned, key)
  {
    if Unchanged(prior, owned) && !Terminating(owned) {
      UnchangedIff(prior, owned);
      assert Get(Get(Obj(prior), "metadata").value, key) == Get(Get(Obj(owned), "metadata").value, key);
    } else {
      CommittedKeeps(prior, Identify(owned, prior, r.minted), revision, key);
    }
  }

  ghost predicate Identified(uid: Option<Json>) {
    uid != None && uid != Some(Null) && uid != Some(Str(""))
  }

  lemma IdentifiedUid(o: Map, prior: Map, minted: string)
    requires MetaOf(o).Obj?
    ensures MetaField(Identify(o, prior, minted), "uid") ==
            if Identified(MetaField(prior, "uid")) then MetaField(prior, "uid")
            else if Identified(MetaField(o, "uid")) then MetaField(o, "uid")
            else Some(Str(minted))
  {
    var uid := if IsUid(MetaField(prior, "uid")) then MetaField(prior, "uid").value else Str(minted);
    PutMetaFrame(o, "uid", uid, "uid");
    KeepFieldFrame(PutMeta(o, "uid", uid), prior, "creationTimestamp", "uid");
    KeepFieldFrame(o, prior, "creationTimestamp", "uid");
  }

  lemma WholeUid(r: Resource, o: Map, prior: Map)
    requires MetaOf(o).Obj?
    ensures var had, sent := MetaField(prior, "uid"), MetaField(o, "uid");
            MetaField(Whole(r, o, prior), "uid") ==
            if Identified(had) then had else if had == None && Identified(sent) then sent else Some(Str(r.minted))
  {
    OwnedUid(r, o, prior);
    IdentifiedUid(Owned(r, o, prior), prior, r.minted);
  }

  lemma StoredWhole(r: Resource, prior: Map, o: Map, revision: string, key: string)
    requires Sound(prior) && MetaOf(o).Obj? && key !in COMPUTED
    ensures var after := Stored(r, prior, Owned(r, o, prior), revision);
            after.Some? && after.value != prior ==> MetaField(after.value, key) == MetaField(Whole(r, o, prior), key)
  {
    var after := Stored(r, prior, Owned(r, o, prior), revision);
    if after.Some? && after.value != prior {
      WholeKeeps(r, o, prior, key);
      CommittedKeeps(prior, Whole(r, o, prior), revision, key);
    }
  }

  /** An object that a main write changed has the uid it had; without one, the one the body gives;
      without that, the one the store mints. */
  lemma MainWriteIdentifies(r: Resource, prior: Map, body: Json, revision: string)
    requires Sound(prior) && Acceptable(r, body)
    ensures var after, had, sent := MainStep(r, prior, body, revision), MetaField(prior, "uid"),
                Field(body, "metadata", "uid");
            after.Some? && after.value != prior ==>
              MetaField(after.value, "uid") ==
              if Identified(had) then had else if had == None && Identified(sent) then sent else Some(Str(r.minted))
  {
    AcceptedIff(r, body);
    var o := Prepared(r, body).value;
    PreparedHasMeta(r, body);
    assert "uid" !in ObjectBody.FIELDS;
    PreparedMeta(r, body, "uid");
    WholeUid(r, o, prior);
    StoredWhole(r, prior, o, revision, "uid");
  }

  lemma OwnedUid(r: Resource, o: Map, prior: Map)
    requires MetaOf(o).Obj?
    ensures MetaOf(Owned(r, o, prior)).Obj?
    ensures MetaField(Owned(r, o, prior), "uid") ==
            if MetaField(prior, "uid").Some? then MetaField(prior, "uid") else MetaField(o, "uid")
  {
    PlacedNames(r, o);
    var placed := Placed(r, o);
    var first := KeepField(placed, prior, "creationTimestamp");
    var kept := KeepField(first, prior, "uid");
    var live := MetaField(prior, "deletionTimestamp");
    KeepFieldFrame(placed, prior, "creationTimestamp", "uid");
    KeepFieldFrame(first, prior, "uid", "uid");
    if live.Some? {
      PutMetaFrame(kept, "deletionTimestamp", live.value, "uid");
    } else {
      DropMetaFrame(kept, "deletionTimestamp", "uid");
    }
  }

  // ---- removal ----------------------------------------------------------------------------------

  lemma DefaultedMeta(r: Resource, o: Map)
    ensures Get(Defaulting.Apply(r.group, r.version, r.kind, Obj(o)), "metadata") == Get(Obj(o), "metadata")
  {
  }

  /** A finalizers list is stored as it was sent, and a null one not at all. */
  lemma PreparedFinalizers(r: Resource, body: Json)
    requires Prepared(r, body).Some?
    ensures var sent := Field(body, "metadata", "finalizers");
            MetaField(Prepared(r, body).value, "finalizers") == if sent == Some(Null) then None else sent
  {
    var slots := ObjectBody.Slots(r.group, r.kind);
    var o := ObjectBody.Normalized(r.group, r.kind, body).value.members;
    ObjectBodyLaws.SlotsAreSeparate(r.group, r.kind);
    assert slots[0] == [];
    ObjectBodyLaws.CleanAllHeld(body.members, slots, []);
    var held := Get(body, "metadata");
    assert ObjectBodyLaws.Held(body.members, []) == Some(held);
    assert ObjectBody.FIELDS[3] == "finalizers";
    if held.Some? && held.value.Obj? {
      ObjectBodyLaws.CleanMetaPointwise(held.value.members, "finalizers", "");
    }
    PutMetaFrame(o, "name", Str(r.name), "finalizers");
    DefaultedMeta(r, PutMeta(o, "name", Str(r.name)));
  }

  /** The object's deletion is under way, by a stamp that is not empty. */
  ghost predicate BeingDeleted(o: Map) {
    exists stamp :: Field(Obj(o), "metadata", "deletionTimestamp") == Some(Str(stamp)) && stamp != ""
  }

  ghost predicate KeepsFinalizers(body: Json) {
    exists items :: Field(body, "metadata", "finalizers") == Some(Arr(items)) && items != []
  }

  lemma StampedReleases(prior: Map, o: Map, revision: string)
    requires MetaOf(o).Obj?
    ensures Committed(prior, o, revision) == None <==> Released(o)
  {
    forall k | k in {"deletionTimestamp", "finalizers"}
      ensures MetaField(PutMeta(PutMeta(o, "resourceVersion", Str(revision)), "generation",
                  Number(NextGeneration(prior, o))), k) == MetaField(o, k)
    {
      PutMetaFrame(o, "resourceVersion", Str(revision), k);
      PutMetaFrame(PutMeta(o, "resourceVersion", Str(revision)), "generation", Number(NextGeneration(prior, o)), k);
    }
  }

  lemma ReleasedIff(o: Map, prior: Map, body: Json)
    requires MetaField(o, "deletionTimestamp") == MetaField(prior, "deletionTimestamp")
    requires var sent := Field(body, "metadata", "finalizers");
             MetaField(o, "finalizers") == if sent == Some(Null) then None else sent
    ensures Released(o) <==> BeingDeleted(prior) && !KeepsFinalizers(body)
    ensures Terminating(o) <==> BeingDeleted(prior)
  {
  }

  lemma WholeReleases(r: Resource, prior: Map, o: Map, body: Json)
    requires MetaOf(o).Obj?
    requires var sent := Field(body, "metadata", "finalizers");
             MetaField(o, "finalizers") == if sent == Some(Null) then None else sent
    ensures Released(Whole(r, o, prior)) <==> BeingDeleted(prior) && !KeepsFinalizers(body)
    ensures Terminating(Owned(r, o, prior)) <==> BeingDeleted(prior)
  {
    WholeKeeps(r, o, prior, "deletionTimestamp");
    OwnedKeeps(r, o, prior, "deletionTimestamp");
    WholeTakes(r, o, prior, "spec", "finalizers");
    ReleasedIff(Whole(r, o, prior), prior, body);
    ReleasedIff(Owned(r, o, prior), prior, body);
  }

  /** A main write removes the object if and only if it is accepted, the object is being deleted
      and the write leaves it no finalizer. */
  lemma MainWriteRemovesIff(r: Resource, prior: Map, body: Json, revision: string)
    ensures MainStep(r, prior, body, revision) == None <==>
            Acceptable(r, body) && BeingDeleted(prior) && !KeepsFinalizers(body)
  {
    AcceptedIff(r, body);
    if Acceptable(r, body) {
      var o := Prepared(r, body).value;
      PreparedHasMeta(r, body);
      WholeKeeps(r, o, prior, "uid");
      PreparedFinalizers(r, body);
      WholeReleases(r, prior, o, body);
      StampedReleases(prior, Whole(r, o, prior), revision);
    }
  }
}
