/** Runs of main and status writes: each half ends as if the other had never been written. */
module StatusSplitRuns {
  import opened JsonValue
  import opened StatusSplit
  import opened StatusSplitLaws
  import ObjectBody
  import ObjectBodyLaws

  // ---- a main write ---------------------------------------------------------------------------

  lemma PutMetaFrame(o: Map, key: string, value: Json, other: string)
    ensures other != "metadata" ==> Get(Obj(PutMeta(o, key, value)), other) == Get(Obj(o), other)
    ensures MetaOf(o).Obj? ==> MetaField(PutMeta(o, key, value), other) == if other == key then Some(value)
            else MetaField(o, other)
    ensures MetaOf(o).Obj? ==> "metadata" in PutMeta(o, key, value) && MetaOf(PutMeta(o, key, value)).Obj?
  {
  }

  lemma DropMetaFrame(o: Map, key: string, other: string)
    ensures MetaOf(o).Obj? ==> MetaField(DropMeta(o, key), other) == if other == key then None else MetaField(o, other)
    ensures MetaOf(o).Obj? ==> MetaOf(DropMeta(o, key)).Obj?
  {
  }

  lemma KeepFieldFrame(o: Map, prior: Map, key: string, other: string)
    ensures other != "metadata" ==> Get(Obj(KeepField(o, prior, key)), other) == Get(Obj(o), other)
    ensures MetaOf(o).Obj? ==>
              && MetaOf(KeepField(o, prior, key)).Obj?
              && MetaField(KeepField(o, prior, key), other) ==
                 if other == key && MetaField(prior, key).Some? then MetaField(prior, key) else MetaField(o, other)
  {
    if MetaField(prior, key).Some? {
      PutMetaFrame(o, key, MetaField(prior, key).value, other);
    }
  }

  /** The server-owned metadata after `PreserveMeta` is the live object's. */
  lemma PreserveMetaKeeps(o: Map, prior: Map, key: string)
    requires MetaOf(o).Obj?
    ensures MetaOf(PreserveMeta(o, prior)).Obj?
    ensures key in {"creationTimestamp", "uid"} && MetaField(prior, key).Some? ==>
            MetaField(PreserveMeta(o, prior), key) == MetaField(prior, key)
    ensures key == "deletionTimestamp" ==> MetaField(PreserveMeta(o, prior), key) == MetaField(prior, key)
  {
    var first := KeepField(o, prior, "creationTimestamp");
    var kept := KeepField(first, prior, "uid");
    KeepFieldFrame(o, prior, "creationTimestamp", key);
    KeepFieldFrame(first, prior, "uid", key);
    var live := MetaField(prior, "deletionTimestamp");
    if live.Some? {
      PutMetaFrame(kept, "deletionTimestamp", live.value, key);
    } else {
      DropMetaFrame(kept, "deletionTimestamp", key);
    }
  }

  lemma OwnedKeeps(r: Resource, o: Map, prior: Map, key: string)
    requires MetaOf(o).Obj?
    ensures MetaOf(Owned(r, o, prior)).Obj?
    ensures Get(Obj(Owned(r, o, prior)), "status") == Get(Obj(prior), "status")
    ensures key in {"creationTimestamp", "uid"} && MetaField(prior, key).Some? ==>
            MetaField(Owned(r, o, prior), key) == MetaField(prior, key)
    ensures key == "deletionTimestamp" ==> MetaField(Owned(r, o, prior), key) == MetaField(prior, key)
  {
    PutMetaFrame(o, "name", Str(r.name), "name");
    if r.namespace.Some? {
      PutMetaFrame(PutMeta(o, "name", Str(r.name)), "namespace", Str(r.namespace.value), "namespace");
    }
    PreserveMetaKeeps(Placed(r, o), prior, key);
  }

  lemma IdentifyKeeps(o: Map, prior: Map, minted: string, key: string)
    requires MetaOf(o).Obj?
    ensures MetaOf(Identify(o, prior, minted)).Obj?
    ensures Get(Obj(Identify(o, prior, minted)), "status") == Get(Obj(o), "status")
    ensures key == "creationTimestamp" && MetaField(prior, key).Some? ==>
            MetaField(Identify(o, prior, minted), key) == MetaField(prior, key)
    ensures key == "uid" && IsUid(MetaField(prior, key)) ==>
            MetaField(Identify(o, prior, minted), key) == MetaField(prior, key)
    ensures key == "deletionTimestamp" ==> MetaField(Identify(o, prior, minted), key) == MetaField(o, key)
  {
    var uid := if IsUid(MetaField(prior, "uid")) then MetaField(prior, "uid").value else Str(minted);
    PutMetaFrame(o, "uid", uid, key);
    PutMetaFrame(o, "uid", uid, "status");
    KeepFieldFrame(PutMeta(o, "uid", uid), prior, "creationTimestamp", key);
    KeepFieldFrame(PutMeta(o, "uid", uid), prior, "creationTimestamp", "status");
    KeepFieldFrame(o, prior, "creationTimestamp", key);
    KeepFieldFrame(o, prior, "creationTimestamp", "status");
  }

  lemma CommittedKeeps(prior: Map, o: Map, revision: string, key: string)
    requires Sound(prior) && MetaOf(o).Obj? && Committed(prior, o, revision).Some?
    ensures var after := Committed(prior, o, revision).value;
            && Sound(after)
            && Get(Obj(after), "status") == Get(Obj(o), "status")
            && Get(Obj(after), "spec") == Get(Obj(o), "spec")
            && GenerationOf(after) == NextGeneration(prior, o)
            && (key !in COMPUTED ==> MetaField(after, key) == MetaField(o, key))
  {
    if Unchanged(prior, o) && !Released(o) {
      UnchangedIff(prior, o);
      assert Get(Obj(prior), "status") == Get(Obj(o), "status");
      assert Get(Obj(prior), "spec") == Get(Obj(o), "spec");
      var x, y := Get(Obj(prior), "metadata"), Get(Obj(o), "metadata");
      assert key !in COMPUTED ==> Get(x.value, key) == Get(y.value, key);
    } else {
      var versioned, generation := PutMeta(o, "resourceVersion", Str(revision)), Number(NextGeneration(prior, o));
      forall k ensures k in {key, "status", "spec", "generation"} ==>
        (k != "metadata" ==> Get(Obj(PutMeta(versioned, "generation", generation)), k) == Get(Obj(o), k))
        && MetaField(PutMeta(versioned, "generation", generation), k) ==
           if k == "generation" then Some(generation) else if k == "resourceVersion" then Some(Str(revision))
               else MetaField(o, k)
      {
        PutMetaFrame(o, "resourceVersion", Str(revision), k);
        PutMetaFrame(versioned, "generation", generation, k);
      }
    }
  }

  lemma PreparedHasMeta(r: Resource, candidate: Json)
    requires Prepared(r, candidate).Some?
    ensures MetaOf(Prepared(r, candidate).value).Obj?
  {
    var slots := ObjectBody.Slots(r.group, r.kind);
    ObjectBodyLaws.NormalizedIsTidy(r.group, r.kind, candidate);
    var o := ObjectBody.Normalized(r.group, r.kind, candidate).value.members;
    assert slots[0] == [] && ObjectBodyLaws.TidyHeld(ObjectBodyLaws.Held(o, slots[0]));
    PutMetaFrame(o, "name", Str(r.name), "name");
    var named := PutMeta(o, "name", Str(r.name));
    assert Same(named, named);
    ApplySame(r, named, named);
  }

  /** The candidate a main write proposes once the server has put back what it owns. */
  function Whole(r: Resource, o: Map, prior: Map): Map {
    Identify(Owned(r, o, prior), prior, r.minted)
  }

  /** The metadata no main write may change once the live object holds it. */
  ghost predicate Fixed(prior: Map, key: string) {
    || key == "deletionTimestamp"
    || (key == "creationTimestamp" && MetaField(prior, key).Some?)
    || (key == "uid" && IsUid(MetaField(prior, key)))
  }

  lemma WholeKeeps(r: Resource, o: Map, prior: Map, key: string)
    requires MetaOf(o).Obj?
    ensures MetaOf(Whole(r, o, prior)).Obj?
    ensures Get(Obj(Whole(r, o, prior)), "status") == Get(Obj(prior), "status")
    ensures Fixed(prior, key) ==> MetaField(Whole(r, o, prior), key) == MetaField(prior, key)
  {
    OwnedKeeps(r, o, prior, key);
    IdentifyKeeps(Owned(r, o, prior), prior, r.minted, key);
  }

  lemma MainStepShape(r: Resource, prior: Map, candidate: Json, revision: string)
    ensures var after := MainStep(r, prior, candidate, revision);
            after.Some? && after.value != prior ==>
              Prepared(r, candidate).Some? && after ==
                  Committed(prior, Whole(r, Prepared(r, candidate).value, prior), revision)
  {
  }

  /** What a write over the live object keeps of it, and what it does to the generation. */
  ghost predicate KeepsOf(prior: Map, after: Map, key: string) {
    && Sound(after)
    && Get(Obj(after), "status") == Get(Obj(prior), "status")
    && (Fixed(prior, key) ==> MetaField(after, key) == MetaField(prior, key))
    && GenerationOf(after) == GenerationOf(prior) + if Get(Obj(after), "spec") == Get(Obj(prior), "spec") then 0 else 1
  }

  lemma WholeCommitted(prior: Map, whole: Map, revision: string, key: string)
    requires Sound(prior) && MetaOf(whole).Obj? && Committed(prior, whole, revision).Some?
    requires Get(Obj(whole), "status") == Get(Obj(prior), "status")
    requires Fixed(prior, key) ==> MetaField(whole, key) == MetaField(prior, key)
    ensures KeepsOf(prior, Committed(prior, whole, revision).value, key)
  {
    CommittedKeeps(prior, whole, revision, key);
  }

  /** What a main write keeps: the status, the fixed metadata; and it raises the generation by
      one exactly when it changes the spec. */
  lemma MainStepKeeps(r: Resource, prior: Map, candidate: Json, revision: string, key: string)
    requires Sound(prior) && MainStep(r, prior, candidate, revision).Some?
    ensures KeepsOf(prior, MainStep(r, prior, candidate, revision).value, key)
  {
    MainStepShape(r, prior, candidate, revision);
    if MainStep(r, prior, candidate, revision).value != prior {
      var o := Prepared(r, candidate).value;
      PreparedHasMeta(r, candidate);
      WholeKeeps(r, o, prior, key);
      WholeCommitted(prior, Whole(r, o, prior), revision, key);
    }
  }

  /** The metadata the server decides, whatever a main write says. */
  const STAMPED := {"uid", "creationTimestamp", "deletionTimestamp"}
  const SERVER_OWNED := {"name", "namespace"} + STAMPED + COMPUTED

  lemma WholeTakes(r: Resource, o: Map, prior: Map, root: string, key: string)
    requires MetaOf(o).Obj? && root !in {"metadata", "status"} && key !in SERVER_OWNED
    ensures MetaOf(Owned(r, o, prior)).Obj? && MetaOf(Whole(r, o, prior)).Obj?
    ensures Get(Obj(Owned(r, o, prior)), root) == Get(Obj(Whole(r, o, prior)), root) == Get(Obj(o), root)
    ensures MetaField(Owned(r, o, prior), key) == MetaField(Whole(r, o, prior), key) == MetaField(o, key)
  {
    var named := PutMeta(o, "name", Str(r.name));
    var placed := Placed(r, o);
    forall k | k in {root, key}
      ensures (k == root ==> Get(Obj(placed), k) == Get(Obj(o), k))
              && (k == key ==> MetaField(placed, k) == MetaField(o, k)) && MetaOf(placed).Obj?
    {
      PutMetaFrame(o, "name", Str(r.name), k);
      if r.namespace.Some? {
        PutMetaFrame(named, "namespace", Str(r.namespace.value), k);
      }
    }
    PreservedTakes(placed, prior, root, key);
    IdentifyTakes(Owned(r, o, prior), prior, r.minted, root, key);
  }

  lemma PreservedTakes(o: Map, prior: Map, root: string, key: string)
    requires MetaOf(o).Obj? && root !in {"metadata", "status"} && key !in STAMPED
    ensures MetaOf(PreserveMeta(o, prior)).Obj?
    ensures Get(Obj(PreserveMeta(o, prior)), root) == Get(Obj(o), root)
            && MetaField(PreserveMeta(o, prior), key) == MetaField(o, key)
  {
    var first := KeepField(o, prior, "creationTimestamp");
    var kept := KeepField(first, prior, "uid");
    var live := MetaField(prior, "deletionTimestamp");
    KeepFieldFrame(o, prior, "creationTimestamp", root);
    KeepFieldFrame(o, prior, "creationTimestamp", key);
    KeepFieldFrame(first, prior, "uid", root);
    KeepFieldFrame(first, prior, "uid", key);
    if live.Some? {
      PutMetaFrame(kept, "deletionTimestamp", live.value, root);
      PutMetaFrame(kept, "deletionTimestamp", live.value, key);
    } else {
      DropMetaFrame(kept, "deletionTimestamp", key);
    }
  }

  lemma IdentifyTakes(o: Map, prior: Map, minted: string, root: string, key: string)
    requires MetaOf(o).Obj? && root !in {"metadata", "status"} && key !in STAMPED
    ensures Get(Obj(Identify(o, prior, minted)), root) == Get(Obj(o), root)
            && MetaField(Identify(o, prior, minted), key) == MetaField(o, key)
    ensures MetaOf(Identify(o, prior, minted)).Obj?
  {
    var uid := if IsUid(MetaField(prior, "uid")) then MetaField(prior, "uid").value else Str(minted);
    PutMetaFrame(o, "uid", uid, root);
    PutMetaFrame(o, "uid", uid, key);
    KeepFieldFrame(PutMeta(o, "uid", uid), prior, "creationTimestamp", root);
    KeepFieldFrame(PutMeta(o, "uid", uid), prior, "creationTimestamp", key);
    KeepFieldFrame(o, prior, "creationTimestamp", root);
    KeepFieldFrame(o, prior, "creationTimestamp", key);
  }

  lemma CommittedTakes(prior: Map, o: Map, revision: string, root: string)
    requires MetaOf(o).Obj? && root != "metadata" && Committed(prior, o, revision).Some?
    ensures var after := Committed(prior, o, revision).value;
            && Get(Obj(after), root) == Get(Obj(o), root)
            && (after == prior || MetaField(after, "resourceVersion") == Some(Str(revision)))
  {
    if Unchanged(prior, o) && !Released(o) {
      UnchangedIff(prior, o);
    } else {
      var versioned := PutMeta(o, "resourceVersion", Str(revision));
      forall k ensures k in {root, "resourceVersion"} ==>
          (k != "metadata" ==>
             Get(Obj(PutMeta(versioned, "generation", Number(NextGeneration(prior, o)))), k) == Get(Obj(o), k))
          && (k == "resourceVersion" ==>
             MetaField(PutMeta(versioned, "generation", Number(NextGeneration(prior, o))), k) == Some(Str(revision)))
      {
        PutMetaFrame(o, "resourceVersion", Str(revision), k);
        PutMetaFrame(versioned, "generation", Number(NextGeneration(prior, o)), k);
      }
    }
  }

  /** An accepted main write takes effect: outside status and the server's own metadata the
      object reads as the prepared body does, and an object that changed carries the new revision. */
  lemma MainStepTakes(r: Resource, prior: Map, candidate: Json, revision: string, root: string, key: string)
    requires Sound(prior) && root !in {"metadata", "status"} && key !in SERVER_OWNED
    requires Prepared(r, candidate).Some? && MainStep(r, prior, candidate, revision).Some?
    ensures var o, after := Prepared(r, candidate).value, MainStep(r, prior, candidate, revision).value;
            && Get(Obj(after), root) == Get(Obj(o), root)
            && MetaField(after, key) == MetaField(o, key)
            && (after == prior || MetaField(after, "resourceVersion") == Some(Str(revision)))
  {
    var o := Prepared(r, candidate).value;
    PreparedHasMeta(r, candidate);
    WholeTakes(r, o, prior, root, key);
    var owned := Owned(r, o, prior);
    if Unchanged(prior, owned) && !Terminating(owned) {
      UnchangedIff(prior, owned);
      assert Get(Obj(prior), root) == Get(Obj(owned), root);
      assert Get(Get(Obj(prior), "metadata").value, key) == Get(Get(Obj(owned), "metadata").value, key);
    } else {
      CommittedTakes(prior, Whole(r, o, prior), revision, root);
      CommittedKeeps(prior, Whole(r, o, prior), revision, key);
    }
  }

  /** The main half of what a main write leaves does not depend on status or revision. */
  lemma MainStepSame(r: Resource, p: Map, q: Map, x: Json, y: Json, revision: string, other: string)
    requires Same(p, q) && (x == y || (x.Obj? && y.Obj? && Same(x.members, y.members)))
    ensures SameState(MainStep(r, p, x, revision), MainStep(r, q, y, other))
  {
    PreparedSame(r, x, y);
    if Prepared(r, x).Some? {
      PreparedHasMeta(r, x);
      PreparedHasMeta(r, y);
      var a, b := Prepared(r, x).value, Prepared(r, y).value;
      var o, u := Owned(r, a, p), Owned(r, b, q);
      OwnedSame(r, a, b, p, q);
      OwnedKeeps(r, a, p, "");
      OwnedKeeps(r, b, q, "");
      SameFlips(p, q);
      SameFlips(o, u);
      if Unchanged(p, o) {
        UnchangedSame(p, o, q, u);
      } else if Unchanged(q, u) {
        UnchangedSame(q, u, p, o);
      }
      ReleasedSame(o, u);
      IdentifySame(o, u, p, q, r.minted);
      IdentifyKeeps(o, p, r.minted, "");
      IdentifyKeeps(u, q, r.minted, "");
      CommittedSame(p, Identify(o, p, r.minted), q, Identify(u, q, r.minted), revision, other);
    }
  }

  // ---- a status write --------------------------------------------------------------------------

  /** Nothing but a status and a revision. */
  ghost predicate Scoped(patch: Json) {
    && patch.Obj? && patch.members.Keys <= {"status", "metadata"}
    && ("metadata" in patch.members ==>
       patch.members["metadata"].Obj? && patch.members["metadata"].members.Keys <= {"resourceVersion"})
  }

  lemma StatusWritesAreScoped(body: Json)
    ensures Scoped(StatusOf(body)) && Scoped(ScopeStatusPatch(body))
    ensures Get(ScopeStatusPatch(body), "status") == Get(body, "status")
    ensures Get(StatusOf(body), "status") == Some(if Get(body, "status").Some? then Get(body, "status").value else Null)
  {
  }

  /** The status a scoped patch leaves, from the one it finds. */
  function StatusAfter(status: Option<Json>, patch: Json): Option<Json> {
    var change := Get(patch, "status");
    if change.None? then status
    else if change.value.Null? then None
    else Some(Merge(if status.Some? then status.value else Null, change.value))
  }

  lemma ScopedMerge(prior: Map, patch: Json)
    requires Sound(prior) && Scoped(patch)
    ensures var merged := Merge(Obj(prior), patch);
            && merged.Obj? && Same(merged.members, prior) && MetaOf(merged.members).Obj?
            && Get(merged, "status") == StatusAfter(Get(Obj(prior), "status"), patch)
  {
    var merged := Merge(Obj(prior), patch);
    MergeMember(Obj(prior), patch, "status");
    MergeMember(Obj(prior), patch, "metadata");
    forall k | k != "status" && k != "metadata" ensures Get(merged, k) == Get(Obj(prior), k) {
      MergeMember(Obj(prior), patch, k);
    }
    if "metadata" in patch.members {
      var meta := prior["metadata"];
      forall k | k != "resourceVersion" ensures Get(Merge(meta, patch.members["metadata"]), k) == Get(meta, k) {
        MergeMember(meta, patch.members["metadata"], k);
      }
    }
  }

  /** A status write touches the status and the revision, nothing else: not the generation,
      and the object stays. */
  lemma StatusStepKeeps(prior: Map, patch: Json, revision: string)
    requires Sound(prior) && Scoped(patch)
    ensures var after := StatusStep(prior, patch, revision);
            && after.Some? && Sound(after.value) && Same(after.value, prior)
            && Get(Obj(after.value), "status") == StatusAfter(Get(Obj(prior), "status"), patch)
  {
    ScopedMerge(prior, patch);
    var o := Merge(Obj(prior), patch).members;
    ReleasedSame(o, prior);
    assert Get(Obj(o), "spec") == Get(Obj(prior), "spec");
    var generation := NextGeneration(prior, o);
    assert MetaField(prior, "generation") == Some(Number(generation));
    var versioned := PutMeta(o, "resourceVersion", Str(revision));
    RevisionSame(o, prior, revision, revision);
    PutMetaSame(versioned, PutMeta(prior, "resourceVersion", Str(revision)), "generation", Number(generation));
    StampIsSame(prior, revision);
    SameChain(PutMeta(versioned, "generation", Number(generation)),
              PutMeta(PutMeta(prior, "resourceVersion", Str(revision)), "generation", Number(generation)), prior);
    ReleasedSame(PutMeta(versioned, "generation", Number(generation)), prior);
    CommittedKeeps(prior, o, revision, "");
    SameSelf(prior);
  }

  lemma SameSelf(a: Map)
    ensures Same(a, a)
  {
  }

  lemma SameChain(a: Map, b: Map, c: Map)
    requires Same(a, b) && Same(b, c)
    ensures Same(a, c)
  {
    forall k | k != "status" && k != "metadata" ensures Get(Obj(a), k) == Get(Obj(c), k) {
      assert Get(Obj(a), k) == Get(Obj(b), k) && Get(Obj(b), k) == Get(Obj(c), k);
    }
    var x, y, z := Get(Obj(a), "metadata"), Get(Obj(b), "metadata"), Get(Obj(c), "metadata");
    if x.Some? && x.value.Obj? {
      forall k | k != "resourceVersion" ensures Get(x.value, k) == Get(z.value, k) {
        assert Get(x.value, k) == Get(y.value, k) && Get(y.value, k) == Get(z.value, k);
      }
    }
  }

  lemma StampIsSame(prior: Map, revision: string)
    requires Sound(prior)
    ensures Same(PutMeta(PutMeta(prior, "resourceVersion", Str(revision)), "generation", Number(GenerationOf(prior))),
            prior)
  {
    var versioned := PutMeta(prior, "resourceVersion", Str(revision));
    var after := PutMeta(versioned, "generation", Number(GenerationOf(prior)));
    forall k | k != "status" && k != "metadata" ensures Get(Obj(after), k) == Get(Obj(prior), k) {
      PutMetaFrame(prior, "resourceVersion", Str(revision), k);
      PutMetaFrame(versioned, "generation", Number(GenerationOf(prior)), k);
    }
    forall k | k != "resourceVersion" ensures Get(after["metadata"], k) == Get(prior["metadata"], k) {
      PutMetaFrame(prior, "resourceVersion", Str(revision), k);
      PutMetaFrame(versioned, "generation", Number(GenerationOf(prior)), k);
    }
  }

  /** A PUT of a status stores the one it sends exactly when that one covers the live status;
      a PUT of none, or of null, removes it. */
  lemma PutStatusReplacesIff(r: Resource, prior: Map, incoming: Json, revision: string)
    requires Sound(prior)
    ensures var after := Step(r, Some(prior), Request(PutStatus(incoming), revision));
            && after.Some?
            && var sent, stored := Get(incoming, "status"), Get(Obj(after.value), "status");
               if sent.None? || sent.value.Null? then stored == None
               else stored == sent <==> Covers(MemberOrNull(Obj(prior), "status"), sent.value)
  {
    StatusWritesAreScoped(incoming);
    StatusStepKeeps(prior, StatusOf(incoming), revision);
    var sent := Get(incoming, "status");
    if sent.Some? {
      MergeReplacesIff(MemberOrNull(Obj(prior), "status"), sent.value);
    }
  }

  /** What the PUT does not name stays: every live member the sent status leaves out. */
  lemma UnnamedStatusStays(r: Resource, prior: Map, incoming: Json, revision: string, key: string)
    requires Sound(prior) && Field(Obj(prior), "status", key).Some?
    requires Get(incoming, "status").Some? && Get(incoming, "status").value.Obj? && Field(incoming, "status", key).None?
    ensures var after := Step(r, Some(prior), Request(PutStatus(incoming), revision));
            && after.Some? && Field(Obj(after.value), "status", key) == Field(Obj(prior), "status", key)
            && Get(Obj(after.value), "status") != Get(incoming, "status")
  {
    StatusWritesAreScoped(incoming);
    StatusStepKeeps(prior, StatusOf(incoming), revision);
    MergeMember(MemberOrNull(Obj(prior), "status"), Get(incoming, "status").value, key);
  }

  /** Over a live `phase`, a PUT of `ready` alone leaves both. */
  lemma PutOfReadyKeepsPhase(r: Resource, prior: Map, incoming: Json, revision: string)
    requires Sound(prior) && Get(Obj(prior), "status") == Some(Obj(map["phase" := Str("Running")]))
    requires Get(incoming, "status") == Some(Obj(map["ready" := Bool(true)]))
    ensures var after := Step(r, Some(prior), Request(PutStatus(incoming), revision));
            && after.Some?
            && Get(Obj(after.value), "status") ==
               Some(Obj(map["phase" := Str("Running"), "ready" := Bool(true)])) != Get(incoming, "status")
  {
    StatusWritesAreScoped(incoming);
    StatusStepKeeps(prior, StatusOf(incoming), revision);
    ReadyMerges();
    assert "phase" !in Get(incoming, "status").value.members;
  }

  lemma ReadyMerges()
    ensures Merge(Obj(map["phase" := Str("Running")]), Obj(map["ready" := Bool(true)])) ==
            Obj(map["phase" := Str("Running"), "ready" := Bool(true)])
  {
    var live, sent := Obj(map["phase" := Str("Running")]), Obj(map["ready" := Bool(true)]);
    assert Merge(MemberOrNull(live, "ready"), Bool(true)) == Bool(true);
    assert Merge(live, sent).members == map["phase" := Str("Running"), "ready" := Bool(true)];
  }

  // ---- whole runs --------------------------------------------------------------------------------

  ghost predicate SoundState(state: Option<Map>) {
    state.Some? ==> Sound(state.value)
  }

  function StatusPatch(w: Write): Json
    requires !IsMain(w)
  {
    if w.PutStatus? then StatusOf(w.incoming) else ScopeStatusPatch(w.patch)
  }

  lemma StepSound(r: Resource, state: Option<Map>, q: Request)
    requires SoundState(state)
    ensures SoundState(Step(r, state, q))
    ensures state.Some? && !IsMain(q.write) ==>
              Step(r, state, q) == StatusStep(state.value, StatusPatch(q.write), q.revision) && Step(r, state, q).Some?
  {
    if state.Some? {
      match q.write
      case Replace(body) =>
        if Step(r, state, q).Some? {
          MainStepKeeps(r, state.value, body, q.revision, "");
        }
      case MergePatch(patch) =>
        if Step(r, state, q).Some? {
          MainStepKeeps(r, state.value, Merge(Obj(state.value), patch), q.revision, "");
        }
      case PutStatus(incoming) =>
        StatusWritesAreScoped(incoming);
        StatusStepKeeps(state.value, StatusOf(incoming), q.revision);
      case PatchStatus(patch) =>
        StatusWritesAreScoped(patch);
        StatusStepKeeps(state.value, ScopeStatusPatch(patch), q.revision);
    }
  }

  lemma {:induction false} RunSound(r: Resource, state: Option<Map>, requests: seq<Request>)
    requires SoundState(state)
    ensures SoundState(Run(r, state, requests))
  {
    if requests != [] {
      RunSound(r, state, requests[..|requests| - 1]);
      StepSound(r, Run(r, state, requests[..|requests| - 1]), requests[|requests| - 1]);
    }
  }

  lemma MainRequestSame(r: Resource, s: Option<Map>, t: Option<Map>, q: Request)
    requires SameState(s, t) && IsMain(q.write)
    ensures SameState(Step(r, s, q), Step(r, t, q))
  {
    if s.Some? {
      match q.write
      case Replace(body) => MainStepSame(r, s.value, t.value, body, body, q.revision, q.revision);
      case MergePatch(patch) =>
        MergeSame(s.value, t.value, patch);
        MainStepSame(r, s.value, t.value, Merge(Obj(s.value), patch), Merge(Obj(t.value), patch), q.revision,
            q.revision);
    }
  }

  lemma RunLast(r: Resource, state: Option<Map>, before: seq<Request>, q: Request)
    ensures Run(r, state, before + [q]) == Step(r, Run(r, state, before), q)
  {
    assert (before + [q])[..|before|] == before;
  }

  /** However main and status writes interleave, the object but for status and revision ends
      exactly as the main writes alone leave it, removal included. */
  lemma {:induction false} MainHalfIsUndisturbed(r: Resource, start: Map, requests: seq<Request>)
    requires Sound(start)
    ensures SameState(Run(r, Some(start), requests), Run(r, Some(start), Only(requests, true)))
  {
    if requests == [] {
      SameSelf(start);
    } else {
      var n := |requests| - 1;
      var q, before, mains := requests[n], requests[..n], Only(requests[..n], true);
      MainHalfIsUndisturbed(r, start, before);
      RunSound(r, Some(start), before);
      if IsMain(q.write) {
        MainRequestSame(r, Run(r, Some(start), before), Run(r, Some(start), mains), q);
        RunLast(r, Some(start), mains, q);
      } else {
        assert Only(requests, true) == mains + [] == mains;
        var state := Run(r, Some(start), before);
        StepSound(r, state, q);
        if state.Some? {
          StatusWritesAreScoped(if q.write.PutStatus? then q.write.incoming else q.write.patch);
          StatusStepKeeps(state.value, StatusPatch(q.write), q.revision);
          SameChain(Run(r, Some(start), requests).value, state.value, Run(r, Some(start), mains).value);
        }
      }
    }
  }

  /** And while the object is there, its status is exactly what the status writes alone leave. */
  lemma {:induction false} StatusHalfIsUndisturbed(r: Resource, start: Map, requests: seq<Request>)
    requires Sound(start)
    ensures Run(r, Some(start), Only(requests, false)).Some?
    ensures var end := Run(r, Some(start), requests);
            end.Some? ==>
              Get(Obj(end.value), "status") == Get(Obj(Run(r, Some(start), Only(requests, false)).value), "status")
  {
    if requests != [] {
      var n := |requests| - 1;
      var q, before, statuses := requests[n], requests[..n], Only(requests[..n], false);
      StatusHalfIsUndisturbed(r, start, before);
      RunSound(r, Some(start), before);
      RunSound(r, Some(start), statuses);
      var state, alone := Run(r, Some(start), before), Run(r, Some(start), statuses);
      if IsMain(q.write) {
        assert Only(requests, false) == statuses + [] == statuses;
        if Run(r, Some(start), requests).Some? {
          MainStepKeeps(r, state.value, if q.write.Replace? then q.write.body
              else Merge(Obj(state.value), q.write.patch), q.revision, "");
        }
      } else {
        RunLast(r, Some(start), statuses, q);
        StepSound(r, alone, q);
        StatusWritesAreScoped(if q.write.PutStatus? then q.write.incoming else q.write.patch);
        StatusStepKeeps(alone.value, StatusPatch(q.write), q.revision);
        if state.Some? {
          StepSound(r, state, q);
          StatusStepKeeps(state.value, StatusPatch(q.write), q.revision);
        }
      }
    }
  }

  /** What any one write keeps, and what it does to the generation. */
  lemma StepKeeps(r: Resource, prior: Map, q: Request, key: string)
    requires Sound(prior) && Step(r, Some(prior), q).Some?
    ensures var after := Step(r, Some(prior), q).value;
            && Sound(after)
            && (Fixed(prior, key) ==> MetaField(after, key) == MetaField(prior, key))
            && GenerationOf(after) == GenerationOf(prior) +
               (if Get(Obj(after), "spec") == Get(Obj(prior), "spec") then 0 else 1)
  {
    if IsMain(q.write) {
      MainStepKeeps(r, prior, if q.write.Replace? then q.write.body
          else Merge(Obj(prior), q.write.patch), q.revision, key);
    } else {
      StatusWritesAreScoped(if q.write.PutStatus? then q.write.incoming else q.write.patch);
      StatusStepKeeps(prior, StatusPatch(q.write), q.revision);
      var after := Step(r, Some(prior), q).value;
      assert Get(Obj(after), "spec") == Get(Obj(prior), "spec");
      if key != "resourceVersion" {
        SameFields(after, prior, key);
      }
      SameFields(after, prior, "generation");
    }
  }

  ghost function SpecChanges(r: Resource, start: Map, requests: seq<Request>): nat {
    if requests == [] then 0
    else
      var n := |requests| - 1;
      var before, after := Run(r, Some(start), requests[..n]), Run(r, Some(start), requests);
      SpecChanges(r, start, requests[..n]) +
        if before.Some? && after.Some? && Get(Obj(before.value), "spec") != Get(Obj(after.value), "spec") then 1 else 0
  }

  /** Over a whole run the generation rises by exactly the number of writes that changed the
      spec, and a uid or creation stamp once set, like the deletion stamp or its absence,
      never changes. */
  lemma {:induction false} RunKeepsIdentity(r: Resource, start: Map, requests: seq<Request>, key: string)
    requires Sound(start) && Run(r, Some(start), requests).Some?
    ensures var end := Run(r, Some(start), requests).value;
            && GenerationOf(end) == GenerationOf(start) + SpecChanges(r, start, requests)
            && (Fixed(start, key) ==> MetaField(end, key) == MetaField(start, key))
  {
    if requests != [] {
      var n := |requests| - 1;
      RunKeepsIdentity(r, start, requests[..n], key);
      RunSound(r, Some(start), requests[..n]);
      StepKeeps(r, Run(r, Some(start), requests[..n]).value, requests[n], key);
    }
  }
}
