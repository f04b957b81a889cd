/** What defaulting adds, what it never touches, and how it meets normalization. */
module DefaultingLaws {
  import opened JsonValue
  import opened Text
  import opened Defaulting
  import ObjectBody

  // ---- it only adds ------------------------------------------------------------------------

  /** `after` holds everything `before` does: a scalar or null is the same, an array has the
      same items and an object has every member, each in turn holding what it held. */
  ghost predicate Holds(before: Json, after: Json)
    decreases before
  {
    match before
    case Obj(m) => after.Obj? && forall k | k in m :: k in after.members && Holds(m[k], after.members[k])
    case Arr(items) => after.Arr? && |after.items| == |items| && forall i | 0 <= i < |items| ::
        Holds(items[i], after.items[i])
    case _ => after == before
  }

  lemma {:induction false} HoldsSame(j: Json)
    ensures Holds(j, j)
  {
    match j
    case Obj(m) =>
      forall k | k in m ensures Holds(m[k], m[k]) {
        HoldsSame(m[k]);
      }
    case Arr(items) =>
      forall i | 0 <= i < |items| ensures Holds(items[i], items[i]) {
        HoldsSame(items[i]);
      }
    case _ =>
  }

  lemma {:induction false} HoldsTransitive(a: Json, b: Json, c: Json)
    requires Holds(a, b) && Holds(b, c)
    ensures Holds(a, c)
    decreases a
  {
    match a
    case Obj(m) =>
      forall k | k in m ensures k in c.members && Holds(m[k], c.members[k]) {
        HoldsTransitive(m[k], b.members[k], c.members[k]);
      }
    case Arr(items) =>
      forall i | 0 <= i < |items| ensures Holds(items[i], c.items[i]) {
        HoldsTransitive(items[i], b.items[i], c.items[i]);
      }
    case _ =>
  }

  lemma FillHolds(m: Map, key: string, value: Json)
    ensures Holds(Obj(m), Obj(Fill(m, key, value)))
  {
    var after := Fill(m, key, value);
    forall k | k in m ensures k in after && Holds(m[k], after[k]) {
      HoldsSame(m[k]);
    }
  }

  lemma EachInHolds(m: Map, key: string, f: Json -> Json)
    requires key in m && m[key].Arr? ==>
             forall i | 0 <= i < |m[key].items| :: Holds(m[key].items[i], f(m[key].items[i]))
    ensures Holds(Obj(m), Obj(EachIn(m, key, f)))
  {
    var after := EachIn(m, key, f);
    forall k | k in m ensures k in after && Holds(m[k], after[k]) {
      HoldsSame(m[k]);
    }
  }

  lemma PortHolds(p: Json)
    ensures Holds(p, Port(p))
  {
    HoldsSame(p);
    if p.Obj? {
      FillHolds(p.members, "protocol", Str("TCP"));
    }
  }

  lemma ContainerFieldsHolds(c: Map)
    ensures Holds(Obj(c), Obj(ContainerFields(c)))
  {
    var path := Fill(c, "terminationMessagePath", Str("/dev/termination-log"));
    var messages := Fill(path, "terminationMessagePolicy", Str("File"));
    FillHolds(c, "terminationMessagePath", Str("/dev/termination-log"));
    FillHolds(path, "terminationMessagePolicy", Str("File"));
    HoldsTransitive(Obj(c), Obj(path), Obj(messages));
    FillHolds(messages, "imagePullPolicy", PullPolicy(messages));
    HoldsTransitive(Obj(c), Obj(messages), Obj(ContainerFields(c)));
  }

  lemma ContainerHolds(c: Json)
    ensures Holds(c, Container(c))
  {
    HoldsSame(c);
    if c.Obj? {
      var fields := ContainerFields(c.members);
      ContainerFieldsHolds(c.members);
      forall p ensures Holds(p, Port(p)) {
        PortHolds(p);
      }
      EachInHolds(fields, "ports", Port);
      HoldsTransitive(c, Obj(fields), Container(c));
    }
  }

  lemma PodFieldsHolds(spec: Map)
    ensures Holds(Obj(spec), Obj(PodFields(spec)))
  {
    var after := PodFields(spec);
    forall k | k in spec ensures k in after && Holds(spec[k], after[k]) {
      HoldsSame(spec[k]);
    }
  }

  lemma PodSpecHolds(spec: Map)
    ensures Holds(Obj(spec), Obj(PodSpec(spec)))
  {
    var fields := PodFields(spec);
    var main := EachIn(fields, "containers", Container);
    PodFieldsHolds(spec);
    forall c ensures Holds(c, Container(c)) {
      ContainerHolds(c);
    }
    EachInHolds(fields, "containers", Container);
    EachInHolds(main, "initContainers", Container);
    HoldsTransitive(Obj(spec), Obj(fields), Obj(main));
    HoldsTransitive(Obj(spec), Obj(main), Obj(PodSpec(spec)));
  }

  lemma ServiceSpecHolds(spec: Map)
    ensures Holds(Obj(spec), Obj(ServiceSpec(spec)))
  {
    var typed := Fill(spec, "type", Str("ClusterIP"));
    var fields := Fill(typed, "sessionAffinity", Str("None"));
    FillHolds(spec, "type", Str("ClusterIP"));
    FillHolds(typed, "sessionAffinity", Str("None"));
    HoldsTransitive(Obj(spec), Obj(typed), Obj(fields));
    forall p ensures Holds(p, Port(p)) {
      PortHolds(p);
    }
    EachInHolds(fields, "ports", Port);
    HoldsTransitive(Obj(spec), Obj(fields), Obj(ServiceSpec(spec)));
  }

  lemma InSpecHolds(body: Json, f: Map -> Map)
    requires forall m :: Holds(Obj(m), Obj(f(m)))
    ensures Holds(body, InSpec(body, f))
  {
    HoldsSame(body);
    if body.Obj? {
      var after := InSpec(body, f);
      forall k | k in body.members ensures k in after.members && Holds(body.members[k], after.members[k]) {
        HoldsSame(body.members[k]);
      }
    }
  }

  lemma SpecsHold(body: Json)
    ensures Holds(body, InSpec(body, PodSpec)) && Holds(body, InSpec(body, ServiceSpec))
  {
    forall m: Map ensures Holds(Obj(m), Obj(PodSpec(m))) && Holds(Obj(m), Obj(ServiceSpec(m))) {
      PodSpecHolds(m);
      ServiceSpecHolds(m);
    }
    InSpecHolds(body, PodSpec);
    InSpecHolds(body, ServiceSpec);
  }

  /** For every kind and body, defaulting keeps everything the client sent, at every depth. */
  lemma DefaultingOnlyAdds(group: string, version: string, kind: string, body: Json)
    ensures Holds(body, Apply(group, version, kind, body))
  {
    HoldsSame(body);
    if kind == "Secret" && body.Obj? {
      FillHolds(body.members, "type", Str("Opaque"));
    } else {
      SpecsHold(body);
    }
  }

  lemma {:induction false} HeldAt(before: Json, after: Json, path: seq<ObjectBody.Segment>)
    requires Holds(before, after)
    ensures var v := ObjectBody.ValueAt(before, path);
            v.Some? && !v.value.Obj? && !v.value.Arr? ==> ObjectBody.ValueAt(after, path) == v
    decreases |path|
  {
    if path != [] && ObjectBody.Child(before, path[0]).Some? {
      HeldAt(ObjectBody.Child(before, path[0]).value, ObjectBody.Child(after, path[0]).value, path[1..]);
    }
  }

  /** Where the client's body leads to a scalar, the defaulted body leads to the same one. */
  lemma HeldScalarsStay(group: string, version: string, kind: string, body: Json, path: seq<ObjectBody.Segment>)
    ensures var v := ObjectBody.ValueAt(body, path);
            v.Some? && !v.value.Obj? && !v.value.Arr? ==>
              ObjectBody.ValueAt(Apply(group, version, kind, body), path) == v
  {
    DefaultingOnlyAdds(group, version, kind, body);
    HeldAt(body, Apply(group, version, kind, body), path);
  }

  // ---- doing it twice --------------------------------------------------------------------------

  lemma EachTwice(items: seq<Json>, f: Json -> Json)
    requires forall i | 0 <= i < |items| :: f(f(items[i])) == f(items[i])
    ensures Each(Each(items, f), f) == Each(items, f)
  {
  }

  lemma EachInTwice(m: Map, key: string, f: Json -> Json)
    requires forall j :: f(f(j)) == f(j)
    ensures EachIn(EachIn(m, key, f), key, f) == EachIn(m, key, f)
  {
    if key in m && m[key].Arr? {
      EachTwice(m[key].items, f);
    }
  }

  lemma PortTwice(p: Json)
    ensures Port(Port(p)) == Port(p)
  {
  }

  lemma ContainerTwice(c: Json)
    ensures Container(Container(c)) == Container(c)
  {
    if c.Obj? {
      var fields := ContainerFields(c.members);
      var once := EachIn(fields, "ports", Port);
      forall p ensures Port(Port(p)) == Port(p) {
        PortTwice(p);
      }
      EachInTwice(fields, "ports", Port);
      assert ContainerFields(once) == once;
    }
  }

  lemma PodFieldsStay(spec: Map, after: Map)
    requires after.Keys == PodFields(spec).Keys
    ensures PodFields(after) == after
  {
  }

  lemma EachInApart(m: Map, key: string, other: string, f: Json -> Json)
    requires key != other && EachIn(m, key, f) == m
    ensures EachIn(EachIn(m, other, f), key, f) == EachIn(m, other, f)
  {
    var after := EachIn(m, other, f);
    if key in m && m[key].Arr? {
      assert m[key := Arr(Each(m[key].items, f))][key] == m[key];
      assert after[key] == m[key];
    }
  }

  lemma PodSpecTwice(spec: Map)
    ensures PodSpec(PodSpec(spec)) == PodSpec(spec)
  {
    var fields := PodFields(spec);
    var main := EachIn(fields, "containers", Container);
    var once := EachIn(main, "initContainers", Container);
    forall c ensures Container(Container(c)) == Container(c) {
      ContainerTwice(c);
    }
    PodFieldsStay(spec, once);
    EachInTwice(fields, "containers", Container);
    EachInTwice(main, "initContainers", Container);
    EachInApart(main, "containers", "initContainers", Container);
  }

  lemma ServiceSpecTwice(spec: Map)
    ensures ServiceSpec(ServiceSpec(spec)) == ServiceSpec(spec)
  {
    var fields := Fill(Fill(spec, "type", Str("ClusterIP")), "sessionAffinity", Str("None"));
    forall p ensures Port(Port(p)) == Port(p) {
      PortTwice(p);
    }
    EachInTwice(fields, "ports", Port);
  }

  lemma InSpecTwice(body: Json, f: Map -> Map)
    requires forall m :: f(f(m)) == f(m)
    ensures InSpec(InSpec(body, f), f) == InSpec(body, f)
  {
    var spec := Get(body, "spec");
    if spec.Some? && spec.value.Obj? {
      var root, filled := body.members, Obj(f(spec.value.members));
      assert root["spec" := filled]["spec" := filled] == root["spec" := filled];
    }
  }

  /** Defaulting twice is defaulting once. */
  lemma DefaultingTwice(group: string, version: string, kind: string, body: Json)
    ensures var once := Apply(group, version, kind, body); Apply(group, version, kind, once) == once
  {
    if kind == "Pod" {
      forall m ensures PodSpec(PodSpec(m)) == PodSpec(m) {
        PodSpecTwice(m);
      }
      InSpecTwice(body, PodSpec);
    } else if kind == "Service" {
      forall m ensures ServiceSpec(ServiceSpec(m)) == ServiceSpec(m) {
        ServiceSpecTwice(m);
      }
      InSpecTwice(body, ServiceSpec);
    }
  }

  // ---- with normalization -------------------------------------------------------------------------

  function Defaulted(group: string, version: string, kind: string, r: Result<Json, ObjectBody.ShapeError>):
                     Result<Json, ObjectBody.ShapeError> {
    if r.Ok? then Ok(Apply(group, version, kind, r.value)) else r
  }

  /** A body of a defaulted kind has no slot but its own metadata. */
  lemma RootSlotOnly(kind: string, root: Map)
    requires kind in {"Pod", "Secret", "Service"}
    ensures ObjectBody.Normalized("", kind, Obj(root)) ==
            var fault := ObjectBody.SlotFault(root);
            if fault.Some? then Err(fault.value) else Ok(Obj(ObjectBody.CleanSlot(root)))
  {
    var slots := ObjectBody.Slots("", kind);
    assert slots == [[]] && slots[1..] == [];
    var fault := ObjectBody.SlotFault(root);
    if fault.Some? {
      assert ObjectBody.Steps([]) + fault.value.path == fault.value.path;
    }
    assert ObjectBody.FaultAt(root, slots[0]) == fault;
    assert ObjectBody.FaultIn(root, slots[1..]) == None;
    assert ObjectBody.FaultIn(root, slots) == fault;
    assert ObjectBody.CleanAt(root, slots[0]) == ObjectBody.CleanSlot(root);
    assert ObjectBody.CleanAll(ObjectBody.CleanSlot(root), slots[1..]) == ObjectBody.CleanSlot(root);
  }

  lemma SlotIgnoresOthers(root: Map, key: string, value: Json)
    requires key != "metadata"
    ensures ObjectBody.SlotFault(root[key := value]) == ObjectBody.SlotFault(root)
    ensures ObjectBody.CleanSlot(root[key := value]) == ObjectBody.CleanSlot(root)[key := value]
    ensures Get(Obj(ObjectBody.CleanSlot(root)), key) == Get(Obj(root), key)
  {
  }

  /** What defaulting a body of one of the three kinds sets, if anything: a member other
      than `metadata`, decided by that member alone. */
  function Setting(kind: string, member: Option<Json>): Option<Json> {
    if kind == "Secret" then if member.None? then Some(Str("Opaque")) else None
    else if member.None? || !member.value.Obj? then None
    else if kind == "Pod" then Some(Obj(PodSpec(member.value.members)))
    else Some(Obj(ServiceSpec(member.value.members)))
  }

  function SettingKey(kind: string): string {
    if kind == "Secret" then "type" else "spec"
  }

  lemma AppliedIsSet(kind: string, root: Map)
    requires kind in {"Pod", "Secret", "Service"}
    ensures var value := Setting(kind, Get(Obj(root), SettingKey(kind)));
            Apply("", "v1", kind, Obj(root)) == Obj(if value.Some? then root[SettingKey(kind) := value.value] else root)
  {
  }

  /** Defaulting and normalization may be done in either order, on every body: they refuse
      the same bodies with the same error and otherwise store the same object. */
  lemma DefaultingCommutes(group: string, version: string, kind: string, body: Json)
    ensures ObjectBody.Normalized(group, kind, Apply(group, version, kind, body)) ==
            Defaulted(group, version, kind, ObjectBody.Normalized(group, kind, body))
  {
    if group == "" && version == "v1" && kind in {"Pod", "Secret", "Service"} && body.Obj? {
      var root, key := body.members, SettingKey(kind);
      var value := Setting(kind, Get(body, key));
      AppliedIsSet(kind, root);
      AppliedIsSet(kind, ObjectBody.CleanSlot(root));
      SlotIgnoresOthers(root, key, if value.Some? then value.value else Null);
      RootSlotOnly(kind, root);
      RootSlotOnly(kind, if value.Some? then root[key := value.value] else root);
    }
  }

  // ---- what is filled in ---------------------------------------------------------------------------

  /** An image is pulled only when absent exactly when it names a tag other than `latest`:
      text after a colon that holds neither a colon nor a slash. */
  lemma PulledOnceIff(image: string)
    ensures !PullsAlways(image) <==>
            exists repository, tag ::
              image == repository + ":" + tag && ':' !in tag && '/' !in tag && tag != "latest"
  {
    var colon := FindLast(image, ':');
    if colon.Some? {
      var repository, tag := image[..colon.value], image[colon.value + 1..];
      assert image == repository + ":" + tag;
    }
    forall repository: string, tag: string | image == repository + ":" + tag && ':' !in tag
      ensures colon == Some(|repository|) && image[|repository| + 1..] == tag
    {
      assert image[|repository|] == ':' && image[|repository| + 1..] == tag;
    }
  }
}
