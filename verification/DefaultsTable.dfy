/** Every field defaulting fills, read off as tables, member by member. */
module DefaultsTable {
  import opened JsonValue
  import opened Defaulting
  import DefaultingLaws

  const POD: Map := map[
    "restartPolicy" := Str("Always"), "dnsPolicy" := Str("ClusterFirst"), "schedulerName" := Str("default-scheduler"),
    "terminationGracePeriodSeconds" := Number(30), "securityContext" := EMPTY]
  const CONTAINER: Map := map["terminationMessagePath" := Str("/dev/termination-log"),
      "terminationMessagePolicy" := Str("File")]
  const SERVICE: Map := map["type" := Str("ClusterIP"), "sessionAffinity" := Str("None")]
  const PORT: Map := map["protocol" := Str("TCP")]

  /** The image names a tag, and not `latest`. */
  ghost predicate Pinned(image: Option<Json>) {
    image.Some? && image.value.Str? &&
    exists repository, tag ::
      image.value.text == repository + ":" + tag && ':' !in tag && '/' !in tag && tag != "latest"
  }

  ghost function ContainerTable(c: Map): Map {
    CONTAINER["imagePullPolicy" := Str(if Pinned(Get(Obj(c), "image")) then "IfNotPresent" else "Always")]
  }

  /** Outside `lists` a member is what the client sent, or the table's when it sent none. */
  ghost predicate Filled(before: Map, after: Map, table: Map, lists: set<string>) {
    forall key :: key !in lists ==>
      Get(Obj(after), key) == if key in before then Some(before[key]) else Get(Obj(table), key)
  }

  /** A list keeps its length and every object in it is filled; anything else is kept. */
  ghost predicate ListFilled(before: Map, after: Map, key: string, fills: (Map, Map) -> bool) {
    if key in before && before[key].Arr? then
      var items := before[key].items;
      && key in after && after[key].Arr? && |after[key].items| == |items|
      && forall i | 0 <= i < |items| ::
           if items[i].Obj? then after[key].items[i].Obj? && fills(items[i].members, after[key].items[i].members)
           else after[key].items[i] == items[i]
    else Get(Obj(after), key) == Get(Obj(before), key)
  }

  ghost predicate PortFilled(before: Map, after: Map) {
    Filled(before, after, PORT, {})
  }

  ghost predicate ContainerFilled(before: Map, after: Map) {
    Filled(before, after, ContainerTable(before), {"ports"}) && ListFilled(before, after, "ports", PortFilled)
  }

  ghost predicate PodFilled(before: Map, after: Map) {
    && Filled(before, after, POD, {"containers", "initContainers"})
    && ListFilled(before, after, "containers", ContainerFilled)
    && ListFilled(before, after, "initContainers", ContainerFilled)
  }

  ghost predicate ServiceFilled(before: Map, after: Map) {
    Filled(before, after, SERVICE, {"ports"}) && ListFilled(before, after, "ports", PortFilled)
  }

  // ---- the code fills by the tables ----------------------------------------------------------

  /** `f` fills an object item and keeps any other. */
  ghost predicate Fills(f: Json -> Json, fills: (Map, Map) -> bool) {
    forall j: Json :: if j.Obj? then f(j).Obj? && fills(j.members, f(j).members) else f(j) == j
  }

  lemma EachInFills(m: Map, key: string, f: Json -> Json, fills: (Map, Map) -> bool)
    requires Fills(f, fills)
    ensures ListFilled(m, EachIn(m, key, f), key, fills)
  {
    if key in m && m[key].Arr? {
      var items, after := m[key].items, EachIn(m, key, f)[key];
      forall i | 0 <= i < |items|
        ensures if items[i].Obj? then after.items[i].Obj? && fills(items[i].members, after.items[i].members)
                else after.items[i] == items[i]
      {
        assert after.items[i] == f(items[i]);
      }
    }
  }

  lemma PortFills()
    ensures Fills(Port, PortFilled)
  {
  }

  lemma FillMore(before: Map, mid: Map, table: Map, lists: set<string>, key: string, value: Json)
    requires Filled(before, mid, table, lists) && key !in table && key !in lists
    ensures Filled(before, Fill(mid, key, value), table[key := value], lists)
    ensures forall other | other != key :: Get(Obj(Fill(mid, key, value)), other) == Get(Obj(mid), other)
  {
    assert Get(Obj(mid), key) == if key in before then Some(before[key]) else Get(Obj(table), key);
  }

  lemma PolicyByTable(c: Map, messages: Map)
    requires Get(Obj(messages), "image") == Get(Obj(c), "image")
    ensures PullPolicy(messages) == ContainerTable(c)["imagePullPolicy"]
  {
    var image := Get(Obj(c), "image");
    if image.Some? && image.value.Str? {
      DefaultingLaws.PulledOnceIff(image.value.text);
    } else {
      assert PullsAlways("");
    }
  }

  lemma ContainerFieldsFilled(c: Map)
    ensures Filled(c, ContainerFields(c), ContainerTable(c), {"ports"})
    ensures Get(Obj(ContainerFields(c)), "ports") == Get(Obj(c), "ports")
  {
    var path, policy := Str("/dev/termination-log"), Str("File");
    var first := Fill(c, "terminationMessagePath", path);
    var messages := Fill(first, "terminationMessagePolicy", policy);
    assert Filled(c, c, map[], {"ports"});
    FillMore(c, c, map[], {"ports"}, "terminationMessagePath", path);
    var table := map["terminationMessagePath" := path];
    FillMore(c, first, table, {"ports"}, "terminationMessagePolicy", policy);
    FillMore(c, messages, CONTAINER, {"ports"}, "imagePullPolicy", PullPolicy(messages));
    PolicyByTable(c, messages);
  }

  lemma ContainerFills()
    ensures Fills(Container, ContainerFilled)
  {
    forall j: Json ensures if j.Obj? then Container(j).Obj? && ContainerFilled(j.members, Container(j).members)
        else Container(j) == j {
      if j.Obj? {
        ContainerFieldsFilled(j.members);
        PortFills();
        EachInFills(ContainerFields(j.members), "ports", Port, PortFilled);
      }
    }
  }

  const NAMES: Map := map["restartPolicy" := Str("Always"), "dnsPolicy" := Str("ClusterFirst"),
      "schedulerName" := Str("default-scheduler")]

  function Named(spec: Map): Map {
    Fill(Fill(Fill(spec, "restartPolicy", Str("Always")), "dnsPolicy", Str("ClusterFirst")), "schedulerName",
        Str("default-scheduler"))
  }

  lemma NamedFilled(spec: Map, lists: set<string>)
    requires lists == {"containers", "initContainers"}
    ensures Filled(spec, Named(spec), NAMES, lists)
    ensures forall key | key in lists :: Get(Obj(Named(spec)), key) == Get(Obj(spec), key)
  {
    var t1 := map["restartPolicy" := Str("Always")];
    var m1 := Fill(spec, "restartPolicy", Str("Always"));
    assert Filled(spec, spec, map[], lists);
    FillMore(spec, spec, map[], lists, "restartPolicy", Str("Always"));
    FillMore(spec, m1, t1, lists, "dnsPolicy", Str("ClusterFirst"));
    FillMore(spec, Fill(m1, "dnsPolicy", Str("ClusterFirst")), t1["dnsPolicy" := Str("ClusterFirst")], lists,
             "schedulerName", Str("default-scheduler"));
  }

  lemma PodFieldsFilled(spec: Map, lists: set<string>)
    requires lists == {"containers", "initContainers"}
    ensures Filled(spec, PodFields(spec), POD, lists)
    ensures forall key | key in lists :: Get(Obj(PodFields(spec)), key) == Get(Obj(spec), key)
  {
    var table := NAMES["terminationGracePeriodSeconds" := Number(30)];
    NamedFilled(spec, lists);
    FillMore(spec, Named(spec), NAMES, lists, "terminationGracePeriodSeconds", Number(30));
    FillMore(spec, Fill(Named(spec), "terminationGracePeriodSeconds", Number(30)), table, lists, "securityContext",
        EMPTY);
    assert table["securityContext" := EMPTY] == POD;
  }

  lemma PodSpecFilled(spec: Map)
    ensures PodFilled(spec, PodSpec(spec))
  {
    ContainerFills();
    PodFieldsFilled(spec, {"containers", "initContainers"});
    var fields := PodFields(spec);
    var first := EachIn(fields, "containers", Container);
    EachInFills(fields, "containers", Container, ContainerFilled);
    EachInFills(first, "initContainers", Container, ContainerFilled);
    assert forall key | key != "containers" && key != "initContainers" ::
        Get(Obj(PodSpec(spec)), key) == Get(Obj(fields), key);
  }

  lemma ServiceSpecFilled(spec: Map)
    ensures ServiceFilled(spec, ServiceSpec(spec))
  {
    PortFills();
    EachInFills(Fill(Fill(spec, "type", Str("ClusterIP")), "sessionAffinity", Str("None")), "ports", Port, PortFilled);
  }

  /** A core Pod, Secret or Service comes out filled by its table; every other body and
      every other member comes out as it went in. */
  lemma AppliedByTheTables(group: string, version: string, kind: string, body: Json)
    ensures var after := Apply(group, version, kind, body);
            if group == "" && version == "v1" && body.Obj? && kind == "Secret" then
              after.Obj? && Filled(body.members, after.members, map["type" := Str("Opaque")], {})
            else if group == "" && version == "v1" && kind in {"Pod", "Service"} && Get(body, "spec").Some?
                && Get(body, "spec").value.Obj? then
              && after.Obj? && Filled(body.members, after.members, map[], {"spec"})
              && Get(after, "spec").Some? && Get(after, "spec").value.Obj?
              && (kind == "Pod" ==> PodFilled(body.members["spec"].members, after.members["spec"].members))
              && (kind == "Service" ==> ServiceFilled(body.members["spec"].members, after.members["spec"].members))
            else after == body
  {
    if group == "" && version == "v1" && kind in {"Pod", "Service"} && Get(body, "spec").Some?
        && Get(body, "spec").value.Obj? {
      PodSpecFilled(body.members["spec"].members);
      ServiceSpecFilled(body.members["spec"].members);
    }
  }
}
