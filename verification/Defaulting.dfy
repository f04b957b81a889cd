/** Filling the fields a client left out (`defaulting.rs`). */
module Defaulting {
  import opened JsonValue
  import opened Text

  function Fill(m: Map, key: string, value: Json): Map {
    if key in m then m else m[key := value]
  }

  function Each(items: seq<Json>, f: Json -> Json): seq<Json> {
    seq(|items|, i requires 0 <= i < |items| => f(items[i]))
  }

  /** The items of an array member, each put through `f`. */
  function EachIn(m: Map, key: string, f: Json -> Json): Map {
    if key in m && m[key].Arr? then m[key := Arr(Each(m[key].items, f))] else m
  }

  function Port(p: Json): Json {
    if p.Obj? then Obj(Fill(p.members, "protocol", Str("TCP"))) else p
  }

  /** Whether an image has no tag or the tag `latest`: what follows the last colon is a tag
      only when it holds no slash. */
  predicate PullsAlways(image: string) {
    var colon := FindLast(image, ':');
    colon.None? || '/' in image[colon.value + 1..] || image[colon.value + 1..] == "latest"
  }

  function PullPolicy(c: Map): Json {
    var image := AsStr(Get(Obj(c), "image"));
    Str(if PullsAlways(if image.Some? then image.value else "") then "Always" else "IfNotPresent")
  }

  function ContainerFields(c: Map): Map {
    var messages := Fill(Fill(c, "terminationMessagePath", Str("/dev/termination-log")), "terminationMessagePolicy",
        Str("File"));
    Fill(messages, "imagePullPolicy", PullPolicy(messages))
  }

  function Container(c: Json): Json {
    if c.Obj? then Obj(EachIn(ContainerFields(c.members), "ports", Port)) else c
  }

  function PodFields(spec: Map): Map {
    var named := Fill(Fill(Fill(spec, "restartPolicy", Str("Always")), "dnsPolicy", Str("ClusterFirst")),
                      "schedulerName", Str("default-scheduler"));
    Fill(Fill(named, "terminationGracePeriodSeconds", Number(30)), "securityContext", EMPTY)
  }

  function PodSpec(spec: Map): Map {
    EachIn(EachIn(PodFields(spec), "containers", Container), "initContainers", Container)
  }

  function ServiceSpec(spec: Map): Map {
    EachIn(Fill(Fill(spec, "type", Str("ClusterIP")), "sessionAffinity", Str("None")), "ports", Port)
  }

  function InSpec(body: Json, f: Map -> Map): Json {
    var spec := Get(body, "spec");
    if spec.Some? && spec.value.Obj? then Obj(body.members["spec" := Obj(f(spec.value.members))]) else body
  }

  function Apply(group: string, version: string, kind: string, body: Json): Json {
    if group != "" || version != "v1" then body
    else if kind == "Pod" then InSpec(body, PodSpec)
    else if kind == "Secret" then if body.Obj? then Obj(Fill(body.members, "type", Str("Opaque"))) else body
    else if kind == "Service" then InSpec(body, ServiceSpec)
    else body
  }

  // ---- in place --------------------------------------------------------------------------

  method DefaultPorts(ports: seq<Json>) returns (out: seq<Json>)
    ensures out == Each(ports, Port)
  {
    out := ports;
    for i := 0 to |ports|
      invariant |out| == |ports|
      invariant forall k | 0 <= k < i :: out[k] == Port(ports[k])
      invariant forall k | i <= k < |ports| :: out[k] == ports[k]
    {
      if out[i].Obj? && "protocol" !in out[i].members {
        out := out[i := Obj(out[i].members["protocol" := Str("TCP")])];
      }
    }
  }

  method DefaultContainer(c: Map) returns (out: Map)
    ensures Obj(out) == Container(Obj(c))
  {
    out := Fill(c, "terminationMessagePath", Str("/dev/termination-log"));
    out := Fill(out, "terminationMessagePolicy", Str("File"));
    if "imagePullPolicy" !in out {
      var image := AsStr(Get(Obj(out), "image"));
      var always := PullsAlways(if image.Some? then image.value else "");
      out := out["imagePullPolicy" := Str(if always then "Always" else "IfNotPresent")];
    }
    if "ports" in out && out["ports"].Arr? {
      var ports := DefaultPorts(out["ports"].items);
      out := out["ports" := Arr(ports)];
    }
  }

  method DefaultContainers(list: seq<Json>) returns (out: seq<Json>)
    ensures out == Each(list, Container)
  {
    out := list;
    for i := 0 to |list|
      invariant |out| == |list|
      invariant forall k | 0 <= k < i :: out[k] == Container(list[k])
      invariant forall k | i <= k < |list| :: out[k] == list[k]
    {
      if out[i].Obj? {
        var c := DefaultContainer(out[i].members);
        out := out[i := Obj(c)];
      }
    }
  }

  method DefaultPodSpec(spec: Map) returns (out: Map)
    ensures out == PodSpec(spec)
  {
    out := PodFields(spec);
    if "containers" in out && out["containers"].Arr? {
      var list := DefaultContainers(out["containers"].items);
      out := out["containers" := Arr(list)];
    }
    if "initContainers" in out && out["initContainers"].Arr? {
      var list := DefaultContainers(out["initContainers"].items);
      out := out["initContainers" := Arr(list)];
    }
  }

  method ApplyDefaults(group: string, version: string, kind: string, body: Json) returns (out: Json)
    ensures out == Apply(group, version, kind, body)
  {
    out := body;
    if group != "" || version != "v1" || !body.Obj? {
      return;
    }
    var root := body.members;
    match kind {
      case "Pod" =>
        if "spec" in root && root["spec"].Obj? {
          var spec := DefaultPodSpec(root["spec"].members);
          out := Obj(root["spec" := Obj(spec)]);
        }
      case "Secret" => out := Obj(Fill(root, "type", Str("Opaque")));
      case "Service" =>
        if "spec" in root && root["spec"].Obj? {
          var spec := Fill(Fill(root["spec"].members, "type", Str("ClusterIP")), "sessionAffinity", Str("None"));
          if "ports" in spec && spec["ports"].Arr? {
            var ports := DefaultPorts(spec["ports"].items);
            spec := spec["ports" := Arr(ports)];
          }
          out := Obj(root["spec" := Obj(spec)]);
        }
      case _ =>
    }
  }
}
