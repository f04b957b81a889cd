/** Normalization as the server runs it: the body is edited map by map, and the first
    field of the wrong kind stops it. */
module Normalizer {
  import opened JsonValue
  import opened ObjectBody
  import opened ObjectBodyLaws

  lemma LeastBadEntry(m: Map, key: string, rest: set<string>)
    requires key in BadEntries(m) && BadEntries(m) <= rest && IsLeast(key, rest)
    ensures key == Least(BadEntries(m))
  {
    LeastIsUnique(key, BadEntries(m));
  }

  /** The walk over labels or annotations, in key order, up to the first bad entry. */
  method FillEntries(m: Map) returns (out: Map, bad: Option<string>)
    ensures bad.None? ==> BadEntries(m) == {} && out == Filled(m)
    ensures bad.Some? ==> BadEntries(m) != {} && bad.value == Least(BadEntries(m))
  {
    out, bad := m, None;
    var rest := m.Keys;
    while rest != {}
      invariant rest <= m.Keys && out.Keys == m.Keys
      invariant forall k | k in m && k !in rest :: k !in BadEntries(m) && out[k] == Filled(m)[k]
      invariant forall k | k in rest :: out[k] == m[k]
      decreases rest
    {
      assert BadEntries(m) <= rest by {
        forall k | k in BadEntries(m) ensures k in rest {
        }
      }
      ghost var least := LeastExists(rest);
      var key :| key in rest && IsLeast(key, rest);
      if m[key].Null? {
        out := out[key := Str("")];
      } else if !m[key].Str? {
        LeastBadEntry(m, key, rest);
        return out, Some(key);
      }
      rest := rest - {key};
    }
    assert out == Filled(m);
  }

  method NormalizeField(meta: Map, field: string) returns (r: Result<Map, ShapeError>)
    ensures r == if FieldFault(meta, field).Some? then Err(FieldFault(meta, field).value)
            else Ok(CleanField(meta, field))
  {
    if field !in meta {
      return Ok(meta);
    }
    if meta[field].Null? {
      return Ok(meta - {field});
    }
    if field in {"labels", "annotations"} {
      if !meta[field].Obj? {
        return Err(ShapeError([Member(field)] + [], ObjectKind, KindOf(meta[field])));
      }
      var filled, bad := FillEntries(meta[field].members);
      if bad.Some? {
        var found := KindOf(meta[field].members[bad.value]);
        return Err(ShapeError([Member(field)] + [Entry(bad.value)], StringKind, found));
      }
      return Ok(meta[field := Obj(filled)]);
    }
    var fault := ArrayFault(meta[field], if field == "ownerReferences" then ObjectKind else StringKind);
    if fault.Some? {
      return Err(fault.value.(path := [Member(field)] + fault.value.path));
    }
    return Ok(meta);
  }

  method NormalizeMeta(meta: Map) returns (r: Result<Map, ShapeError>)
    ensures r == if FirstFault(meta, FIELDS).Some? then Err(FirstFault(meta, FIELDS).value)
            else Ok(CleanFields(meta, FIELDS))
  {
    var current := meta;
    ghost var fault, target := FirstFault(meta, FIELDS), CleanFields(meta, FIELDS);
    FieldsAreDistinct();
    for i := 0 to |FIELDS|
      invariant FirstFault(current, FIELDS[i..]) == fault
      invariant CleanFields(current, FIELDS[i..]) == target
    {
      assert FIELDS[i..][0] == FIELDS[i] && FIELDS[i..][1..] == FIELDS[i + 1..];
      CleanFieldKeepsFaults(current, FIELDS[i], FIELDS[i + 1..]);
      var step := NormalizeField(current, FIELDS[i]);
      if step.Err? {
        return step;
      }
      current := step.value;
    }
    return Ok(current);
  }

  method NormalizeSlot(container: Map) returns (r: Result<Map, ShapeError>)
    ensures r == if SlotFault(container).Some? then Err(SlotFault(container).value) else Ok(CleanSlot(container))
  {
    if "metadata" !in container {
      return Ok(container);
    }
    match container["metadata"] {
      case Obj(meta) =>
        var step := NormalizeMeta(meta);
        if step.Err? {
          return Err(step.error.(path := [Member("metadata")] + step.error.path));
        }
        return Ok(container["metadata" := Obj(step.value)]);
      case Null => return Ok(container - {"metadata"});
      case other => return Err(ShapeError([Member("metadata")], ObjectKind, KindOf(other)));
    }
  }

  /** Slot by slot, each found in the body as the slots before it left it. */
  method Normalize(group: string, kind: string, body: Json) returns (r: Result<Json, ShapeError>)
    ensures r == Normalized(group, kind, body)
  {
    if !body.Obj? {
      return Err(ShapeError([], ObjectKind, KindOf(body)));
    }
    var root, slots := body.members, Slots(group, kind);
    ghost var fault, target := FaultIn(root, slots), CleanAll(root, slots);
    SlotsAreSeparate(group, kind);
    assert slots[0..] == slots;
    for i := 0 to |slots|
      invariant FaultIn(root, slots[i..]) == fault
      invariant CleanAll(root, slots[i..]) == target
    {
      assert slots[i..][0] == slots[i] && slots[i..][1..] == slots[i + 1..];
      CleanAtKeepsFaults(root, slots[i], slots[i + 1..]);
      var container := ObjectAt(root, slots[i]);
      if container.Some? {
        var step := NormalizeSlot(container.value);
        if step.Err? {
          return Err(step.error.(path := Steps(slots[i]) + step.error.path));
        }
        root := PutAt(root, slots[i], step.value);
      }
    }
    return Ok(Obj(root));
  }
}
