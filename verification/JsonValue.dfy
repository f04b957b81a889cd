/** JSON values as `serde_json::Value` holds them, and the RFC 7396 merge the store applies. */
module JsonValue {

  datatype Option<+T> = None | Some(value: T)

  datatype Result<+T, +E> = Ok(value: T) | Err(error: E)

  /** An integer and a fraction are both JSON numbers; only an integer reads back as one. */
  datatype Json =
    | Null
    | Bool(flag: bool)
    | Number(amount: int)
    | Fraction(exact: real)
    | Str(text: string)
    | Arr(items: seq<Json>)
    | Obj(members: map<string, Json>)

  type Map = map<string, Json>

  const EMPTY := Obj(map[])

  function Get(j: Json, key: string): Option<Json> {
    if j.Obj? && key in j.members then Some(j.members[key]) else None
  }

  /** The member `inner` of the member `outer`, if both are there. */
  function Field(j: Json, outer: string, inner: string): Option<Json> {
    var holder := Get(j, outer);
    if holder.Some? then Get(holder.value, inner) else None
  }

  function AsStr(j: Option<Json>): Option<string> {
    if j.Some? && j.value.Str? then Some(j.value.text) else None
  }

  const I64_MIN := -0x8000_0000_0000_0000
  const I64_MAX := 0x7fff_ffff_ffff_ffff

  function AsI64(j: Option<Json>): Option<int> {
    if j.Some? && j.value.Number? && I64_MIN <= j.value.amount <= I64_MAX then Some(j.value.amount) else None
  }

  function Members(j: Json): map<string, Json> {
    if j.Obj? then j.members else map[]
  }

  function MemberOrNull(j: Json, key: string): Json {
    if key in Members(j) then Members(j)[key] else Null
  }

  /** JSON Merge Patch, section 2 of RFC 7396. */
  function Merge(target: Json, patch: Json): (merged: Json)
    decreases patch
  {
    if !patch.Obj? then patch
    else
      var base := Members(target);
      Obj(map k | k in base.Keys + patch.members.Keys && !(k in patch.members && patch.members[k].Null?) ::
            if k in patch.members then Merge(MemberOrNull(target, k), patch.members[k]) else base[k])
  }

  /** What a merge does to one member: a key the patch leaves out keeps its value,
      a null removes it, anything else is merged into it alone. */
  lemma MergeMember(target: Json, patch: Json, key: string)
    requires patch.Obj?
    ensures Merge(target, patch).Obj?
    ensures key !in patch.members ==> Get(Merge(target, patch), key) == Get(Obj(Members(target)), key)
    ensures key in patch.members && patch.members[key].Null? ==> Get(Merge(target, patch), key) == None
    ensures key in patch.members && !patch.members[key].Null? ==>
              Get(Merge(target, patch), key) == Some(Merge(MemberOrNull(target, key), patch.members[key]))
  {
  }

  /** A merge patch applied again changes nothing more. */
  lemma {:induction false} MergeTwice(target: Json, patch: Json)
    ensures Merge(Merge(target, patch), patch) == Merge(target, patch)
    decreases patch
  {
    if patch.Obj? {
      var once := Merge(target, patch);
      var twice := Merge(once, patch);
      forall key ensures Get(twice, key) == Get(once, key) {
        MergeMember(target, patch, key);
        MergeMember(once, patch, key);
        if key in patch.members && !patch.members[key].Null? {
          MergeTwice(MemberOrNull(target, key), patch.members[key]);
        }
      }
      SameMembers(twice, once);
    }
  }

  /** Whether merging `sent` into `live` leaves exactly `sent`: as an object it holds no null,
      names every member of `live`, and each of its members covers the one there. */
  predicate Covers(live: Json, sent: Json)
    decreases sent
  {
    sent.Obj? ==>
      && Members(live).Keys <= sent.members.Keys
      && forall k | k in sent.members :: !sent.members[k].Null? && Covers(MemberOrNull(live, k), sent.members[k])
  }

  lemma CoveredMember(live: Json, sent: Json, key: string)
    requires sent.Obj? && Merge(live, sent) == sent
    ensures key in Members(live) ==> key in sent.members
    ensures key in sent.members ==>
              !sent.members[key].Null? && Merge(MemberOrNull(live, key), sent.members[key]) == sent.members[key]
  {
    MergeMember(live, sent, key);
    assert Get(Merge(live, sent), key) == Get(sent, key);
  }

  /** A merge replaces exactly when what is sent covers what is there. */
  lemma {:induction false} MergeReplacesIff(live: Json, sent: Json)
    ensures Merge(live, sent) == sent <==> Covers(live, sent)
    decreases sent
  {
    if sent.Obj? {
      forall k | k in sent.members
        ensures Merge(MemberOrNull(live, k), sent.members[k]) == sent.members[k] <==>
                Covers(MemberOrNull(live, k), sent.members[k])
      {
        MergeReplacesIff(MemberOrNull(live, k), sent.members[k]);
      }
      if Merge(live, sent) == sent {
        forall k ensures k in Members(live) ==> k in sent.members
                 ensures k in sent.members ==> !sent.members[k].Null? && Covers(MemberOrNull(live, k), sent.members[k])
        {
          CoveredMember(live, sent, k);
        }
      }
      if Covers(live, sent) {
        forall k ensures Get(Merge(live, sent), k) == Get(sent, k) {
          MergeMember(live, sent, k);
        }
        SameMembers(Merge(live, sent), sent);
      }
    }
  }

  lemma SameMembers(a: Json, b: Json)
    requires a.Obj? && b.Obj? && forall key :: Get(a, key) == Get(b, key)
    ensures a == b
  {
    assert forall key :: key in a.members <==> Get(a, key).Some?;
    assert forall key :: key in b.members <==> Get(b, key).Some?;
    assert a.members == b.members;
  }
}
