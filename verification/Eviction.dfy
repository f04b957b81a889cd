/** The judgement of one eviction against one disruption budget (`eviction.rs`). */
module Eviction {
  import opened JsonValue

  datatype Decision =
    | Delete
    | Spend(patch: Json)

  datatype Refusal =
    | PodNotFound
    | UidMismatch
    | BadVersion
    | VersionConflict
    | StillProcessing
    | NegativeAllowance
    | NothingAllowed
    | SeveralBudgets
    | KeptChanging

  function StatusInt(pdb: Json, field: string): Option<int> {
    AsI64(Field(pdb, "status", field))
  }

  function IntOr(n: Option<int>, default: int): int {
    if n.Some? then n.value else default
  }

  /** `status.disruptionsAllowed`, where an absent or unreadable one counts as none. */
  function Allowance(pdb: Json): int {
    IntOr(StatusInt(pdb, "disruptionsAllowed"), 0)
  }

  /** `status.disruptedPods`, the evicted pods by name, each with its stamp. */
  function Disrupted(pdb: Json): map<string, Json> {
    var pods := Field(pdb, "status", "disruptedPods");
    if pods.Some? then Members(pods.value) else map[]
  }

  function NameOf(resource: Json): string {
    var name := AsStr(Field(resource, "metadata", "name"));
    if name.Some? then name.value else ""
  }

  /** Whether the pod is deleted with no budget consulted. */
  predicate IgnoresBudgets(pod: Json) {
    var phase := AsStr(Field(pod, "status", "phase"));
    || phase in {Some("Succeeded"), Some("Failed"), Some("Pending")}
    || Field(pod, "metadata", "deletionTimestamp").Some?
  }

  /** `status.conditions` holds a `Ready` condition that is `True`. */
  predicate IsReady(pod: Json) {
    var conditions := Field(pod, "status", "conditions");
    && conditions.Some? && conditions.value.Arr?
    && exists i | 0 <= i < |conditions.value.items| ::
         && AsStr(Get(conditions.value.items[i], "type")) == Some("Ready")
         && AsStr(Get(conditions.value.items[i], "status")) == Some("True")
  }

  /** Whether the budget's selector (its `matchLabels`, or the selector itself when it
      has none) names only labels the pod carries, and at least one. */
  predicate Selects(pdb: Json, pod: Json) {
    var selector := Field(pdb, "spec", "selector");
    && selector.Some?
    && var nested := Get(selector.value, "matchLabels");
       var want := if nested.Some? then nested.value else selector.value;
       && want.Obj? && want.members != map[]
       && var have := Field(pod, "metadata", "labels");
          && have.Some? && have.value.Obj?
          && forall k | k in want.members :: k in have.value.members && have.value.members[k] == want.members[k]
  }

  /** An unready pod the budget can spare: it goes without spending. */
  predicate Spares(pod: Json, pdb: Json) {
    var current := IntOr(StatusInt(pdb, "currentHealthy"), 0);
    var desired := IntOr(StatusInt(pdb, "desiredHealthy"), 0);
    var policy := AsStr(Field(pdb, "spec", "unhealthyPodEvictionPolicy"));
    && !IsReady(pod)
    && (policy == Some("AlwaysAllow") || (current >= desired && desired > 0))
  }

  /** The budget's status has not caught up with its generation. */
  predicate Lags(pdb: Json) {
    var observed := StatusInt(pdb, "observedGeneration");
    var generation := AsI64(Field(pdb, "metadata", "generation"));
    observed.None? || (generation.Some? && observed.value < generation.value)
  }

  function SpendPatch(allowed: int, pod: string, now: string): Json {
    Obj(map["status" := Obj(map["disruptionsAllowed" := Number(allowed - 1),
                                "disruptedPods" := Obj(map[pod := Str(now)])])])
  }

  function Decide(pod: Json, pdb: Json, now: string): Result<Decision, Refusal> {
    if Spares(pod, pdb) then Ok(Delete)
    else if Lags(pdb) then Err(StillProcessing)
    else if Allowance(pdb) < 0 then Err(NegativeAllowance)
    else if Allowance(pdb) == 0 then Err(NothingAllowed)
    else Ok(Spend(SpendPatch(Allowance(pdb), NameOf(pod), now)))
  }

  /** Merging a spend into whatever the budget holds by then: the allowance becomes the
      judged one less one, the pod is recorded beside the pods already there, and no
      other member of the budget or of its status moves. */
  lemma SpendMerged(live: Json, allowed: int, pod: string, now: string)
    requires 0 < allowed <= I64_MAX
    ensures var merged := Merge(live, SpendPatch(allowed, pod, now));
            && Allowance(merged) == allowed - 1
            && Disrupted(merged) == Disrupted(live)[pod := Str(now)]
            && (forall k :: k != "status" ==> Get(merged, k) == Get(live, k))
            && (forall k :: k != "disruptionsAllowed" && k != "disruptedPods" ==>
                  Field(merged, "status", k) == Field(live, "status", k))
  {
    var patch := SpendPatch(allowed, pod, now);
    var merged := Merge(live, patch);
    forall k ensures k != "status" ==> Get(merged, k) == Get(live, k) {
      MergeMember(live, patch, k);
    }
    SpendMergedStatus(MemberOrNull(live, "status"), allowed, pod, now);
    MergeMember(live, patch, "status");
  }

  lemma SpendMergedStatus(live: Json, allowed: int, pod: string, now: string)
    ensures var merged := Merge(live, SpendPatch(allowed, pod, now).members["status"]);
            && Get(merged, "disruptionsAllowed") == Some(Number(allowed - 1))
            && Get(merged, "disruptedPods") == Some(Obj(Members(MemberOrNull(live, "disruptedPods"))[pod := Str(now)]))
            && (forall k :: k != "disruptionsAllowed" && k != "disruptedPods" ==> Get(merged, k) == Get(live, k))
  {
    var patch := SpendPatch(allowed, pod, now).members["status"];
    MergeMember(live, patch, "disruptionsAllowed");
    MergeMember(live, patch, "disruptedPods");
    var before := MemberOrNull(live, "disruptedPods");
    var pods := patch.members["disruptedPods"];
    assert Merge(before, pods).members == Members(before)[pod := Str(now)];
    forall k | k != "disruptionsAllowed" && k != "disruptedPods" ensures Get(Merge(live, patch), k) == Get(live, k) {
      MergeMember(live, patch, k);
    }
  }

  /** The budget already reads as a spend would leave it, stamp included. */
  predicate Repeats(live: Json, allowed: int, pod: string, stamp: Json) {
    && Field(live, "status", "disruptionsAllowed") == Some(Number(allowed - 1))
    && pod in Disrupted(live) && Disrupted(live)[pod] == stamp
  }

  lemma RepeatedStatus(live: Json, allowed: int, pod: string, now: string)
    requires live.Obj? && Get(live, "disruptionsAllowed") == Some(Number(allowed - 1))
    requires Get(live, "disruptedPods").Some? && Get(live, "disruptedPods").value.Obj?
    requires Get(Get(live, "disruptedPods").value, pod) == Some(Str(now))
    ensures Merge(live, SpendPatch(allowed, pod, now).members["status"]) == live
  {
    SpendMergedStatus(live, allowed, pod, now);
    var merged, pods := Merge(live, SpendPatch(allowed, pod, now).members["status"]),
        Get(live, "disruptedPods").value.members;
    assert pods[pod := Str(now)] == pods;
    forall k ensures Get(merged, k) == Get(live, k) {
    }
    SameMembers(merged, live);
  }

  /** A spend leaves the budget as it is if and only if the budget repeats it. */
  lemma AbsorbsIff(live: Json, allowed: int, pod: string, now: string)
    ensures Merge(live, SpendPatch(allowed, pod, now)) == live <==> Repeats(live, allowed, pod, Str(now))
  {
    var patch := SpendPatch(allowed, pod, now);
    var merged, status := Merge(live, patch), MemberOrNull(live, "status");
    MergeMember(live, patch, "status");
    SpendMergedStatus(status, allowed, pod, now);
    if Repeats(live, allowed, pod, Str(now)) {
      RepeatedStatus(status, allowed, pod, now);
      forall k ensures Get(merged, k) == Get(live, k) {
        MergeMember(live, patch, k);
      }
      SameMembers(merged, live);
    }
  }
}
