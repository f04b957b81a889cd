/** The rules of an eviction as the fields of the pod and of the budget decide them. */
module EvictionRules {
  import opened JsonValue
  import opened Eviction

  /** The member reads as this 64-bit integer. */
  ghost predicate Reads(j: Json, outer: string, inner: string, n: int) {
    Field(j, outer, inner) == Some(Number(n)) && I64_MIN <= n <= I64_MAX
  }

  /** One of `status.conditions` has the type `Ready` and the status `True`. */
  ghost predicate ShownReady(pod: Json) {
    exists conditions: seq<Json>, c: Json ::
      && Field(pod, "status", "conditions") == Some(Arr(conditions)) && c in conditions
      && Get(c, "type") == Some(Str("Ready")) && Get(c, "status") == Some(Str("True"))
  }

  /** Its phase is final or not begun, or its deletion is under way. */
  ghost predicate PastBudgets(pod: Json) {
    || Field(pod, "status", "phase") == Some(Str("Succeeded"))
    || Field(pod, "status", "phase") == Some(Str("Failed"))
    || Field(pod, "status", "phase") == Some(Str("Pending"))
    || Field(pod, "metadata", "deletionTimestamp") != None
  }

  /** The budget lets unready pods go: by its policy, or because it wants some pods healthy and
      has at least as many. */
  ghost predicate FreesUnready(pdb: Json) {
    || Field(pdb, "spec", "unhealthyPodEvictionPolicy") == Some(Str("AlwaysAllow"))
    || exists current, desired ::
         && Reads(pdb, "status", "currentHealthy", current) && Reads(pdb, "status", "desiredHealthy", desired)
         && 0 < desired <= current
  }

  /** The status was observed at the budget's generation or a later one. */
  ghost predicate CaughtUp(pdb: Json) {
    exists observed ::
      && Reads(pdb, "status", "observedGeneration", observed)
      && forall generation | Reads(pdb, "metadata", "generation", generation) :: generation <= observed
  }

  /** The labels the budget asks for. */
  ghost predicate Asks(pdb: Json, want: Map) {
    || (exists selector: Map ::
          && Field(pdb, "spec", "selector") == Some(Obj(selector))
          && "matchLabels" in selector && selector["matchLabels"] == Obj(want))
    || (Field(pdb, "spec", "selector") == Some(Obj(want)) && "matchLabels" !in want)
  }

  /** The pod's name: its `metadata.name` when that is a text, or none. */
  ghost predicate Named(pod: Json, name: string) {
    if exists text :: Field(pod, "metadata", "name") == Some(Str(text))
    then Field(pod, "metadata", "name") == Some(Str(name))
    else name == ""
  }

  /** It asks for some labels, and the pod has them all. */
  ghost predicate Picks(pdb: Json, pod: Json) {
    exists want: Map, have: Map ::
      && Asks(pdb, want) && want != map[]
      && Field(pod, "metadata", "labels") == Some(Obj(have)) && want.Items <= have.Items
  }

  lemma IgnoredIff(pod: Json)
    ensures IgnoresBudgets(pod) <==> PastBudgets(pod)
  {
  }

  lemma ReadyIff(pod: Json)
    ensures IsReady(pod) <==> ShownReady(pod)
  {
    if IsReady(pod) {
      var items := Field(pod, "status", "conditions").value.items;
      var i :| 0 <= i < |items| && AsStr(Get(items[i], "type")) == Some("Ready") &&
               AsStr(Get(items[i], "status")) == Some("True");
      assert Field(pod, "status", "conditions") == Some(Arr(items)) && items[i] in items;
    }
  }

  lemma SelectsIff(pdb: Json, pod: Json)
    ensures Selects(pdb, pod) <==> Picks(pdb, pod)
  {
    if Selects(pdb, pod) {
      var selector := Field(pdb, "spec", "selector").value;
      var nested := Get(selector, "matchLabels");
      var want := (if nested.Some? then nested.value else selector).members;
      var have := Field(pod, "metadata", "labels").value.members;
      assert Asks(pdb, want);
      assert want.Items <= have.Items;
    }
    if Picks(pdb, pod) {
      var want: Map, have: Map :|
        && Asks(pdb, want) && want != map[]
        && Field(pod, "metadata", "labels") == Some(Obj(have)) && want.Items <= have.Items;
      forall k | k in want ensures k in have && have[k] == want[k] {
        assert (k, want[k]) in want.Items;
      }
    }
  }

  lemma SparesIff(pod: Json, pdb: Json)
    ensures Spares(pod, pdb) <==> !ShownReady(pod) && FreesUnready(pdb)
  {
    ReadyIff(pod);
    if Spares(pod, pdb) && Field(pdb, "spec", "unhealthyPodEvictionPolicy") != Some(Str("AlwaysAllow")) {
      var current, desired := Field(pdb, "status", "currentHealthy").value.amount,
          Field(pdb, "status", "desiredHealthy").value.amount;
      assert Reads(pdb, "status", "currentHealthy", current) && Reads(pdb, "status", "desiredHealthy", desired);
    }
  }

  lemma LagsIff(pdb: Json)
    ensures Lags(pdb) <==> !CaughtUp(pdb)
  {
    var generation := Field(pdb, "metadata", "generation");
    if !Lags(pdb) {
      assert Reads(pdb, "status", "observedGeneration", StatusInt(pdb, "observedGeneration").value);
    } else if generation.Some? && generation.value.Number? {
      var n := generation.value.amount;
      assert AsI64(generation).Some? ==> Reads(pdb, "metadata", "generation", n);
    }
  }

  /** What one budget answers for a pod, in five cases that exclude one another: a ready pod is
      never let go free; an unready one is if and only if the budget frees such pods; otherwise a
      status that lags refuses, and then the number of disruptions allowed decides. */
  lemma DecidedByTheFields(pod: Json, pdb: Json, now: string)
    ensures var free := !ShownReady(pod) && FreesUnready(pdb);
            && (Decide(pod, pdb, now) == Ok(Delete) <==> free)
            && (Decide(pod, pdb, now) == Err(StillProcessing) <==> !free && !CaughtUp(pdb))
            && (Decide(pod, pdb, now) == Err(NegativeAllowance) <==>
                  !free && CaughtUp(pdb) && exists n :: Reads(pdb, "status", "disruptionsAllowed", n) && n < 0)
            && (Decide(pod, pdb, now) == Err(NothingAllowed) <==>
                  !free && CaughtUp(pdb) && forall n | Reads(pdb, "status", "disruptionsAllowed", n) :: n == 0)
            && (Decide(pod, pdb, now).Ok? && Decide(pod, pdb, now).value.Spend? <==>
                  !free && CaughtUp(pdb) && exists n :: Reads(pdb, "status", "disruptionsAllowed", n) && n > 0)
            && (forall n, name | Reads(pdb, "status", "disruptionsAllowed", n) && Named(pod, name) ::
                  Decide(pod, pdb, now).Ok? && Decide(pod, pdb, now).value.Spend? ==>
                    Decide(pod, pdb, now).value.patch == SpendPatch(n, name, now))
  {
    SparesIff(pod, pdb);
    LagsIff(pdb);
    AllowanceReads(pdb);
  }

  lemma AllowanceReads(pdb: Json)
    ensures Allowance(pdb) != 0 ==> Reads(pdb, "status", "disruptionsAllowed", Allowance(pdb))
    ensures forall n | Reads(pdb, "status", "disruptionsAllowed", n) :: n == Allowance(pdb)
  {
  }
}
