/** Why evictions reach their delete or a refusal, what a budget remembers of them, and that
    they end. */
module BudgetGrants {
  import opened JsonValue
  import opened Eviction
  import opened EvictionRules
  import opened TextOrder
  import opened BudgetProtocol
  import opened BudgetLaws

  // ---- every delete has a reason ---------------------------------------------------

  /** Exactly these budgets, of the namespace or of all when none is named, pick the pod. */
  ghost predicate Picking(store: Store, namespace: Option<string>, pod: Json, keys: set<Key>) {
    forall k :: k in keys <==>
      k in store.budgets && (namespace == None || namespace == k.namespace) && Picks(store.budgets[k].value, pod)
  }

  lemma PickingIff(store: Store, namespace: Option<string>, pod: Json, keys: set<Key>)
    ensures Picking(store, namespace, pod, keys) <==> Selecting(store, namespace, pod) == keys
  {
    forall k | k in store.budgets ensures Selects(store.budgets[k].value, pod) <==> Picks(store.budgets[k].value, pod) {
      SelectsIff(store.budgets[k].value, pod);
    }
  }

  /** At this moment of the run, exactly these budgets selected the pod. */
  ghost predicate Seen(s: System, actions: seq<Action>, namespace: Option<string>, pod: Json, n: nat, keys: set<Key>) {
    n <= |actions| && Picking(Run(s, actions[..n]).store, namespace, pod, keys)
  }

  /** At this moment of the run, this was the budget stored under the key. */
  ghost predicate Stood(s: System, actions: seq<Action>, n: nat, key: Key, value: Json) {
    && n <= |actions|
    && key in Run(s, actions[..n]).store.budgets && Run(s, actions[..n]).store.budgets[key].value == value
  }

  /** What a budget has to say of a pod it selects. */
  datatype Verdict = Free | Behind | Broken | Spent | Payable

  ghost predicate Says(pdb: Json, pod: Json, verdict: Verdict) {
    && (verdict.Free? <==> !ShownReady(pod) && FreesUnready(pdb))
    && (!verdict.Free? ==>
          && (verdict.Behind? <==> !CaughtUp(pdb))
          && (verdict.Broken? ==> exists n :: Reads(pdb, "status", "disruptionsAllowed", n) && n < 0)
          && (verdict.Spent? ==> forall n | Reads(pdb, "status", "disruptionsAllowed", n) :: n == 0)
          && (verdict.Payable? ==> exists n :: Reads(pdb, "status", "disruptionsAllowed", n) && n > 0))
  }

  /** At some moment of the run this budget alone selected the pod, and it said this. */
  ghost predicate FoundAt(s: System, actions: seq<Action>, namespace: Option<string>, pod: Json,
                          key: Key, value: Json, verdict: Verdict) {
    && Says(value, pod, verdict)
    && exists n :: Seen(s, actions, namespace, pod, n, {key}) && Stood(s, actions, n, key, value)
  }

  ghost predicate Found(s: System, actions: seq<Action>, namespace: Option<string>, pod: Json, verdict: Verdict) {
    exists key, value :: FoundAt(s, actions, namespace, pod, key, value, verdict)
  }

  ghost predicate Unselected(s: System, actions: seq<Action>, namespace: Option<string>, pod: Json) {
    exists n :: Seen(s, actions, namespace, pod, n, {})
  }

  ghost predicate Contested(s: System, actions: seq<Action>, namespace: Option<string>, pod: Json) {
    exists n, keys: set<Key> :: Seen(s, actions, namespace, pod, n, keys) && |keys| > 1
  }

  /** The pod is the one the client asked about, and only an exempt one skips the budgets. */
  ghost predicate Admitted(e: Evictor) {
    && (e.request.uid.Some? ==> AsStr(Field(e.pod, "metadata", "uid")) == e.request.uid)
    && !e.request.version.Malformed?
    && (PastBudgets(e.pod) <==> e.phase == Deleting(Exempt))
  }

  ghost predicate Justified(s: System, actions: seq<Action>, e: Evictor) {
    var Request(namespace, _, _, dryRun) := e.request;
    match e.phase
    case Listing(_) => Admitted(e)
    case Fetching(_, key, judged, _) => Admitted(e) && FoundAt(s, actions, namespace, e.pod, key, judged.value, Payable)
    case Proposing(_, key, judged, _, _) =>
      Admitted(e) && FoundAt(s, actions, namespace, e.pod, key, judged.value, Payable)
    case Deleting(Exempt) => Admitted(e)
    case Deleting(Unbudgeted) => Admitted(e) && Unselected(s, actions, namespace, e.pod)
    case Deleting(Spared) => Admitted(e) && Found(s, actions, namespace, e.pod, Free)
    case Deleting(Rehearsed) => Admitted(e) && dryRun && Found(s, actions, namespace, e.pod, Payable)
    case Deleting(Paid) => Admitted(e) && !dryRun && Found(s, actions, namespace, e.pod, Payable)
    case Deleting(Absorbed) => Admitted(e) && !dryRun && Found(s, actions, namespace, e.pod, Payable)
    case Refused(StillProcessing) => Found(s, actions, namespace, e.pod, Behind)
    case Refused(NegativeAllowance) => Found(s, actions, namespace, e.pod, Broken)
    case Refused(NothingAllowed) => Found(s, actions, namespace, e.pod, Verdict.Spent)
    case Refused(SeveralBudgets) => Contested(s, actions, namespace, e.pod)
    case Refused(KeptChanging) => Found(s, actions, namespace, e.pod, Payable)
    case Refused(_) => true
  }

  lemma PrefixOfPrefix(actions: seq<Action>, n: nat)
    requires actions != [] && n < |actions|
    ensures actions[..|actions| - 1][..n] == actions[..n]
  {
  }

  lemma StaysSeen(s: System, actions: seq<Action>, namespace: Option<string>, pod: Json)
    requires actions != []
    ensures var prefix := actions[..|actions| - 1];
            && (Unselected(s, prefix, namespace, pod) ==> Unselected(s, actions, namespace, pod))
            && (Contested(s, prefix, namespace, pod) ==> Contested(s, actions, namespace, pod))
  {
    var prefix := actions[..|actions| - 1];
    if Unselected(s, prefix, namespace, pod) {
      var n :| Seen(s, prefix, namespace, pod, n, {});
      PrefixOfPrefix(actions, n);
      assert Seen(s, actions, namespace, pod, n, {});
    }
    if Contested(s, prefix, namespace, pod) {
      var n, keys: set<Key> :| Seen(s, prefix, namespace, pod, n, keys) && |keys| > 1;
      PrefixOfPrefix(actions, n);
      assert Seen(s, actions, namespace, pod, n, keys);
    }
  }

  lemma StaysFound(s: System, actions: seq<Action>, namespace: Option<string>, pod: Json, key: Key, value: Json,
                   verdict: Verdict)
    requires actions != [] && FoundAt(s, actions[..|actions| - 1], namespace, pod, key, value, verdict)
    ensures FoundAt(s, actions, namespace, pod, key, value, verdict)
  {
    var prefix := actions[..|actions| - 1];
    var n :| Seen(s, prefix, namespace, pod, n, {key}) && Stood(s, prefix, n, key, value);
    PrefixOfPrefix(actions, n);
    assert Seen(s, actions, namespace, pod, n, {key}) && Stood(s, actions, n, key, value);
  }

  lemma StaysJustified(s: System, actions: seq<Action>, e: Evictor)
    requires actions != [] && Justified(s, actions[..|actions| - 1], e)
    ensures Justified(s, actions, e)
  {
    var prefix, namespace := actions[..|actions| - 1], e.request.namespace;
    StaysSeen(s, actions, namespace, e.pod);
    forall key, value, verdict | FoundAt(s, prefix, namespace, e.pod, key, value, verdict)
      ensures FoundAt(s, actions, namespace, e.pod, key, value, verdict)
    {
      StaysFound(s, actions, namespace, e.pod, key, value, verdict);
    }
    forall verdict | Found(s, prefix, namespace, e.pod, verdict) ensures Found(s, actions, namespace, e.pod, verdict) {
      var key, value :| FoundAt(s, prefix, namespace, e.pod, key, value, verdict);
      assert FoundAt(s, actions, namespace, e.pod, key, value, verdict);
    }
  }

  lemma SingleKey(keys: set<Key>, key: Key)
    requires key in keys && |keys| <= 1
    ensures keys == {key}
  {
    assert |keys - {key}| == |keys| - 1;
  }

  /** Where each verdict leads an eviction. */
  ghost predicate Follows(phase: Phase, verdict: Verdict, dryRun: bool, key: Key, judged: Entry) {
    match verdict
    case Free => phase == Deleting(Spared)
    case Behind => phase == Refused(StillProcessing)
    case Broken => phase == Refused(NegativeAllowance)
    case Spent => phase == Refused(NothingAllowed)
    case Payable =>
      if dryRun then phase == Deleting(Rehearsed)
      else phase.Fetching? && phase.key == key && phase.judged == judged
  }

  /** The judgement follows what the budget says. */
  lemma JudgedAsSaid(e: Evictor, attempt: nat, key: Key, judged: Entry, now: string) returns (verdict: Verdict)
    ensures Says(judged.value, e.pod, verdict)
    ensures Follows(JudgeOne(e, attempt, key, judged, now), verdict, e.request.dryRun, key, judged)
  {
    SparesIff(e.pod, judged.value);
    LagsIff(judged.value);
    AllowanceReads(judged.value);
    verdict := if Spares(e.pod, judged.value) then Free
               else if Lags(judged.value) then Behind
               else if Allowance(judged.value) < 0 then Broken
               else if Allowance(judged.value) == 0 then Verdict.Spent
               else Payable;
  }

  lemma FollowingIsJustified(s: System, actions: seq<Action>, e: Evictor, phase: Phase, verdict: Verdict, key: Key,
                             judged: Entry)
    requires Admitted(e) && e.phase.Listing?
             && FoundAt(s, actions, e.request.namespace, e.pod, key, judged.value, verdict)
    requires Follows(phase, verdict, e.request.dryRun, key, judged)
    ensures Justified(s, actions, e.(phase := phase))
  {
    assert Found(s, actions, e.request.namespace, e.pod, verdict);
    assert Admitted(e.(phase := phase));
  }

  lemma OneBudgetJustified(s: System, actions: seq<Action>, e: Evictor, attempt: nat, key: Key, now: string)
    requires Admitted(e) && e.phase.Listing? && key in Run(s, actions).store.budgets
    requires Seen(s, actions, e.request.namespace, e.pod, |actions|, {key})
    ensures Justified(s, actions, e.(phase := JudgeOne(e, attempt, key, Run(s, actions).store.budgets[key], now)))
  {
    var judged := Run(s, actions).store.budgets[key];
    var verdict := JudgedAsSaid(e, attempt, key, judged, now);
    assert actions[..|actions|] == actions;
    assert Stood(s, actions, |actions|, key, judged.value);
    assert FoundAt(s, actions, e.request.namespace, e.pod, key, judged.value, verdict);
    FollowingIsJustified(s, actions, e, JudgeOne(e, attempt, key, judged, now), verdict, key, judged);
  }

  lemma JudgementJustified(s: System, actions: seq<Action>, e: Evictor, attempt: nat, now: string)
    requires Admitted(e) && e.phase.Listing?
    ensures Justified(s, actions, e.(phase := Judge(Run(s, actions).store, e, attempt, now)))
  {
    var store, namespace := Run(s, actions).store, e.request.namespace;
    var keys := Selecting(store, namespace, e.pod);
    assert actions[..|actions|] == actions;
    PickingIff(store, namespace, e.pod, keys);
    assert Seen(s, actions, namespace, e.pod, |actions|, keys);
    if keys != {} && |keys| <= 1 {
      var key :| key in keys && Judge(store, e, attempt, now) == JudgeOne(e, attempt, key, store.budgets[key], now);
      SingleKey(keys, key);
      OneBudgetJustified(s, actions, e, attempt, key, now);
    }
  }

  /** Where a proposal can lead: to its delete, to another attempt, or to giving up. */
  predicate AfterProposal(phase: Phase) {
    phase.Listing? || phase in {Deleting(Paid), Deleting(Absorbed), Refused(KeptChanging)}
  }

  lemma ProposedPhase(s: System, id: nat)
    requires id in s.evictors && s.evictors[id].phase.Proposing?
    ensures id in Proposed(s, id).evictors
    ensures var after := Proposed(s, id).evictors[id];
            after == s.evictors[id].(phase := after.phase) && AfterProposal(after.phase)
  {
  }

  lemma AfterProposalJustified(s: System, actions: seq<Action>, e: Evictor, phase: Phase)
    requires e.phase.Proposing? && Justified(s, actions, e) && AfterProposal(phase) && !e.request.dryRun
    ensures Justified(s, actions, e.(phase := phase))
  {
    assert Admitted(e.(phase := phase));
    assert FoundAt(s, actions, e.request.namespace, e.pod, e.phase.key, e.phase.judged.value, Payable);
  }

  lemma ProposalJustified(s: System, actions: seq<Action>, id: nat)
    requires Sound(Run(s, actions), id)
    requires id in Run(s, actions).evictors && Run(s, actions).evictors[id].phase.Proposing?
    requires Justified(s, actions, Run(s, actions).evictors[id])
    ensures Justified(s, actions, Proposed(Run(s, actions), id).evictors[id])
  {
    var now := Run(s, actions);
    ProposedPhase(now, id);
    AfterProposalJustified(s, actions, now.evictors[id], Proposed(now, id).evictors[id].phase);
  }

  lemma AdmissionJustified(s: System, actions: seq<Action>, request: Request, read: Option<Entry>)
    ensures Justified(s, actions, Evictor(request, if read.Some? then read.value.value else Null, Admit(request, read)))
  {
    if read.Some? {
      IgnoredIff(read.value.value);
    }
  }

  /** Where a fetch can lead: to a proposal of the same spend, to another attempt, or to giving up. */
  predicate AfterFetch(before: Phase, phase: Phase)
    requires before.Fetching?
  {
    || (phase.Proposing? && phase.key == before.key && phase.judged == before.judged)
    || phase.Listing? || phase == Refused(KeptChanging)
  }

  lemma FetchedPhase(s: System, id: nat)
    requires id in s.evictors && s.evictors[id].phase.Fetching?
    ensures var t := Step(s, Fetch(id));
            && id in t.evictors && t.evictors[id] == s.evictors[id].(phase := t.evictors[id].phase)
            && AfterFetch(s.evictors[id].phase, t.evictors[id].phase)
  {
  }

  lemma AfterFetchJustified(s: System, actions: seq<Action>, e: Evictor, phase: Phase)
    requires e.phase.Fetching? && Justified(s, actions, e) && AfterFetch(e.phase, phase)
    ensures Justified(s, actions, e.(phase := phase))
  {
    assert Admitted(e.(phase := phase));
    assert FoundAt(s, actions, e.request.namespace, e.pod, e.phase.key, e.phase.judged.value, Payable);
  }

  lemma FetchJustified(s: System, actions: seq<Action>, id: nat)
    requires id in Run(s, actions).evictors && Justified(s, actions, Run(s, actions).evictors[id])
    ensures Justified(s, actions, Step(Run(s, actions), Fetch(id)).evictors[id])
  {
    var now := Run(s, actions);
    if now.evictors[id].phase.Fetching? {
      FetchedPhase(now, id);
      AfterFetchJustified(s, actions, now.evictors[id], Step(now, Fetch(id)).evictors[id].phase);
    }
  }

  lemma StepJustified(s: System, actions: seq<Action>, a: Action, id: nat)
    requires Invariant(Run(s, actions)) && id in Step(Run(s, actions), a).evictors
    requires id in Run(s, actions).evictors ==> Justified(s, actions, Run(s, actions).evictors[id])
    ensures Justified(s, actions, Step(Run(s, actions), a).evictors[id])
  {
    var before := Run(s, actions);
    if id !in before.evictors {
      AdmissionJustified(s, actions, a.request, a.read);
    } else if a.List? && a.id == id && before.evictors[id].phase.Listing? {
      JudgementJustified(s, actions, before.evictors[id], before.evictors[id].phase.attempt, a.now);
    } else if a == Fetch(id) {
      FetchJustified(s, actions, id);
    } else if a.Propose? && a.id == id && before.evictors[id].phase.Proposing? {
      assert Sound(before, id);
      ProposalJustified(s, actions, id);
    } else {
      assert Step(before, a).evictors[id] == before.evictors[id];
    }
  }

  /** In every run, an eviction on its way to a spend was judged by the one budget that selected
      its pod, and one that was refused or let go was so for what that budget said. */
  lemma {:induction false} RunJustified(s: System, actions: seq<Action>, id: nat)
    requires Initial(s) && id in Run(s, actions).evictors
    ensures Justified(s, actions, Run(s, actions).evictors[id])
  {
    if actions != [] {
      var prefix, a := actions[..|actions| - 1], actions[|actions| - 1];
      RunKeepsInvariant(s, prefix);
      if id in Run(s, prefix).evictors {
        RunJustified(s, prefix, id);
      }
      StepJustified(s, prefix, a, id);
      StaysJustified(s, actions, Run(s, actions).evictors[id]);
    }
  }

  // ---- the budget remembers who spent ------------------------------------------------

  ghost predicate Remembers(s: System, key: Key) {
    forall i | 0 <= i < |s.log| && s.log[i].Spent? && s.log[i].key == key ::
      key in s.store.budgets && s.log[i].pod in Disrupted(s.store.budgets[key].value)
  }

  /** The number the controller writes under a member of the status, if it writes it. */
  function HealthNumber(h: Health, member: string): Option<int> {
    match member
    case "currentHealthy" => Some(h.current)
    case "desiredHealthy" => Some(h.desired)
    case "expectedPods" => Some(h.expected)
    case "disruptionsAllowed" => Some(h.allowed)
    case "observedGeneration" => Some(h.observed)
    case _ => None
  }

  /** A reconcile sets five numbers of the status, and no other member of it or of the budget. */
  lemma ReconcileSets(live: Json, h: Health, member: string)
    ensures var merged, number := Merge(live, HealthPatch(h)), HealthNumber(h, member);
            && Field(merged, "status", member) ==
               (if number.Some? then Some(Number(number.value)) else Field(live, "status", member))
            && (member != "status" ==> Get(merged, member) == Get(live, member))
  {
    var patch := HealthPatch(h);
    MergeMember(live, patch, "status");
    MergeMember(live, patch, member);
    MergeMember(MemberOrNull(live, "status"), patch.members["status"], member);
  }

  /** The controller merges its numbers into a budget that is there, and writes nothing when that
      changes nothing; any other writer puts or removes one; neither touches another budget or an
      eviction. */
  lemma OtherWritersWrite(s: System, key: Key, h: Health, value: Option<Json>, other: Key)
    ensures var t := Step(s, Reconcile(key, h));
            && (key in s.store.budgets ==>
                  && key in t.store.budgets
                  && t.store.budgets[key].value == Merge(s.store.budgets[key].value, HealthPatch(h)))
            && (key !in s.store.budgets ==> t == s)
            && (key in s.store.budgets && t.store.budgets[key].value == s.store.budgets[key].value ==> t == s)
            && (other != key ==> Find(t.store, other) == Find(s.store, other)) && t.evictors == s.evictors
    ensures var t := Step(s, Overwrite(key, value));
            && (if value == None then key !in t.store.budgets
                else key in t.store.budgets && Some(t.store.budgets[key].value) == value)
            && (other != key ==> Find(t.store, other) == Find(s.store, other)) && t.evictors == s.evictors
  {
  }

  /** So it leaves the recorded pods alone. */
  lemma ReconcileRemembers(live: Json, h: Health)
    ensures Disrupted(Merge(live, HealthPatch(h))) == Disrupted(live)
  {
    ReconcileSets(live, h, "disruptedPods");
  }

  lemma StepRemembers(s: System, a: Action, key: Key)
    requires Invariant(s) && Remembers(s, key)
    requires a.Overwrite? ==> a.key != key
    ensures Remembers(Step(s, a), key)
  {
    var t := Step(s, a);
    StepExplained(s, a);
    if t.log != s.log {
      var event := t.log[|s.log|];
      assert event.key != key ==> Find(t.store, key) == Find(s.store, key);
      if a.Reconcile? && a.key == key {
        ReconcileRemembers(s.store.budgets[key].value, a.health);
      }
    }
  }

  /** However evictions and the disruption controller interleave, every pod that spent from
      a budget stays recorded in its `disruptedPods`. */
  lemma {:induction false} SpentPodsStayRecorded(s: System, actions: seq<Action>, key: Key)
    requires Initial(s)
    requires forall i | 0 <= i < |actions| && actions[i].Overwrite? :: actions[i].key != key
    ensures Remembers(Run(s, actions), key)
  {
    if actions != [] {
      var prefix := actions[..|actions| - 1];
      SpentPodsStayRecorded(s, prefix, key);
      RunKeepsInvariant(s, prefix);
      StepRemembers(Run(s, prefix), actions[|actions| - 1], key);
    }
  }

  // ---- every eviction ends -------------------------------------------------------------

  /** The store calls an eviction has behind it, three an attempt. */
  function Rank(phase: Phase): nat {
    match phase
    case Listing(n) => 3 * n
    case Fetching(n, _, _, _) => 3 * n + 1
    case Proposing(n, _, _, _, _) => 3 * n + 2
    case Deleting(_) => 3 * ATTEMPTS
    case Refused(_) => 3 * ATTEMPTS
  }

  function RankOf(s: System, id: nat): nat {
    if id in s.evictors then Rank(s.evictors[id].phase) else 0
  }

  /** The action is a store call this eviction is ready to make. */
  predicate Calls(s: System, a: Action, id: nat) {
    && id in s.evictors
    && (|| (a == Fetch(id) && s.evictors[id].phase.Fetching?)
        || (a == Propose(id) && s.evictors[id].phase.Proposing?)
        || (a.List? && a.id == id && s.evictors[id].phase.Listing?))
  }

  ghost function CallsMade(s: System, actions: seq<Action>, id: nat): nat {
    if actions == [] then 0
    else
      var prefix := actions[..|actions| - 1];
      CallsMade(s, prefix, id) + if Calls(Run(s, prefix), actions[|actions| - 1], id) then 1 else 0
  }

  lemma JudgeRanks(store: Store, e: Evictor, attempt: nat, now: string)
    requires attempt < ATTEMPTS
    ensures Rank(Judge(store, e, attempt, now)) >= 3 * attempt + 1
  {
    var phase := Judge(store, e, attempt, now);
    assert phase.Fetching? || phase.Deleting? || phase.Refused?;
    assert phase.Fetching? ==> phase.attempt == attempt;
  }

  lemma ProposedRanks(s: System, id: nat)
    requires Sound(s, id) && id in s.evictors && s.evictors[id].phase.Proposing?
    ensures Rank(Proposed(s, id).evictors[id].phase) >= Rank(s.evictors[id].phase) + 1
  {
    ProposedPhase(s, id);
    var phase := Proposed(s, id).evictors[id].phase;
    assert phase.Listing? ==> phase.attempt == s.evictors[id].phase.attempt + 1;
  }

  lemma StepRanks(s: System, a: Action, id: nat)
    requires Sound(s, id)
    ensures RankOf(Step(s, a), id) >= RankOf(s, id) + if Calls(s, a, id) then 1 else 0
  {
    if Calls(s, a, id) {
      if a.List? {
        JudgeRanks(s.store, s.evictors[id], s.evictors[id].phase.attempt, a.now);
      } else if a.Propose? {
        ProposedRanks(s, id);
      }
    }
  }

  /** In every run, an eviction has made no more store calls than its phase tells, so never
      more than three for each of its three attempts, and none once it is granted or refused. */
  lemma {:induction false} EvictionsEnd(s: System, actions: seq<Action>, id: nat)
    requires Initial(s)
    ensures CallsMade(s, actions, id) <= RankOf(Run(s, actions), id) <= 9
  {
    RunKeepsInvariant(s, actions);
    assert Sound(Run(s, actions), id);
    if actions != [] {
      var prefix := actions[..|actions| - 1];
      EvictionsEnd(s, prefix, id);
      RunKeepsInvariant(s, prefix);
      assert Sound(Run(s, prefix), id);
      StepRanks(Run(s, prefix), actions[|actions| - 1], id);
    }
  }

  /** The lists an eviction has made: one an attempt. */
  ghost function Tries(s: System, actions: seq<Action>, id: nat): nat {
    if actions == [] then 0
    else
      var prefix, a := actions[..|actions| - 1], actions[|actions| - 1];
      Tries(s, prefix, id) + if a.List? && Calls(Run(s, prefix), a, id) then 1 else 0
  }

  /** The phase is one an eviction can be in after so many lists. */
  predicate HasTried(phase: Phase, tries: nat) {
    match phase
    case Listing(_) => tries == phase.attempt < 3
    case Fetching(_, _, _, _) => tries == phase.attempt + 1 <= 3
    case Proposing(_, _, _, _, _) => tries == phase.attempt + 1 <= 3
    case Refused(KeptChanging) => tries == 3
    case _ => tries <= 3
  }

  lemma JudgeTries(store: Store, e: Evictor, attempt: nat, now: string)
    requires attempt < 3
    ensures HasTried(Judge(store, e, attempt, now), attempt + 1)
  {
    var phase := Judge(store, e, attempt, now);
    assert phase.Fetching? || phase.Deleting? || (phase.Refused? && phase.why != KeptChanging);
    assert phase.Fetching? ==> phase.attempt == attempt;
  }

  lemma StepTries(s: System, a: Action, id: nat, tries: nat)
    requires id in s.evictors && HasTried(s.evictors[id].phase, tries)
    ensures id in Step(s, a).evictors
    ensures HasTried(Step(s, a).evictors[id].phase, tries + if a.List? && Calls(s, a, id) then 1 else 0)
  {
    if Calls(s, a, id) && a.List? {
      JudgeTries(s.store, s.evictors[id], s.evictors[id].phase.attempt, a.now);
    } else if Calls(s, a, id) && a.Propose? {
      ProposedPhase(s, id);
    }
  }

  lemma {:induction false} NoTriesYet(s: System, actions: seq<Action>, id: nat)
    requires id !in Run(s, actions).evictors
    ensures Tries(s, actions, id) == 0
  {
    if actions != [] {
      NoTriesYet(s, actions[..|actions| - 1], id);
    }
  }

  /** In every run an eviction judges the budgets once an attempt, at most three times, and gives
      up only when the third attempt too was lost. */
  lemma {:induction false} GivesUpAfterThree(s: System, actions: seq<Action>, id: nat)
    requires Initial(s) && id in Run(s, actions).evictors
    ensures HasTried(Run(s, actions).evictors[id].phase, Tries(s, actions, id))
  {
    var prefix, a := actions[..|actions| - 1], actions[|actions| - 1];
    if id in Run(s, prefix).evictors {
      GivesUpAfterThree(s, prefix, id);
      StepTries(Run(s, prefix), a, id, Tries(s, prefix, id));
    } else {
      NoTriesYet(s, prefix, id);
    }
  }
}
