/** What the client's request and the pod it names decide of an eviction, and how a ready pod goes. */
module BudgetArrivals {
  import opened JsonValue
  import opened EvictionRules
  import opened Eviction
  import opened TextOrder
  import opened BudgetProtocol
  import opened BudgetGrants

  // ---- the preconditions -------------------------------------------------------------------

  /** The request names a uid, and the pod read has another or none. */
  ghost predicate OtherUid(request: Request, read: Option<Entry>) {
    request.uid != None && read != None &&
    Field(read.value.value, "metadata", "uid") != Some(Str(request.uid.value))
  }

  /** The request names a revision, and the pod was read at another. */
  ghost predicate OtherRevision(request: Request, read: Option<Entry>) {
    exists r: nat, pod: Entry :: request.version == Exactly(r) && read == Some(pod) && r != pod.revision
  }

  /** The eviction stands where its request and the pod read put it: refused for one of four
      reasons, the first that applies; exempt; or before the budgets. */
  ghost predicate Placed(request: Request, read: Option<Entry>, phase: Phase) {
    && (phase == Refused(PodNotFound) <==> read == None)
    && (phase == Refused(UidMismatch) <==> OtherUid(request, read))
    && (phase == Refused(BadVersion) <==> read != None && !OtherUid(request, read) && request.version == Malformed)
    && (phase == Refused(VersionConflict) <==> !OtherUid(request, read) && OtherRevision(request, read))
    && (phase == Deleting(Exempt) <==>
          && read != None && !OtherUid(request, read) && request.version != Malformed && !OtherRevision(request, read)
          && PastBudgets(read.value.value))
  }

  lemma AdmittedAsPlaced(request: Request, read: Option<Entry>)
    ensures Placed(request, read, Admit(request, read))
  {
    if read.Some? {
      IgnoredIff(read.value.value);
    }
  }

  /** No step brings an eviction to one of those five ends, or away from it. */
  predicate AtTheDoor(phase: Phase) {
    || phase == Deleting(Exempt)
    || phase in {Refused(PodNotFound), Refused(UidMismatch), Refused(BadVersion), Refused(VersionConflict)}
  }

  lemma JudgedInside(store: Store, e: Evictor, attempt: nat, now: string)
    ensures !AtTheDoor(Judge(store, e, attempt, now))
  {
  }

  lemma StepStaysPlaced(s: System, a: Action, id: nat)
    requires id in s.evictors
    ensures var t := Step(s, a);
            && id in t.evictors && t.evictors[id].request == s.evictors[id].request
            && t.evictors[id].pod == s.evictors[id].pod
            && (t.evictors[id].phase == s.evictors[id].phase ||
                (!AtTheDoor(s.evictors[id].phase) && !AtTheDoor(t.evictors[id].phase)))
  {
    if a.List? && a.id == id && s.evictors[id].phase.Listing? {
      JudgedInside(s.store, s.evictors[id], s.evictors[id].phase.attempt, a.now);
    }
  }

  ghost predicate FirstArrival(actions: seq<Action>, id: nat, n: nat) {
    && n < |actions| && actions[n].Arrive? && actions[n].id == id
    && forall m | 0 <= m < n :: !(actions[m].Arrive? && actions[m].id == id)
  }

  /** In every run an eviction has the request and the pod it arrived with, and is refused before
      the budgets, or exempt from them, exactly as those two say. */
  lemma {:induction false} RunPlaced(s: System, actions: seq<Action>, id: nat) returns (n: nat)
    requires Initial(s) && id in Run(s, actions).evictors
    ensures FirstArrival(actions, id, n)
    ensures var e := Run(s, actions).evictors[id];
            && e.request == actions[n].request
            && e.pod == (if actions[n].read == None then Null else actions[n].read.value.value)
            && Placed(actions[n].request, actions[n].read, e.phase)
  {
    var last := |actions| - 1;
    var prefix := actions[..last];
    if id in Run(s, prefix).evictors {
      n := RunPlaced(s, prefix, id);
      StepStaysPlaced(Run(s, prefix), actions[last], id);
    } else {
      n := last;
      NotArrived(s, prefix, id);
      AdmittedAsPlaced(actions[n].request, actions[n].read);
    }
  }

  lemma {:induction false} NotArrived(s: System, actions: seq<Action>, id: nat)
    requires id !in Run(s, actions).evictors
    ensures forall m | 0 <= m < |actions| :: !(actions[m].Arrive? && actions[m].id == id)
  {
    if actions != [] {
      var last := |actions| - 1;
      if id in Run(s, actions[..last]).evictors {
        StepStaysPlaced(Run(s, actions[..last]), actions[last], id);
      }
      NotArrived(s, actions[..last], id);
    }
  }

  // ---- ready pods --------------------------------------------------------------------------

  lemma FreeIsUnready(s: System, actions: seq<Action>, namespace: Option<string>, pod: Json)
    ensures Found(s, actions, namespace, pod, Free) ==> !ShownReady(pod)
  {
    if Found(s, actions, namespace, pod, Free) {
      var key, value :| FoundAt(s, actions, namespace, pod, key, value, Free);
    }
  }

  lemma JustifiedPays(s: System, actions: seq<Action>, e: Evictor)
    requires Justified(s, actions, e) && e.phase.Deleting?
    requires ShownReady(e.pod) && !PastBudgets(e.pod) && !e.request.dryRun
    ensures e.phase.grant in {Paid, Absorbed} || Unselected(s, actions, e.request.namespace, e.pod)
  {
    if e.phase.grant == Spared {
      FreeIsUnready(s, actions, e.request.namespace, e.pod);
    }
  }

  /** A ready pod that no end or deletion has overtaken goes, in a run that is no rehearsal, only
      with its spend committed or already standing, unless at some moment no budget selected it. */
  lemma ReadyPodsPay(s: System, actions: seq<Action>, id: nat)
    requires Initial(s) && id in Run(s, actions).evictors
    ensures var e := Run(s, actions).evictors[id];
            e.phase.Deleting? && ShownReady(e.pod) && !PastBudgets(e.pod) && !e.request.dryRun ==>
              e.phase.grant in {Paid, Absorbed} || Unselected(s, actions, e.request.namespace, e.pod)
  {
    var e := Run(s, actions).evictors[id];
    RunJustified(s, actions, id);
    if e.phase.Deleting? && ShownReady(e.pod) && !PastBudgets(e.pod) && !e.request.dryRun {
      JustifiedPays(s, actions, e);
    }
  }

  lemma SeenOnce(s: System, actions: seq<Action>, namespace: Option<string>, pod: Json, n: nat, a: set<Key>,
                 b: set<Key>)
    requires Seen(s, actions, namespace, pod, n, a) && Seen(s, actions, namespace, pod, n, b)
    ensures a == b
  {
    PickingIff(Run(s, actions[..n]).store, namespace, pod, a);
    PickingIff(Run(s, actions[..n]).store, namespace, pod, b);
  }

  /** So a running, ready pod that one budget selects at every moment is never deleted for free. */
  lemma GuardedPodsPay(s: System, actions: seq<Action>, id: nat, key: Key)
    requires Initial(s) && id in Run(s, actions).evictors
    requires var e := Run(s, actions).evictors[id];
             && ShownReady(e.pod) && Field(e.pod, "status", "phase") == Some(Str("Running"))
             && Field(e.pod, "metadata", "deletionTimestamp") == None && !e.request.dryRun
             && forall n | 0 <= n <= |actions| :: Seen(s, actions, e.request.namespace, e.pod, n, {key})
    ensures var e := Run(s, actions).evictors[id];
            e.phase.Deleting? ==> e.phase.grant in {Paid, Absorbed}
  {
    var e := Run(s, actions).evictors[id];
    ReadyPodsPay(s, actions, id);
    if Unselected(s, actions, e.request.namespace, e.pod) {
      var n: nat :| Seen(s, actions, e.request.namespace, e.pod, n, {});
      SeenOnce(s, actions, e.request.namespace, e.pod, n, {}, {key});
    }
  }
}
