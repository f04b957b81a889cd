/** Evictions racing for disruption budgets (`handler.rs` `evict` and `spend_budget`).
    Each store call an eviction makes is one atomic step; a run is any interleaving of
    the steps of any number of evictions, of the disruption controller and of any other
    writer of budgets. */
module BudgetProtocol {
  import opened JsonValue
  import opened Eviction
  import opened TextOrder

  const ATTEMPTS := 3

  /** A stored object and the revision that last wrote it. */
  datatype Entry = Entry(value: Json, revision: nat)

  datatype Store = Store(budgets: map<Key, Entry>, head: nat)

  datatype VersionPrecondition = Unset | Malformed | Exactly(revision: nat)

  datatype Request = Request(namespace: Option<string>, uid: Option<string>, version: VersionPrecondition, dryRun: bool)

  /** Why an eviction may delete its pod. */
  datatype Grant =
    | Exempt        // the pod ignores budgets
    | Unbudgeted    // no budget selects it
    | Spared        // the budget lets it go without spending
    | Rehearsed     // a dry run that would have spent
    | Paid          // its spend committed
    | Absorbed      // its spend left the budget as it was, so the store committed nothing

  datatype Phase =
    | Listing(attempt: nat)
    | Fetching(attempt: nat, key: Key, judged: Entry, patch: Json)
    | Proposing(attempt: nat, key: Key, judged: Entry, patch: Json, expected: nat)
    | Deleting(grant: Grant)
    | Refused(why: Refusal)

  datatype Evictor = Evictor(request: Request, pod: Json, phase: Phase)

  /** What changed a budget: a spend, with the entry it was judged on and the entry it
      replaced, or any other write. */
  datatype Event =
    | Spent(id: nat, key: Key, pod: string, judged: Entry, live: Entry)
    | Wrote(key: Key, before: Option<Entry>, after: Option<Entry>)

  datatype System = System(store: Store, evictors: map<nat, Evictor>, log: seq<Event>)

  datatype Health = Health(current: int, desired: int, expected: int, allowed: int, observed: int)

  datatype Action =
    | Arrive(id: nat, request: Request, read: Option<Entry>)
    | List(id: nat, now: string)
    | Fetch(id: nat)
    | Propose(id: nat)
    | Reconcile(key: Key, health: Health)
    | Overwrite(key: Key, value: Option<Json>)

  // ---- the store -------------------------------------------------------------

  function Find(store: Store, key: Key): Option<Entry> {
    if key in store.budgets then Some(store.budgets[key]) else None
  }

  function Put(store: Store, key: Key, value: Json): (after: Store) {
    Store(store.budgets[key := Entry(value, store.head + 1)], store.head + 1)
  }

  function Remove(store: Store, key: Key): (after: Store) {
    Store(store.budgets - {key}, store.head + 1)
  }

  /** The budgets of the request's namespace (of all, when it names none) that select the pod. */
  function Selecting(store: Store, namespace: Option<string>, pod: Json): (keys: set<Key>) {
    set k | k in store.budgets && (namespace.None? || k.namespace == namespace) && Selects(store.budgets[k].value, pod)
  }

  // ---- one eviction ----------------------------------------------------------

  /** `evict` up to the budgets: the pod is read, then the client's preconditions. */
  function Admit(request: Request, read: Option<Entry>): Phase {
    if read.None? then Refused(PodNotFound)
    else if request.uid.Some? && AsStr(Field(read.value.value, "metadata", "uid")) != request.uid then
      Refused(UidMismatch)
    else if request.version.Malformed? then Refused(BadVersion)
    else if request.version.Exactly? && request.version.revision != read.value.revision then
      Refused(VersionConflict)
    else if IgnoresBudgets(read.value.value) then Deleting(Exempt)
    else Listing(0)
  }

  function NextAttempt(attempt: nat): Phase {
    if attempt + 1 < ATTEMPTS then Listing(attempt + 1) else Refused(KeptChanging)
  }

  function JudgeOne(e: Evictor, attempt: nat, key: Key, judged: Entry, now: string): Phase {
    match Decide(e.pod, judged.value, now)
    case Err(why) => Refused(why)
    case Ok(Delete) => Deleting(Spared)
    case Ok(Spend(patch)) => if e.request.dryRun then Deleting(Rehearsed) else Fetching(attempt, key, judged, patch)
  }

  ghost function Judge(store: Store, e: Evictor, attempt: nat, now: string): Phase {
    var keys := Selecting(store, e.request.namespace, e.pod);
    if keys == {} then Deleting(Unbudgeted)
    else if |keys| > 1 then Refused(SeveralBudgets)
    else
      var key :| key in keys;
      JudgeOne(e, attempt, key, store.budgets[key], now)
  }

  // ---- the system ------------------------------------------------------------

  function Moved(s: System, id: nat, phase: Phase): System
    requires id in s.evictors
  {
    s.(evictors := s.evictors[id := s.evictors[id].(phase := phase)])
  }

  /** The proposal of a spend: refused when the budget is no longer at the revision the
      eviction fetched, absorbed when the merge changes nothing, otherwise committed. */
  function Proposed(s: System, id: nat): System
    requires id in s.evictors && s.evictors[id].phase.Proposing?
  {
    var e := s.evictors[id];
    var Proposing(attempt, key, judged, patch, expected) := e.phase;
    if key !in s.store.budgets || s.store.budgets[key].revision != expected then
      Moved(s, id, NextAttempt(attempt))
    else
      var live := s.store.budgets[key];
      var merged := Merge(live.value, patch);
      if merged == live.value then Moved(s, id, Deleting(Absorbed))
      else Moved(s, id, Deleting(Paid)).(store := Put(s.store, key, merged),
                                         log := s.log + [Spent(id, key, NameOf(e.pod), judged, live)])
  }

  function HealthPatch(h: Health): Json {
    Obj(map["status" := Obj(map["currentHealthy" := Number(h.current),
                                "desiredHealthy" := Number(h.desired),
                                "expectedPods" := Number(h.expected),
                                "disruptionsAllowed" := Number(h.allowed),
                                "observedGeneration" := Number(h.observed)])])
  }

  function Written(s: System, key: Key, after: Store): System {
    s.(store := after, log := s.log + [Wrote(key, Find(s.store, key), Find(after, key))])
  }

  function Reconciled(s: System, key: Key, h: Health): System {
    if key !in s.store.budgets then s
    else
      var live := s.store.budgets[key].value;
      var merged := Merge(live, HealthPatch(h));
      if merged == live then s else Written(s, key, Put(s.store, key, merged))
  }

  ghost function Step(s: System, a: Action): System {
    match a
    case Arrive(id, request, read) =>
      if id in s.evictors then s
      else
        var pod := if read.Some? then read.value.value else Null;
        s.(evictors := s.evictors[id := Evictor(request, pod, Admit(request, read))])
    case List(id, now) =>
      if id in s.evictors && s.evictors[id].phase.Listing?
      then Moved(s, id, Judge(s.store, s.evictors[id], s.evictors[id].phase.attempt, now))
      else s
    case Fetch(id) =>
      if id in s.evictors && s.evictors[id].phase.Fetching? then
        var Fetching(attempt, key, judged, patch) := s.evictors[id].phase;
        if key in s.store.budgets
        then Moved(s, id, Proposing(attempt, key, judged, patch, s.store.budgets[key].revision))
        else Moved(s, id, NextAttempt(attempt))
      else s
    case Propose(id) => if id in s.evictors && s.evictors[id].phase.Proposing? then Proposed(s, id) else s
    case Reconcile(key, health) => Reconciled(s, key, health)
    case Overwrite(key, value) =>
      match value
      case Some(v) => Written(s, key, Put(s.store, key, v))
      case None => if key in s.store.budgets then Written(s, key, Remove(s.store, key)) else s
  }

  ghost function Run(s: System, actions: seq<Action>): System {
    if actions == [] then s else Step(Run(s, actions[..|actions| - 1]), actions[|actions| - 1])
  }

  /** No eviction has begun, nothing is logged, and every entry's revision is in the past. */
  ghost predicate Initial(s: System) {
    s.evictors == map[] && s.log == [] && Revisions(s.store)
  }

  // ---- what every step keeps --------------------------------------------------

  /** An eviction holding a judgement spends one from the allowance it judged, and the
      budget is the judged one whenever it still stands at the judged revision. */
  ghost predicate Judgement(s: System, e: Evictor) {
    e.phase.Fetching? || e.phase.Proposing? ==>
      && !e.request.dryRun
      && e.phase.attempt < ATTEMPTS
      && 0 < Allowance(e.phase.judged.value) <= I64_MAX
      && (exists now :: e.phase.patch == SpendPatch(Allowance(e.phase.judged.value), NameOf(e.pod), now))
      && e.phase.judged.revision <= s.store.head
      && (e.phase.key in s.store.budgets && s.store.budgets[e.phase.key].revision == e.phase.judged.revision ==>
            s.store.budgets[e.phase.key] == e.phase.judged)
  }

  ghost predicate Progress(e: Evictor) {
    && (e.phase.Listing? ==> e.phase.attempt < ATTEMPTS)
    && (e.phase in {Deleting(Paid), Deleting(Absorbed)} ==> !e.request.dryRun)
  }

  function Commits(log: seq<Event>, id: nat): nat {
    if log == [] then 0
    else Commits(log[..|log| - 1], id) + if log[|log| - 1].Spent? && log[|log| - 1].id == id then 1 else 0
  }

  /** The ledger of one eviction: one committed spend exactly when it holds the grant a
      spend earns, none otherwise. */
  ghost predicate Accounted(s: System, id: nat) {
    Commits(s.log, id) == if id in s.evictors && s.evictors[id].phase == Deleting(Paid) then 1 else 0
  }

  ghost predicate Revisions(store: Store) {
    forall k | k in store.budgets :: store.budgets[k].revision <= store.head
  }

  ghost predicate Sound(s: System, id: nat) {
    && Accounted(s, id)
    && (id in s.evictors ==> Judgement(s, s.evictors[id]) && Progress(s.evictors[id]))
  }

  ghost predicate Invariant(s: System) {
    Revisions(s.store) && forall id :: Sound(s, id)
  }

  /** A write moves one key to a revision no judgement can hold. */
  ghost predicate Advances(before: Store, after: Store, key: Key) {
    && after.head == before.head + 1
    && (key in after.budgets ==> after.budgets[key].revision == after.head)
    && (forall k | k != key :: Find(after, k) == Find(before, k))
  }

  lemma WriteKeepsSound(s: System, t: System, key: Key, id: nat)
    requires Revisions(s.store) && Sound(s, id)
    requires Advances(s.store, t.store, key)
    requires id in t.evictors <==> id in s.evictors
    requires id in s.evictors ==> t.evictors[id] == s.evictors[id]
    requires Commits(t.log, id) == Commits(s.log, id)
    ensures Sound(t, id)
  {
    if id in s.evictors && (s.evictors[id].phase.Fetching? || s.evictors[id].phase.Proposing?) {
      var held := s.evictors[id].phase.key;
      if held != key {
        assert Find(t.store, held) == Find(s.store, held);
      }
    }
  }

  lemma LogOne(log: seq<Event>, event: Event, id: nat)
    ensures Commits(log + [event], id) == Commits(log, id) + if event.Spent? && event.id == id then 1 else 0
  {
    assert (log + [event])[..|log|] == log;
  }

  lemma PutAdvances(store: Store, key: Key, value: Json)
    ensures Advances(store, Put(store, key, value), key)
  {
    var after := Put(store, key, value);
    forall k | k != key ensures Find(after, k) == Find(store, k) {
    }
  }

  lemma RemoveAdvances(store: Store, key: Key)
    ensures Advances(store, Remove(store, key), key)
  {
    var after := Remove(store, key);
    forall k | k != key ensures Find(after, k) == Find(store, k) {
    }
  }

  lemma ProposeKeepsOthers(s: System, mover: nat, id: nat)
    requires Revisions(s.store) && Sound(s, id) && id != mover
    requires mover in s.evictors && s.evictors[mover].phase.Proposing?
    ensures Sound(Proposed(s, mover), id)
  {
    var t, p := Proposed(s, mover), s.evictors[mover].phase;
    if t.log == s.log {
      OthersStay(s, t, id);
    } else {
      LogOne(s.log, t.log[|s.log|], id);
      PutAdvances(s.store, p.key, Merge(s.store.budgets[p.key].value, p.patch));
      WriteKeepsSound(s, t, p.key, id);
    }
  }

  lemma OthersStay(s: System, t: System, id: nat)
    requires Sound(s, id) && t.store == s.store && t.log == s.log && (id in t.evictors <==> id in s.evictors)
    requires id in s.evictors ==> t.evictors[id] == s.evictors[id]
    ensures Sound(t, id)
  {
  }

  /** An eviction whose proposal is over holds no judgement any more. */
  lemma OverIsSound(s: System, t: System, id: nat, phase: Phase)
    requires Sound(s, id) && id in s.evictors && s.evictors[id].phase != Deleting(Paid)
    requires id in t.evictors && t.evictors[id] == s.evictors[id].(phase := phase)
    requires phase.Listing? || phase.Deleting? || phase.Refused?
    requires Progress(t.evictors[id])
    requires Commits(t.log, id) == Commits(s.log, id) + if phase == Deleting(Paid) then 1 else 0
    ensures Sound(t, id)
  {
  }

  lemma ProposerKeepsSound(s: System, id: nat)
    requires Sound(s, id) && id in s.evictors && s.evictors[id].phase.Proposing?
    ensures Sound(Proposed(s, id), id)
  {
    var t, p := Proposed(s, id), s.evictors[id].phase;
    if p.key !in s.store.budgets || s.store.budgets[p.key].revision != p.expected {
      OverIsSound(s, t, id, NextAttempt(p.attempt));
    } else if t.log == s.log {
      OverIsSound(s, t, id, Deleting(Absorbed));
    } else {
      LogOne(s.log, t.log[|s.log|], id);
      OverIsSound(s, t, id, Deleting(Paid));
    }
  }

  lemma ProposeKeepsSound(s: System, mover: nat, id: nat)
    requires Revisions(s.store) && Sound(s, id) && Sound(s, mover)
    requires mover in s.evictors && s.evictors[mover].phase.Proposing?
    ensures Sound(Proposed(s, mover), id)
  {
    if id != mover {
      ProposeKeepsOthers(s, mover, id);
    } else {
      ProposerKeepsSound(s, id);
    }
  }

  lemma WrittenKeepsSound(s: System, key: Key, after: Store, id: nat)
    requires Revisions(s.store) && Sound(s, id) && Advances(s.store, after, key)
    ensures Sound(Written(s, key, after), id)
  {
    LogOne(s.log, Wrote(key, Find(s.store, key), Find(after, key)), id);
    WriteKeepsSound(s, Written(s, key, after), key, id);
  }

  lemma ListKeepsSound(s: System, e: Evictor, now: string)
    requires Revisions(s.store) && e.phase.Listing? && Progress(e)
    ensures var after := e.(phase := Judge(s.store, e, e.phase.attempt, now));
            Judgement(s, after) && Progress(after) && after.phase != Deleting(Paid)
  {
    var phase := Judge(s.store, e, e.phase.attempt, now);
    if phase.Fetching? {
      assert phase.patch == SpendPatch(Allowance(phase.judged.value), NameOf(e.pod), now);
    }
  }

  /** The steps of one eviction that write nothing. */
  lemma ReadKeepsSound(s: System, a: Action, id: nat)
    requires Sound(s, id) && Revisions(s.store) && (a.Arrive? || a.List? || a.Fetch?)
    ensures Sound(Step(s, a), id)
  {
    if a.List? && a.id == id && id in s.evictors && s.evictors[id].phase.Listing? {
      ListKeepsSound(s, s.evictors[id], a.now);
    }
  }

  lemma PutKeepsSound(s: System, key: Key, value: Json, id: nat)
    requires Sound(s, id) && Revisions(s.store)
    ensures Sound(Written(s, key, Put(s.store, key, value)), id)
  {
    PutAdvances(s.store, key, value);
    WrittenKeepsSound(s, key, Put(s.store, key, value), id);
  }

  lemma RemoveKeepsSound(s: System, key: Key, id: nat)
    requires Sound(s, id) && Revisions(s.store)
    ensures Sound(Written(s, key, Remove(s.store, key)), id)
  {
    RemoveAdvances(s.store, key);
    WrittenKeepsSound(s, key, Remove(s.store, key), id);
  }

  lemma OtherWriteKeepsSound(s: System, a: Action, id: nat)
    requires Sound(s, id) && Revisions(s.store) && (a.Reconcile? || a.Overwrite?)
    ensures Sound(Step(s, a), id)
  {
    if a.Reconcile? {
      if a.key in s.store.budgets {
        PutKeepsSound(s, a.key, Merge(s.store.budgets[a.key].value, HealthPatch(a.health)), id);
      }
    } else if a.value.Some? {
      PutKeepsSound(s, a.key, a.value.value, id);
    } else {
      RemoveKeepsSound(s, a.key, id);
    }
  }

  lemma StepKeepsSound(s: System, a: Action, id: nat)
    requires Invariant(s)
    ensures Sound(Step(s, a), id)
  {
    assert Sound(s, id);
    if a.Propose? {
      if a.id in s.evictors && s.evictors[a.id].phase.Proposing? {
        assert Sound(s, a.id);
        ProposeKeepsSound(s, a.id, id);
      }
    } else if a.Reconcile? || a.Overwrite? {
      OtherWriteKeepsSound(s, a, id);
    } else {
      ReadKeepsSound(s, a, id);
    }
  }

  lemma StepKeepsRevisions(s: System, a: Action)
    requires Revisions(s.store)
    ensures Revisions(Step(s, a).store)
  {
  }

  lemma StepKeepsInvariant(s: System, a: Action)
    requires Invariant(s)
    ensures Invariant(Step(s, a))
  {
    StepKeepsRevisions(s, a);
    forall id ensures Sound(Step(s, a), id) {
      StepKeepsSound(s, a, id);
    }
  }

  lemma {:induction false} RunKeepsInvariant(s: System, actions: seq<Action>)
    requires Initial(s)
    ensures Invariant(Run(s, actions))
  {
    if actions != [] {
      RunKeepsInvariant(s, actions[..|actions| - 1]);
      StepKeepsInvariant(Run(s, actions[..|actions| - 1]), actions[|actions| - 1]);
    }
  }
}
