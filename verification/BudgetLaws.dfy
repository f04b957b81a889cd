/** What holds of every run of racing evictions, and what does not. */
module BudgetLaws {
  import opened JsonValue
  import opened Eviction
  import opened TextOrder
  import opened BudgetProtocol

  function AllowanceAt(store: Store, key: Key): int {
    if key in store.budgets then Allowance(store.budgets[key].value) else 0
  }

  function AllowanceOf(entry: Option<Entry>): int {
    if entry.Some? then Allowance(entry.value.value) else 0
  }

  predicate SpendsOn(event: Event, key: Key) {
    event.Spent? && event.key == key
  }

  predicate WritesOn(event: Event, key: Key) {
    event.Wrote? && event.key == key
  }

  /** Committed spends of one budget. */
  function Spends(log: seq<Event>, key: Key): nat {
    if log == [] then 0
    else Spends(log[..|log| - 1], key) + if SpendsOn(log[|log| - 1], key) then 1 else 0
  }

  /** How far, in all, the judged allowances stood above the ones they were written over. */
  function Staleness(log: seq<Event>, key: Key): int {
    if log == [] then 0
    else
      var last := log[|log| - 1];
      Staleness(log[..|log| - 1], key) +
      if SpendsOn(last, key) then Allowance(last.judged.value) - Allowance(last.live.value) else 0
  }

  /** What other writers added to the allowance. */
  function Drift(log: seq<Event>, key: Key): int {
    if log == [] then 0
    else
      var last := log[|log| - 1];
      Drift(log[..|log| - 1], key) +
      if WritesOn(last, key) then AllowanceOf(last.after) - AllowanceOf(last.before) else 0
  }

  function Balance(s: System, key: Key): int {
    AllowanceAt(s.store, key) + Spends(s.log, key) - Staleness(s.log, key) - Drift(s.log, key)
  }

  // ---- the ledger of one budget ------------------------------------------------

  lemma Appended(log: seq<Event>, event: Event, key: Key)
    ensures Spends(log + [event], key) == Spends(log, key) + if SpendsOn(event, key) then 1 else 0
    ensures Staleness(log + [event], key) ==
            Staleness(log, key) +
            if SpendsOn(event, key) then Allowance(event.judged.value) - Allowance(event.live.value) else 0
    ensures Drift(log + [event], key) ==
            Drift(log, key) + if WritesOn(event, key) then AllowanceOf(event.after) - AllowanceOf(event.before) else 0
  {
    assert (log + [event])[..|log|] == log;
  }

  /** What one logged event did to the store: it moved its own budget and no other. A
      spend wrote the judged allowance less one and recorded its pod. */
  ghost predicate Effect(before: Store, event: Event, after: Store) {
    && (forall k :: k != event.key ==> Find(after, k) == Find(before, k))
    && (event.Wrote? ==> Find(before, event.key) == event.before && Find(after, event.key) == event.after)
    && (event.Spent? ==>
          && Find(before, event.key) == Some(event.live)
          && event.key in after.budgets
          && 0 < Allowance(event.judged.value)
          && (event.judged.revision == event.live.revision ==> event.judged == event.live)
          && Allowance(after.budgets[event.key].value) == Allowance(event.judged.value) - 1
          && Disrupted(after.budgets[event.key].value).Keys == Disrupted(event.live.value).Keys + {event.pod})
  }

  ghost predicate Explained(s: System, t: System) {
    || (t.log == s.log && t.store == s.store)
    || (|t.log| == |s.log| + 1 && t.log == s.log + [t.log[|s.log|]] && Effect(s.store, t.log[|s.log|], t.store))
  }

  lemma SpendExplained(store: Store, key: Key, e: Evictor, id: nat)
    requires key in store.budgets && e.phase.Proposing? && e.phase.key == key
    requires 0 < Allowance(e.phase.judged.value) <= I64_MAX
    requires exists now :: e.phase.patch == SpendPatch(Allowance(e.phase.judged.value), NameOf(e.pod), now)
    requires store.budgets[key].revision == e.phase.judged.revision ==> store.budgets[key] == e.phase.judged
    ensures var live := store.budgets[key];
            Effect(store, Spent(id, key, NameOf(e.pod), e.phase.judged, live),
                Put(store, key, Merge(live.value, e.phase.patch)))
  {
    var live := store.budgets[key].value;
    var now :| e.phase.patch == SpendPatch(Allowance(e.phase.judged.value), NameOf(e.pod), now);
    SpendMerged(live, Allowance(e.phase.judged.value), NameOf(e.pod), now);
    PutAdvances(store, key, Merge(live, e.phase.patch));
  }

  lemma ProposalExplained(s: System, id: nat)
    requires Invariant(s) && id in s.evictors && s.evictors[id].phase.Proposing?
    ensures Explained(s, Proposed(s, id))
  {
    assert Sound(s, id);
    if Proposed(s, id).log != s.log {
      SpendExplained(s.store, s.evictors[id].phase.key, s.evictors[id], id);
    }
  }

  lemma StepExplained(s: System, a: Action)
    requires Invariant(s)
    ensures Explained(s, Step(s, a))
  {
    if a.Propose? && a.id in s.evictors && s.evictors[a.id].phase.Proposing? {
      ProposalExplained(s, a.id);
    }
  }

  lemma StepBalances(s: System, t: System, key: Key)
    requires Explained(s, t)
    ensures Balance(t, key) == Balance(s, key)
  {
    if t.log != s.log {
      Appended(s.log, t.log[|s.log|], key);
      assert key != t.log[|s.log|].key ==> Find(t.store, key) == Find(s.store, key);
    }
  }

  /** Every run, as the code stands: spends and the allowance left add up to the allowance
      at the start, plus what other writers gave, plus exactly the staleness of the
      judgements that were committed. */
  lemma {:induction false} Ledger(s: System, actions: seq<Action>, key: Key)
    requires Initial(s)
    ensures var end := Run(s, actions);
            AllowanceAt(end.store, key) + Spends(end.log, key) ==
            AllowanceAt(s.store, key) + Staleness(end.log, key) + Drift(end.log, key)
  {
    if actions != [] {
      var before := Run(s, actions[..|actions| - 1]);
      Ledger(s, actions[..|actions| - 1], key);
      RunKeepsInvariant(s, actions[..|actions| - 1]);
      StepExplained(before, actions[|actions| - 1]);
      StepBalances(before, Run(s, actions), key);
    }
  }

  // ---- conservation ------------------------------------------------------------

  /** The spend was proposed at the very revision it was judged at. */
  predicate Fresh(event: Event) {
    event.Spent? ==> event.judged.revision == event.live.revision
  }

  ghost predicate FreshOn(log: seq<Event>, key: Key) {
    forall i | 0 <= i < |log| && log[i].Spent? && log[i].key == key :: Fresh(log[i])
  }

  ghost predicate OnlySpends(log: seq<Event>, key: Key) {
    forall i | 0 <= i < |log| && log[i].Wrote? :: log[i].key != key
  }

  /** Each logged spend took a positive allowance, and one proposed at its judged
      revision replaced the very entry it judged. */
  ghost predicate Honest(log: seq<Event>) {
    forall i | 0 <= i < |log| && log[i].Spent? ::
      0 < Allowance(log[i].judged.value) && (Fresh(log[i]) ==> log[i].judged == log[i].live)
  }

  lemma {:induction false} RunIsHonest(s: System, actions: seq<Action>)
    requires Initial(s)
    ensures Honest(Run(s, actions).log)
  {
    if actions != [] {
      var a := actions[|actions| - 1];
      var before := Run(s, actions[..|actions| - 1]);
      RunIsHonest(s, actions[..|actions| - 1]);
      RunKeepsInvariant(s, actions[..|actions| - 1]);
      StepExplained(before, a);
    }
  }

  lemma {:induction false} NoStaleness(log: seq<Event>, key: Key)
    requires forall i | 0 <= i < |log| && log[i].Spent? && log[i].key == key ::
             Allowance(log[i].judged.value) == Allowance(log[i].live.value)
    ensures Staleness(log, key) == 0
  {
    if log != [] {
      NoStaleness(log[..|log| - 1], key);
    }
  }

  lemma {:induction false} NoDrift(log: seq<Event>, key: Key)
    requires OnlySpends(log, key)
    ensures Drift(log, key) == 0
  {
    if log != [] {
      NoDrift(log[..|log| - 1], key);
    }
  }

  /** With every spend proposed at the revision it was judged at, and no other writer,
      no disruption is created or lost, in any interleaving of any number of evictions. */
  lemma FreshRunsConserve(s: System, actions: seq<Action>, key: Key)
    requires Initial(s)
    requires FreshOn(Run(s, actions).log, key) && OnlySpends(Run(s, actions).log, key)
    ensures AllowanceAt(Run(s, actions).store, key) + Spends(Run(s, actions).log, key) == AllowanceAt(s.store, key)
  {
    var log := Run(s, actions).log;
    Ledger(s, actions, key);
    RunIsHonest(s, actions);
    forall i | 0 <= i < |log| && log[i].Spent? && log[i].key == key
      ensures Allowance(log[i].judged.value) == Allowance(log[i].live.value)
    {
      assert Fresh(log[i]);
    }
    NoStaleness(log, key);
    NoDrift(log, key);
  }

  lemma StepNeverNegative(s: System, t: System, key: Key)
    requires Explained(s, t) && AllowanceAt(s.store, key) >= 0
    requires forall e | e in t.log && WritesOn(e, key) :: AllowanceOf(e.after) >= 0
    ensures AllowanceAt(t.store, key) >= 0
  {
    if t.log != s.log {
      var event := t.log[|s.log|];
      assert event in t.log;
      assert key != event.key ==> Find(t.store, key) == Find(s.store, key);
    }
  }

  /** The allowance never goes negative in any run, stale spends included, as long as the
      other writers write none. */
  lemma {:induction false} NeverNegative(s: System, actions: seq<Action>, key: Key)
    requires Initial(s) && AllowanceAt(s.store, key) >= 0
    requires forall e | e in Run(s, actions).log && WritesOn(e, key) :: AllowanceOf(e.after) >= 0
    ensures AllowanceAt(Run(s, actions).store, key) >= 0
  {
    if actions != [] {
      var before := Run(s, actions[..|actions| - 1]);
      RunKeepsInvariant(s, actions[..|actions| - 1]);
      StepExplained(before, actions[|actions| - 1]);
      assert before.log <= Run(s, actions).log;
      NeverNegative(s, actions[..|actions| - 1], key);
      StepNeverNegative(before, Run(s, actions), key);
    }
  }

  // ---- exactly when a run conserves -----------------------------------------------

  ghost predicate ConservedAt(s: System, actions: seq<Action>, key: Key) {
    AllowanceAt(Run(s, actions).store, key) + Spends(Run(s, actions).log, key) == AllowanceAt(s.store, key)
  }

  ghost predicate ConservedThroughout(s: System, actions: seq<Action>, key: Key) {
    forall n | 0 <= n <= |actions| :: ConservedAt(s, actions[..n], key)
  }

  /** Every spend on the budget found the allowance it had judged still standing. */
  ghost predicate UpToDate(log: seq<Event>, key: Key) {
    forall i | 0 <= i < |log| && log[i].Spent? && log[i].key == key ::
      Allowance(log[i].judged.value) == Allowance(log[i].live.value)
  }

  /** A run conserves the budget at every moment exactly when each of its spends found
      the judged allowance still standing when it committed. */
  lemma {:induction false} ConservedIffUpToDate(s: System, actions: seq<Action>, key: Key)
    requires Initial(s) && OnlySpends(Run(s, actions).log, key)
    ensures ConservedThroughout(s, actions, key) <==> UpToDate(Run(s, actions).log, key)
  {
    if actions == [] {
      assert actions[..0] == actions;
    } else {
      var prefix := actions[..|actions| - 1];
      var before, end := Run(s, prefix), Run(s, actions);
      RunKeepsInvariant(s, prefix);
      StepExplained(before, actions[|actions| - 1]);
      OnlySpendsBefore(before, end, key);
      ConservedIffUpToDate(s, prefix, key);
      ThroughoutExtends(s, actions, key);
      ConservedIffNoStaleness(s, actions, key);
      ConservedIffNoStaleness(s, prefix, key);
      LastSpend(before, end, key);
      if UpToDate(before.log, key) {
        NoStaleness(before.log, key);
      }
    }
  }

  lemma OnlySpendsBefore(before: System, end: System, key: Key)
    requires Explained(before, end) && OnlySpends(end.log, key)
    ensures OnlySpends(before.log, key)
  {
    forall i | 0 <= i < |before.log| && before.log[i].Wrote? ensures before.log[i].key != key {
      assert end.log[i] == before.log[i];
    }
  }

  lemma ConservedIffNoStaleness(s: System, actions: seq<Action>, key: Key)
    requires Initial(s) && OnlySpends(Run(s, actions).log, key)
    ensures ConservedAt(s, actions, key) <==> Staleness(Run(s, actions).log, key) == 0
  {
    Ledger(s, actions, key);
    NoDrift(Run(s, actions).log, key);
  }

  lemma ThroughoutExtends(s: System, actions: seq<Action>, key: Key)
    requires actions != []
    ensures ConservedThroughout(s, actions, key) <==>
            ConservedThroughout(s, actions[..|actions| - 1], key) && ConservedAt(s, actions, key)
  {
    var prefix := actions[..|actions| - 1];
    assert actions[..|actions|] == actions;
    if ConservedThroughout(s, actions, key) {
      assert ConservedAt(s, actions[..|actions|], key);
      forall n | 0 <= n <= |prefix| ensures ConservedAt(s, prefix[..n], key) {
        assert prefix[..n] == actions[..n];
      }
    }
    if ConservedThroughout(s, prefix, key) && ConservedAt(s, actions, key) {
      forall n | 0 <= n <= |actions| ensures ConservedAt(s, actions[..n], key) {
        if n < |actions| {
          assert prefix[..n] == actions[..n];
        }
      }
    }
  }

  lemma LastSpend(before: System, end: System, key: Key)
    requires Explained(before, end)
    ensures UpToDate(end.log, key) <==>
            UpToDate(before.log, key) && Staleness(end.log, key) == Staleness(before.log, key)
  {
    if end.log != before.log {
      Appended(before.log, end.log[|before.log|], key);
    }
  }
}
