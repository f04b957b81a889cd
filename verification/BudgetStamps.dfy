/** Stamps that are not used twice: every delete a budget allows is then paid for. */
module BudgetStamps {
  import opened JsonValue
  import opened Eviction
  import opened TextOrder
  import opened BudgetProtocol
  import opened BudgetGrants
  import opened BudgetSettled

  predicate Records(value: Json, pod: string, now: string) {
    pod in Disrupted(value) && Disrupted(value)[pod] == Str(now)
  }

  /** At this moment of the run the eviction of a pod of this name is judged, with this stamp. */
  ghost predicate JudgedAt(s: System, actions: seq<Action>, n: nat, id: nat, pod: string, now: string) {
    && n < |actions| && actions[n] == List(id, now)
    && var moment := Run(s, actions[..n]);
       id in moment.evictors && moment.evictors[id].phase.Listing? && NameOf(moment.evictors[id].pod) == pod
  }

  ghost predicate Judged(s: System, actions: seq<Action>, id: nat, pod: string, now: string) {
    exists n: nat :: JudgedAt(s, actions, n, id, pod, now)
  }

  /** The action writes a budget that records the stamp. */
  predicate Writes(a: Action, pod: string, now: string) {
    a.Overwrite? && a.value.Some? && Records(a.value.value, pod, now)
  }

  /** Some budget came to record the stamp other than by an eviction: from the start, or written so. */
  ghost predicate Brought(s: System, actions: seq<Action>, pod: string, now: string) {
    || (exists key :: key in s.store.budgets && Records(s.store.budgets[key].value, pod, now))
    || (exists n :: 0 <= n < |actions| && Writes(actions[n], pod, now))
  }

  /** No pod is judged with a stamp that a budget was brought with for it, nor by two evictions
      with one stamp. */
  ghost predicate FreshStamps(s: System, actions: seq<Action>) {
    forall id, pod, now | Judged(s, actions, id, pod, now) ::
      && !Brought(s, actions, pod, now)
      && forall other | Judged(s, actions, other, pod, now) :: other == id
  }

  // ---- where a recorded stamp comes from ---------------------------------------------------

  ghost predicate PaidWith(s: System, actions: seq<Action>, id: nat, pod: string, now: string) {
    Granted(Run(s, actions), id, true) && Judged(s, actions, id, pod, now)
  }

  ghost predicate Sourced(s: System, actions: seq<Action>, pod: string, now: string) {
    Brought(s, actions, pod, now) || exists id :: PaidWith(s, actions, id, pod, now)
  }

  /** Every recorded stamp was brought or paid with. */
  ghost predicate Traced(s: System, actions: seq<Action>, key: Key) {
    var store := Run(s, actions).store;
    key in store.budgets ==>
      forall pod, now | Records(store.budgets[key].value, pod, now) :: Sourced(s, actions, pod, now)
  }

  /** An eviction on its way to a spend carries a stamp it was judged with. */
  ghost predicate Stamped(s: System, actions: seq<Action>, id: nat) {
    var end := Run(s, actions);
    id in end.evictors && (end.evictors[id].phase.Fetching? || end.evictors[id].phase.Proposing?) ==>
      exists now ::
        && end.evictors[id].phase.patch ==
           SpendPatch(Allowance(end.evictors[id].phase.judged.value), NameOf(end.evictors[id].pod), now)
        && Judged(s, actions, id, NameOf(end.evictors[id].pod), now)
  }

  // ---- longer runs -------------------------------------------------------------------------

  lemma JudgedLonger(s: System, actions: seq<Action>, id: nat, pod: string, now: string)
    requires actions != [] && Judged(s, actions[..|actions| - 1], id, pod, now)
    ensures Judged(s, actions, id, pod, now)
  {
    var prefix := actions[..|actions| - 1];
    var n: nat :| JudgedAt(s, prefix, n, id, pod, now);
    PrefixOfPrefix(actions, n);
    assert JudgedAt(s, actions, n, id, pod, now);
  }

  lemma BroughtLonger(s: System, actions: seq<Action>, pod: string, now: string)
    requires actions != [] && Brought(s, actions[..|actions| - 1], pod, now)
    ensures Brought(s, actions, pod, now)
  {
    var prefix := actions[..|actions| - 1];
    if !exists key :: key in s.store.budgets && Records(s.store.budgets[key].value, pod, now) {
      var n :| 0 <= n < |prefix| && Writes(prefix[n], pod, now);
      assert actions[n] == prefix[n];
    }
  }

  lemma SourcedLonger(s: System, actions: seq<Action>, pod: string, now: string)
    requires Initial(s) && actions != [] && Sourced(s, actions[..|actions| - 1], pod, now)
    ensures Sourced(s, actions, pod, now)
  {
    var prefix := actions[..|actions| - 1];
    if Brought(s, prefix, pod, now) {
      BroughtLonger(s, actions, pod, now);
    } else {
      var id :| PaidWith(s, prefix, id, pod, now);
      JudgedLonger(s, actions, id, pod, now);
      RunKeepsInvariant(s, prefix);
      assert Sound(Run(s, prefix), id);
      StepGrants(Run(s, prefix), actions[|actions| - 1], id, true);
      assert PaidWith(s, actions, id, pod, now);
    }
  }

  // ---- the two facts, step by step -----------------------------------------------------------

  lemma JudgeCarriesStamp(store: Store, e: Evictor, attempt: nat, now: string)
    ensures var phase := Judge(store, e, attempt, now);
            phase.Fetching? ==> phase.patch == SpendPatch(Allowance(phase.judged.value), NameOf(e.pod), now)
  {
  }

  lemma {:induction false} RunStamped(s: System, actions: seq<Action>, id: nat)
    requires Initial(s)
    ensures Stamped(s, actions, id)
  {
    if actions != [] {
      var n := |actions| - 1;
      var before, end, a := Run(s, actions[..n]), Run(s, actions), actions[n];
      RunStamped(s, actions[..n], id);
      if id in end.evictors && (end.evictors[id].phase.Fetching? || end.evictors[id].phase.Proposing?) {
        StampSurvives(s, actions, id);
      }
    }
  }

  lemma StampSurvives(s: System, actions: seq<Action>, id: nat)
    requires actions != [] && Stamped(s, actions[..|actions| - 1], id)
    requires id in Run(s, actions).evictors
    requires Run(s, actions).evictors[id].phase.Fetching? || Run(s, actions).evictors[id].phase.Proposing?
    ensures Stamped(s, actions, id)
  {
    var n := |actions| - 1;
    var before, end, a := Run(s, actions[..n]), Run(s, actions), actions[n];
    if a.List? && a.id == id && id in before.evictors && before.evictors[id].phase.Listing? {
      var e := before.evictors[id];
      JudgeCarriesStamp(before.store, e, e.phase.attempt, a.now);
      assert JudgedAt(s, actions, n, id, NameOf(e.pod), a.now);
    } else {
      StepKeepsSpend(before, a, id);
      var e := before.evictors[id];
      var now :| e.phase.patch == SpendPatch(Allowance(e.phase.judged.value), NameOf(e.pod), now)
                 && Judged(s, actions[..n], id, NameOf(e.pod), now);
      JudgedLonger(s, actions, id, NameOf(e.pod), now);
    }
  }

  lemma StepKeepsSpend(s: System, a: Action, id: nat)
    requires id in Step(s, a).evictors
             && (Step(s, a).evictors[id].phase.Fetching? || Step(s, a).evictors[id].phase.Proposing?)
    requires !(a.List? && a.id == id && id in s.evictors && s.evictors[id].phase.Listing?)
    ensures id in s.evictors && (s.evictors[id].phase.Fetching? || s.evictors[id].phase.Proposing?)
    ensures var t := Step(s, a).evictors[id];
            t.pod == s.evictors[id].pod && t.phase.patch == s.evictors[id].phase.patch
                && t.phase.judged == s.evictors[id].phase.judged
  {
  }

  /** What a step adds to a budget's records: nothing, unless it is written over, or paid from. */
  lemma StepRecords(s: System, a: Action, key: Key, pod: string, now: string)
    requires Invariant(s) && key in Step(s, a).store.budgets && Records(Step(s, a).store.budgets[key].value, pod, now)
    ensures || (key in s.store.budgets && Records(s.store.budgets[key].value, pod, now))
            || Writes(a, pod, now)
            || (a.Propose? && a.id in s.evictors && s.evictors[a.id].phase.Proposing? && Granted(Step(s, a), a.id, true)
                && NameOf(s.evictors[a.id].pod) == pod && StampIn(s.evictors[a.id].phase.patch, pod) == Str(now))
  {
    if a.Propose? && a.id in s.evictors && s.evictors[a.id].phase.Proposing? {
      ProposalRecords(s, a.id, key, pod, now);
    } else if a.Reconcile? && a.key == key && key in s.store.budgets {
      ReconcileRemembers(s.store.budgets[key].value, a.health);
    }
  }

  lemma ProposalRecords(s: System, id: nat, key: Key, pod: string, now: string)
    requires Invariant(s) && id in s.evictors && s.evictors[id].phase.Proposing?
    requires key in Proposed(s, id).store.budgets && Records(Proposed(s, id).store.budgets[key].value, pod, now)
    ensures || (key in s.store.budgets && Records(s.store.budgets[key].value, pod, now))
            || (Granted(Proposed(s, id), id, true)
                && NameOf(s.evictors[id].pod) == pod && StampIn(s.evictors[id].phase.patch, pod) == Str(now))
  {
    assert Sound(s, id);
    var e := s.evictors[id];
    if Proposed(s, id).store != s.store && key == e.phase.key {
      var stamp :| e.phase.patch == SpendPatch(Allowance(e.phase.judged.value), NameOf(e.pod), stamp);
      SpendMerged(s.store.budgets[key].value, Allowance(e.phase.judged.value), NameOf(e.pod), stamp);
    }
  }

  lemma {:induction false} RunTraced(s: System, actions: seq<Action>, key: Key)
    requires Initial(s)
    ensures Traced(s, actions, key)
  {
    var store := Run(s, actions).store;
    if key in store.budgets {
      if actions == [] {
        forall pod, now | Records(store.budgets[key].value, pod, now) ensures Sourced(s, actions, pod, now) {
        }
      } else {
        RunTraced(s, actions[..|actions| - 1], key);
        forall pod, now | Records(store.budgets[key].value, pod, now) ensures Sourced(s, actions, pod, now) {
          RecordSourced(s, actions, key, pod, now);
        }
      }
    }
  }

  lemma RecordSourced(s: System, actions: seq<Action>, key: Key, pod: string, now: string)
    requires Initial(s) && actions != [] && Traced(s, actions[..|actions| - 1], key)
    requires key in Run(s, actions).store.budgets && Records(Run(s, actions).store.budgets[key].value, pod, now)
    ensures Sourced(s, actions, pod, now)
  {
    var n := |actions| - 1;
    var before, a := Run(s, actions[..n]), actions[n];
    RunKeepsInvariant(s, actions[..n]);
    StepRecords(before, a, key, pod, now);
    if key in before.store.budgets && Records(before.store.budgets[key].value, pod, now) {
      SourcedLonger(s, actions, pod, now);
    } else if a.Overwrite? {
      assert Brought(s, actions, pod, now);
    } else {
      PaidIsSource(s, actions, a.id, pod, now);
    }
  }

  lemma PaidIsSource(s: System, actions: seq<Action>, id: nat, pod: string, now: string)
    requires Initial(s) && actions != [] && Granted(Run(s, actions), id, true)
    requires var before := Run(s, actions[..|actions| - 1]);
             && id in before.evictors && before.evictors[id].phase.Proposing?
             && NameOf(before.evictors[id].pod) == pod && StampIn(before.evictors[id].phase.patch, pod) == Str(now)
    ensures Sourced(s, actions, pod, now)
  {
    var prefix := actions[..|actions| - 1];
    var e := Run(s, prefix).evictors[id];
    RunStamped(s, prefix, id);
    var stamp :| e.phase.patch == SpendPatch(Allowance(e.phase.judged.value), pod, stamp)
        && Judged(s, prefix, id, pod, stamp);
    assert StampIn(e.phase.patch, pod) == Str(stamp);
    JudgedLonger(s, actions, id, pod, now);
    assert PaidWith(s, actions, id, pod, now);
  }

  // ---- so nothing is absorbed ------------------------------------------------------------------

  lemma FreshPrefix(s: System, actions: seq<Action>)
    requires actions != [] && FreshStamps(s, actions)
    ensures FreshStamps(s, actions[..|actions| - 1])
  {
    var prefix := actions[..|actions| - 1];
    forall id, pod, now | Judged(s, prefix, id, pod, now)
      ensures !Brought(s, prefix, pod, now) && forall other | Judged(s, prefix, other, pod, now) :: other == id
    {
      JudgedLonger(s, actions, id, pod, now);
      if Brought(s, prefix, pod, now) {
        BroughtLonger(s, actions, pod, now);
      }
      forall other | Judged(s, prefix, other, pod, now) ensures other == id {
        JudgedLonger(s, actions, other, pod, now);
      }
    }
  }

  /** A fresh stamp in use was neither brought nor paid with. */
  lemma FreshIsUnsourced(s: System, actions: seq<Action>, id: nat, pod: string, now: string)
    requires FreshStamps(s, actions) && Judged(s, actions, id, pod, now) && !Granted(Run(s, actions), id, true)
    ensures !Sourced(s, actions, pod, now)
  {
    forall other ensures !PaidWith(s, actions, other, pod, now) {
    }
  }

  /** With fresh stamps no passing proposal finds its spend already there. */
  lemma FreshIsUnspent(s: System, actions: seq<Action>, id: nat)
    requires Initial(s) && FreshStamps(s, actions) && Passes(Run(s, actions), id)
    ensures !AlreadySpent(Live(Run(s, actions), id).value, Run(s, actions).evictors[id])
  {
    var e, live := Run(s, actions).evictors[id], Live(Run(s, actions), id).value;
    var pod := NameOf(e.pod);
    RunStamped(s, actions, id);
    var stamp :| e.phase.patch == SpendPatch(Allowance(e.phase.judged.value), pod, stamp)
        && Judged(s, actions, id, pod, stamp);
    assert StampIn(e.phase.patch, pod) == Str(stamp);
    FreshIsUnsourced(s, actions, id, pod, stamp);
    RunTraced(s, actions, e.phase.key);
    assert !Records(live, pod, stamp);
  }

  /** In every run in which no pod is judged with a stamp already brought for it, nor by two
      evictions with one stamp, no delete is absorbed: every delete a budget allows is paid for. */
  lemma {:induction false} FreshStampsPay(s: System, actions: seq<Action>, id: nat)
    requires Initial(s) && FreshStamps(s, actions)
    ensures !Granted(Run(s, actions), id, false)
  {
    if actions != [] {
      var n := |actions| - 1;
      FreshPrefix(s, actions);
      FreshStampsPay(s, actions[..n], id);
      RunKeepsInvariant(s, actions[..n]);
      assert Sound(Run(s, actions[..n]), id);
      StepGrants(Run(s, actions[..n]), actions[n], id, false);
      if Passes(Run(s, actions[..n]), id) {
        FreshIsUnspent(s, actions[..n], id);
      }
    }
  }
}
