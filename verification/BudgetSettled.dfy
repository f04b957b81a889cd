/** How a proposal settles: when exactly it pays, when exactly it is absorbed, and from which
    budget. */
module BudgetSettled {
  import opened JsonValue
  import opened Eviction
  import opened BudgetProtocol
  import opened BudgetGrants

  // ---- the moment of the swap ----------------------------------------------------------

  /** The stamp a spend patch records its pod with. */
  function StampIn(patch: Json, pod: string): Json {
    MemberOrNull(MemberOrNull(MemberOrNull(patch, "status"), "disruptedPods"), pod)
  }

  /** The budget already reads as this eviction's spend would leave it. */
  predicate AlreadySpent(live: Json, e: Evictor)
    requires e.phase.Proposing?
  {
    Repeats(live, Allowance(e.phase.judged.value), NameOf(e.pod), StampIn(e.phase.patch, NameOf(e.pod)))
  }

  /** This proposal passes the compare and swap. */
  predicate Passes(s: System, id: nat) {
    && id in s.evictors && s.evictors[id].phase.Proposing?
    && s.evictors[id].phase.key in s.store.budgets
    && s.store.budgets[s.evictors[id].phase.key].revision == s.evictors[id].phase.expected
  }

  function Live(s: System, id: nat): Entry
    requires Passes(s, id)
  {
    s.store.budgets[s.evictors[id].phase.key]
  }

  lemma AlreadySpentIff(s: System, id: nat)
    requires Passes(s, id) && Sound(s, id)
    ensures Merge(Live(s, id).value, s.evictors[id].phase.patch) == Live(s, id).value <==>
            AlreadySpent(Live(s, id).value, s.evictors[id])
  {
    var e, live := s.evictors[id], Live(s, id).value;
    var now :| e.phase.patch == SpendPatch(Allowance(e.phase.judged.value), NameOf(e.pod), now);
    AbsorbsIff(live, Allowance(e.phase.judged.value), NameOf(e.pod), now);
    assert StampIn(e.phase.patch, NameOf(e.pod)) == Str(now);
  }

  /** A proposal is absorbed if and only if it passes and finds its spend already there; it pays
      if and only if it passes and does not. */
  lemma ProposalSettles(s: System, id: nat)
    requires Sound(s, id) && id in s.evictors && s.evictors[id].phase.Proposing?
    ensures var t := Proposed(s, id);
            && id in t.evictors
            && (t.evictors[id].phase == Deleting(Absorbed) <==>
               Passes(s, id) && AlreadySpent(Live(s, id).value, s.evictors[id]))
            && (t.evictors[id].phase == Deleting(Paid) <==>
               Passes(s, id) && !AlreadySpent(Live(s, id).value, s.evictors[id]))
            && (t.evictors[id].phase == Deleting(Paid) ==>
                  t.log == s.log + [Event.Spent(id, s.evictors[id].phase.key, NameOf(s.evictors[id].pod),
                      s.evictors[id].phase.judged, Live(s, id))])
  {
    if Passes(s, id) {
      AlreadySpentIff(s, id);
    }
  }

  // ---- whole runs ----------------------------------------------------------------------

  /** At this moment of the run the eviction's proposal settles: it pays, or is absorbed. */
  ghost predicate SettlesAt(s: System, actions: seq<Action>, id: nat, n: nat, paid: bool) {
    && n < |actions| && actions[n] == Propose(id)
    && var moment := Run(s, actions[..n]);
       Passes(moment, id) && (AlreadySpent(Live(moment, id).value, moment.evictors[id]) <==> !paid)
  }

  ghost predicate Settles(s: System, actions: seq<Action>, id: nat, paid: bool) {
    exists n: nat :: SettlesAt(s, actions, id, n, paid)
  }

  function GrantOf(paid: bool): Phase {
    Deleting(if paid then Paid else Absorbed)
  }

  ghost predicate Granted(s: System, id: nat, paid: bool) {
    id in s.evictors && s.evictors[id].phase == GrantOf(paid)
  }

  /** A step grants an eviction what it did not hold only by its own proposal. */
  lemma StepGrants(s: System, a: Action, id: nat, paid: bool)
    requires Sound(s, id)
    ensures Granted(Step(s, a), id, paid) <==>
            Granted(s, id, paid) ||
            (a == Propose(id) && Passes(s, id) && (AlreadySpent(Live(s, id).value, s.evictors[id]) <==> !paid))
  {
    if a == Propose(id) && id in s.evictors && s.evictors[id].phase.Proposing? {
      ProposalSettles(s, id);
    } else {
      OtherStepsKeep(s, a, id, paid);
    }
  }

  lemma OtherStepsKeep(s: System, a: Action, id: nat, paid: bool)
    requires !(a == Propose(id) && id in s.evictors && s.evictors[id].phase.Proposing?)
    ensures Granted(Step(s, a), id, paid) <==> Granted(s, id, paid)
  {
    if a.List? && a.id == id && id in s.evictors && s.evictors[id].phase.Listing? {
      JudgeGrantsNeither(s.store, s.evictors[id], s.evictors[id].phase.attempt, a.now);
    }
  }

  lemma JudgeGrantsNeither(store: Store, e: Evictor, attempt: nat, now: string)
    ensures Judge(store, e, attempt, now) !in {Deleting(Paid), Deleting(Absorbed)}
  {
  }

  /** A moment of the run but its last is one of the run without its last action. */
  lemma SettlesEarlier(s: System, actions: seq<Action>, id: nat, n: nat, paid: bool)
    requires actions != [] && n < |actions| - 1
    ensures SettlesAt(s, actions, id, n, paid) <==> SettlesAt(s, actions[..|actions| - 1], id, n, paid)
  {
    PrefixOfPrefix(actions, n);
  }

  lemma SettlesLonger(s: System, actions: seq<Action>, id: nat, paid: bool)
    requires actions != []
    ensures var n := |actions| - 1;
            Settles(s, actions, id, paid) <==> Settles(s, actions[..n], id, paid) || SettlesAt(s, actions, id, n, paid)
  {
    var prefix := actions[..|actions| - 1];
    if Settles(s, prefix, id, paid) {
      var n: nat :| SettlesAt(s, prefix, id, n, paid);
      SettlesEarlier(s, actions, id, n, paid);
    }
    if Settles(s, actions, id, paid) {
      var n: nat :| SettlesAt(s, actions, id, n, paid);
      if n < |prefix| {
        SettlesEarlier(s, actions, id, n, paid);
      }
    }
  }

  /** In every run an eviction goes on to its delete paid if and only if some proposal of its own
      passed and found the budget under its own key not yet reading as its spend would leave it,
      stamp included; absorbed if and only if one passed and found exactly that. */
  lemma {:induction false} GrantedIffSettled(s: System, actions: seq<Action>, id: nat, paid: bool)
    requires Initial(s)
    ensures Granted(Run(s, actions), id, paid) <==> Settles(s, actions, id, paid)
  {
    if actions != [] {
      var n := |actions| - 1;
      GrantedIffSettled(s, actions[..n], id, paid);
      RunKeepsInvariant(s, actions[..n]);
      assert Sound(Run(s, actions[..n]), id);
      StepGrants(Run(s, actions[..n]), actions[n], id, paid);
      SettlesLonger(s, actions, id, paid);
    }
  }

  // ---- from which budget, for which pod --------------------------------------------------

  lemma StepKeepsEvictor(s: System, a: Action, id: nat)
    requires id in s.evictors
    ensures var t := Step(s, a);
            id in t.evictors && t.evictors[id].pod == s.evictors[id].pod
                && t.evictors[id].request == s.evictors[id].request
    ensures Step(s, a).log == s.log || (|Step(s, a).log| == |s.log| + 1 && s.log <= Step(s, a).log)
  {
  }

  /** An eviction keeps its pod and its request, and the log only grows. */
  lemma {:induction false} EvictorStays(s: System, actions: seq<Action>, n: nat, id: nat)
    requires n <= |actions| && id in Run(s, actions[..n]).evictors
    ensures var moment, end := Run(s, actions[..n]), Run(s, actions);
            && id in end.evictors && end.evictors[id].pod == moment.evictors[id].pod
               && end.evictors[id].request == moment.evictors[id].request
            && moment.log <= end.log
  {
    if n == |actions| {
      assert actions[..n] == actions;
    } else {
      var prefix := actions[..|actions| - 1];
      PrefixOfPrefix(actions, n);
      EvictorStays(s, prefix, n, id);
      StepKeepsEvictor(Run(s, prefix), actions[|actions| - 1], id);
    }
  }

  /** The eviction settled at this moment against the one budget that had selected its pod and
      allowed it, and, when it paid, the log holds its spend: that budget, that pod, the entry
      judged and the entry replaced. */
  ghost predicate ChargedAt(s: System, actions: seq<Action>, id: nat, n: nat, paid: bool) {
    && SettlesAt(s, actions, id, n, paid)
    && var moment, end := Run(s, actions[..n]), Run(s, actions);
       var e := moment.evictors[id];
       && id in end.evictors && end.evictors[id].pod == e.pod && end.evictors[id].request == e.request
       && FoundAt(s, actions[..n], e.request.namespace, e.pod, e.phase.key, e.phase.judged.value, Payable)
       && (paid ==> Event.Spent(id, e.phase.key, NameOf(e.pod), e.phase.judged, Live(moment, id)) in end.log)
  }

  lemma SpendIsLogged(s: System, actions: seq<Action>, id: nat, n: nat)
    requires Initial(s) && SettlesAt(s, actions, id, n, true)
    ensures var moment := Run(s, actions[..n]);
            var e := moment.evictors[id];
            Event.Spent(id, e.phase.key, NameOf(e.pod), e.phase.judged, Live(moment, id)) in Run(s, actions).log
  {
    var moment := Run(s, actions[..n]);
    RunKeepsInvariant(s, actions[..n]);
    assert Sound(moment, id);
    ProposalSettles(moment, id);
    assert actions[..n + 1][..n] == actions[..n] && actions[..n + 1][n] == Propose(id);
    var next := Run(s, actions[..n + 1]);
    assert next == Proposed(moment, id);
    EvictorStays(s, actions, n + 1, id);
    assert next.log[|moment.log|] in Run(s, actions).log[..|next.log|];
  }

  lemma SettledIsCharged(s: System, actions: seq<Action>, id: nat, n: nat, paid: bool)
    requires Initial(s) && SettlesAt(s, actions, id, n, paid)
    ensures ChargedAt(s, actions, id, n, paid)
  {
    RunJustified(s, actions[..n], id);
    EvictorStays(s, actions, n, id);
    if paid {
      SpendIsLogged(s, actions, id, n);
    }
  }

  /** In every run, an eviction that reaches its delete was exempt; or no budget selected its
      pod; or the one that did spared it, or allowed it in a rehearsal; or allowed it, and then
      the eviction was charged to that very budget for that very pod: with exactly one committed
      spend, or absorbed by a budget already reading so. An eviction refused was refused for what
      its budget said. No other eviction has committed a spend, and a dry run has committed none. */
  lemma DeletesAreGranted(s: System, actions: seq<Action>, id: nat)
    requires Initial(s) && id in Run(s, actions).evictors
    ensures var end := Run(s, actions);
            && Justified(s, actions, end.evictors[id])
            && Commits(end.log, id) == (if end.evictors[id].phase == Deleting(Paid) then 1 else 0)
            && (end.evictors[id].request.dryRun ==> Commits(end.log, id) == 0)
            && (end.evictors[id].phase == Deleting(Paid) ==> exists n: nat :: ChargedAt(s, actions, id, n, true))
            && (end.evictors[id].phase == Deleting(Absorbed) ==> exists n: nat :: ChargedAt(s, actions, id, n, false))
  {
    RunKeepsInvariant(s, actions);
    assert Sound(Run(s, actions), id);
    RunJustified(s, actions, id);
    ChargedIfGranted(s, actions, id, true);
    ChargedIfGranted(s, actions, id, false);
  }

  lemma ChargedIfGranted(s: System, actions: seq<Action>, id: nat, paid: bool)
    requires Initial(s)
    ensures Granted(Run(s, actions), id, paid) ==> exists n: nat :: ChargedAt(s, actions, id, n, paid)
  {
    GrantedIffSettled(s, actions, id, paid);
    if Settles(s, actions, id, paid) {
      var n: nat :| SettlesAt(s, actions, id, n, paid);
      SettledIsCharged(s, actions, id, n, paid);
    }
  }
}
