/** The race the conservation laws shut out, and the one that deletes without spending. */
module BudgetRaces {
  import opened JsonValue
  import opened Eviction
  import opened TextOrder
  import opened BudgetProtocol
  import opened BudgetLaws

  lemma RunLast(s: System, front: seq<Action>, a: Action)
    ensures Run(s, front + [a]) == Step(Run(s, front), a)
  {
    assert (front + [a])[..|front|] == front;
  }

  lemma {:induction false} RunAppend(s: System, first: seq<Action>, second: seq<Action>)
    ensures Run(s, first + second) == Run(Run(s, first), second)
  {
    if second == [] {
      assert first + second == first;
    } else {
      var front, last := second[..|second| - 1], second[|second| - 1];
      assert first + second == first + front + [last] && second == front + [last];
      RunAppend(s, first, front);
      RunLast(s, first + front, last);
      RunLast(Run(s, first), front, last);
    }
  }

  lemma RunOne(s: System, a: Action)
    ensures Run(s, [a]) == Step(s, a)
  {
    assert [a][..0] == [];
  }

  lemma RunTwo(s: System, a: Action, b: Action)
    ensures Run(s, [a, b]) == Step(Step(s, a), b)
  {
    assert [a] + [b] == [a, b];
    RunAppend(s, [a], [b]);
    RunOne(s, a);
    RunOne(Step(s, a), b);
  }

  /** The eviction holds a judgement of the budget under this key, stamped `now`. */
  ghost predicate Holds(s: System, id: nat, key: Key, judged: Entry, now: string) {
    && id in s.evictors && s.evictors[id].phase.Fetching?
    && s.evictors[id].phase.key == key && s.evictors[id].phase.judged == judged
    && 0 < Allowance(judged.value) <= I64_MAX
    && s.evictors[id].phase.patch == SpendPatch(Allowance(judged.value), NameOf(s.evictors[id].pod), now)
  }

  /** Fetching and proposing with no other step in between always passes the compare and swap:
      the judged allowance less one is written whatever the budget held. It commits unless the
      merge leaves the budget as it stands, and then the eviction goes on to its delete. */
  lemma FetchThenPropose(s: System, id: nat, key: Key, judged: Entry, now: string)
    requires Holds(s, id, key, judged, now) && key in s.store.budgets
    ensures var live, e := s.store.budgets[key], s.evictors[id];
            var merged := Merge(live.value, SpendPatch(Allowance(judged.value), NameOf(e.pod), now));
            Run(s, [Fetch(id), Propose(id)]) ==
            if merged == live.value then Moved(s, id, Deleting(Absorbed))
            else Moved(s, id, Deleting(Paid)).(store := Put(s.store, key, merged),
                                               log := s.log + [Spent(id, key, NameOf(e.pod), judged, live)])
  {
    RunTwo(s, Fetch(id), Propose(id));
    var fetched := Step(s, Fetch(id));
    MovedTwice(s, id, fetched.evictors[id].phase, Deleting(Absorbed));
    MovedTwice(s, id, fetched.evictors[id].phase, Deleting(Paid));
  }

  lemma MovedTwice(s: System, id: nat, first: Phase, second: Phase)
    requires id in s.evictors
    ensures Moved(Moved(s, id, first), id, second) == Moved(s, id, second)
  {
    var e := s.evictors[id];
    assert s.evictors[id := e.(phase := first)][id := e.(phase := second)] == s.evictors[id := e.(phase := second)];
  }

  /** The budget already records the pod under this stamp. */
  predicate Recorded(pdb: Json, pod: string, now: string) {
    pod in Disrupted(pdb) && Disrupted(pdb)[pod] == Str(now)
  }

  /** The same, when the merge changes the budget: one more spend, the judged allowance
      less one, and nothing else of the system moved. */
  lemma SpendCommits(s: System, id: nat, key: Key, judged: Entry, now: string)
    requires Holds(s, id, key, judged, now) && key in s.store.budgets
    requires Allowance(s.store.budgets[key].value) != Allowance(judged.value) - 1
             || !Recorded(s.store.budgets[key].value, NameOf(s.evictors[id].pod), now)
    ensures var end, pod := Run(s, [Fetch(id), Propose(id)]), NameOf(s.evictors[id].pod);
            && Spends(end.log, key) == Spends(s.log, key) + 1
            && end.evictors == s.evictors[id := s.evictors[id].(phase := Deleting(Paid))]
            && key in end.store.budgets
            && end.store.budgets[key].value ==
               Merge(s.store.budgets[key].value, SpendPatch(Allowance(judged.value), pod, now))
            && Allowance(end.store.budgets[key].value) == Allowance(judged.value) - 1
            && Disrupted(end.store.budgets[key].value) == Disrupted(s.store.budgets[key].value)[pod := Str(now)]
  {
    var pod := NameOf(s.evictors[id].pod);
    SpendMerged(s.store.budgets[key].value, Allowance(judged.value), pod, now);
    FetchThenPropose(s, id, key, judged, now);
    Appended(s.log, Spent(id, key, pod, judged, s.store.budgets[key]), key);
  }

  lemma SpendStands(live: Json, allowed: int, pod: string, now: string)
    ensures Repeats(Merge(live, SpendPatch(allowed, pod, now)), allowed, pod, Str(now))
  {
    MergeTwice(live, SpendPatch(allowed, pod, now));
    AbsorbsIff(Merge(live, SpendPatch(allowed, pod, now)), allowed, pod, now);
  }

  /** A spend on a budget at the judged allowance less one: committed unless the pod stands there
      under the very stamp, and then the eviction goes on all the same. */
  lemma LateSpend(s: System, id: nat, key: Key, judged: Entry, now: string)
    requires Holds(s, id, key, judged, now) && key in s.store.budgets
    requires Field(s.store.budgets[key].value, "status", "disruptionsAllowed") ==
             Some(Number(Allowance(judged.value) - 1))
    ensures var end := Run(s, [Fetch(id), Propose(id)]);
            var repeats := Recorded(s.store.budgets[key].value, NameOf(s.evictors[id].pod), now);
            && Spends(end.log, key) == Spends(s.log, key) + (if repeats then 0 else 1)
            && AllowanceAt(end.store, key) == Allowance(judged.value) - 1
            && end.evictors ==
               s.evictors[id := s.evictors[id].(phase := Deleting(if repeats then Absorbed else Paid))]
  {
    var pdb, pod := s.store.budgets[key].value, NameOf(s.evictors[id].pod);
    if Recorded(pdb, pod, now) {
      AbsorbsIff(pdb, Allowance(judged.value), pod, now);
      SpendMerged(pdb, Allowance(judged.value), pod, now);
      FetchThenPropose(s, id, key, judged, now);
    } else {
      SpendCommits(s, id, key, judged, now);
    }
  }

  /** The second of two evictions finds its own spend standing once the first has finished: they
      are of one pod within one stamp, or the budget had the second pod under its stamp before. */
  predicate SecondRepeats(pdb: Json, podA: string, nowA: string, podB: string, nowB: string) {
    if podA == podB then nowA == nowB else Recorded(pdb, podB, nowB)
  }

  /** Whenever two evictions hold a judgement of the same standing budget, letting one finish
      before the other fetches takes one disruption and brings both to their delete. Both spends
      commit, unless the second finds its own already standing: then that one is absorbed. */
  lemma TwoSpendOne(s: System, a: nat, b: nat, key: Key, nowA: string, nowB: string)
    requires a != b && key in s.store.budgets
    requires Holds(s, a, key, s.store.budgets[key], nowA) && Holds(s, b, key, s.store.budgets[key], nowB)
    ensures var end := Run(s, [Fetch(a), Propose(a)] + [Fetch(b), Propose(b)]);
            var repeats := SecondRepeats(s.store.budgets[key].value, NameOf(s.evictors[a].pod), nowA,
                NameOf(s.evictors[b].pod), nowB);
            && Spends(end.log, key) == Spends(s.log, key) + (if repeats then 1 else 2)
            && AllowanceAt(end.store, key) == AllowanceAt(s.store, key) - 1
            && a in end.evictors && end.evictors[a].phase == Deleting(Paid)
            && b in end.evictors && end.evictors[b].phase == Deleting(if repeats then Absorbed else Paid)
  {
    var judged := s.store.budgets[key];
    SpendCommits(s, a, key, judged, nowA);
    SpendStands(judged.value, Allowance(judged.value), NameOf(s.evictors[a].pod), nowA);
    var mid := Run(s, [Fetch(a), Propose(a)]);
    assert Holds(mid, b, key, judged, nowB);
    LateSpend(mid, b, key, judged, nowB);
    RunAppend(s, [Fetch(a), Propose(a)], [Fetch(b), Propose(b)]);
  }

  // ---- both races from a fresh start --------------------------------------------------

  /** The pod is not exempt, and the budget selects it and would let it spend. */
  ghost predicate Spendable(pdb: Json, pod: Json) {
    !IgnoresBudgets(pod) && Selects(pdb, pod) && !Spares(pod, pdb) && !Lags(pdb) && 0 < Allowance(pdb) <= I64_MAX
  }

  function OneBudget(key: Key, pdb: Json): System {
    System(Store(map[key := Entry(pdb, 1)], 1), map[], [])
  }

  function Begin(id: nat, key: Key, pod: Json, now: string): seq<Action> {
    [Arrive(id, Request(key.namespace, None, Unset, false), Some(Entry(pod, 0))), List(id, now)]
  }

  lemma JudgesAlone(store: Store, e: Evictor, key: Key, pdb: Json, now: string)
    requires store == OneBudget(key, pdb).store && Spendable(pdb, e.pod)
    requires e.request == Request(key.namespace, None, Unset, false)
    ensures Judge(store, e, 0, now) ==
            Fetching(0, key, store.budgets[key], SpendPatch(Allowance(pdb), NameOf(e.pod), now))
  {
    assert Selecting(store, key.namespace, e.pod) == {key};
    assert Judge(store, e, 0, now) == JudgeOne(e, 0, key, store.budgets[key], now);
  }

  lemma Arrives(s: System, id: nat, key: Key, pod: Json, now: string)
    requires id !in s.evictors && !IgnoresBudgets(pod)
    ensures Step(s, Begin(id, key, pod, now)[0]) ==
            s.(evictors := s.evictors[id := Evictor(Request(key.namespace, None, Unset, false), pod, Listing(0))])
  {
  }

  lemma Lists(s: System, id: nat, key: Key, pdb: Json, now: string)
    requires s.store == OneBudget(key, pdb).store && id in s.evictors && Spendable(pdb, s.evictors[id].pod)
    requires s.evictors[id].request == Request(key.namespace, None, Unset, false) && s.evictors[id].phase == Listing(0)
    ensures Step(s, List(id, now)) ==
            Moved(s, id, Fetching(0, key, s.store.budgets[key],
                SpendPatch(Allowance(pdb), NameOf(s.evictors[id].pod), now)))
  {
    JudgesAlone(s.store, s.evictors[id], key, pdb, now);
  }

  lemma ArriveAndList(s: System, id: nat, key: Key, pdb: Json, pod: Json, now: string)
    requires s.store == OneBudget(key, pdb).store && id !in s.evictors && Spendable(pdb, pod)
    ensures var end := Run(s, Begin(id, key, pod, now));
            && end.store == s.store && end.log == s.log && id in end.evictors
            && end.evictors == s.evictors[id := end.evictors[id]]
            && end.evictors[id].pod == pod
            && Holds(end, id, key, s.store.budgets[key], now)
  {
    var acts := Begin(id, key, pod, now);
    RunTwo(s, acts[0], acts[1]);
    Arrives(s, id, key, pod, now);
    Lists(Step(s, acts[0]), id, key, pdb, now);
  }

  function BothThenEach(key: Key, podA: Json, nowA: string, podB: Json, nowB: string): seq<Action> {
    Begin(1, key, podA, nowA) + Begin(2, key, podB, nowB) + ([Fetch(1), Propose(1)] + [Fetch(2), Propose(2)])
  }

  lemma BothHold(key: Key, pdb: Json, podA: Json, nowA: string, podB: Json, nowB: string)
    requires Spendable(pdb, podA) && Spendable(pdb, podB)
    ensures var s := OneBudget(key, pdb);
            var both := Run(s, Begin(1, key, podA, nowA) + Begin(2, key, podB, nowB));
            && both.store == s.store && both.log == []
            && Holds(both, 1, key, Entry(pdb, 1), nowA) && both.evictors[1].pod == podA
            && Holds(both, 2, key, Entry(pdb, 1), nowB) && both.evictors[2].pod == podB
            && Run(s, BothThenEach(key, podA, nowA, podB, nowB)) ==
               Run(both, [Fetch(1), Propose(1)] + [Fetch(2), Propose(2)])
  {
    var s := OneBudget(key, pdb);
    ArriveAndList(s, 1, key, pdb, podA, nowA);
    var one := Run(s, Begin(1, key, podA, nowA));
    ArriveAndList(one, 2, key, pdb, podB, nowB);
    RunAppend(s, Begin(1, key, podA, nowA), Begin(2, key, podB, nowB));
    var begun := Begin(1, key, podA, nowA) + Begin(2, key, podB, nowB);
    RunAppend(s, begun, [Fetch(1), Propose(1)] + [Fetch(2), Propose(2)]);
  }

  /** For every budget and every two evictions it would let spend, there is a run from a fresh
      start in which the budget gives up one disruption for both deletes; it has two spends to show
      for that if and only if the second does not repeat a spend already there. */
  lemma Overspend(key: Key, pdb: Json, podA: Json, nowA: string, podB: Json, nowB: string)
    requires Spendable(pdb, podA) && Spendable(pdb, podB)
    ensures var end := Run(OneBudget(key, pdb), BothThenEach(key, podA, nowA, podB, nowB));
            && AllowanceAt(end.store, key) == Allowance(pdb) - 1
            && 1 in end.evictors && end.evictors[1].phase.Deleting?
            && 2 in end.evictors && end.evictors[2].phase.Deleting?
            && Spends(end.log, key) == if SecondRepeats(pdb, NameOf(podA), nowA, NameOf(podB), nowB) then 1 else 2
  {
    BothHold(key, pdb, podA, nowA, podB, nowB);
    TwoSpendOne(Run(OneBudget(key, pdb), Begin(1, key, podA, nowA) + Begin(2, key, podB, nowB)), 1, 2, key, nowA, nowB);
  }

  /** For every budget and pod it would let spend, there is a run in which the pod is
      evicted twice, both reach their delete, and one spend is committed. */
  lemma UnpaidDelete(key: Key, pdb: Json, pod: Json, now: string)
    requires Spendable(pdb, pod)
    ensures var end := Run(OneBudget(key, pdb), BothThenEach(key, pod, now, pod, now));
            Spends(end.log, key) == 1 && 2 in end.evictors && end.evictors[2].phase == Deleting(Absorbed)
  {
    BothHold(key, pdb, pod, now, pod, now);
    TwoSpendOne(Run(OneBudget(key, pdb), Begin(1, key, pod, now) + Begin(2, key, pod, now)), 1, 2, key, now, now);
  }

  // ---- with one disruption allowed ------------------------------------------------------

  function WebPod(name: string): Json {
    Obj(map["metadata" := Obj(map["name" := Str(name), "labels" := Obj(map["app" := Str("web")])])])
  }

  function WebBudget(): Json {
    Obj(map["spec" := Obj(map["selector" := Obj(map["app" := Str("web")])]),
            "status" := Obj(map["observedGeneration" := Number(1), "disruptionsAllowed" := Number(1)])])
  }

  lemma WebPodSpends(name: string)
    ensures Spendable(WebBudget(), WebPod(name)) && NameOf(WebPod(name)) == name
    ensures Disrupted(WebBudget()) == map[] && Allowance(WebBudget()) == 1
  {
    var labels := map["app" := Str("web")];
    assert "app" in labels;
    assert Field(WebBudget(), "spec", "selector") == Some(Obj(labels));
    assert Field(WebPod(name), "metadata", "labels") == Some(Obj(labels));
    assert StatusInt(WebBudget(), "observedGeneration") == Some(1);
    assert Get(WebPod(name), "status") == None;
  }

  /** One disruption allowed, two spent: conservation fails of the code as it stands. */
  lemma OneDisruptionSpentTwice()
    ensures exists s, actions, key ::
              && Initial(s) && AllowanceAt(s.store, key) == 1
              && Spends(Run(s, actions).log, key) == 2 && AllowanceAt(Run(s, actions).store, key) == 0
  {
    var key, a, b := Key(Some("shop"), "web"), WebPod("a"), WebPod("b");
    WebPodSpends("a");
    WebPodSpends("b");
    Overspend(key, WebBudget(), a, "now", b, "now");
    var s, actions := OneBudget(key, WebBudget()), BothThenEach(key, a, "now", b, "now");
    assert Initial(s) && AllowanceAt(s.store, key) == 1;
    assert Spends(Run(s, actions).log, key) == 2;
  }
}
