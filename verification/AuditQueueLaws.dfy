/** What the audit counters count, the order lines leave the queue in, and that a writer which
    keeps going answers every flush. */
module AuditQueueLaws {
  import opened JsonValue
  import opened AuditQueue

  // ---- the counters, over the actions and the states they met -----------------------------

  /** The queue takes a line. */
  predicate HasRoom(s: State) {
    s.running && |s.queue| < 4096
  }

  predicate HoldsLine(s: State) {
    s.hand.Some? && s.hand.value.Line?
  }

  datatype Sort = AnyRecord | Queuing | Dropping | Writing | Failing

  predicate Is(sort: Sort, s: State, a: Action) {
    match sort
    case AnyRecord => a.Record?
    case Queuing => a == Record(true) && HasRoom(s)
    case Dropping => a == Record(true) && !HasRoom(s)
    case Writing => a == Finish(true) && HoldsLine(s)
    case Failing => a == Record(false) || (a == Finish(false) && HoldsLine(s))
  }

  /** How many actions of the run were of this sort in the state they met. */
  function Count(running: bool, actions: seq<Action>, sort: Sort): nat {
    if actions == [] then 0
    else
      var n := |actions| - 1;
      Count(running, actions[..n], sort) + if Is(sort, Run(Fresh(running), actions[..n]), actions[n]) then 1 else 0
  }

  function Counter(s: State, sort: Sort): nat {
    match sort
    case AnyRecord => s.recorded
    case Queuing => s.queued
    case Dropping => s.dropped
    case Writing => s.written
    case Failing => s.writeFailures
  }

  lemma StepCounts(s: State, a: Action, sort: Sort)
    ensures Counter(Step(s, a), sort) == Counter(s, sort) + if Is(sort, s, a) then 1 else 0
    ensures Step(s, a).running == s.running
  {
  }

  lemma {:induction false} RunCounts(running: bool, actions: seq<Action>, sort: Sort)
    ensures Counter(Run(Fresh(running), actions), sort) == Count(running, actions, sort)
    ensures Run(Fresh(running), actions).running == running
  {
    if actions != [] {
      var n := |actions| - 1;
      RunCounts(running, actions[..n], sort);
      StepCounts(Run(Fresh(running), actions[..n]), actions[n], sort);
    }
  }

  /** In every interleaving: `dropped` is the number of rendered events that met a full queue or a
      stopped writer, `written` that of the writes of a line that succeeded, and `writeFailures`
      that of the writes that failed and the events that could not be rendered. */
  lemma CountersCount(running: bool, actions: seq<Action>)
    ensures var s := Run(Fresh(running), actions);
            && s.running == running
            && s.recorded == Count(running, actions, AnyRecord)
            && s.queued == Count(running, actions, Queuing)
            && s.dropped == Count(running, actions, Dropping)
            && s.written == Count(running, actions, Writing)
            && s.writeFailures == Count(running, actions, Failing)
  {
    RunCounts(running, actions, AnyRecord);
    RunCounts(running, actions, Queuing);
    RunCounts(running, actions, Dropping);
    RunCounts(running, actions, Writing);
    RunCounts(running, actions, Failing);
  }

  // ---- the order -----------------------------------------------------------------------------

  /** The line a step brings into the writer's hand, by its place among those queued. */
  function Brought(before: State, after: State): seq<nat> {
    if before.hand.None? && HoldsLine(after) then [after.hand.value.place] else []
  }

  /** The lines the writer has taken, in turn. */
  function Taken(running: bool, actions: seq<Action>): seq<nat> {
    if actions == [] then []
    else
      var n := |actions| - 1;
      var before := Run(Fresh(running), actions[..n]);
      Taken(running, actions[..n]) + Brought(before, Step(before, actions[n]))
  }

  function FirstPlaces(n: nat): seq<nat> {
    seq(n, i => i)
  }

  lemma StepTakes(s: State, a: Action)
    requires Invariant(s)
    ensures var t := Step(s, a);
            FirstPlaces(s.counted + InHand(s)) + Brought(s, t) == FirstPlaces(t.counted + InHand(t))
  {
  }

  /** Lines leave the queue in the order they were queued, none passed over and none twice. */
  lemma {:induction false} LinesLeaveInOrder(running: bool, actions: seq<Action>)
    ensures var s := Run(Fresh(running), actions);
            Taken(running, actions) == FirstPlaces(s.counted + InHand(s))
  {
    if actions != [] {
      var n := |actions| - 1;
      LinesLeaveInOrder(running, actions[..n]);
      RunKeepsInvariant(running, actions[..n]);
      StepTakes(Run(Fresh(running), actions[..n]), actions[n]);
    }
  }

  // ---- every flush is answered ------------------------------------------------------------------

  /** A flush asked for is answered, in the writer's hand or on the queue. */
  ghost predicate Waiting(s: State) {
    forall id | id in s.marks :: id in s.answered || Flush(id) in Pending(s)
  }

  lemma StepWaits(s: State, a: Action)
    requires Waiting(s)
    ensures Waiting(Step(s, a))
  {
    var t := Step(s, a);
    forall id | id in t.marks ensures id in t.answered || Flush(id) in Pending(t) {
      if id in s.marks && id !in s.answered {
        var i :| 0 <= i < |Pending(s)| && Pending(s)[i] == Flush(id);
        PendingStays(s, a, i);
      } else if id !in s.marks {
        assert Pending(t)[|Pending(t)| - 1] == Flush(id);
      }
    }
  }

  /** What is pending stays so, in its place or one nearer, or is finished with. */
  lemma PendingStays(s: State, a: Action, i: nat)
    requires i < |Pending(s)|
    ensures var t := Step(s, a);
            if a.Finish? && s.hand.Some?
            then if i == 0 then t.hand.None? else i - 1 < |Pending(t)| && Pending(t)[i - 1] == Pending(s)[i]
            else i < |Pending(t)| && Pending(t)[i] == Pending(s)[i]
  {
  }

  lemma {:induction false} RunWaits(running: bool, actions: seq<Action>)
    ensures Waiting(Run(Fresh(running), actions))
  {
    if actions != [] {
      RunWaits(running, actions[..|actions| - 1]);
      StepWaits(Run(Fresh(running), actions[..|actions| - 1]), actions[|actions| - 1]);
    }
  }

  /** This action of the run asked for the flush with room on the queue of a running writer. */
  predicate Asks(running: bool, actions: seq<Action>, id: nat, n: nat) {
    n < |actions| && actions[n] == AskFlush(id) && HasRoom(Run(Fresh(running), actions[..n]))
  }

  lemma AsksEarlier(running: bool, actions: seq<Action>, id: nat, n: nat)
    requires actions != [] && n < |actions| - 1
    ensures Asks(running, actions, id, n) <==> Asks(running, actions[..|actions| - 1], id, n)
  {
    assert actions[..|actions| - 1][..n] == actions[..n];
  }

  lemma StepMarks(s: State, a: Action, id: nat)
    ensures id in Step(s, a).marks <==> id in s.marks || (a == AskFlush(id) && HasRoom(s))
  {
  }

  /** A flush is on its way if and only if it was asked for with room on a running writer's queue. */
  lemma {:induction false} FlushesAsked(running: bool, actions: seq<Action>, id: nat)
    ensures id in Run(Fresh(running), actions).marks <==> exists n: nat :: Asks(running, actions, id, n)
  {
    if actions != [] {
      var last := |actions| - 1;
      var prefix := actions[..last];
      FlushesAsked(running, prefix, id);
      StepMarks(Run(Fresh(running), prefix), actions[last], id);
      forall n: nat | n < last ensures Asks(running, actions, id, n) <==> Asks(running, prefix, id, n) {
        AsksEarlier(running, actions, id, n);
      }
      assert Asks(running, actions, id, last) <==>
             actions[last] == AskFlush(id) && HasRoom(Run(Fresh(running), prefix));
    }
  }

  /** The writer taking one message after another, if it holds none, with these outcomes. */
  function Drained(s: State, oks: seq<bool>): State
    decreases |oks|
  {
    if oks == [] then s else Drained(Step(Step(s, Take), Finish(oks[0])), oks[1..])
  }

  lemma DrainTurn(s: State, ok: bool)
    requires s.running && Invariant(s) && Waiting(s) && Pending(s) != []
    ensures var t := Step(Step(s, Take), Finish(ok));
            && t.running && Invariant(t) && Waiting(t) && t.marks == s.marks && t.queued == s.queued
            && |Pending(t)| == |Pending(s)| - 1
  {
    StepKeepsInvariant(s, Take);
    StepKeepsInvariant(Step(s, Take), Finish(ok));
    StepWaits(s, Take);
    StepWaits(Step(s, Take), Finish(ok));
  }

  lemma {:induction false} DrainEmpties(s: State, oks: seq<bool>)
    requires s.running && Invariant(s) && Waiting(s) && |oks| == |Pending(s)|
    ensures var end := Drained(s, oks);
            && Pending(end) == [] && Invariant(end) && Waiting(end) && end.marks == s.marks && end.queued == s.queued
    decreases |oks|
  {
    if oks != [] {
      DrainTurn(s, oks[0]);
      DrainEmpties(Step(Step(s, Take), Finish(oks[0])), oks[1..]);
    }
  }

  /** From every state a run reaches, a writer that goes on, however its writes fare, counts every
      line queued and answers every flush asked for. */
  lemma EveryFlushIsAnswered(actions: seq<Action>, oks: seq<bool>)
    requires |oks| == |Pending(Run(Fresh(true), actions))|
    ensures var s := Run(Fresh(true), actions);
            var end := Drained(s, oks);
            && end.queue == [] && end.hand == None && end.counted == end.queued == s.queued
            && forall id | id in s.marks :: id in end.answered
  {
    CountersCount(true, actions);
    RunKeepsInvariant(true, actions);
    RunWaits(true, actions);
    DrainEmpties(Run(Fresh(true), actions), oks);
    LinesPending(Drained(Run(Fresh(true), actions), oks));
  }
}
