/** The queue between the API and the audit writer (`audit.rs` `record`, `flush`, `run`):
    recorders, flushers and the one writer, interleaved in any way. */
module AuditQueue {
  import opened JsonValue

  const QUEUE_LINES := 4096

  /** A line carries its place among the lines ever queued. */
  datatype Message = Line(place: nat) | Flush(id: nat)

  /** `recorded` counts the events handed to `record`, `queued` the lines put on the queue,
      `counted` those the writer has written or counted as failed. `marks` holds, for each
      flush, how many lines were queued before it. */
  datatype State = State(
    running: bool, queue: seq<Message>, hand: Option<Message>,
    written: nat, writeFailures: nat, dropped: nat,
    recorded: nat, queued: nat, counted: nat, marks: map<nat, nat>, answered: set<nat>)

  datatype Action =
    | Record(rendered: bool)
    | AskFlush(id: nat)
    | Take
    | Finish(ok: bool)

  function Recorded(s: State, rendered: bool): State {
    var t := s.(recorded := s.recorded + 1);
    if !rendered then t.(writeFailures := s.writeFailures + 1)
    else if s.running && |s.queue| < QUEUE_LINES then t.(queue := s.queue + [Line(s.queued)], queued := s.queued + 1)
    else t.(dropped := s.dropped + 1)
  }

  function Finished(s: State, ok: bool): State
    requires s.hand.Some?
  {
    match s.hand.value
    case Line(_) =>
      var t := s.(hand := None, counted := s.counted + 1);
      if ok then t.(written := s.written + 1) else t.(writeFailures := s.writeFailures + 1)
    case Flush(id) => s.(hand := None, answered := s.answered + {id})
  }

  /** A step that is not enabled leaves the state as it is: a flush waits for room on the
      queue, the writer for a message. */
  function Step(s: State, a: Action): State {
    match a
    case Record(rendered) => Recorded(s, rendered)
    case AskFlush(id) =>
      if s.running && id !in s.marks && |s.queue| < QUEUE_LINES
      then s.(queue := s.queue + [Flush(id)], marks := s.marks[id := s.queued])
      else s
    case Take =>
      if s.running && s.hand.None? && s.queue != [] then s.(hand := Some(s.queue[0]), queue := s.queue[1..]) else s
    case Finish(ok) => if s.hand.Some? then Finished(s, ok) else s
  }

  function Run(s: State, actions: seq<Action>): State {
    if actions == [] then s else Step(Run(s, actions[..|actions| - 1]), actions[|actions| - 1])
  }

  function Fresh(running: bool): State {
    State(running, [], None, 0, 0, 0, 0, 0, 0, map[], {})
  }

  function Lines(queue: seq<Message>): nat {
    if queue == [] then 0 else (if queue[0].Line? then 1 else 0) + Lines(queue[1..])
  }

  function InHand(s: State): nat {
    if s.hand.Some? && s.hand.value.Line? then 1 else 0
  }

  /** From place `at` on: the lines carry consecutive places, and a flush stands behind
      exactly the lines queued before it. */
  ghost predicate InOrder(queue: seq<Message>, at: nat, marks: map<nat, nat>) {
    queue == [] ||
    match queue[0]
    case Line(place) => place == at && InOrder(queue[1..], at + 1, marks)
    case Flush(id) => id in marks && marks[id] == at && InOrder(queue[1..], at, marks)
  }

  /** The message in the writer's hand, then the queue. */
  function Pending(s: State): seq<Message> {
    if s.hand.Some? then [s.hand.value] + s.queue else s.queue
  }

  ghost predicate Invariant(s: State) {
    && |s.queue| <= QUEUE_LINES
    && s.recorded == s.written + s.writeFailures + s.dropped + Lines(s.queue) + InHand(s)
    && s.queued == s.counted + InHand(s) + Lines(s.queue)
    && InOrder(Pending(s), s.counted, s.marks)
    && (forall id | id in s.answered :: id in s.marks && s.marks[id] <= s.counted)
  }

  lemma {:induction false} QueueGrows(queue: seq<Message>, m: Message, at: nat,
                                      marks: map<nat, nat>, more: map<nat, nat>)
    requires InOrder(queue, at, marks)
    requires forall id | id in marks :: id in more && more[id] == marks[id]
    requires m == Line(at + Lines(queue)) || (m.Flush? && m.id in more && more[m.id] == at + Lines(queue))
    ensures InOrder(queue + [m], at, more)
    ensures Lines(queue + [m]) == Lines(queue) + if m.Line? then 1 else 0
  {
    if queue == [] {
      assert (queue + [m])[1..] == [];
    } else {
      assert (queue + [m])[0] == queue[0] && (queue + [m])[1..] == queue[1..] + [m];
      QueueGrows(queue[1..], m, if queue[0].Line? then at + 1 else at, marks, more);
    }
  }

  lemma {:induction false} LinesAppend(queue: seq<Message>, m: Message)
    ensures Lines(queue + [m]) == Lines(queue) + if m.Line? then 1 else 0
  {
    if queue == [] {
      assert (queue + [m])[1..] == [];
    } else {
      assert (queue + [m])[0] == queue[0] && (queue + [m])[1..] == queue[1..] + [m];
      LinesAppend(queue[1..], m);
    }
  }

  lemma LinesPending(s: State)
    ensures Lines(Pending(s)) == InHand(s) + Lines(s.queue)
  {
    if s.hand.Some? {
      assert Pending(s)[1..] == s.queue;
    }
  }

  lemma EnqueueKeepsOrder(s: State, m: Message, more: map<nat, nat>)
    requires Invariant(s)
    requires forall id | id in s.marks :: id in more && more[id] == s.marks[id]
    requires m == Line(s.queued) || (m.Flush? && m.id in more && more[m.id] == s.queued)
    ensures InOrder(Pending(s.(queue := s.queue + [m])), s.counted, more)
    ensures Lines(s.queue + [m]) == Lines(s.queue) + if m.Line? then 1 else 0
  {
    LinesPending(s);
    LinesAppend(s.queue, m);
    QueueGrows(Pending(s), m, s.counted, s.marks, more);
    assert Pending(s.(queue := s.queue + [m])) == Pending(s) + [m];
  }

  lemma StepKeepsInvariant(s: State, a: Action)
    requires Invariant(s)
    ensures Invariant(Step(s, a))
  {
    match a
    case Record(_) => EnqueueKeepsOrder(s, Line(s.queued), s.marks);
    case AskFlush(id) =>
      if id !in s.marks {
        EnqueueKeepsOrder(s, Flush(id), s.marks[id := s.queued]);
      }
    case Take =>
      if s.hand.None? && s.queue != [] {
        assert [s.queue[0]] + s.queue[1..] == s.queue;
      }
    case Finish(_) =>
      if s.hand.Some? {
        assert Pending(s)[1..] == s.queue;
      }
  }

  lemma {:induction false} RunKeepsInvariant(running: bool, actions: seq<Action>)
    ensures Invariant(Run(Fresh(running), actions))
  {
    if actions != [] {
      RunKeepsInvariant(running, actions[..|actions| - 1]);
      StepKeepsInvariant(Run(Fresh(running), actions[..|actions| - 1]), actions[|actions| - 1]);
    }
  }

  /** In every interleaving, each event handed over is written, failed, dropped, on the
      queue or in the writer's hand, and the queue never holds more than it may. */
  lemma EventsAreAccounted(running: bool, actions: seq<Action>)
    ensures var s := Run(Fresh(running), actions);
            && s.recorded == s.written + s.writeFailures + s.dropped + Lines(s.queue) + InHand(s)
            && |s.queue| <= QUEUE_LINES
  {
    RunKeepsInvariant(running, actions);
  }

  /** When the writer has answered a flush, every line queued before the flush has been
      written or counted as failed: none of them is still pending. */
  lemma FlushWaitsForEarlierLines(running: bool, actions: seq<Action>, id: nat)
    requires id in Run(Fresh(running), actions).answered
    ensures var s := Run(Fresh(running), actions);
            && id in s.marks && s.marks[id] <= s.counted
            && forall m | m in Pending(s) && m.Line? :: s.marks[id] <= m.place
  {
    var s := Run(Fresh(running), actions);
    RunKeepsInvariant(running, actions);
    PlacesFrom(Pending(s), s.counted, s.marks);
  }

  lemma {:induction false} PlacesFrom(queue: seq<Message>, at: nat, marks: map<nat, nat>)
    requires InOrder(queue, at, marks)
    ensures forall m | m in queue && m.Line? :: at <= m.place
  {
    if queue != [] {
      PlacesFrom(queue[1..], if queue[0].Line? then at + 1 else at, marks);
      assert queue == [queue[0]] + queue[1..];
    }
  }
}
