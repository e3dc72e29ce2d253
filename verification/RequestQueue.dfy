/**
  The bounded queue of tool requests, as the atomic steps of any number of threads: each step is one
  critical section of the queue's mutex, or the condition variable releasing a waiting thread. Which
  thread a notification releases is the environment's choice.
 */
module RequestQueueModule {

  type Thread = nat

  datatype ToolRequest = ToolRequest(toolName: string, argsJson: string, clientId: string)

  /**
    `blocked` threads wait on the condition variable; `notified` and `expired` ones were released, by
    a notification (or spuriously) or by their timeout, and have not retaken the mutex yet.
   */
  datatype State = State(queue: seq<ToolRequest>, maxSize: nat,
                         blocked: set<Thread>, notified: set<Thread>, expired: set<Thread>)

  datatype Event =
    | Enqueue(req: ToolRequest, pick: Thread)
    | Dequeue(thread: Thread)
    | Retake(thread: Thread)
    | Release(thread: Thread, timedOut: bool)
    | SetMaxSize(max: nat)
    | Clear

  datatype Outcome = Got(req: ToolRequest) | GaveUp | Waiting

  /** Awake: released, but not yet holding the mutex again. */
  function Awake(s: State): nat {
    |s.notified| + |s.expired|
  }

  predicate Full(s: State) {
    |s.queue| >= s.maxSize
  }

  /** A notification releases some blocked thread, if there is one. */
  function NotifyOne(s: State, pick: Thread): State {
    if s.blocked == {} then s else s.(blocked := s.blocked - {pick}, notified := s.notified + {pick})
  }

  function Leave(s: State, thread: Thread): State {
    s.(notified := s.notified - {thread}, expired := s.expired - {thread})
  }

  /** What a thread holding the mutex in `dequeue` does: take the front, give up, or block (again). */
  function Attempt(s: State, thread: Thread): State {
    if s.queue != [] then Leave(s, thread).(queue := s.queue[1..])
    else if thread in s.expired then Leave(s, thread)
    else Leave(s, thread).(blocked := s.blocked + {thread})
  }

  function AttemptOutcome(s: State, thread: Thread): Outcome {
    if s.queue != [] then Got(s.queue[0]) else if thread in s.expired then GaveUp else Waiting
  }

  function Next(s: State, e: Event): State {
    match e
    case Enqueue(req, pick) => if Full(s) then s else NotifyOne(s.(queue := s.queue + [req]), pick)
    case Dequeue(thread) => Attempt(s, thread)
    case Retake(thread) => Attempt(s, thread)
    case Release(thread, timedOut) =>
      if timedOut then s.(blocked := s.blocked - {thread}, expired := s.expired + {thread})
      else s.(blocked := s.blocked - {thread}, notified := s.notified + {thread})
    case SetMaxSize(max) => s.(maxSize := max)
    case Clear => s.(queue := [])
  }

  /** Only a blocked thread can be released, only an awake one retakes, only an idle one dequeues. */
  predicate Possible(s: State, e: Event) {
    match e
    case Enqueue(req, pick) => s.blocked != {} ==> pick in s.blocked
    case Dequeue(thread) => thread !in s.blocked + s.notified + s.expired
    case Retake(thread) => thread in s.notified + s.expired
    case Release(thread, timedOut) => thread in s.blocked
    case SetMaxSize(max) => true
    case Clear => true
  }

  predicate Separate(s: State) {
    s.blocked !! s.notified !! s.expired
  }

  class RequestQueue {
    var queue: seq<ToolRequest>
    var maxSize: nat
    var blocked: set<Thread>
    var notified: set<Thread>
    var expired: set<Thread>

    function Abs(): State
      reads this
    {
      State(queue, maxSize, blocked, notified, expired)
    }

    constructor ()
      ensures Abs() == State([], 1000, {}, {}, {})
    {
      queue, maxSize := [], 1000;
      blocked, notified, expired := {}, {}, {};
    }

    method Enqueue(req: ToolRequest, pick: Thread) returns (ok: bool)
      requires Possible(Abs(), Event.Enqueue(req, pick))
      modifies this
      ensures Abs() == Next(old(Abs()), Event.Enqueue(req, pick))
      ensures ok <==> !Full(old(Abs()))
    {
      if |queue| >= maxSize {
        return false;
      }
      queue := queue + [req];
      if blocked != {} {
        blocked, notified := blocked - {pick}, notified + {pick};
      }
      return true;
    }

    /** The first critical section of a call, up to returning or blocking. */
    method BeginDequeue(thread: Thread) returns (outcome: Outcome)
      requires Separate(Abs()) && Possible(Abs(), Dequeue(thread))
      modifies this
      ensures Abs() == Next(old(Abs()), Dequeue(thread))
      ensures outcome == AttemptOutcome(old(Abs()), thread)
      ensures outcome != GaveUp
    {
      if queue == [] {
        blocked := blocked + {thread};
        outcome := Waiting;
        assert notified - {thread} == notified && expired - {thread} == expired;
      } else {
        outcome := Got(queue[0]);
        queue := queue[1..];
        assert notified - {thread} == notified && expired - {thread} == expired;
      }
    }

    /** A released thread retakes the mutex and looks at the queue again. */
    method ResumeDequeue(thread: Thread) returns (outcome: Outcome)
      requires Separate(Abs()) && Possible(Abs(), Retake(thread))
      modifies this
      ensures Abs() == Next(old(Abs()), Retake(thread))
      ensures outcome == AttemptOutcome(old(Abs()), thread)
    {
      var timedOut := thread in expired;
      notified, expired := notified - {thread}, expired - {thread};
      if queue != [] {
        outcome := Got(queue[0]);
        queue := queue[1..];
      } else if timedOut {
        outcome := GaveUp;
      } else {
        blocked := blocked + {thread};
        outcome := Waiting;
      }
    }

    method ClearAll()
      modifies this
      ensures Abs() == Next(old(Abs()), Clear)
    {
      while queue != []
        invariant maxSize == old(maxSize) && blocked == old(blocked)
        invariant notified == old(notified) && expired == old(expired)
        decreases |queue|
      {
        queue := queue[1..];
      }
    }

    method SetMax(max: nat)
      modifies this
      ensures Abs() == Next(old(Abs()), SetMaxSize(max))
    {
      maxSize := max;
    }
  }

  // ----------------------------------------------------------------------- runs

  function Run(s: State, events: seq<Event>): State
    decreases |events|
  {
    if events == [] then s else Run(Next(s, events[0]), events[1..])
  }

  predicate Legal(s: State, events: seq<Event>)
    decreases |events|
  {
    events != [] ==> Possible(s, events[0]) && Legal(Next(s, events[0]), events[1..])
  }

  /** While some thread is blocked, every queued request has an awake thread to collect it. */
  predicate NoLostWakeup(s: State) {
    Separate(s) && (s.blocked != {} ==> |s.queue| <= Awake(s))
  }

  lemma ReleaseWakesOne(s: State, thread: Thread, timedOut: bool)
    requires Separate(s) && thread in s.blocked
    ensures var next := Next(s, Release(thread, timedOut));
            Separate(next) && Awake(next) == Awake(s) + 1
  {
    assert thread !in s.notified && thread !in s.expired;
  }

  lemma LeavingSleepsOne(s: State, thread: Thread)
    requires Separate(s)
    ensures Separate(Leave(s, thread))
    ensures Awake(Leave(s, thread)) == if thread in s.notified + s.expired then Awake(s) - 1 else Awake(s)
  {
    if thread in s.notified {
      assert s.expired - {thread} == s.expired;
    } else if thread in s.expired {
      assert s.notified - {thread} == s.notified;
    } else {
      assert s.notified - {thread} == s.notified && s.expired - {thread} == s.expired;
    }
  }

  lemma EnqueueKeepsWakeups(s: State, req: ToolRequest, pick: Thread)
    requires NoLostWakeup(s) && Possible(s, Enqueue(req, pick))
    ensures NoLostWakeup(Next(s, Enqueue(req, pick)))
  {
    if !Full(s) && s.blocked != {} {
      ReleaseWakesOne(s, pick, false);
    }
  }

  lemma AttemptKeepsWakeups(s: State, thread: Thread)
    requires NoLostWakeup(s) && thread !in s.blocked
    ensures NoLostWakeup(Attempt(s, thread))
  {
    LeavingSleepsOne(s, thread);
  }

  lemma StepKeepsWakeups(s: State, e: Event)
    requires NoLostWakeup(s) && Possible(s, e)
    ensures NoLostWakeup(Next(s, e))
  {
    if e.Enqueue? {
      EnqueueKeepsWakeups(s, e.req, e.pick);
    } else if e.Dequeue? || e.Retake? {
      AttemptKeepsWakeups(s, e.thread);
      hide Attempt, NoLostWakeup;
    } else if e.Release? {
      ReleaseWakesOne(s, e.thread, e.timedOut);
    }
  }

  /**
    No interleaving loses a wakeup: with timeouts, spurious releases and threads that take a request
    past the awake ones. So once no thread is awake, a non-empty queue means that nobody is blocked.
   */
  lemma {:induction false} RunsKeepWakeups(s: State, events: seq<Event>)
    requires NoLostWakeup(s) && Legal(s, events)
    ensures NoLostWakeup(Run(s, events))
    ensures Awake(Run(s, events)) == 0 ==> Run(s, events).queue == [] || Run(s, events).blocked == {}
    decreases |events|
  {
    if events != [] {
      StepKeepsWakeups(s, events[0]);
      RunsKeepWakeups(Next(s, events[0]), events[1..]);
    }
  }

  // --------------------------------------------------------------- conservation

  function AcceptedBy(s: State, e: Event): seq<ToolRequest> {
    if e.Enqueue? && !Full(s) then [e.req] else []
  }

  /** The requests a step hands to its caller or throws away. */
  function RemovedBy(s: State, e: Event): seq<ToolRequest> {
    match e
    case Dequeue(thread) => Handed(AttemptOutcome(s, thread))
    case Retake(thread) => Handed(AttemptOutcome(s, thread))
    case Clear => s.queue
    case _ => []
  }

  function Handed(outcome: Outcome): seq<ToolRequest> {
    if outcome.Got? then [outcome.req] else []
  }

  function Accepted(s: State, events: seq<Event>): seq<ToolRequest>
    decreases |events|
  {
    if events == [] then [] else AcceptedBy(s, events[0]) + Accepted(Next(s, events[0]), events[1..])
  }

  function Removed(s: State, events: seq<Event>): seq<ToolRequest>
    decreases |events|
  {
    if events == [] then [] else RemovedBy(s, events[0]) + Removed(Next(s, events[0]), events[1..])
  }

  lemma StepConserves(s: State, e: Event)
    ensures RemovedBy(s, e) + Next(s, e).queue == s.queue + AcceptedBy(s, e)
  {
  }

  /** Nothing is lost, invented, repeated or reordered: what left the queue, then the queue, is what went in. */
  lemma {:induction false} RunsConserve(s: State, events: seq<Event>)
    ensures Removed(s, events) + Run(s, events).queue == s.queue + Accepted(s, events)
    decreases |events|
  {
    if events != [] {
      var e := events[0];
      var next, rest := Next(s, e), events[1..];
      StepConserves(s, e);
      RunsConserve(next, rest);
      RegroupQueues(RemovedBy(s, e), Removed(next, rest), Run(next, rest).queue);
      RegroupQueues(RemovedBy(s, e), next.queue, Accepted(next, rest));
      RegroupQueues(s.queue, AcceptedBy(s, e), Accepted(next, rest));
    }
  }

  lemma RegroupQueues(a: seq<ToolRequest>, b: seq<ToolRequest>, c: seq<ToolRequest>)
    ensures a + b + c == a + (b + c)
  {
  }

  // ------------------------------------------------------------------- capacity

  /** The largest capacity in force at any moment of a run. */
  function Widest(s: State, events: seq<Event>): nat
    decreases |events|
  {
    if events == [] then s.maxSize
    else
      var later := Widest(Next(s, events[0]), events[1..]);
      if later > s.maxSize then later else s.maxSize
  }

  /** A queue within its capacity never outgrows the largest capacity it was given. */
  lemma {:induction false} RunsKeepCapacity(s: State, events: seq<Event>, bound: nat)
    requires |s.queue| <= bound && Widest(s, events) <= bound
    ensures |Run(s, events).queue| <= bound
    decreases |events|
  {
    if events != [] {
      RunsKeepCapacity(Next(s, events[0]), events[1..], bound);
    }
  }

  // ---------------------------------------------------------- no refusal without reason

  /** Only requests arrive and blocked threads wake up. */
  predicate OnlyArrivals(events: seq<Event>) {
    forall k | 0 <= k < |events| :: events[k].Enqueue? || events[k].Release?
  }

  function Arriving(events: seq<Event>): seq<ToolRequest>
    decreases |events|
  {
    if events == [] then []
    else (if events[0].Enqueue? then [events[0].req] else []) + Arriving(events[1..])
  }

  function UpTo(reqs: seq<ToolRequest>, n: nat): seq<ToolRequest> {
    if |reqs| <= n then reqs else reqs[..n]
  }

  function Room(s: State): nat {
    if |s.queue| < s.maxSize then s.maxSize - |s.queue| else 0
  }

  lemma OneArrival(s: State, e: Event)
    requires e.Enqueue? || e.Release?
    ensures var next := Next(s, e);
            if e.Enqueue? && Room(s) > 0 then next.queue == s.queue + [e.req] && Room(next) == Room(s) - 1
            else next.queue == s.queue && Room(next) == Room(s)
  {
  }

  lemma OneMore(req: ToolRequest, later: seq<ToolRequest>, queue: seq<ToolRequest>, n: nat)
    ensures (queue + [req]) + UpTo(later, n) == queue + UpTo([req] + later, n + 1)
  {
    assert |later| > n ==> ([req] + later)[..n + 1] == [req] + later[..n];
  }

  /** As many requests as there is room for are accepted, in their order, and no more. */
  lemma {:induction false} ArrivalsFillTheQueue(s: State, events: seq<Event>)
    requires OnlyArrivals(events)
    ensures Run(s, events).queue == s.queue + UpTo(Arriving(events), Room(s))
    decreases |events|
  {
    if events != [] {
      var e, rest := events[0], events[1..];
      assert OnlyArrivals(rest);
      OneArrival(s, e);
      ArrivalsFillTheQueue(Next(s, e), rest);
      if e.Enqueue? && Room(s) > 0 {
        OneMore(e.req, Arriving(rest), s.queue, Room(s) - 1);
        hide UpTo, Room, Next;
      } else {
        assert [] + Arriving(rest) == Arriving(rest);
        hide Next, Room;
      }
    }
  }

  /** The thread stays where its timeout put it until it retakes the mutex itself. */
  lemma {:induction false} StaysExpired(s: State, events: seq<Event>, thread: Thread)
    requires thread in s.expired && Separate(s) && Legal(s, events)
    requires forall k | 0 <= k < |events| :: events[k] != Retake(thread)
    ensures thread in Run(s, events).expired
    decreases |events|
  {
    if events != [] {
      StepKeepsSeparate(s, events[0]);
      StaysExpired(Next(s, events[0]), events[1..], thread);
    }
  }

  lemma StepKeepsSeparate(s: State, e: Event)
    requires Separate(s) && Possible(s, e)
    ensures Separate(Next(s, e))
  {
  }

  /**
    A thread whose wait timed out does not wait again, whatever happens until it has the mutex: it takes
    the front of the queue, or gives up if that is empty.
   */
  lemma TimedOutReturns(s: State, thread: Thread, events: seq<Event>)
    requires Separate(s) && Possible(s, Release(thread, true)) && Legal(s, [Release(thread, true)] + events)
    requires forall k | 0 <= k < |events| :: events[k] != Retake(thread)
    ensures var after := Run(s, [Release(thread, true)] + events);
            AttemptOutcome(after, thread) == if after.queue == [] then GaveUp else Got(after.queue[0])
  {
    var all := [Release(thread, true)] + events;
    assert all[0] == Release(thread, true) && all[1..] == events;
    StepKeepsSeparate(s, all[0]);
    StaysExpired(Next(s, all[0]), events, thread);
  }

  /** The capacity in force is the one set last. */
  function LastSet(max: nat, events: seq<Event>): nat
    decreases |events|
  {
    if events == [] then max
    else LastSet(if events[0].SetMaxSize? then events[0].max else max, events[1..])
  }

  lemma {:induction false} CapacityIsLastSet(s: State, events: seq<Event>)
    ensures Run(s, events).maxSize == LastSet(s.maxSize, events)
    decreases |events|
  {
    if events != [] {
      CapacityIsLastSet(Next(s, events[0]), events[1..]);
    }
  }
}
