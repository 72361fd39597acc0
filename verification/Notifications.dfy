/** The queue between the node's notifications and the server's main loop. */
module Notifications {
  /**
   * arrived and handled list notifications in order; senders counts the goroutines that wait to signal the main
   * loop; received is set between the main loop's receive and its locked dequeue.
   */
  datatype State<T> = State(queue: seq<T>, senders: nat, received: bool, cancelled: bool,
                            arrived: seq<T>, handled: seq<T>, emptyHits: nat)

  datatype Step<T> =
    | Arrive(ntfn: T)     // a callback appends under the lock and starts a sender
    | Receive             // the main loop receives from one sender
    | Dequeue             // the main loop takes the lock and removes the first notification, if there is one
    | Cancel              // the context is cancelled
    | GiveUp              // a sender sees the cancelled context and ends

  function Init<T>(): State<T> {
    State([], 0, false, false, [], [], 0)
  }

  predicate Enabled<T>(s: State<T>, step: Step<T>) {
    match step
    case Arrive(_) => true
    case Receive => !s.received && s.senders > 0
    case Dequeue => s.received
    case Cancel => true
    case GiveUp => s.cancelled && s.senders > 0
  }

  function Next<T>(s: State<T>, step: Step<T>): State<T>
    requires Enabled(s, step)
  {
    match step
    case Arrive(n) => s.(queue := s.queue + [n], arrived := s.arrived + [n], senders := s.senders + 1)
    case Receive => s.(received := true, senders := s.senders - 1)
    case Dequeue =>
      if |s.queue| == 0 then s.(received := false, emptyHits := s.emptyHits + 1)
      else s.(received := false, handled := s.handled + [s.queue[0]], queue := Shifted(s.queue))
    case Cancel => s.(cancelled := true)
    case GiveUp => s.(senders := s.senders - 1)
  }

  /** Shifting in place: copy down by one, then cut off the last element. */
  function Shifted<T>(queue: seq<T>): seq<T>
    requires |queue| > 0
  {
    var copied := if |queue| > 1 then queue[1..] + [queue[|queue| - 1]] else queue;
    copied[..|queue| - 1]
  }

  lemma ShiftedIsTail<T>(queue: seq<T>)
    requires |queue| > 0
    ensures Shifted(queue) == queue[1..]
  {
  }

  /** Until cancellation there are exactly as many pending wake-ups as queued notifications, and never more. */
  ghost predicate Invariant<T>(s: State<T>) {
    && s.arrived == s.handled + s.queue
    && s.senders + (if s.received then 1 else 0) <= |s.queue|
    && (!s.cancelled ==> s.senders + (if s.received then 1 else 0) == |s.queue|)
    && s.emptyHits == 0
  }

  lemma Arrives<T>(handled: seq<T>, queue: seq<T>, ntfn: T)
    ensures handled + queue + [ntfn] == handled + (queue + [ntfn])
  {
  }

  lemma Dequeues<T>(handled: seq<T>, queue: seq<T>)
    requires |queue| > 0
    ensures handled + [queue[0]] + queue[1..] == handled + queue
  {
  }

  lemma NextInvariant<T>(s: State<T>, step: Step<T>)
    requires Invariant(s) && Enabled(s, step)
    ensures Invariant(Next(s, step))
  {
    match step {
      case Arrive(n) =>
        Arrives(s.handled, s.queue, n);
      case Dequeue =>
        hide Shifted;
        ShiftedIsTail(s.queue);
        Dequeues(s.handled, s.queue);
      case _ =>
    }
  }

  ghost predicate Trace<T>(states: seq<State<T>>, steps: seq<Step<T>>) {
    && |states| == |steps| + 1
    && states[0] == Init()
    && forall i | 0 <= i < |steps| :: Enabled(states[i], steps[i]) && states[i + 1] == Next(states[i], steps[i])
  }

  lemma {:induction false} TraceInvariant<T>(states: seq<State<T>>, steps: seq<Step<T>>, i: nat)
    requires Trace(states, steps) && i < |states|
    ensures Invariant(states[i])
  {
    if i == 0 {
      assert Init<T>().handled + Init<T>().queue == [];
    } else {
      TraceInvariant(states, steps, i - 1);
      NextInvariant(states[i - 1], steps[i - 1]);
    }
  }

  /** The context counts as cancelled from the first cancelling step on, and senders only give up after it. */
  lemma {:induction false} CancelledSince<T>(states: seq<State<T>>, steps: seq<Step<T>>, i: nat)
    requires Trace(states, steps) && i < |states|
    ensures states[i].cancelled <==> exists k :: 0 <= k < i && steps[k].Cancel?
    ensures i < |steps| && steps[i].GiveUp? ==> exists k :: 0 <= k < i && steps[k].Cancel?
  {
    if i > 0 {
      CancelledSince(states, steps, i - 1);
      assert states[i] == Next(states[i - 1], steps[i - 1]);
    }
  }

  /**
   * In every interleaving, notifications are handled once each and in arrival order, the empty-queue branch is never
   * taken, and as long as the context lives a non-empty queue means that the main loop will be woken.
   */
  lemma HandledInOrder<T>(states: seq<State<T>>, steps: seq<Step<T>>, i: nat)
    requires Trace(states, steps) && i < |states|
    ensures states[i].handled <= states[i].arrived
    ensures states[i].arrived == states[i].handled + states[i].queue
    ensures states[i].emptyHits == 0
    ensures states[i].received ==> states[i].queue != []
    ensures !states[i].cancelled && states[i].queue != [] ==>
              Enabled(states[i], Receive) || Enabled(states[i], Dequeue)
    ensures !states[i].cancelled && states[i].senders == 0 && !states[i].received ==>
              states[i].handled == states[i].arrived
  {
    TraceInvariant(states, steps, i);
  }
}
