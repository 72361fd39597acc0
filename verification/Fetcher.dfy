/** The parallel block fetcher: workers on unbuffered channels, and a consumer that reads the channels in turn. */
module Fetcher {
  import opened Prelude

  datatype FetchError = AfterTip | Cancelled | OtherError

  /** A worker's reply for the height it asked the node for. */
  datatype Reply = Reply(height: int, err: Option<FetchError>)

  /** A worker is about to ask for a height, or waits to hand over the reply for it. */
  datatype Worker = Worker(height: int, reply: Option<Reply>)

  datatype Outcome = Running | Stopped(err: FetchError)

  /** calls holds the replies passed to the callback; workers[r] serves channel r; next is the consumer's height. */
  datatype State = State(start: int, workers: seq<Worker>, next: int, calls: seq<Reply>, outcome: Outcome)

  /** One atomic step of some goroutine. */
  datatype Step =
    | Answer(worker: nat, err: Option<FetchError>)           // the node answers a worker's request
    | HandOver(callbackErr: Option<FetchError>)             // the consumer receives from channel next % concurrency
    | Cancel                                                // the context is cancelled while the consumer waits

  /** The worker loop sets up channel i % concurrency for every i from start on. */
  method Setup(start: nat, concurrency: nat) returns (s: State)
    requires concurrency >= 1
    ensures Init(s, start, concurrency)
  {
    var workers := seq(concurrency, _ => Worker(start, None));
    for i := start to start + concurrency
      invariant |workers| == concurrency
      invariant forall j | start <= j < i :: 0 <= j % concurrency < concurrency
      invariant forall j | start <= j < i :: workers[j % concurrency] == Worker(j, None)
    {
      WindowDistinct(start, i, concurrency);
      DivModIs(i - start, concurrency, 0, i - start);
      workers := workers[i % concurrency := Worker(start + (i - start) % concurrency, None)];
    }
    s := State(start, workers, start, [], Running);
  }

  lemma WindowDistinct(start: int, i: int, c: nat)
    requires c >= 1 && start <= i < start + c
    ensures 0 <= i % c < c
    ensures forall j | start <= j < i :: j % c != i % c
  {
    forall j | start <= j < i ensures j % c != i % c {
      if j % c == i % c {
        ModUnique(j, i, c);
      }
    }
  }

  ghost predicate Init(s: State, start: nat, concurrency: nat) {
    && concurrency >= 1 && |s.workers| == concurrency
    && s.start == start && s.next == start && s.calls == [] && s.outcome == Running
    && forall j | start <= j < start + concurrency :: s.workers[j % concurrency] == Worker(j, None)
  }

  function Channel(s: State): nat
    requires |s.workers| >= 1 && s.next >= 0
  {
    s.next % |s.workers|
  }

  ghost predicate Enabled(s: State, step: Step) {
    match step
    case Answer(w, _) => w < |s.workers| && s.workers[w].reply.None?
    case HandOver(_) => |s.workers| >= 1 && s.next >= 0 && s.outcome.Running? && s.workers[Channel(s)].reply.Some?
    case Cancel => s.outcome.Running?
  }

  function Next(s: State, step: Step): State
    requires Enabled(s, step)
  {
    match step
    case Answer(w, err) =>
      var worker := s.workers[w];
      s.(workers := s.workers[w := worker.(reply := Some(Reply(worker.height, err)))])
    case HandOver(callbackErr) =>
      var r := Channel(s);
      var worker := s.workers[r];
      var reply := worker.reply.value;
      var moved := s.workers[r := Worker(worker.height + |s.workers|, None)];
      if reply.err.Some? then s.(workers := moved, next := s.next + 1, outcome := Stopped(reply.err.value))
      else s.(workers := moved, next := s.next + 1, calls := s.calls + [reply],
              outcome := if callbackErr.Some? then Stopped(callbackErr.value) else Running)
    case Cancel => s.(outcome := Stopped(Cancelled))
  }

  lemma ModUnique(x: int, y: int, c: nat)
    requires c >= 1 && x % c == y % c && x <= y < x + c
    ensures x == y
  {
    assert x == c * (x / c) + x % c && y == c * (y / c) + y % c;
    assert y - x == c * (y / c - x / c);
    SmallMultiple(c, y / c - x / c);
  }

  lemma ModShift(x: int, c: nat)
    requires c >= 1
    ensures (x + c) % c == x % c
  {
    var q, r := x / c, x % c;
    assert x + c == c * (q + 1) + r;
    DivModIs(x + c, c, q + 1, r);
  }

  lemma DivModIs(x: int, c: nat, q: int, r: int)
    requires c >= 1 && x == c * q + r && 0 <= r < c
    ensures x % c == r
  {
    var q', r' := x / c, x % c;
    assert c * (q - q') == r' - r;
    SmallMultiple(c, q - q');
  }

  /** Channel r is served, in the window of heights not yet consumed, by the worker for heights equal to r modulo c. */
  ghost predicate Invariant(s: State) {
    && |s.workers| >= 1
    && 0 <= s.start <= s.next
    && (forall r | 0 <= r < |s.workers| ::
          && s.workers[r].height % |s.workers| == r
          && s.next <= s.workers[r].height < s.next + |s.workers|
          && (s.workers[r].reply.Some? ==> s.workers[r].reply.value.height == s.workers[r].height))
    && (forall k | 0 <= k < |s.calls| :: s.calls[k].height == s.start + k && s.calls[k].err.None?)
    && (if s.outcome.Running? then s.next == s.start + |s.calls|
        else s.start + |s.calls| <= s.next <= s.start + |s.calls| + 1)
  }

  lemma InitInvariant(s: State, start: nat, concurrency: nat)
    requires Init(s, start, concurrency)
    ensures Invariant(s)
  {
    forall r | 0 <= r < concurrency
      ensures s.workers[r].height % concurrency == r && start <= s.workers[r].height < start + concurrency
      ensures s.workers[r].reply.None?
    {
      var j := start + (r - start) % concurrency;
      WindowHas(start, r, concurrency);
      assert s.workers[j % concurrency] == Worker(j, None);
    }
  }

  lemma WindowHas(start: int, r: nat, c: nat)
    requires c >= 1 && r < c
    ensures (start + (r - start) % c) % c == r
  {
    var d := (r - start) % c;
    var q := (r - start) / c;
    assert r - start == c * q + d;
    assert start + d == c * (-q) + r;
    DivModIs(start + d, c, -q, r);
  }

  lemma NextInvariant(s: State, step: Step)
    requires Invariant(s) && Enabled(s, step)
    ensures Invariant(Next(s, step))
  {
    if step.HandOver? {
      var c, r := |s.workers|, Channel(s);
      ModUnique(s.next, s.workers[r].height, c);
      ModShift(s.workers[r].height, c);
      forall q | 0 <= q < c && q != r ensures s.workers[q].height != s.next {
      }
    }
  }

  ghost predicate Trace(states: seq<State>, steps: seq<Step>) {
    && |states| == |steps| + 1
    && forall i | 0 <= i < |steps| :: Enabled(states[i], steps[i]) && states[i + 1] == Next(states[i], steps[i])
  }

  lemma {:induction false} TraceInvariant(states: seq<State>, steps: seq<Step>, i: nat)
    requires Trace(states, steps) && Invariant(states[0]) && i < |states|
    ensures Invariant(states[i])
  {
    if i > 0 {
      TraceInvariant(states, steps, i - 1);
      NextInvariant(states[i - 1], steps[i - 1]);
    }
  }

  lemma {:induction false} StoppedStays(states: seq<State>, steps: seq<Step>, i: nat, j: nat)
    requires Trace(states, steps) && i <= j < |states| && states[i].outcome.Stopped?
    ensures states[j].calls == states[i].calls && states[j].outcome == states[i].outcome
  {
    if i < j {
      StoppedStays(states, steps, i, j - 1);
      assert Enabled(states[j - 1], steps[j - 1]);
    }
  }

  /**
   * In every interleaving the k-th callback gets the reply for height start + k, and none comes after the first error.
   */
  lemma DeliversInOrder(states: seq<State>, steps: seq<Step>, start: nat, concurrency: nat, i: nat, j: nat)
    requires Trace(states, steps) && Init(states[0], start, concurrency) && i <= j < |states|
    ensures forall k | 0 <= k < |states[j].calls| ::
              states[j].calls[k].height == start + k && states[j].calls[k].err.None?
    ensures states[i].outcome.Stopped? ==> states[j].calls == states[i].calls
    ensures states[j].start == start
  {
    InitInvariant(states[0], start, concurrency);
    TraceInvariant(states, steps, j);
    StartFixed(states, steps, j);
    if states[i].outcome.Stopped? {
      StoppedStays(states, steps, i, j);
    }
  }

  lemma {:induction false} StartFixed(states: seq<State>, steps: seq<Step>, i: nat)
    requires Trace(states, steps) && i < |states|
    ensures states[i].start == states[0].start
  {
    if i > 0 {
      StartFixed(states, steps, i - 1);
      assert states[i] == Next(states[i - 1], steps[i - 1]);
    }
  }

  /** The reply the consumer receives in a hand-over. */
  ghost function Received(s: State): Reply
    requires Enabled(s, HandOver(None))
  {
    s.workers[s.next % |s.workers|].reply.value
  }

  /** The error with which a step ends the loop: the reply's, else the callback's, or the cancellation. */
  ghost function EndedBy(s: State, step: Step): Option<FetchError>
    requires Enabled(s, step)
  {
    match step
    case Answer(_, _) => None
    case Cancel => Some(Cancelled)
    case HandOver(callbackErr) =>
      match Received(s).err
      case Some(e) => Some(e)
      case None => callbackErr
  }

  /** A reply waiting on a channel is what the node answered, on that channel and for that height. */
  lemma {:induction false} RepliesAreAnswers(states: seq<State>, steps: seq<Step>, start: nat, concurrency: nat,
                                             i: nat, w: nat)
    requires Trace(states, steps) && Init(states[0], start, concurrency) && i < |states|
    requires w < |states[i].workers| && states[i].workers[w].reply.Some?
    ensures exists k :: 0 <= k < i && w < |states[k].workers| &&
                        var reply := states[i].workers[w].reply.value;
                        steps[k] == Answer(w, reply.err) && states[k].workers[w].height == reply.height
  {
    if i == 0 {
      InitInvariant(states[0], start, concurrency);
      WindowHas(start, w, concurrency);
    } else {
      var s, step := states[i - 1], steps[i - 1];
      assert Enabled(s, step) && states[i] == Next(s, step);
      if !(step.Answer? && step.worker == w) {
        RepliesAreAnswers(states, steps, start, concurrency, i - 1, w);
      }
    }
  }

  /**
   * A running loop ends with the first failed reply, failed callback or cancellation, and carries that error; nothing
   * else ends it, and no callback follows. The callback is called with every reply received without an error.
   */
  lemma StopsAtError(states: seq<State>, steps: seq<Step>, i: nat, j: nat)
    requires Trace(states, steps) && i < |steps| && i < j < |states| && states[i].outcome.Running?
    ensures Enabled(states[i], steps[i])
    ensures EndedBy(states[i], steps[i]).Some? ==>
              && states[j].outcome == Stopped(EndedBy(states[i], steps[i]).value)
              && states[j].calls == states[i + 1].calls
    ensures EndedBy(states[i], steps[i]).None? ==> states[i + 1].outcome.Running?
    ensures states[i + 1].calls ==
            if steps[i].HandOver? && Received(states[i]).err.None? then states[i].calls + [Received(states[i])]
            else states[i].calls
  {
    assert states[i + 1] == Next(states[i], steps[i]);
    if states[i + 1].outcome.Stopped? {
      StoppedStays(states, steps, i + 1, j);
    }
  }

  /** While the consumer runs, the channel it waits on is served by the worker for exactly the awaited height. */
  lemma AwaitedHeightIsServed(states: seq<State>, steps: seq<Step>, start: nat, concurrency: nat, i: nat)
    requires Trace(states, steps) && Init(states[0], start, concurrency) && i < |states|
    requires states[i].outcome.Running?
    ensures var s := states[i];
            && |s.workers| >= 1 && s.next == start + |s.calls|
            && s.workers[Channel(s)].height == s.next
            && (Enabled(s, HandOver(None)) || Enabled(s, Answer(Channel(s), None)))
  {
    InitInvariant(states[0], start, concurrency);
    TraceInvariant(states, steps, i);
    StartFixed(states, steps, i);
    var s := states[i];
    ModUnique(s.next, s.workers[Channel(s)].height, |s.workers|);
  }
}
