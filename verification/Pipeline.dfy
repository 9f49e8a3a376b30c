/** The publisher's goroutines, one step at a time: the backward syncer's producer and workers, the forward
    syncer, and `Publisher.Run`, which joins both and then closes the block channel.  A send on a closed
    channel panics.  The schedule is an arbitrary list of actions. */
module Pipeline {

  const BACKWARD_WORKERS: nat := 100
  const WORK_BUFFER: nat := 200
  const BLOCK_BUFFER: nat := 2000

  /** A worker waits for work, fetches a block, or offers its event to the block channel. */
  datatype Worker = Idle | Processing(n: nat) | Sending(n: nat) | Done

  datatype Producer = Generating | Closing | Finished

  /** `Forking` is the send of a fork event, which waits for room and for nothing else; the send of a block
      event also gives up when the run is cancelled. */
  datatype Forward = Absent | Following | Forking | Stopped

  datatype Item = Backward(n: nat) | Ahead

  /** `next` is the number that the producer offers next. */
  datatype State = State(
    producer: Producer,
    next: nat,
    workChan: seq<nat>,
    workClosed: bool,
    workers: seq<Worker>,
    forward: Forward,
    blockChan: seq<Item>,
    blockClosed: bool,
    cancelled: bool,
    panicked: bool)

  datatype Action =
    | Cancel | Receive
    | Produce | StopProducing | JoinWorkers
    | Take(i: nat) | Exit(i: nat) | Fail(i: nat) | Fetched(i: nat) | Emit(i: nat) | Abandon(i: nat)
    | ForwardEmit | ForwardFork | ForkEmit | ForwardStop
    | CloseBlocks

  predicate MoreWork(s: State, minBlock: nat) {
    s.next > minBlock && s.next > 0
  }

  predicate AllDone(ws: seq<Worker>) {
    forall i :: 0 <= i < |ws| ==> ws[i] == Done
  }

  predicate ForwardDone(s: State) {
    s.forward.Absent? || s.forward.Stopped?
  }

  predicate Enabled(s: State, minBlock: nat, a: Action) {
    match a
    case Cancel => true
    case Receive => s.blockChan != []
    case Produce => s.producer.Generating? && MoreWork(s, minBlock) && |s.workChan| < WORK_BUFFER
    case StopProducing => s.producer.Generating? && (!MoreWork(s, minBlock) || s.cancelled)
    case JoinWorkers => s.producer.Closing? && AllDone(s.workers)
    case Take(i) => i < |s.workers| && s.workers[i].Idle? && s.workChan != []
    case Exit(i) => i < |s.workers| && s.workers[i].Idle? && (s.cancelled || (s.workClosed && s.workChan == []))
    case Fail(i) => i < |s.workers| && s.workers[i].Processing?
    case Fetched(i) => i < |s.workers| && s.workers[i].Processing?
    case Emit(i) => i < |s.workers| && s.workers[i].Sending? && |s.blockChan| < BLOCK_BUFFER
    case Abandon(i) => i < |s.workers| && s.workers[i].Sending? && s.cancelled
    case ForwardEmit => s.forward.Following? && |s.blockChan| < BLOCK_BUFFER
    case ForwardFork => s.forward.Following?
    case ForkEmit => s.forward.Forking? && |s.blockChan| < BLOCK_BUFFER
    case ForwardStop => s.forward.Following? && s.cancelled
    case CloseBlocks => s.producer.Finished? && ForwardDone(s) && !s.blockClosed
  }

  function Apply(s: State, minBlock: nat, a: Action): State
    requires Enabled(s, minBlock, a)
  {
    match a
    case Cancel => s.(cancelled := true)
    case Receive => s.(blockChan := s.blockChan[1..])
    case Produce => s.(workChan := s.workChan + [s.next], next := s.next - 1,
                       panicked := s.panicked || s.workClosed)
    case StopProducing => s.(producer := Closing, workClosed := true)
    case JoinWorkers => s.(producer := Finished)
    case Take(i) => s.(workers := s.workers[i := Processing(s.workChan[0])], workChan := s.workChan[1..])
    case Exit(i) => s.(workers := s.workers[i := Done])
    case Fail(i) => s.(workers := s.workers[i := Idle])
    case Fetched(i) => s.(workers := s.workers[i := Sending(s.workers[i].n)])
    case Emit(i) => s.(workers := s.workers[i := Idle], blockChan := s.blockChan + [Backward(s.workers[i].n)],
                       panicked := s.panicked || s.blockClosed)
    case Abandon(i) => s.(workers := s.workers[i := Done])
    case ForwardEmit => s.(blockChan := s.blockChan + [Ahead], panicked := s.panicked || s.blockClosed)
    case ForwardFork => s.(forward := Forking)
    case ForkEmit => s.(forward := Following, blockChan := s.blockChan + [Ahead], panicked := s.panicked || s.blockClosed)
    case ForwardStop => s.(forward := Stopped)
    case CloseBlocks => s.(blockClosed := true)
  }

  function Start(head: nat, forward: bool): State {
    State(Generating, head, [], false, seq(BACKWARD_WORKERS, i => Idle), if forward then Following else Absent,
          [], false, false, false)
  }

  /** A schedule; an action that is not enabled is skipped. */
  function Run(s: State, minBlock: nat, actions: seq<Action>): State
    decreases |actions|
  {
    if actions == [] then s
    else Run(if Enabled(s, minBlock, actions[0]) then Apply(s, minBlock, actions[0]) else s, minBlock, actions[1..])
  }

  /** Whether `k` lies in (low, high]. */
  function InRange(k: nat, low: nat, high: nat): nat {
    if low < k <= high then 1 else 0
  }

  function Holds(w: Worker, k: nat): nat {
    if (w.Processing? || w.Sending?) && w.n == k then 1 else 0
  }

  /** How many workers hold the number `k`. */
  function InFlight(ws: seq<Worker>, k: nat): nat {
    if ws == [] then 0 else Holds(ws[0], k) + InFlight(ws[1..], k)
  }

  lemma {:induction false} InFlightUpdate(ws: seq<Worker>, i: nat, w: Worker, k: nat)
    requires i < |ws|
    ensures InFlight(ws[i := w], k) + Holds(ws[i], k) == InFlight(ws, k) + Holds(w, k)
  {
    if i > 0 {
      assert ws[i := w][1..] == ws[1..][i - 1 := w];
      InFlightUpdate(ws[1..], i - 1, w, k);
    } else {
      assert ws[i := w][1..] == ws[1..];
    }
  }

  /** The places where the number `k` can be: still pending, queued or in flight. */
  function Places(s: State, minBlock: nat, k: nat): nat {
    InRange(k, minBlock, s.next) + multiset(s.workChan)[k] + InFlight(s.workers, k)
  }

  // What a schedule does to one number and to the block channel, told from its actions alone.

  predicate Emits(s: State, a: Action, k: nat) {
    a.Emit? && a.i < |s.workers| && s.workers[a.i] == Sending(k)
  }

  predicate Fails(s: State, a: Action, k: nat) {
    a.Fail? && a.i < |s.workers| && s.workers[a.i] == Processing(k)
  }

  predicate Abandons(s: State, a: Action, k: nat) {
    a.Abandon? && a.i < |s.workers| && s.workers[a.i] == Sending(k)
  }

  /** The number of actions taken, the skipped ones not counted, that satisfy `p` where they are taken. */
  function Times(s: State, minBlock: nat, actions: seq<Action>, p: (State, Action) -> bool): nat
    decreases |actions|
  {
    if actions == [] then 0
    else if !Enabled(s, minBlock, actions[0]) then Times(s, minBlock, actions[1..], p)
    else (if p(s, actions[0]) then 1 else 0) + Times(Apply(s, minBlock, actions[0]), minBlock, actions[1..], p)
  }

  function EmitsOf(k: nat): (State, Action) -> bool { (s: State, a: Action) => Emits(s, a, k) }
  function FailsOf(k: nat): (State, Action) -> bool { (s: State, a: Action) => Fails(s, a, k) }
  function AbandonsOf(k: nat): (State, Action) -> bool { (s: State, a: Action) => Abandons(s, a, k) }
  function ForwardSends(): (State, Action) -> bool { (s: State, a: Action) => a.ForwardEmit? || a.ForkEmit? }

  /** What the subscriber receives, in order. */
  function Received(s: State, minBlock: nat, actions: seq<Action>): seq<Item>
    decreases |actions|
  {
    if actions == [] then []
    else if !Enabled(s, minBlock, actions[0]) then Received(s, minBlock, actions[1..])
    else (if actions[0].Receive? then [s.blockChan[0]] else []) +
         Received(Apply(s, minBlock, actions[0]), minBlock, actions[1..])
  }

  /** Nothing is sent after a close, everything is joined before the block channel closes, no buffer overflows, and
      an uncancelled run loses nothing. */
  predicate Safe(s: State, minBlock: nat) {
    && !s.panicked
    && (s.workClosed <==> !s.producer.Generating?)
    && (s.producer.Finished? ==> AllDone(s.workers))
    && (s.blockClosed ==> s.producer.Finished? && ForwardDone(s))
    && |s.workChan| <= WORK_BUFFER && |s.blockChan| <= BLOCK_BUFFER
    && (!s.cancelled ==>
          && (s.workClosed ==> !MoreWork(s, minBlock))
          && forall i :: 0 <= i < |s.workers| && s.workers[i].Done? ==> s.workClosed && s.workChan == [])
  }

  lemma {:induction false} TakeKeepsPlaces(s: State, minBlock: nat, i: nat, k: nat)
    requires Enabled(s, minBlock, Take(i))
    ensures Places(Apply(s, minBlock, Take(i)), minBlock, k) == Places(s, minBlock, k)
  {
    InFlightUpdate(s.workers, i, Processing(s.workChan[0]), k);
    assert s.workChan == [s.workChan[0]] + s.workChan[1..];
  }

  lemma {:induction false} WorkerKeepsPlaces(s: State, minBlock: nat, a: Action, k: nat)
    requires Enabled(s, minBlock, a) && (a.Exit? || a.Fail? || a.Fetched? || a.Emit? || a.Abandon?)
    ensures Places(s, minBlock, k) ==
            Places(Apply(s, minBlock, a), minBlock, k) +
            if Emits(s, a, k) || Fails(s, a, k) || Abandons(s, a, k) then 1 else 0
  {
    hide InFlight;
    InFlightUpdate(s.workers, a.i, Apply(s, minBlock, a).workers[a.i], k);
  }

  /** A number leaves these places only by being sent, failing, or being abandoned. */
  lemma {:induction false} StepKeepsPlaces(s: State, minBlock: nat, a: Action, k: nat)
    requires Enabled(s, minBlock, a)
    ensures Places(s, minBlock, k) ==
            Places(Apply(s, minBlock, a), minBlock, k) +
            if Emits(s, a, k) || Fails(s, a, k) || Abandons(s, a, k) then 1 else 0
  {
    hide InFlight;
    if a.Take? {
      TakeKeepsPlaces(s, minBlock, a.i, k);
    } else if a.Exit? || a.Fail? || a.Fetched? || a.Emit? || a.Abandon? {
      WorkerKeepsPlaces(s, minBlock, a, k);
    }
  }

  lemma {:induction false} StepKeepsSafe(s: State, minBlock: nat, a: Action)
    requires Safe(s, minBlock) && Enabled(s, minBlock, a)
    ensures Safe(Apply(s, minBlock, a), minBlock)
    ensures |Apply(s, minBlock, a).workers| == |s.workers| && (s.cancelled ==> Apply(s, minBlock, a).cancelled)
  {
  }

  /** In every interleaving no send meets a closed channel, and each number is in one place or was sent, failed or
      abandoned. */
  lemma {:induction false} RunIsSafe(s: State, minBlock: nat, actions: seq<Action>, k: nat)
    requires Safe(s, minBlock)
    ensures var end := Run(s, minBlock, actions);
            && Safe(end, minBlock) && |end.workers| == |s.workers| && (s.cancelled ==> end.cancelled)
            && Places(s, minBlock, k) ==
               Places(end, minBlock, k) + Times(s, minBlock, actions, EmitsOf(k)) +
               Times(s, minBlock, actions, FailsOf(k)) + Times(s, minBlock, actions, AbandonsOf(k))
    decreases |actions|
  {
    hide Safe, Places, Enabled, Apply;
    if actions != [] {
      var a := actions[0];
      if Enabled(s, minBlock, a) {
        StepKeepsSafe(s, minBlock, a);
        StepKeepsPlaces(s, minBlock, a, k);
        RunIsSafe(Apply(s, minBlock, a), minBlock, actions[1..], k);
      } else {
        RunIsSafe(s, minBlock, actions[1..], k);
      }
    }
  }

  /** Only a cancelled run abandons anything. */
  lemma {:induction false} NothingAbandoned(s: State, minBlock: nat, actions: seq<Action>, k: nat)
    ensures !Run(s, minBlock, actions).cancelled ==>
              !s.cancelled && Times(s, minBlock, actions, AbandonsOf(k)) == 0
    decreases |actions|
  {
    if actions != [] {
      var a := actions[0];
      NothingAbandoned(if Enabled(s, minBlock, a) then Apply(s, minBlock, a) else s, minBlock, actions[1..], k);
    }
  }

  /** The item that an action sends, and all that a schedule sends, in order. */
  function SentBy(s: State, a: Action): seq<Item> {
    if a.Emit? && a.i < |s.workers| && s.workers[a.i].Sending? then [Backward(s.workers[a.i].n)]
    else if a.ForwardEmit? || a.ForkEmit? then [Ahead] else []
  }

  function Sent(s: State, minBlock: nat, actions: seq<Action>): seq<Item>
    decreases |actions|
  {
    if actions == [] then []
    else if !Enabled(s, minBlock, actions[0]) then Sent(s, minBlock, actions[1..])
    else SentBy(s, actions[0]) + Sent(Apply(s, minBlock, actions[0]), minBlock, actions[1..])
  }

  lemma {:induction false} StepQueues(s: State, minBlock: nat, a: Action)
    requires Enabled(s, minBlock, a)
    ensures (if a.Receive? then [s.blockChan[0]] else []) + Apply(s, minBlock, a).blockChan ==
            s.blockChan + SentBy(s, a)
  {
    if a.Receive? {
      assert s.blockChan == [s.blockChan[0]] + s.blockChan[1..];
    }
  }

  /** The block channel is a queue: what is received and what is left in it is what was in it and what was sent, in
      that order. */
  lemma {:induction false} ChannelQueues(s: State, minBlock: nat, actions: seq<Action>)
    ensures Received(s, minBlock, actions) + Run(s, minBlock, actions).blockChan ==
            s.blockChan + Sent(s, minBlock, actions)
    decreases |actions|
  {
    hide Apply, SentBy;
    if actions != [] {
      var a := actions[0];
      if Enabled(s, minBlock, a) {
        var s' := Apply(s, minBlock, a);
        StepQueues(s, minBlock, a);
        ChannelQueues(s', minBlock, actions[1..]);
        var head: seq<Item> := if a.Receive? then [s.blockChan[0]] else [];
        Rearrange(head, Received(s', minBlock, actions[1..]), Run(s', minBlock, actions[1..]).blockChan, s'.blockChan,
                  Sent(s', minBlock, actions[1..]), s.blockChan, SentBy(s, a));
      } else {
        ChannelQueues(s, minBlock, actions[1..]);
      }
    }
  }

  lemma {:induction false} Rearrange(head: seq<Item>, got: seq<Item>, end: seq<Item>, q': seq<Item>, later: seq<Item>,
                                     q: seq<Item>, sent: seq<Item>)
    requires got + end == q' + later && head + q' == q + sent
    ensures (head + got) + end == q + (sent + later)
  {
    assert (head + got) + end == head + (got + end);
    assert head + (q' + later) == (head + q') + later;
    assert (q + sent) + later == q + (sent + later);
  }

  lemma {:induction false} SentCounts(s: State, minBlock: nat, actions: seq<Action>, k: nat)
    ensures multiset(Sent(s, minBlock, actions))[Backward(k)] == Times(s, minBlock, actions, EmitsOf(k))
    ensures multiset(Sent(s, minBlock, actions))[Ahead] == Times(s, minBlock, actions, ForwardSends())
    decreases |actions|
  {
    hide Apply, Enabled;
    if actions != [] {
      var a := actions[0];
      if Enabled(s, minBlock, a) {
        SentCounts(Apply(s, minBlock, a), minBlock, actions[1..], k);
        SentByIs(s, minBlock, a, k);
      } else {
        SentCounts(s, minBlock, actions[1..], k);
      }
    }
  }

  lemma {:induction false} SentByIs(s: State, minBlock: nat, a: Action, k: nat)
    requires Enabled(s, minBlock, a)
    ensures multiset(SentBy(s, a))[Backward(k)] == if EmitsOf(k)(s, a) then 1 else 0
    ensures multiset(SentBy(s, a))[Ahead] == if ForwardSends()(s, a) then 1 else 0
  {
  }

  /** What the subscriber has received or will find in the channel: each number as often as it was sent, and one
      item for each send of the forward syncer. */
  lemma {:induction false} Delivered(s: State, minBlock: nat, actions: seq<Action>, k: nat)
    ensures var all := Received(s, minBlock, actions) + Run(s, minBlock, actions).blockChan;
            && multiset(all)[Backward(k)] ==
               multiset(s.blockChan)[Backward(k)] + Times(s, minBlock, actions, EmitsOf(k))
            && multiset(all)[Ahead] == multiset(s.blockChan)[Ahead] + Times(s, minBlock, actions, ForwardSends())
  {
    hide Received, Run, Sent, Times;
    ChannelQueues(s, minBlock, actions);
    SentCounts(s, minBlock, actions, k);
    assert multiset(s.blockChan + Sent(s, minBlock, actions)) == multiset(s.blockChan) + multiset(Sent(s, minBlock, actions));
  }

  lemma {:induction false} IdleHoldsNothing(ws: seq<Worker>, k: nat)
    requires forall i :: 0 <= i < |ws| ==> ws[i].Idle? || ws[i].Done?
    ensures InFlight(ws, k) == 0
  {
    if ws != [] {
      IdleHoldsNothing(ws[1..], k);
    }
  }

  lemma {:induction false} StartIsSafe(minBlock: nat, head: nat, forward: bool, k: nat)
    ensures Safe(Start(head, forward), minBlock) && Places(Start(head, forward), minBlock, k) == InRange(k, minBlock, head)
  {
    IdleHoldsNothing(Start(head, forward).workers, k);
  }

  /** Over every schedule from the start: nothing panics; each number of the range is still in one place, or was
      received or is queued for the subscriber, or failed, or was abandoned, once in all, and no other number ever
      is; and when an uncancelled run has closed the block channel, each number was delivered or failed. */
  lemma {:induction false} EachNumberOnce(minBlock: nat, head: nat, forward: bool, actions: seq<Action>, k: nat)
    ensures var s := Start(head, forward);
            var end := Run(s, minBlock, actions);
            var delivered := multiset(Received(s, minBlock, actions) + end.blockChan)[Backward(k)];
            var failed := Times(s, minBlock, actions, FailsOf(k));
            var abandoned := Times(s, minBlock, actions, AbandonsOf(k));
            && !end.panicked && |end.blockChan| <= BLOCK_BUFFER
            && Places(end, minBlock, k) + delivered + failed + abandoned == InRange(k, minBlock, head)
            && (end.blockClosed && !end.cancelled ==> delivered + failed == InRange(k, minBlock, head))
  {
    hide Run, Received, Times, Places;
    var s := Start(head, forward);
    var end := Run(s, minBlock, actions);
    StartIsSafe(minBlock, head, forward, k);
    RunIsSafe(s, minBlock, actions, k);
    Delivered(s, minBlock, actions, k);
    NothingAbandoned(s, minBlock, actions, k);
    if end.blockClosed && !end.cancelled {
      NoPlaceLeft(end, minBlock, k);
    }
  }

  lemma {:induction false} NoPlaceLeft(s: State, minBlock: nat, k: nat)
    requires Safe(s, minBlock) && s.blockClosed && !s.cancelled && |s.workers| > 0
    ensures Places(s, minBlock, k) == 0
  {
    IdleHoldsNothing(s.workers, k);
    assert s.workers[0].Done?;
  }

  /** The steps that the goroutines take on their own: not the cancellation, the subscriber's receipt, or what
      the chain brings the forward syncer. */
  predicate Internal(a: Action) {
    !a.Cancel? && !a.Receive? && !a.ForwardEmit? && !a.ForwardFork?
  }

  /** Something can always move until the block channel is closed, provided that it has room and that the
      forward syncer, when there is one that follows, has been cancelled. */
  lemma {:induction false} NeverStuck(s: State, minBlock: nat) returns (a: Action)
    requires Safe(s, minBlock) && (s.forward.Following? ==> s.cancelled) && !s.blockClosed
    requires |s.blockChan| < BLOCK_BUFFER && |s.workers| > 0
    ensures Internal(a) && Enabled(s, minBlock, a) && !a.Fail? && !a.Abandon?
  {
    var first := s.workers[0];
    if s.forward.Forking? {
      a := ForkEmit;
    } else if s.forward.Following? {
      a := ForwardStop;
    } else if s.producer.Finished? {
      a := CloseBlocks;
    } else if s.producer.Closing? && AllDone(s.workers) {
      a := JoinWorkers;
    } else if i :| 0 <= i < |s.workers| && (s.workers[i].Processing? || s.workers[i].Sending?) {
      a := if s.workers[i].Processing? then Fetched(i) else Emit(i);
    } else if s.producer.Generating? && (!MoreWork(s, minBlock) || s.cancelled) {
      a := StopProducing;
    } else if i :| 0 <= i < |s.workers| && s.workers[i].Idle? {
      a := if s.workChan != [] then Take(i) else if s.producer.Closing? then Exit(i) else Produce;
    } else {
      assert false;
    }
  }

  function Weight(w: Worker): nat {
    match w case Idle => 1 case Processing(_) => 4 case Sending(_) => 3 case Done => 0
  }

  function Weights(ws: seq<Worker>): nat {
    if ws == [] then 0 else Weight(ws[0]) + Weights(ws[1..])
  }

  lemma {:induction false} WeightsUpdate(ws: seq<Worker>, i: nat, w: Worker)
    requires i < |ws|
    ensures Weights(ws[i := w]) + Weight(ws[i]) == Weights(ws) + Weight(w)
  {
    if i > 0 {
      assert ws[i := w][1..] == ws[1..][i - 1 := w];
      WeightsUpdate(ws[1..], i - 1, w);
    } else {
      assert ws[i := w][1..] == ws[1..];
    }
  }

  function Measure(s: State): nat {
    5 * s.next + 4 * |s.workChan| + Weights(s.workers) +
    (match s.producer case Generating => 2 case Closing => 1 case Finished => 0) +
    (if s.blockClosed then 0 else 1) +
    (match s.forward case Forking => 2 case Following => 1 case _ => 0)
  }

  /** Every internal step uses up a bounded budget. */
  lemma {:induction false} StepsRunOut(s: State, minBlock: nat, a: Action)
    requires Internal(a) && Enabled(s, minBlock, a)
    ensures Measure(Apply(s, minBlock, a)) < Measure(s)
  {
    if a.Take? || a.Exit? || a.Fail? || a.Fetched? || a.Emit? || a.Abandon? {
      WeightsUpdate(s.workers, a.i, Apply(s, minBlock, a).workers[a.i]);
    }
  }

  /** How many actions of a schedule are taken, the skipped ones not counted. */
  function Taken(s: State, minBlock: nat, actions: seq<Action>): nat
    decreases |actions|
  {
    if actions == [] then 0
    else if Enabled(s, minBlock, actions[0]) then 1 + Taken(Apply(s, minBlock, actions[0]), minBlock, actions[1..])
    else Taken(s, minBlock, actions[1..])
  }

  predicate AllInternal(actions: seq<Action>) {
    forall i :: 0 <= i < |actions| ==> Internal(actions[i])
  }

  /** So no schedule, however long, takes more internal steps than the budget. */
  lemma {:induction false} RunsRunOut(s: State, minBlock: nat, actions: seq<Action>)
    requires AllInternal(actions)
    ensures Taken(s, minBlock, actions) + Measure(Run(s, minBlock, actions)) <= Measure(s)
    decreases |actions|
  {
    hide Enabled, Apply, Measure;
    if actions != [] {
      assert Internal(actions[0]);
      if Enabled(s, minBlock, actions[0]) {
        StepsRunOut(s, minBlock, actions[0]);
        RunsRunOut(Apply(s, minBlock, actions[0]), minBlock, actions[1..]);
      } else {
        RunsRunOut(s, minBlock, actions[1..]);
      }
    }
  }

  predicate Smooth(actions: seq<Action>) {
    forall i :: 0 <= i < |actions| ==> !actions[i].Fail? && !actions[i].Abandon? && !actions[i].Cancel?
  }

  /** With a subscriber that reads, an uncancelled run can come to its end with no failure. */
  lemma {:induction false} Completes(s: State, minBlock: nat) returns (actions: seq<Action>)
    requires Safe(s, minBlock) && ForwardDone(s) && !s.cancelled && |s.workers| > 0
    ensures Smooth(actions) && Run(s, minBlock, actions).blockClosed && !Run(s, minBlock, actions).cancelled
    decreases Measure(s), |s.blockChan|
  {
    hide Safe, Measure;
    if s.blockClosed {
      actions := [];
    } else {
      var a := Receive;
      if s.blockChan == [] {
        a := NeverStuck(s, minBlock);
        StepsRunOut(s, minBlock, a);
      } else {
        ReceiveKeepsMeasure(s, minBlock);
      }
      StepKeepsSafe(s, minBlock, a);
      var rest := Completes(Apply(s, minBlock, a), minBlock);
      actions := [a] + rest;
      assert actions[1..] == rest;
    }
  }

  lemma {:induction false} ReceiveKeepsMeasure(s: State, minBlock: nat)
    requires Enabled(s, minBlock, Receive)
    ensures Measure(Apply(s, minBlock, Receive)) == Measure(s)
  {
  }

  lemma {:induction false} SmoothFailsNothing(s: State, minBlock: nat, actions: seq<Action>, k: nat)
    requires Smooth(actions)
    ensures Times(s, minBlock, actions, FailsOf(k)) == 0
    decreases |actions|
  {
    hide Enabled, Apply;
    if actions != [] {
      assert !actions[0].Fail?;
      SmoothFailsNothing(s, minBlock, actions[1..], k);
      if Enabled(s, minBlock, actions[0]) {
        SmoothFailsNothing(Apply(s, minBlock, actions[0]), minBlock, actions[1..], k);
      }
    }
  }

  /** So some schedule delivers every number of the range once and no other, and closes the channel. */
  lemma {:induction false} CanDeliverAll(minBlock: nat, head: nat) returns (actions: seq<Action>)
    ensures var s := Start(head, false);
            var end := Run(s, minBlock, actions);
            && end.blockClosed && !end.cancelled
            && forall k: nat :: multiset(Received(s, minBlock, actions) + end.blockChan)[Backward(k)] == InRange(k, minBlock, head)
  {
    var s := Start(head, false);
    StartIsSafe(minBlock, head, false, 0);
    actions := Completes(s, minBlock);
    forall k: nat
      ensures multiset(Received(s, minBlock, actions) + Run(s, minBlock, actions).blockChan)[Backward(k)] ==
              InRange(k, minBlock, head)
    {
      EachNumberOnce(minBlock, head, false, actions, k);
      SmoothFailsNothing(s, minBlock, actions, k);
    }
  }

  lemma {:induction false} TimesOne(s: State, minBlock: nat, a: Action, rest: seq<Action>, p: (State, Action) -> bool)
    requires Enabled(s, minBlock, a)
    ensures Times(s, minBlock, [a] + rest, p) == (if p(s, a) then 1 else 0) + Times(Apply(s, minBlock, a), minBlock, rest, p)
  {
    assert ([a] + rest)[1..] == rest;
  }

  /** The first number of the range, taken by the first worker. */
  function FirstTaken(minBlock: nat, head: nat, forward: bool): State
    requires minBlock < head
  {
    Apply(Apply(Start(head, forward), minBlock, Produce), minBlock, Take(0))
  }

  lemma {:induction false} TakesFirst(minBlock: nat, head: nat, forward: bool, rest: seq<Action>, p: (State, Action) -> bool)
    requires minBlock < head && forall s :: !p(s, Produce) && !p(s, Take(0))
    ensures FirstTaken(minBlock, head, forward).workers != [] && FirstTaken(minBlock, head, forward).workers[0] == Processing(head)
    ensures Times(Start(head, forward), minBlock, [Produce] + ([Take(0)] + rest), p) ==
            Times(FirstTaken(minBlock, head, forward), minBlock, rest, p)
  {
    var s := Start(head, forward);
    TimesOne(Apply(s, minBlock, Produce), minBlock, Take(0), rest, p);
    TimesOne(s, minBlock, Produce, [Take(0)] + rest, p);
  }

  /** The other ends of a number are within reach too: its fetch may fail. */
  lemma {:induction false} CanFail(minBlock: nat, head: nat, forward: bool)
    requires minBlock < head
    ensures Times(Start(head, forward), minBlock, [Produce] + ([Take(0)] + ([Fail(0)] + [])), FailsOf(head)) == 1
  {
    hide FirstTaken;
    TakesFirst(minBlock, head, forward, [Fail(0)] + [], FailsOf(head));
    TimesOne(FirstTaken(minBlock, head, forward), minBlock, Fail(0), [], FailsOf(head));
  }

  /** And a cancelled run may abandon it. */
  lemma {:induction false} CanAbandon(minBlock: nat, head: nat, forward: bool)
    requires minBlock < head
    ensures Times(Start(head, forward), minBlock,
                  [Produce] + ([Take(0)] + ([Fetched(0)] + ([Cancel] + ([Abandon(0)] + [])))), AbandonsOf(head)) == 1
  {
    hide FirstTaken;
    var s := FirstTaken(minBlock, head, forward);
    TakesFirst(minBlock, head, forward, [Fetched(0)] + ([Cancel] + ([Abandon(0)] + [])), AbandonsOf(head));
    var s1 := Apply(s, minBlock, Fetched(0));
    var s2 := Apply(s1, minBlock, Cancel);
    TimesOne(s2, minBlock, Abandon(0), [], AbandonsOf(head));
    TimesOne(s1, minBlock, Cancel, [Abandon(0)] + [], AbandonsOf(head));
    TimesOne(s, minBlock, Fetched(0), [Cancel] + ([Abandon(0)] + []), AbandonsOf(head));
  }

  // Shutting down after a cancellation, when the subscriber reads no more.

  /** The forward syncer waits to send a fork event into a full channel. */
  predicate Hung(s: State) {
    s.forward.Forking? && |s.blockChan| >= BLOCK_BUFFER
  }

  predicate Unread(actions: seq<Action>) {
    forall i :: 0 <= i < |actions| ==> !actions[i].Receive?
  }

  lemma {:induction false} HungStays(s: State, minBlock: nat, actions: seq<Action>)
    requires Hung(s) && !s.blockClosed && Unread(actions)
    ensures !Run(s, minBlock, actions).blockClosed
    decreases |actions|
  {
    if actions != [] {
      var a := actions[0];
      assert !a.Receive?;
      HungStays(if Enabled(s, minBlock, a) then Apply(s, minBlock, a) else s, minBlock, actions[1..]);
    }
  }

  /** The next step of a cancelled run towards its end: it needs no reader. */
  lemma {:induction false} WindsDown(s: State, minBlock: nat) returns (a: Action)
    requires Safe(s, minBlock) && s.cancelled && !s.blockClosed && !Hung(s) && |s.workers| > 0
    ensures Internal(a) && Enabled(s, minBlock, a)
    ensures var s' := Apply(s, minBlock, a);
            Safe(s', minBlock) && s'.cancelled && !Hung(s') && |s'.workers| == |s.workers|
  {
    if s.forward.Forking? {
      a := ForkEmit;
    } else if s.forward.Following? {
      a := ForwardStop;
    } else if s.producer.Finished? {
      a := CloseBlocks;
    } else if s.producer.Generating? {
      a := StopProducing;
    } else if i: nat :| i < |s.workers| && s.workers[i] != Done {
      a := if s.workers[i].Idle? then Exit(i) else if s.workers[i].Processing? then Fail(i) else Abandon(i);
    } else {
      a := JoinWorkers;
    }
    StepKeepsSafe(s, minBlock, a);
  }

  lemma {:induction false} Closes(s: State, minBlock: nat) returns (actions: seq<Action>)
    requires Safe(s, minBlock) && s.cancelled && !Hung(s) && |s.workers| > 0
    ensures Unread(actions) && AllInternal(actions) && Run(s, minBlock, actions).blockClosed
    decreases Measure(s)
  {
    hide Safe, Enabled, Apply, Measure;
    if s.blockClosed {
      actions := [];
    } else {
      var a := WindsDown(s, minBlock);
      StepsRunOut(s, minBlock, a);
      var rest := Closes(Apply(s, minBlock, a), minBlock);
      actions := [a] + rest;
      assert actions[1..] == rest;
    }
  }

  /** Once the run is cancelled and nobody reads any more, it can still end, with the block channel closed,
      exactly when the forward syncer is not about to send a fork event into a full channel. */
  lemma {:induction false} CancelledRunEndsIff(s: State, minBlock: nat)
    requires Safe(s, minBlock) && s.cancelled && |s.workers| > 0
    ensures (exists actions :: Unread(actions) && Run(s, minBlock, actions).blockClosed) <==> s.blockClosed || !Hung(s)
  {
    if s.blockClosed {
      assert Unread([]) && Run(s, minBlock, []).blockClosed;
    } else if Hung(s) {
      forall actions | Unread(actions)
        ensures !Run(s, minBlock, actions).blockClosed
      {
        HungStays(s, minBlock, actions);
      }
    } else {
      var actions := Closes(s, minBlock);
    }
  }

  lemma {:induction false} DoneStays(s: State, minBlock: nat, actions: seq<Action>)
    requires ForwardDone(s)
    ensures ForwardDone(Run(s, minBlock, actions))
    decreases |actions|
  {
    if actions != [] {
      DoneStays(if Enabled(s, minBlock, actions[0]) then Apply(s, minBlock, actions[0]) else s, minBlock, actions[1..]);
    }
  }

  lemma {:induction false} EmitsAreUnread(k: nat)
    ensures Unread(FillWith(k))
  {
    if k > 0 {
      EmitsAreUnread(k - 1);
      assert forall i :: 0 < i < |FillWith(k)| ==> FillWith(k)[i] == FillWith(k - 1)[i - 1];
    }
  }

  /** From a forward syncer that follows: fill the channel and meet a fork. */
  lemma {:induction false} FillsAndForks(s: State, minBlock: nat) returns (actions: seq<Action>)
    requires s.forward.Following? && !s.blockClosed
    ensures Unread(actions) && Hung(Run(s, minBlock, actions))
    ensures Run(s, minBlock, actions).cancelled == s.cancelled && !Run(s, minBlock, actions).blockClosed
  {
    var k := if |s.blockChan| < BLOCK_BUFFER then BLOCK_BUFFER - |s.blockChan| else 0;
    var full := Fill(s, minBlock, k);
    EmitsAreUnread(k);
    RunsOn(s, minBlock, FillWith(k), [ForwardFork]);
    assert [ForwardFork][1..] == [];
    assert Run(full, minBlock, [ForwardFork]) == Run(Apply(full, minBlock, ForwardFork), minBlock, []);
    actions := FillWith(k) + [ForwardFork];
  }

  /** Nobody reading, the run can come to hang exactly while the forward syncer has not returned: only its return
      makes the shutdown safe, whatever the schedule. */
  lemma {:induction false} CanHangIff(s: State, minBlock: nat)
    requires Safe(s, minBlock)
    ensures (exists actions :: Unread(actions) && Hung(Run(s, minBlock, actions))) <==> !ForwardDone(s)
  {
    if ForwardDone(s) {
      forall actions
        ensures !Hung(Run(s, minBlock, actions))
      {
        DoneStays(s, minBlock, actions);
      }
    } else if s.forward.Following? {
      var actions := FillsAndForks(s, minBlock);
    } else if Hung(s) {
      assert Unread([]) && Hung(Run(s, minBlock, []));
    } else {
      var s1 := Apply(s, minBlock, ForkEmit);
      var rest := FillsAndForks(s1, minBlock);
      var actions := [ForkEmit] + rest;
      assert actions[1..] == rest;
      assert Unread(actions) && Run(s, minBlock, actions) == Run(s1, minBlock, rest);
    }
  }

  /** So a cancelled run that hangs for good is within reach of every service with a forward syncer. */
  lemma {:induction false} HangIsReachable(minBlock: nat, head: nat) returns (actions: seq<Action>)
    ensures var s := Run(Start(head, true), minBlock, actions); s.cancelled && Hung(s) && !s.blockClosed
  {
    var s := Start(head, true);
    var s1 := Apply(s, minBlock, Cancel);
    var rest := FillsAndForks(s1, minBlock);
    actions := [Cancel] + rest;
    assert actions[1..] == rest;
  }

  function FillWith(k: nat): seq<Action> {
    if k == 0 then [] else [ForwardEmit] + FillWith(k - 1)
  }

  lemma {:induction false} Fill(s: State, minBlock: nat, k: nat) returns (s': State)
    requires s.forward.Following? && (k == 0 || |s.blockChan| + k <= BLOCK_BUFFER) && !s.blockClosed
    ensures s' == Run(s, minBlock, FillWith(k))
    ensures s'.forward.Following? && |s'.blockChan| == |s.blockChan| + k && !s'.blockClosed
    ensures s'.cancelled == s.cancelled
    decreases k
  {
    if k == 0 {
      s' := s;
    } else {
      assert FillWith(k)[0] == ForwardEmit && FillWith(k)[1..] == FillWith(k - 1);
      s' := Fill(Apply(s, minBlock, ForwardEmit), minBlock, k - 1);
    }
  }

  lemma {:induction false} RunsOn(s: State, minBlock: nat, first: seq<Action>, rest: seq<Action>)
    ensures Run(s, minBlock, first + rest) == Run(Run(s, minBlock, first), minBlock, rest)
    decreases |first|
  {
    hide Enabled, Apply;
    if first == [] {
      assert first + rest == rest;
    } else {
      assert (first + rest)[1..] == first[1..] + rest;
      RunsOn(if Enabled(s, minBlock, first[0]) then Apply(s, minBlock, first[0]) else s, minBlock, first[1..], rest);
    }
  }
}
