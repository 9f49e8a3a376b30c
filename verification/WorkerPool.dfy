/** The worker pool and the subscriber that feeds it, one step at a time.  The subscriber submits batches
    and, when it stops, shuts the pool down itself.  A send on a closed queue panics. */
module WorkerPool {

  datatype Worker = Idle | Running(task: nat) | Exited

  /** Between calls; inside `SubmitBatch` with so many tasks left; waiting in `Shutdown`; returned from it. */
  datatype Submitter = Ready | Submitting(left: nat) | Waiting | Returned

  /** Tasks are numbered as they are accepted.  `outsider` says whether another goroutine may call
      `Shutdown` too. */
  datatype State = State(
    queueSize: nat,
    outsider: bool,
    taskQueue: seq<nat>,
    closed: bool,
    cancelled: bool,
    isShutdown: bool,
    workers: seq<Worker>,
    submitter: Submitter,
    accepted: nat,
    panicked: bool)

  datatype Action =
    | Submit(n: nat) | Push | GiveUp | EndBatch
    | Shutdown | OutsideShutdown | Return
    | Take(i: nat) | Complete(i: nat) | Recover(i: nat) | Exit(i: nat)

  predicate AllExited(ws: seq<Worker>) {
    forall i :: 0 <= i < |ws| ==> ws[i] == Exited
  }

  predicate Enabled(s: State, a: Action) {
    match a
    case Submit(n) => s.submitter.Ready?
    case Push => s.submitter.Submitting? && s.submitter.left > 0 && (s.closed || |s.taskQueue| < s.queueSize)
    case GiveUp => s.submitter.Submitting? && s.cancelled
    case EndBatch => s.submitter.Submitting? && s.submitter.left == 0
    case Shutdown => s.submitter.Ready?
    case OutsideShutdown => s.outsider
    case Return => s.submitter.Waiting? && AllExited(s.workers)
    case Take(i) => i < |s.workers| && s.workers[i].Idle? && s.taskQueue != []
    case Complete(i) => i < |s.workers| && s.workers[i].Running?
    case Recover(i) => i < |s.workers| && s.workers[i].Running?
    case Exit(i) => i < |s.workers| && s.workers[i].Idle? && (s.cancelled || (s.closed && s.taskQueue == []))
  }

  /** The body of `Shutdown` under the lock. */
  function ShutDown(s: State): State {
    if s.isShutdown then s else s.(cancelled := true, closed := true, isShutdown := true)
  }

  /** A worker whose handler returned or panicked is idle again. */
  function Finish(s: State, i: nat): State
    requires i < |s.workers| && s.workers[i].Running?
  {
    s.(workers := s.workers[i := Idle])
  }

  function Apply(s: State, a: Action): State
    requires Enabled(s, a)
  {
    match a
    case Submit(n) => if s.isShutdown then s else s.(submitter := Submitting(n))
    case Push =>
      if s.closed then s.(panicked := true)
      else s.(taskQueue := s.taskQueue + [s.accepted], accepted := s.accepted + 1,
              submitter := Submitting(s.submitter.left - 1))
    case GiveUp => s.(submitter := Ready)
    case EndBatch => s.(submitter := Ready)
    case Shutdown => ShutDown(s).(submitter := Waiting)
    case OutsideShutdown => ShutDown(s)
    case Return => s.(submitter := Returned)
    case Take(i) => s.(workers := s.workers[i := Running(s.taskQueue[0])], taskQueue := s.taskQueue[1..])
    case Complete(i) => Finish(s, i)
    case Recover(i) => Finish(s, i)
    case Exit(i) => s.(workers := s.workers[i := Exited])
  }

  function Start(workers: nat, queueSize: nat, outsider: bool): State {
    State(queueSize, outsider, [], false, false, false, seq(workers, i => Idle), Ready, 0, false)
  }

  function Run(s: State, actions: seq<Action>): State
    decreases |actions|
  {
    if actions == [] then s
    else Run(if Enabled(s, actions[0]) then Apply(s, actions[0]) else s, actions[1..])
  }

  function Runs(w: Worker, k: nat): nat {
    if w.Running? && w.task == k then 1 else 0
  }

  /** How many workers run task `k`. */
  function InProgress(ws: seq<Worker>, k: nat): nat {
    if ws == [] then 0 else Runs(ws[0], k) + InProgress(ws[1..], k)
  }

  lemma {:induction false} InProgressUpdate(ws: seq<Worker>, i: nat, w: Worker, k: nat)
    requires i < |ws|
    ensures InProgress(ws[i := w], k) + Runs(ws[i], k) == InProgress(ws, k) + Runs(w, k)
  {
    if i > 0 {
      assert ws[i := w][1..] == ws[1..][i - 1 := w];
      InProgressUpdate(ws[1..], i - 1, w, k);
    } else {
      assert ws[i := w][1..] == ws[1..];
    }
  }

  /** Queued and running copies of task `k`. */
  function Copies(s: State, k: nat): nat {
    multiset(s.taskQueue)[k] + InProgress(s.workers, k)
  }

  // What a schedule does, told from its actions alone.

  /** The action ends a handler that runs task `k`, by return or by panic. */
  predicate Ends(s: State, a: Action, k: nat) {
    (a.Complete? || a.Recover?) && a.i < |s.workers| && s.workers[a.i] == Running(k)
  }

  /** How often task `k` is processed. */
  function Processed(s: State, actions: seq<Action>, k: nat): nat
    decreases |actions|
  {
    if actions == [] then 0
    else if !Enabled(s, actions[0]) then Processed(s, actions[1..], k)
    else (if Ends(s, actions[0], k) then 1 else 0) + Processed(Apply(s, actions[0]), actions[1..], k)
  }

  /** How many tasks there are in the batches that a live pool was given. */
  function Submitted(s: State, actions: seq<Action>): nat
    decreases |actions|
  {
    if actions == [] then 0
    else if !Enabled(s, actions[0]) then Submitted(s, actions[1..])
    else (if actions[0].Submit? && !s.isShutdown then actions[0].n else 0) + Submitted(Apply(s, actions[0]), actions[1..])
  }

  function Pending(s: State): nat {
    if s.submitter.Submitting? then s.submitter.left else 0
  }

  /** How many of them were given up in the middle of a batch, which takes a cancellation. */
  function GivenUp(s: State, actions: seq<Action>): nat
    decreases |actions|
  {
    if actions == [] then 0
    else if !Enabled(s, actions[0]) then GivenUp(s, actions[1..])
    else (if actions[0].GiveUp? then Pending(s) else 0) + GivenUp(Apply(s, actions[0]), actions[1..])
  }

  /** The accepted tasks wait in the order of their acceptance. */
  predicate Safe(s: State) {
    && !s.outsider && !s.panicked
    && (s.closed <==> s.isShutdown) && (s.closed <==> s.cancelled)
    && (s.isShutdown <==> s.submitter.Waiting? || s.submitter.Returned?)
    && (s.submitter.Returned? ==> AllExited(s.workers))
    && (!s.cancelled ==> forall i :: 0 <= i < |s.workers| ==> !s.workers[i].Exited?)
    && |s.taskQueue| <= s.queueSize && |s.taskQueue| <= s.accepted
    && forall j :: 0 <= j < |s.taskQueue| ==> s.taskQueue[j] == s.accepted - |s.taskQueue| + j
  }

  lemma {:induction false} TakeKeepsCopies(s: State, i: nat, k: nat)
    requires Enabled(s, Take(i))
    ensures Copies(Apply(s, Take(i)), k) == Copies(s, k)
  {
    InProgressUpdate(s.workers, i, Running(s.taskQueue[0]), k);
    assert s.taskQueue == [s.taskQueue[0]] + s.taskQueue[1..];
  }

  /** A task comes in when it is accepted and goes when its handler ends. */
  lemma {:induction false} StepKeepsCopies(s: State, a: Action, k: nat)
    requires Enabled(s, a)
    ensures Copies(s, k) + (if s.accepted <= k < Apply(s, a).accepted then 1 else 0) ==
            Copies(Apply(s, a), k) + (if Ends(s, a, k) then 1 else 0)
  {
    match a {
      case Take(i) => TakeKeepsCopies(s, i, k);
      case Complete(i) => InProgressUpdate(s.workers, i, Idle, k);
      case Recover(i) => InProgressUpdate(s.workers, i, Idle, k);
      case Exit(i) => InProgressUpdate(s.workers, i, Exited, k);
      case _ =>
    }
  }

  lemma {:induction false} StepKeepsSafe(s: State, a: Action)
    requires Safe(s) && Enabled(s, a)
    ensures Safe(Apply(s, a)) && |Apply(s, a).workers| == |s.workers| && s.accepted <= Apply(s, a).accepted
    ensures Apply(s, a).queueSize == s.queueSize
  {
  }

  lemma {:induction false} RunIsSafe(s: State, actions: seq<Action>, k: nat)
    requires Safe(s)
    ensures var end := Run(s, actions);
            && Safe(end) && |end.workers| == |s.workers| && s.accepted <= end.accepted && end.queueSize == s.queueSize
            && Copies(s, k) + (if s.accepted <= k < end.accepted then 1 else 0) ==
               Copies(end, k) + Processed(s, actions, k)
    decreases |actions|
  {
    hide Safe, Enabled, Apply, Copies, Ends;
    if actions != [] {
      var a := actions[0];
      if Enabled(s, a) {
        StepKeepsSafe(s, a);
        StepKeepsCopies(s, a, k);
        RunIsSafe(Apply(s, a), actions[1..], k);
      } else {
        RunIsSafe(s, actions[1..], k);
      }
    }
  }

  lemma {:induction false} StepCounts(s: State, a: Action)
    requires Enabled(s, a) && (a.EndBatch? ==> s.submitter.left == 0) && !Apply(s, a).panicked
    requires s.submitter.Waiting? || s.submitter.Returned? ==> s.isShutdown
    ensures var s' := Apply(s, a);
            s'.accepted + Pending(s') + (if a.GiveUp? then Pending(s) else 0) ==
            s.accepted + Pending(s) + (if a.Submit? && !s.isShutdown then a.n else 0)
  {
  }

  /** Every submitted task is accepted, still to be accepted in the current batch, or given up. */
  lemma {:induction false} SubmittedAreAccepted(s: State, actions: seq<Action>)
    requires Safe(s)
    ensures var end := Run(s, actions);
            && s.accepted + Pending(s) + Submitted(s, actions) == end.accepted + Pending(end) + GivenUp(s, actions)
            && (!end.cancelled ==> !s.cancelled && GivenUp(s, actions) == 0)
    decreases |actions|
  {
    if actions != [] {
      var a := actions[0];
      if Enabled(s, a) {
        StepKeepsSafe(s, a);
        StepCounts(s, a);
        SubmittedAreAccepted(Apply(s, a), actions[1..]);
      } else {
        SubmittedAreAccepted(s, actions[1..]);
      }
    }
  }

  lemma {:induction false} NobodyRuns(ws: seq<Worker>, k: nat)
    requires forall i :: 0 <= i < |ws| ==> !ws[i].Running?
    ensures InProgress(ws, k) == 0
  {
    if ws != [] {
      NobodyRuns(ws[1..], k);
    }
  }

  /** Over every schedule: no send meets the closed queue; every submitted task is accepted, still to come in its
      batch, or given up after the cancellation, so that between batches an uncancelled pool has accepted them all;
      every accepted task is queued, running or processed exactly once, and no other is; no worker is lost before
      the shutdown, however many handlers panic; and once `Shutdown` has returned nothing runs. */
  lemma {:induction false} PoolConserves(workers: nat, queueSize: nat, actions: seq<Action>, k: nat)
    ensures var s := Start(workers, queueSize, false);
            var end := Run(s, actions);
            && !end.panicked && |end.workers| == workers && |end.taskQueue| <= queueSize
            && end.accepted + Pending(end) + GivenUp(s, actions) == Submitted(s, actions)
            && (!end.cancelled && end.submitter.Ready? ==> end.accepted == Submitted(s, actions))
            && (multiset(end.taskQueue)[k] + InProgress(end.workers, k) + Processed(s, actions, k) ==
                if k < end.accepted then 1 else 0)
            && (!end.cancelled ==> forall i :: 0 <= i < workers ==> !end.workers[i].Exited?)
            && (end.submitter.Returned? ==> forall i :: 0 <= i < workers ==> !end.workers[i].Running?)
  {
    hide Submitted, GivenUp, Processed, Run;
    var s := Start(workers, queueSize, false);
    NobodyRuns(s.workers, k);
    RunIsSafe(s, actions, k);
    SubmittedAreAccepted(s, actions);
  }

  lemma {:induction false} RunOne(s: State, a: Action, rest: seq<Action>)
    requires Enabled(s, a)
    ensures Run(s, [a] + rest) == Run(Apply(s, a), rest)
  {
    assert ([a] + rest)[1..] == rest;
  }

  /** The one submitter must also be the one that shuts the pool down: the check for shutdown and the send
      are not one step, so a shutdown from elsewhere in between makes the send panic. */
  lemma {:induction false} PanicsOnlyWithOutsider(workers: nat, queueSize: nat, outsider: bool)
    ensures (exists actions :: Run(Start(workers, queueSize, outsider), actions).panicked) <==> outsider
  {
    if outsider {
      var s := Start(workers, queueSize, outsider);
      var s1 := s.(submitter := Submitting(1));
      var s2 := ShutDown(s1);
      RunOne(s2, Push, []);
      RunOne(s1, OutsideShutdown, [Push]);
      RunOne(s, Submit(1), [OutsideShutdown] + [Push]);
      assert Run(s, [Submit(1)] + ([OutsideShutdown] + [Push])).panicked by {
        assert [Push] + [] == [Push];
      }
    } else {
      forall actions
        ensures !Run(Start(workers, queueSize, false), actions).panicked
      {
        PoolConserves(workers, queueSize, actions, 0);
      }
    }
  }

  /** `Shutdown` waits only for handlers: while it waits, some worker can move or it returns. */
  lemma {:induction false} ShutdownIsNotStuck(s: State) returns (a: Action)
    requires Safe(s) && s.submitter.Waiting?
    ensures Enabled(s, a) && (a.Return? || a.Complete? || a.Exit?)
  {
    if i :| 0 <= i < |s.workers| && s.workers[i].Running? {
      a := Complete(i);
    } else if i :| 0 <= i < |s.workers| && s.workers[i].Idle? {
      a := Exit(i);
    } else {
      a := Return;
    }
  }

  /** One worker gets through the rest of a batch, one task at a time. */
  lemma {:induction false} FinishesBatch(s: State) returns (actions: seq<Action>)
    requires s.submitter.Submitting? && s.taskQueue == [] && s.queueSize > 0 && !s.closed && !s.cancelled
    requires |s.workers| > 0 && s.workers[0].Idle?
    ensures var end := Run(s, actions);
            && end.submitter == Ready && end.taskQueue == [] && !end.cancelled
            && end.accepted == s.accepted + s.submitter.left && end.workers == s.workers
    decreases s.submitter.left
  {
    if s.submitter.left == 0 {
      actions := [EndBatch];
      assert actions[1..] == [];
      assert Run(s, actions) == Run(Apply(s, EndBatch), []);
    } else {
      var s1 := Apply(s, Push);
      var s2 := Apply(s1, Take(0));
      var s3 := Apply(s2, Complete(0));
      var rest := FinishesBatch(s3);
      RunOne(s2, Complete(0), rest);
      RunOne(s1, Take(0), [Complete(0)] + rest);
      RunOne(s, Push, [Take(0)] + ([Complete(0)] + rest));
      actions := [Push] + ([Take(0)] + ([Complete(0)] + rest));
      assert s3.workers == s.workers;
    }
  }

  /** So some schedule processes a whole batch, each task once. */
  lemma {:induction false} CanProcessAll(workers: nat, queueSize: nat, n: nat) returns (actions: seq<Action>)
    requires workers > 0 && queueSize > 0
    ensures var s := Start(workers, queueSize, false);
            forall k: nat :: Processed(s, actions, k) == if k < n then 1 else 0
  {
    var s := Start(workers, queueSize, false);
    var s1 := Apply(s, Submit(n));
    var rest := FinishesBatch(s1);
    RunOne(s, Submit(n), rest);
    actions := [Submit(n)] + rest;
    forall k: nat
      ensures Processed(s, actions, k) == if k < n then 1 else 0
    {
      PoolConserves(workers, queueSize, actions, k);
      NobodyRuns(s.workers, k);
    }
  }

  /** A submitter in the middle of a batch is never stuck: it goes on, gives up after a cancellation, or waits for a
      worker that can move; and a handler that runs may return or panic alike. */
  lemma {:induction false} SubmitterIsNotStuck(s: State) returns (a: Action)
    requires Safe(s) || s.cancelled
    requires s.submitter.Submitting? && |s.workers| > 0 && s.queueSize > 0
    ensures Enabled(s, a) && (a.GiveUp? || a.EndBatch? || (a.Push? && !s.closed) || a.Take? || a.Recover?)
    ensures a.GiveUp? <==> s.cancelled
    ensures forall i :: Enabled(s, Recover(i)) <==> Enabled(s, Complete(i))
  {
    if s.cancelled {
      a := GiveUp;
    } else if s.submitter.left == 0 {
      a := EndBatch;
    } else if |s.taskQueue| < s.queueSize {
      a := Push;
    } else {
      a := if s.workers[0].Idle? then Take(0) else Recover(0);
    }
  }
}
