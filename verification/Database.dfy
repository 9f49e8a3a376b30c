/** The subscriber's view: what the event log leaves in the database, over whole runs of the forward
    syncer with its cache, its rollbacks and the backward sync beside it. */
module Database {
  import opened Chain
  import opened Points
  import opened Lru
  import opened Types
  import opened BlockFetcher
  import opened ForwardSyncer
  import opened Replay
  import opened ForkHandler

  /** Every fork event that the forward syncer emits can be resolved while its chains stand: the side
      chain is found, and all of it lies after the finalized block. */
  lemma {:induction false} ForkEventsResolve(s: State, base: Block, v: View)
    requires Calm(s, base, v) && Forks(s, v) && Within(v.finalized, v.leaf)
    ensures var best := v.leaf.At(s.prev.Number() + 1);
            Resolvable(v.leaf, best, s.prev, v.finalized) &&
            forall b :: b in SideChainOf(s.prev, v.leaf) ==> v.finalized.Number() < b.Number()
  {
    var n := s.prev.Number();
    AtAt(v.leaf, n + 1, n);
    FinalizedForksResolve(v.leaf, v.leaf.At(n + 1), s.prev, v.finalized);
  }

  /** A block event writes the points of its block; a fork event deletes. */
  function Apply(stamps: Stamps, db: set<Point>, e: Event): set<Point> {
    match e
    case Published(event) => db + PointsOf(stamps, event.block)
    case Forked(best, finalized, sideChain) => DropAfter(db, finalized.timestamp)
  }

  function Interpret(stamps: Stamps, db: set<Point>, log: seq<Event>): set<Point> {
    if log == [] then db else Apply(stamps, Interpret(stamps, db, log[..|log| - 1]), log[|log| - 1])
  }

  /** What the deletes of a log leave of the branches that it abandons. */
  function Residue(stamps: Stamps, log: seq<Event>): set<Point> {
    if log == [] then {} else
    var e := log[|log| - 1];
    Residue(stamps, log[..|log| - 1]) + if e.Forked? then Leftover(stamps, e.sideChain, e.finalized) else {}
  }

  /** What the deletes of a log spare of the points that were there before it. */
  function Survivors(db: set<Point>, log: seq<Event>): set<Point> {
    set p | p in db && Spared(log, p.time)
  }

  /** Every fork event goes back to a block no earlier than this. */
  predicate Spared(log: seq<Event>, timestamp: nat) {
    forall i :: 0 <= i < |log| && log[i].Forked? ==> timestamp <= log[i].finalized.timestamp
  }

  /** Whatever was there before, it adds nothing but its survivors to what the log leaves on its own. */
  lemma {:induction false} InterpretSplits(stamps: Stamps, db: set<Point>, log: seq<Event>)
    ensures Interpret(stamps, db, log) == Survivors(db, log) + Interpret(stamps, {}, log)
  {
    hide PointsOf;
    if log == [] {
      assert Survivors(db, log) == db;
    } else {
      var init := log[..|log| - 1];
      var e := log[|log| - 1];
      InterpretSplits(stamps, db, init);
      forall p
        ensures p in Survivors(db, log) <==>
                p in Survivors(db, init) && (e.Forked? ==> p.time <= e.finalized.timestamp)
      {
        SparedSnoc(log, p.time);
      }
    }
  }

  lemma {:induction false} SparedSnoc(log: seq<Event>, timestamp: nat)
    requires log != []
    ensures var e := log[|log| - 1];
            Spared(log, timestamp) <==>
            Spared(log[..|log| - 1], timestamp) && (e.Forked? ==> timestamp <= e.finalized.timestamp)
  {
    var init := log[..|log| - 1];
    assert forall i :: 0 <= i < |init| ==> init[i] == log[i];
  }

  predicate AllBy(points: set<Point>, timestamp: nat) {
    forall p :: p in points ==> p.time <= timestamp
  }

  /** The log leaves the points of the chain from the start block up to the block last followed, and what its
      deletes left, none of which lies after the rollback block. */
  predicate Kept(stamps: Stamps, s: State, base: Block, start: Block) {
    && Within(start, base) && Within(start, s.prev) && s.prev.Timely()
    && AllBy(Residue(stamps, s.log), base.timestamp)
    && Interpret(stamps, {}, s.log) == Residue(stamps, s.log) + PointsAbove(stamps, start.Number(), s.prev)
  }

  lemma {:induction false} ForkKeeps(stamps: Stamps, s: State, v: View, s': State, base: Block, start: Block)
    requires Stamping(stamps) && Calm(s, base, v) && Forks(s, v) && Kept(stamps, s, base, start)
    requires s'.prev == v.finalized && s'.log == s.log + [Forked(v.leaf.At(s.prev.Number() + 1), v.finalized, s.prev)]
    ensures Kept(stamps, s', v.finalized, start) && base.timestamp <= v.finalized.timestamp
  {
    hide PointsAbove, Leftover, Above;
    var f := v.finalized;
    WithinTransitive(start, base, f);
    TimestampsFollowHeight(f, s.prev);
    TimestampsFollowHeight(base, f);
    RollbackLeaves(stamps, start.Number(), s.prev, f);
    LeftoverIs(stamps, s.prev, f);
    assert s'.log[..|s'.log| - 1] == s.log;
    var held := Residue(stamps, s.log);
    assert DropAfter(held + PointsAbove(stamps, start.Number(), s.prev), f.timestamp) ==
           held + DropAfter(PointsAbove(stamps, start.Number(), s.prev), f.timestamp);
  }

  lemma {:induction false} PublishKeeps(stamps: Stamps, src: Source, want: Block -> FetchResult, s: State, v: View, s': State,
                                        base: Block, start: Block)
    requires Faithful(src, want) && Kept(stamps, s, base, start) && Sane(v.leaf)
    requires s'.prev.Child? && s'.prev.parent == s.prev && Within(s'.prev, v.leaf)
    requires s'.log == s.log + [Published(EventOf(src, want, s'.prev))]
    ensures Kept(stamps, s', base, start)
  {
    hide EventOf, Residue;
    var next := s'.prev;
    TimestampsFollowHeight(next, v.leaf);
    WithinTransitive(start, s.prev, next);
    EventIsOfBlock(src, want, next, v.leaf);
    assert s'.log[..|s'.log| - 1] == s.log;
    ResiduePublished(stamps, s.log, EventOf(src, want, next));
    forall p
      ensures p in PointsAbove(stamps, start.Number(), next) <==>
              p in PointsAbove(stamps, start.Number(), s.prev) + PointsOf(stamps, next)
    {
      assert Above(start.Number(), next) == {next} + Above(start.Number(), s.prev);
    }
  }

  lemma {:induction false} EventIsOfBlock(src: Source, want: Block -> FetchResult, b: Block, leaf: Block)
    requires Faithful(src, want) && Within(b, leaf) && leaf.Number() + 1 < UINT32
    ensures EventOf(src, want, b).block == b
  {
    assert src.fetch(leaf, b.Number()) == Some(want(b));
  }

  lemma {:induction false} ResiduePublished(stamps: Stamps, log: seq<Event>, e: BlockEvent)
    ensures Residue(stamps, log + [Published(e)]) == Residue(stamps, log)
  {
    assert (log + [Published(e)])[..|log|] == log;
  }

  lemma {:induction false} FollowerKeeps(stamps: Stamps, src: Source, want: Block -> FetchResult, s: State, v: View, s': State,
                                         base: Block, start: Block, since: nat)
    requires Stamping(stamps) && Faithful(src, want)
    requires Calm(s, base, v) && Follows(src, want, s, v, s') && Kept(stamps, s, base, start)
    requires Spared(s.log, since) && since <= base.timestamp
    ensures Kept(stamps, s', Base(s, base, v), start)
    ensures Spared(s'.log, since) && since <= Base(s, base, v).timestamp
  {
    hide EventOf, Interpret, Residue, Kept;
    if Forks(s, v) {
      ForkKeeps(stamps, s, v, s', base, start);
    } else if s'.log != s.log {
      PublishKeeps(stamps, src, want, s, v, s', base, start);
    } else {
      SameKeeps(stamps, s, s', base, start);
    }
  }

  lemma {:induction false} SameKeeps(stamps: Stamps, s: State, s': State, base: Block, start: Block)
    requires Kept(stamps, s, base, start) && s'.prev == s.prev && s'.log == s.log
    ensures Kept(stamps, s', base, start)
  {
  }

  /** Over every run, with any number of forks, the database holds the chain from the start block up to the
      block last followed, what the deletes left of abandoned branches, and what they spared of the points
      that were there before; nothing is missing and nothing else is there. */
  lemma {:induction false} RunKeepsDatabase(stamps: Stamps, src: Source, want: Block -> FetchResult, s: State, base: Block,
                                            views: seq<View>, start: Block, db: set<Point>, since: nat)
    requires Stamping(stamps) && Faithful(src, want) && Inv(want, s, base) && CalmRun(src, s, base, views)
    requires Kept(stamps, s, base, start) && Spared(s.log, since) && since <= base.timestamp
    ensures var end := Run(src, s, views);
            && Interpret(stamps, db, end.log) ==
               Survivors(db, end.log) + Residue(stamps, end.log) + PointsAbove(stamps, start.Number(), end.prev)
            && Spared(end.log, since)
    decreases |views|
  {
    hide Step, Inv, Calm, Follows, Spared, PointsAbove, Residue, Interpret, Survivors;
    if views == [] {
      InterpretSplits(stamps, db, s.log);
    } else {
      var v := views[0];
      var (s1, control) := Step(src, s, v);
      StepFollows(src, want, s, base, v);
      FollowerKeeps(stamps, src, want, s, v, s1, base, start, since);
      if control == Running {
        RunKeepsDatabase(stamps, src, want, s1, Base(s, base, v), views[1..], start, db, since);
      } else {
        InterpretSplits(stamps, db, s1.log);
      }
    }
  }

  /** A log leaves no residue exactly when no first block of an abandoned branch has a point at its parent's
      time. */
  lemma {:induction false} NoResidueIff(stamps: Stamps, log: seq<Event>)
    ensures Residue(stamps, log) == {} <==>
            forall i :: 0 <= i < |log| && log[i].Forked? ==> Leftover(stamps, log[i].sideChain, log[i].finalized) == {}
  {
    hide Leftover;
    if log != [] {
      NoResidueIff(stamps, log[..|log| - 1]);
    }
  }

  /** Every published event is the one its block deserves: its block, seeds and node lists are those of
      the canonical chain it was published on. */
  predicate Deserved(src: Source, want: Block -> FetchResult, log: seq<Event>) {
    forall i :: 0 <= i < |log| && log[i].Published? ==>
      log[i].event == EventOf(src, want, log[i].event.block)
  }

  lemma {:induction false} RunServesNoStaleBlock(src: Source, want: Block -> FetchResult, s: State,
                                                 base: Block, views: seq<View>)
    requires Faithful(src, want) && Inv(want, s, base) && CalmRun(src, s, base, views)
    requires Deserved(src, want, s.log)
    ensures Deserved(src, want, Run(src, s, views).log)
    decreases |views|
  {
    hide Step, Inv, EventOf;
    if views != [] {
      var v := views[0];
      var (s1, control) := Step(src, s, v);
      StepFollows(src, want, s, base, v);
      if !Forks(s, v) && s1.log != s.log {
        EventIsOfBlock(src, want, s1.prev, v.leaf);
      }
      if control == Running {
        RunServesNoStaleBlock(src, want, s1, Base(s, base, v), views[1..]);
      }
    }
  }

  // Backward sync beside the run.

  lemma {:induction false} TouchedRight(src: Source, want: Block -> FetchResult, c: Cache, leaf: Block, heights: seq<nat>,
                                        base: Block, top: Block)
    requires Faithful(src, want) && Within(base, leaf) && Sane(leaf) && AtMost(heights, base.Number())
    requires Lru.Valid(c) && AllRight(want, c, base, top)
    ensures Lru.Valid(Touched(src, c, leaf, heights)) && AllRight(want, Touched(src, c, leaf, heights), base, top)
    decreases |heights|
  {
    hide Promote, AllRight;
    if heights != [] {
      FetchRight(src, want, c, heights[0], leaf, true, base, top);
      TouchedRight(src, want, Fetch(c, heights[0], src.fetch(leaf, heights[0])).0, leaf, heights[1..], base, top);
    }
  }

  lemma {:induction false} FetchRight(src: Source, want: Block -> FetchResult, c: Cache, n: nat, leaf: Block, ok: bool,
                                      base: Block, top: Block)
    requires Faithful(src, want) && Within(base, leaf) && Sane(leaf) && n <= base.Number()
    requires Lru.Valid(c) && AllRight(want, c, base, top)
    ensures var (c1, served) := Fetch(c, n, FetchIf(src, leaf, n, ok));
            Lru.Valid(c1) && AllRight(want, c1, base, top) && (served.Some? ==> served.value == want(base.At(n)))
  {
    hide Promote, AllRight;
    FetchAnswers(src, want, leaf, base, n);
    FetchSettled(want, c, n, FetchIf(src, leaf, n, ok), base, top);
    PromoteShape(c, Entry(n, want(base.At(n))));
  }

  /** A backward-sync worker publishes what its block deserves as well: block `n` is at or below the last
      rollback block. */
  lemma {:induction false} BackwardServesTheBlock(src: Source, want: Block -> FetchResult, c: Cache, base: Block, top: Block,
                                                  n: nat, v: View)
    requires Faithful(src, want) && Lru.Valid(c) && AllRight(want, c, base, top) && 1 <= n <= base.Number()
    requires Within(base, v.served) && Within(base, v.servedParent) && Sane(v.served) && Sane(v.servedParent)
    requires AtMost(v.between, base.Number())
    ensures var (c', event) := Process(src, c, n, v);
            AllRight(want, c', base, top) && (event.Some? ==> event.value == EventOf(src, want, base.At(n)))
  {
    hide AllRight, Fetch, FetchIf, Touched, Within, Sane;
    FetchRight(src, want, c, n, v.served, v.blockOk, base, top);
    var c1 := Fetch(c, n, FetchIf(src, v.served, n, v.blockOk)).0;
    TouchedRight(src, want, c1, v.served, v.between, base, top);
    var c2 := Touched(src, c1, v.served, v.between);
    FetchRight(src, want, c2, n - 1, v.servedParent, v.parentOk, base, top);
    var parent := Fetch(c2, n - 1, FetchIf(src, v.servedParent, n - 1, v.parentOk)).1;
    assert parent.Some? ==> parent == Some(want(base.At(n - 1)));
    AtAt(base, n, n - 1);
    var b := base.At(n);
    assert b.At(n - 1) == b.parent;
  }

  /** Those events, for the heights that the workers got through, in the order of their sends. */
  function BackwardEvents(src: Source, want: Block -> FetchResult, first: Block, heights: seq<nat>): seq<Event>
    requires AtMost(heights, first.Number())
  {
    seq(|heights|, i requires 0 <= i < |heights| => Published(EventOf(src, want, first.At(heights[i]))))
  }

  /** One order in which the subscriber may receive two sequences of events. */
  predicate Interleaves(merged: seq<Event>, log: seq<Event>, back: seq<Event>)
    decreases |merged|
  {
    if merged == [] then log == back == [] else
    var e := merged[|merged| - 1];
    var init := merged[..|merged| - 1];
    || (log != [] && log[|log| - 1] == e && Interleaves(init, log[..|log| - 1], back))
    || (back != [] && back[|back| - 1] == e && Interleaves(init, log, back[..|back| - 1]))
  }

  predicate Settled(stamps: Stamps, back: seq<Event>, since: nat) {
    forall i :: 0 <= i < |back| ==> back[i].Published? && AllBy(PointsOf(stamps, back[i].event.block), since)
  }

  lemma {:induction false} BackwardIsSettled(stamps: Stamps, src: Source, want: Block -> FetchResult, first: Block,
                                             heights: seq<nat>)
    requires Stamping(stamps) && Faithful(src, want) && Sane(first) && AtMost(heights, first.Number())
    ensures Settled(stamps, BackwardEvents(src, want, first, heights), first.timestamp)
  {
    hide EventOf;
    forall i | 0 <= i < |heights|
      ensures AllBy(PointsOf(stamps, EventOf(src, want, first.At(heights[i])).block), first.timestamp)
    {
      var b := first.At(heights[i]);
      AtAt(first, heights[i], heights[i]);
      EventIsOfBlock(src, want, b, first);
      TimestampsFollowHeight(b, first);
    }
  }

  function Written(stamps: Stamps, back: seq<Event>): set<Point> {
    if back == [] then {} else
    Written(stamps, back[..|back| - 1]) +
    if back[|back| - 1].Published? then PointsOf(stamps, back[|back| - 1].event.block) else {}
  }

  /** However the two interleave, the points of backward sync are all there in the end. */
  lemma {:induction false} BackwardSyncIsKept(stamps: Stamps, db: set<Point>, merged: seq<Event>, log: seq<Event>,
                                              back: seq<Event>, since: nat)
    requires Interleaves(merged, log, back) && Spared(log, since) && Settled(stamps, back, since)
    ensures Interpret(stamps, db, merged) == Interpret(stamps, db, log) + Written(stamps, back)
    ensures AllBy(Written(stamps, back), since)
    decreases |merged|
  {
    hide PointsOf;
    if merged != [] {
      var e := merged[|merged| - 1];
      var init := merged[..|merged| - 1];
      if log != [] && log[|log| - 1] == e && Interleaves(init, log[..|log| - 1], back) {
        BackwardSyncIsKept(stamps, db, init, log[..|log| - 1], back, since);
      } else {
        BackwardSyncIsKept(stamps, db, init, log, back[..|back| - 1], since);
      }
    }
  }

  /** Backward sync deletes nothing. */
  lemma {:induction false} InterleavedSurvivors(merged: seq<Event>, log: seq<Event>, back: seq<Event>, timestamp: nat)
    requires Interleaves(merged, log, back) && forall i :: 0 <= i < |back| ==> back[i].Published?
    ensures Spared(merged, timestamp) <==> Spared(log, timestamp)
    decreases |merged|
  {
    hide Spared;
    if merged != [] {
      var e := merged[|merged| - 1];
      var init := merged[..|merged| - 1];
      SparedSnoc(merged, timestamp);
      if log != [] && log[|log| - 1] == e && Interleaves(init, log[..|log| - 1], back) {
        SparedSnoc(log, timestamp);
        InterleavedSurvivors(init, log[..|log| - 1], back, timestamp);
      } else {
        InterleavedSurvivors(init, log, back[..|back| - 1], timestamp);
      }
    }
  }

  lemma {:induction false} FreshRunKeepsDatabase(stamps: Stamps, src: Source, want: Block -> FetchResult, first: Block,
                                                 views: seq<View>, db: set<Point>, heights: seq<nat>, merged: seq<Event>)
    requires Stamping(stamps) && Faithful(src, want) && first.Child? && Sane(first)
    requires CalmRun(src, State(first.parent, [], []), first, views) && AtMost(heights, first.Number())
    requires Interleaves(merged, Run(src, State(first.parent, [], []), views).log, BackwardEvents(src, want, first, heights))
    ensures var end := Run(src, State(first.parent, [], []), views);
            && Interpret(stamps, db, merged) ==
               Survivors(db, end.log) + Written(stamps, BackwardEvents(src, want, first, heights)) +
               Residue(stamps, end.log) + PointsAbove(stamps, first.Number() - 1, end.prev)
            && Deserved(src, want, end.log)
  {
    hide Run, CalmRun, Deserved, Settled, Interleaves, Stamping, Written, BackwardEvents, Interpret, Residue, PointsAbove,
      AllBy, Inv, Kept, Spared;
    var s := State(first.parent, [], []);
    var back := BackwardEvents(src, want, first, heights);
    ServiceStarts(stamps, want, first);
    RunKeepsDatabase(stamps, src, want, s, first, views, first.parent, {}, first.timestamp);
    assert Survivors({}, Run(src, s, views).log) == {};
    NothingServed(src, want);
    RunServesNoStaleBlock(src, want, s, first, views);
    BackwardIsSettled(stamps, src, want, first, heights);
    BackwardSyncIsKept(stamps, {}, merged, Run(src, s, views).log, back, first.timestamp);
    InterpretSplits(stamps, db, merged);
    forall p
      ensures p in Survivors(db, merged) <==> p in Survivors(db, Run(src, s, views).log)
    {
      BackwardIsPublished(src, want, first, heights);
      InterleavedSurvivors(merged, Run(src, s, views).log, back, p.time);
    }
  }

  lemma {:induction false} BackwardIsPublished(src: Source, want: Block -> FetchResult, first: Block, heights: seq<nat>)
    requires AtMost(heights, first.Number())
    ensures var back := BackwardEvents(src, want, first, heights); forall i :: 0 <= i < |back| ==> back[i].Published?
  {
  }

  lemma {:induction false} NothingServed(src: Source, want: Block -> FetchResult)
    ensures Deserved(src, want, [])
  {
  }

  lemma {:induction false} ServiceStarts(stamps: Stamps, want: Block -> FetchResult, first: Block)
    requires first.Child? && first.Timely()
    ensures Inv(want, State(first.parent, [], []), first)
    ensures Kept(stamps, State(first.parent, [], []), first, first.parent)
    ensures Spared([], first.timestamp)
  {
    assert first.At(first.Number() - 1) == first.parent;
  }

  /** The service as it starts: an empty cache, any database, and the forward syncer one block below `first`,
      where backward sync begins.  Whatever the order in which the subscriber receives the events of the two
      syncers, it ends with the points of backward sync, those of the chain that was followed, what deletes left,
      and what they spared of the points that were there before. */
  lemma {:induction false} ServiceKeepsDatabase(stamps: Stamps, net: Network, first: Block, views: seq<View>,
                                                db: set<Point>, heights: seq<nat>, merged: seq<Event>)
    requires Stamping(stamps) && first.Child? && Sane(first)
    requires CalmRun(SourceOf(net), State(first.parent, [], []), first, views) && AtMost(heights, first.Number())
    requires Interleaves(merged, Run(SourceOf(net), State(first.parent, [], []), views).log,
                         BackwardEvents(SourceOf(net), Want(net), first, heights))
    ensures var end := Run(SourceOf(net), State(first.parent, [], []), views);
            && Interpret(stamps, db, merged) ==
               Survivors(db, end.log) + Written(stamps, BackwardEvents(SourceOf(net), Want(net), first, heights)) +
               Residue(stamps, end.log) + PointsAbove(stamps, first.Number() - 1, end.prev)
            && Deserved(SourceOf(net), Want(net), end.log)
  {
    hide Run, CalmRun, Deserved, Interleaves, Stamping, Written, BackwardEvents, Interpret, Residue, PointsAbove,
      Survivors, Sane, SourceOf, Want, Block.At, Block.Number;
    NodesAreFaithful(net);
    FreshRunKeepsDatabase(stamps, SourceOf(net), Want(net), first, views, db, heights, merged);
  }
}
