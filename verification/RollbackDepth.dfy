/** The exact depth at which a rollback is clean, for every start, rollback height and parting height. */
module RollbackDepth {
  import opened Chain
  import opened Lru
  import opened Types
  import opened BlockFetcher
  import opened ForwardSyncer
  import opened Replay
  import opened ExactBound
  import opened EdgeRollback

  /** Start at height `g` with an empty cache, follow `side` to its end, meet `best`, roll back to height `f`,
      and follow `best` to its end, with every request getting through. */
  function Rollback(src: Source, side: Block, best: Block, g: nat, f: nat): State
    requires g <= f <= side.Number() && f <= best.Number()
  {
    var finalized := side.At(f);
    Run(src, State(side.At(g), [], []),
        Repeat(Clear(side, finalized), side.Number() - g) +
        (Repeat(Clear(best, finalized), 1 + best.Number() - f) + []))
  }

  /** What such a run ought to log. */
  function CleanLog(src: Source, want: Block -> FetchResult, side: Block, best: Block, g: nat, f: nat): seq<Event>
    requires g <= f <= side.Number() < best.Number()
  {
    EventsOf(src, want, side, g, side.Number()) + [Forked(best.At(side.Number() + 1), side.At(f), side)] +
    EventsOf(src, want, best, f, best.Number())
  }

  /** The two branches share height `a` and part above it. */
  predicate PartAt(side: Block, best: Block, a: nat) {
    a < side.Number() < best.Number() && side.At(a) == best.At(a) && side.At(a + 1) != best.At(a + 1)
  }

  lemma {:induction false} PartedAbove(side: Block, best: Block, a: nat, h: nat)
    requires PartAt(side, best, a) && h <= side.Number()
    ensures side.At(h) == best.At(h) <==> h <= a
  {
    if h <= a {
      AtAt(side, a, h);
      AtAt(best, a, h);
    } else {
      AtAt(side, h, a + 1);
      AtAt(best, h, a + 1);
    }
  }

  lemma {:induction false} Geometry(side: Block, best: Block, g: nat, f: nat, a: nat)
    requires PartAt(side, best, a) && g <= f <= a && Sane(best)
    ensures best.Number() + 1 < UINT32
    ensures a < side.Number() < best.Number() && side.At(side.Number()) == side
    ensures Within(side.At(g), side) && Within(side.At(f), side) && Within(side.At(g), side.At(f))
    ensures side.At(f) == best.At(f) && Within(side.At(f), best)
    ensures best.At(side.Number() + 1).parent != side
  {
    var n := side.Number();
    PartedAbove(side, best, a, n);
    PartedAbove(side, best, a, f);
    AtAt(side, g, g);
    AtAt(side, f, f);
    AtAt(side, f, g);
    AtAt(best, f, f);
    AtAt(best, n + 1, n);
    assert best.At(n + 1).At(n) == best.At(n + 1).parent;
  }

  /** The state in which the replay begins. */
  predicate RolledBack(src: Source, want: Block -> FetchResult, side: Block, best: Block, g: nat, f: nat, s: State) {
    && g <= f < side.Number() < best.Number() && s.prev == side.At(f)
    && s.log == EventsOf(src, want, side, g, side.Number()) + [Forked(best.At(side.Number() + 1), side.At(f), side)]
    && Recency(s.cache, g, side.Number()) && Inv(want, s.(prev := side), side.At(g))
  }

  lemma {:induction false} ReachesRollback(src: Source, want: Block -> FetchResult, side: Block, best: Block, g: nat, f: nat, a: nat)
    returns (s: State)
    requires Faithful(src, want) && Sane(side) && Sane(best) && g <= f <= a && PartAt(side, best, a)
    ensures RolledBack(src, want, side, best, g, f, s) && Within(s.prev, best)
    ensures Rollback(src, side, best, g, f) ==
            Run(src, s, Repeat(Clear(best, side.At(f)), best.Number() - f) + [])
  {
    hide Step, Run, EventsOf, Recency, Inv, Repeat, Clear, Sane, PartAt, Within, Block.At, Block.Number;
    Geometry(side, best, g, f, a);
    var n := side.Number();
    var finalized := side.At(f);
    var v := Clear(best, finalized);
    Starts(want, side, g);
    var s1 := FollowMany(src, want, side, finalized, State(side.At(g), [], []), side.At(g), n - g,
                         Repeat(v, 1 + best.Number() - f) + []);
    ClearForks(src, s1, best, finalized);
    RunRepeat(src, s1, v, best.Number() - f, []);
    s := Step(src, s1, v).0;
    InvOnly(want, s1, s.(prev := side), side.At(g));
    assert [] + EventsOf(src, want, side, g, n) == EventsOf(src, want, side, g, n);
  }

  lemma {:induction false} InvOnly(want: Block -> FetchResult, s: State, t: State, base: Block)
    requires Inv(want, s, base) && t.prev == s.prev && t.cache == s.cache
    ensures Inv(want, t, base)
  {
  }

  /** A deep rollback replays cleanly. */
  lemma {:induction false} DeepRollbackIsClean(src: Source, want: Block -> FetchResult, side: Block, best: Block, g: nat, f: nat, a: nat)
    requires Faithful(src, want) && Sane(side) && Sane(best) && g <= f <= a && PartAt(side, best, a)
    requires side.Number() - Lowest(f) > CACHE_SIZE
    ensures Rollback(src, side, best, g, f).log == CleanLog(src, want, side, best, g, f)
  {
    hide Step, Run, EventsOf, Recency, Repeat, Clear, Sane, PartAt, Within, Rollback, Slots, AllRight, Block.At, Block.Number;
    Geometry(side, best, g, f, a);
    var s := ReachesRollback(src, want, side, best, g, f, a);
    RollbackKeeps(want, s.cache, side, side.At(g), s.prev);
    Refl(s.prev);
    var s' := FollowMany(src, want, best, s.prev, s, s.prev, best.Number() - f, []);
    RunEmpty(src, s');
  }

  lemma {:induction false} Refl(b: Block)
    ensures Within(b, b)
  {
  }

  lemma {:induction false} RunEmpty(src: Source, s: State)
    ensures Run(src, s, []) == s
  {
  }

  /** A published block of the old branch spoils the log for good. */
  lemma {:induction false} StaleHit(src: Source, want: Block -> FetchResult, side: Block, best: Block, finalized: Block,
                                    s: State, f: nat, log: seq<Event>, k: nat)
    requires Faithful(src, want) && Sane(side) && Sane(best) && f <= s.prev.Number() < side.Number() < best.Number()
    requires Within(s.prev, best) && |s.log| == |log| + s.prev.Number() - f && k > 0
    requires side.At(s.prev.Number() + 1) != best.At(s.prev.Number() + 1)
    requires Lookup(s.cache, s.prev.Number() + 1) == Some(want(side.At(s.prev.Number() + 1)))
    ensures Run(src, s, Repeat(Clear(best, finalized), k) + []).log != log + EventsOf(src, want, best, f, best.Number())
  {
    hide Step, Run, EventsOf, EventOf, Publish, Repeat, Clear, Sane, Within, Lookup, Block.At, Block.Number;
    var h := s.prev.Number() + 1;
    var v := Clear(best, finalized);
    var next := best.At(h);
    SaneIsShort(side);
    SaneIsShort(best);
    ClearPublishes(src, want, s, best, finalized);
    WithinAt(side, h);
    WithinAt(best, h);
    BlockOfWant(src, want, side, side.At(h));
    BlockOfWant(src, want, best, next);
    PublishesHit(src, want, s, next, want(side.At(h)));
    var s1 := Step(src, s, v).0;
    RunRepeat(src, s, v, k - 1, []);
    RunAppends(src, s1, Repeat(v, k - 1) + []);
    EventsOfAt(src, want, best, f, best.Number(), h);
    assert EventOf(src, want, next).block == next by { EventBlock(src, want, next); }
    assert (log + EventsOf(src, want, best, f, best.Number()))[|s.log|] == Published(EventOf(src, want, next));
  }

  lemma {:induction false} PublishesHit(src: Source, want: Block -> FetchResult, s: State, next: Block, x: FetchResult)
    requires next.Child? && Lookup(s.cache, next.Number()) == Some(x)
    ensures var log := Publish(src, want, s, next).log;
            |log| == |s.log| + 1 && log[|s.log|].Published? && log[|s.log|].event.block == x.block
  {
    hide Promote, Lookup;
  }

  lemma {:induction false} EventBlock(src: Source, want: Block -> FetchResult, b: Block)
    requires want(b).block == b
    ensures EventOf(src, want, b).block == b
  {
  }

  /** A shallow one publishes the old branch's first block. */
  lemma {:induction false} ShallowRollbackIsStale(src: Source, want: Block -> FetchResult, side: Block, best: Block,
                                                  g: nat, f: nat, a: nat)
    requires Faithful(src, want) && Sane(side) && Sane(best) && g <= f <= a && PartAt(side, best, a)
    requires side.Number() - Lowest(f) < CACHE_SIZE
    ensures Rollback(src, side, best, g, f).log != CleanLog(src, want, side, best, g, f)
  {
    hide Step, Run, EventsOf, Recency, Repeat, Clear, Sane, Rollback, Inv, AllRight, Holds, PartAt, Within, Lookup,
      Block.At, Block.Number;
    Geometry(side, best, g, f, a);
    var s := ReachesRollback(src, want, side, best, g, f, a);
    var k := best.Number() - f;
    var v := Clear(best, side.At(f));
    InvIsRight(want, s.(prev := side), side.At(g));
    RecencyHolds(s.cache, want, side.At(g), side, g, Lowest(f));
    RecencyIsValid(s.cache, g, side.Number());
    RepeatSum(v, a - f, k - (a - f), []);
    var s1 := ReplayHits(src, want, side, best, side.At(f), s, a - f, Repeat(v, k - (a - f)) + []);
    PartedAbove(side, best, a, a + 1);
    WithinAt(best, a);
    HoldsAt(s1.cache, want, side, Lowest(a), a + 1);
    StaleHit(src, want, side, best, side.At(f), s1, f, s.log, k - (a - f));
  }

  lemma {:induction false} RecencyIsValid<V>(c: seq<Entry<V>>, g: nat, n: nat)
    requires Recency(c, g, n)
    ensures Lru.Valid(c)
  {
  }

  lemma {:induction false} HoldsAt(c: Cache, want: Block -> FetchResult, side: Block, low: nat, h: nat)
    requires Holds(c, want, side, low) && low <= h <= side.Number()
    ensures Lookup(c, h) == Some(want(side.At(h)))
  {
  }

  lemma {:induction false} EdgeReplay(src: Source, want: Block -> FetchResult, side: Block, best: Block, g: nat, f: nat, a: nat)
    returns (s: State, s1: State)
    requires Faithful(src, want) && Sane(side) && Sane(best) && g <= f <= a && PartAt(side, best, a)
    requires side.Number() - Lowest(f) == CACHE_SIZE
    ensures RolledBack(src, want, side, best, g, f, s) && s1.prev.Number() == side.Number() - 2
    ensures Replaying(src, want, s1, s.cache, best, Lowest(f), f, s.log, a == side.Number() - 1)
    ensures Rollback(src, side, best, g, f) ==
            Run(src, s1, Repeat(Clear(best, side.At(f)), best.Number() - side.Number() + 2) + [])
  {
    hide Step, Run, EventsOf, Recency, Repeat, Clear, Sane, Rollback, Publish, Full, RightBelow, Renewed, Slots, AllRight,
      PartAt, Within, Lookup, Promote, Block.At, Block.Number;
    Geometry(side, best, g, f, a);
    s := ReachesRollback(src, want, side, best, g, f, a);
    var v := Clear(best, side.At(f));
    var k := best.Number() - f;
    var clean := a == side.Number() - 1;
    RecencyIsFull(s.cache, g, Lowest(f));
    if clean {
      RightOnBoth(want, s.cache, side.At(g), side, best, a);
    }
    ClearPublishes(src, want, s, best, side.At(f));
    ReplayFirst(src, want, s, best, f, clean);
    PublishMoves(src, want, s, best.At(f + 1));
    RunRepeat(src, s, v, k - 1, []);
    var s0 := Step(src, s, v).0;
    var j := side.Number() - 3 - f;
    RepeatSum(v, j, k - 1 - j, []);
    s1 := ReplayMany(src, want, s0, s.cache, best, side.At(f), Lowest(f), f, s.log, clean, j,
                     Repeat(v, k - 1 - j) + []);
  }

  lemma {:induction false} RightOnBoth(want: Block -> FetchResult, c: Cache, base: Block, side: Block, best: Block, a: nat)
    requires AllRight(want, c, base, side) && Within(base, side) && PartAt(side, best, a)
    ensures RightBelow(c, want, best, a)
  {
    forall i | 0 <= i < |c| && c[i].key <= a
      ensures c[i].value == want(best.At(c[i].key))
    {
      PartedAbove(side, best, a, c[i].key);
      if c[i].key <= base.Number() {
        AgreeBelow(base, side, c[i].key);
      }
    }
  }

  /** At the edge the replay of the block below the old tip hits, and nothing else does that matters. */
  lemma {:induction false} EdgeRollbackIsStale(src: Source, want: Block -> FetchResult, side: Block, best: Block,
                                               g: nat, f: nat, a: nat)
    requires Faithful(src, want) && Sane(side) && Sane(best) && g <= f <= a && PartAt(side, best, a)
    requires side.Number() - Lowest(f) == CACHE_SIZE && a < side.Number() - 1
    ensures Rollback(src, side, best, g, f).log != CleanLog(src, want, side, best, g, f)
  {
    hide Step, Run, EventsOf, Rollback, Renewed, Replaying, Repeat, Clear, Sane, Recency, Inv, AllRight, PartAt, Within,
      Lookup, Block.At, Block.Number;
    Geometry(side, best, g, f, a);
    var n := side.Number();
    var s, s1 := EdgeReplay(src, want, side, best, g, f, a);
    ReplayingIs(src, want, s1, s.cache, best, Lowest(f), f, s.log, false);
    LastHits(s1.cache, s.cache, Lowest(f));
    InvIsRight(want, s.(prev := side), side.At(g));
    FrontHolds(want, s.cache, side.At(g), side, g);
    PartedAbove(side, best, a, n - 1);
    StaleHit(src, want, side, best, side.At(f), s1, f, s.log, best.Number() - n + 2);
  }

  lemma {:induction false} ReplayingIs(src: Source, want: Block -> FetchResult, s: State, was: Cache, best: Block, low: nat,
                                       f: nat, log: seq<Event>, clean: bool)
    requires low + CACHE_SIZE <= best.Number() && Replaying(src, want, s, was, best, low, f, log, clean)
    ensures f <= s.prev.Number() && low <= s.prev.Number() && Within(s.prev, best)
    ensures Renewed(s.cache, was, low, s.prev.Number() - low + 1) && |s.log| == |log| + (s.prev.Number() - f)
  {
  }

  lemma {:induction false} InvIsRight(want: Block -> FetchResult, s: State, base: Block)
    requires Inv(want, s, base)
    ensures AllRight(want, s.cache, base, s.prev)
  {
  }

  lemma {:induction false} FrontHolds(want: Block -> FetchResult, c: Cache, base: Block, side: Block, g: nat)
    requires Recency(c, g, side.Number()) && AllRight(want, c, base, side) && Within(base, side)
    requires g < side.Number() && Lowest(g) < side.Number()
    ensures |c| > 0 && c[0].value == want(side.At(side.Number() - 1))
  {
    var n := side.Number();
    RightAt(want, c, 0, base, side);
    if n - 1 <= base.Number() {
      AgreeBelow(base, side, n - 1);
    }
  }

  lemma {:induction false} EdgeRollbackIsClean(src: Source, want: Block -> FetchResult, side: Block, best: Block,
                                               g: nat, f: nat, a: nat)
    requires Faithful(src, want) && Sane(side) && Sane(best) && g <= f <= a && PartAt(side, best, a)
    requires side.Number() - Lowest(f) == CACHE_SIZE && a == side.Number() - 1
    ensures Rollback(src, side, best, g, f).log == CleanLog(src, want, side, best, g, f)
  {
    hide Step, Run, Rollback, Renewed, Publish, Inv, Recency, EventsOf, Repeat, Clear, Sane, PartAt, Within, Lookup, RightBelow, Full,
      Block.At, Block.Number;
    Geometry(side, best, g, f, a);
    var n := side.Number();
    var v := Clear(best, side.At(f));
    var s, s1 := EdgeReplay(src, want, side, best, g, f, a);
    ReplayLast(src, want, s1, s.cache, best, Lowest(f), f, s.log);
    ClearPublishes(src, want, s1, best, side.At(f));
    RunRepeat(src, s1, v, best.Number() - n + 1, []);
    var s2 := Step(src, s1, v).0;
    assert Within(s2.prev, best) && Within(s2.prev, s2.prev) by { WithinAt(best, n - 1); }
    var s3 := FollowMany(src, want, best, side.At(f), s2, s2.prev, best.Number() - n + 1, []);
    RunEmpty(src, s3);
    EventsOfSplit(src, want, best, f, n - 1, best.Number());
  }

  lemma {:induction false} EventsOfSplit(src: Source, want: Block -> FetchResult, leaf: Block, i: nat, j: nat, k: nat)
    requires i <= j <= k <= leaf.Number()
    ensures EventsOf(src, want, leaf, i, k) == EventsOf(src, want, leaf, i, j) + EventsOf(src, want, leaf, j, k)
    decreases j - i
  {
    hide EventOf;
    if i < j {
      EventsOfSplit(src, want, leaf, i + 1, j, k);
    } else {
      assert EventsOf(src, want, leaf, i, i) == [];
    }
  }

  /** The rollback is clean exactly when it is deeper than the cache, counted from the lowest height that the
      replay fetches, or just as deep and the branches part only at the old tip.  The lowest height is the
      rollback block, or block 1 when that is genesis. */
  lemma {:induction false} RollbackIsCleanIff(src: Source, want: Block -> FetchResult, side: Block, best: Block,
                                              g: nat, f: nat, a: nat)
    requires Faithful(src, want) && Sane(side) && Sane(best) && g <= f <= a && PartAt(side, best, a)
    ensures var depth := side.Number() - f;
            var bound := if f == 0 then 101 else 100;
            Rollback(src, side, best, g, f).log == CleanLog(src, want, side, best, g, f) <==>
            depth > bound || (depth == bound && a == side.Number() - 1)
  {
    hide Rollback, CleanLog;
    var depth := side.Number() - Lowest(f);
    if depth > CACHE_SIZE {
      DeepRollbackIsClean(src, want, side, best, g, f, a);
    } else if depth < CACHE_SIZE {
      ShallowRollbackIsStale(src, want, side, best, g, f, a);
    } else if a == side.Number() - 1 {
      EdgeRollbackIsClean(src, want, side, best, g, f, a);
    } else {
      EdgeRollbackIsStale(src, want, side, best, g, f, a);
    }
  }
}
