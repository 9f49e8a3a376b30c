/** What a reorg inside one iteration of the forward syncer does: between the check of the next block and its
    fetch, and between the fetch of a block and a failed fetch of its parent. */
module MidIteration {
  import opened Chain
  import opened Points
  import opened Lru
  import opened Types
  import opened BlockFetcher
  import opened ForwardSyncer
  import opened Replay
  import opened Stabilisation
  import opened ExactBound
  import opened Database

  /** Every entry is the result of some block at its height: the follower's caches are never anything else. */
  predicate Genuine(want: Block -> FetchResult, c: Cache) {
    Lru.Valid(c) && forall i :: 0 <= i < |c| ==>
      c[i].value.block.Number() == c[i].key < UINT32 - 1 && c[i].value == want(c[i].value.block)
  }

  lemma {:induction false} FetchIsGenuine(src: Source, want: Block -> FetchResult, c: Cache, n: nat, leaf: Block, ok: bool)
    requires Faithful(src, want) && Genuine(want, c) && leaf.Number() + 1 < UINT32
    ensures var (c1, served) := Fetch(c, n, FetchIf(src, leaf, n, ok));
            && Genuine(want, c1)
            && (served.Some? <==> Lookup(c, n).Some? || (ok && n <= leaf.Number()))
            && (served.Some? ==> Held(c, n, leaf).Some? && served.value == want(Held(c, n, leaf).value) &&
                                 served.value.block == Held(c, n, leaf).value)
  {
    hide Promote;
    if n <= leaf.Number() {
      AtAt(leaf, n, n);
      assert src.fetch(leaf, n) == Some(want(leaf.At(n)));
    }
    var (c1, served) := Fetch(c, n, FetchIf(src, leaf, n, ok));
    if served.Some? {
      PromoteShape(c, Entry(n, served.value));
      forall i | 0 <= i < |c1|
        ensures c1[i].value.block.Number() == c1[i].key < UINT32 - 1 && c1[i].value == want(c1[i].value.block)
      {
        assert i > 0 ==> c1[i] == c[Origin(Find(c, n), i)];
      }
    }
  }

  lemma {:induction false} TouchedIsGenuine(src: Source, want: Block -> FetchResult, c: Cache, leaf: Block, heights: seq<nat>)
    requires Faithful(src, want) && Genuine(want, c) && leaf.Number() + 1 < UINT32
    ensures Genuine(want, Touched(src, c, leaf, heights))
    decreases |heights|
  {
    hide Genuine, Fetch;
    if heights != [] {
      FetchIsGenuine(src, want, c, heights[0], leaf, true);
      TouchedIsGenuine(src, want, Fetch(c, heights[0], src.fetch(leaf, heights[0])).0, leaf, heights[1..]);
    }
  }

  /** No run leaves anything else in the cache, on whatever chains its requests see. */
  lemma {:induction false} RunIsGenuine(src: Source, want: Block -> FetchResult, s: State, views: seq<View>)
    requires Faithful(src, want) && Genuine(want, s.cache)
    requires forall i :: 0 <= i < |views| ==>
      Sane(views[i].leaf) && Sane(views[i].served) && Sane(views[i].servedParent)
    ensures Genuine(want, Run(src, s, views).cache)
    decreases |views|
  {
    hide Step, Genuine;
    if views != [] {
      StepIsGenuine(src, want, s, views[0]);
      RunIsGenuine(src, want, Step(src, s, views[0]).0, views[1..]);
    }
  }

  lemma {:induction false} StepIsGenuine(src: Source, want: Block -> FetchResult, s: State, v: View)
    requires Faithful(src, want) && Genuine(want, s.cache) && Sane(v.leaf) && Sane(v.served) && Sane(v.servedParent)
    ensures Genuine(want, Step(src, s, v).0.cache)
  {
    hide Genuine, Process;
    TouchedIsGenuine(src, want, s.cache, v.leaf, v.before);
    ProcessIsGenuine(src, want, Touched(src, s.cache, v.leaf, v.before), s.prev.Number() + 1, v);
  }

  lemma {:induction false} ProcessIsGenuine(src: Source, want: Block -> FetchResult, c: Cache, n: nat, v: View)
    requires Faithful(src, want) && Genuine(want, c) && Sane(v.served) && Sane(v.servedParent) && n >= 1
    ensures Genuine(want, Process(src, c, n, v).0)
  {
    hide Genuine, Fetch, FetchIf, Touched;
    FetchIsGenuine(src, want, c, n, v.served, v.blockOk);
    TouchedIsGenuine(src, want, Fetch(c, n, FetchIf(src, v.served, n, v.blockOk)).0, v.served, v.between);
    FetchIsGenuine(src, want, BeforeParent(src, c, n, v), n - 1, v.servedParent, v.parentOk);
  }

  /** The cache when the parent is about to be fetched. */
  function BeforeParent(src: Source, c: Cache, n: nat, v: View): Cache {
    Touched(src, Fetch(c, n, FetchIf(src, v.served, n, v.blockOk)).0, v.served, v.between)
  }

  /** The block that a fetch of height `k` gets: the one held, or the one that the chain has there. */
  function Held(c: Cache, k: nat, leaf: Block): Option<Block> {
    if Lookup(c, k).Some? then Some(Lookup(c, k).value.block)
    else if k <= leaf.Number() then Some(leaf.At(k)) else None
  }

  /** Whatever the cache holds and whatever chains the requests see: the event carries the block that is held or
      served at its height, and the parent that is held or served below.  It is the event that the checked block
      deserves exactly when these are the checked block and its parent. */
  lemma {:induction false} ServedIsNextIff(src: Source, want: Block -> FetchResult, c: Cache, v: View, next: Block)
    requires Faithful(src, want) && Genuine(want, c) && next.Child? && next.Number() + 1 < UINT32
    requires Sane(v.served) && Sane(v.servedParent)
    ensures var n := next.Number();
            var event := Process(src, c, n, v).1;
            var block := Held(c, n, v.served);
            var parent := Held(BeforeParent(src, c, n, v), n - 1, v.servedParent);
            && (event.Some? <==>
                && (Lookup(c, n).Some? || (v.blockOk && n <= v.served.Number()))
                && (n == 1 || Lookup(BeforeParent(src, c, n, v), n - 1).Some? ||
                    (v.parentOk && n - 1 <= v.servedParent.Number())))
            && (event.Some? ==>
                && Some(event.value.block) == block && (n > 1 ==> event.value.prev == parent)
                && (event.value == EventOf(src, want, next) <==>
                    block == Some(next) && (n == 1 || parent == Some(next.parent))))
  {
    hide Genuine, Process, BeforeParent, Touched, Held, EventOf, Lookup;
    var n := next.Number();
    ProcessServes(src, want, c, n, v);
    var event := Process(src, c, n, v).1;
    if event.Some? {
      var block := Held(c, n, v.served).value;
      var parent := Held(BeforeParent(src, c, n, v), n - 1, v.servedParent);
      EventIsOf(src, want, block, if n > 1 then parent.value else block, next);
    }
  }

  lemma {:induction false} ProcessServes(src: Source, want: Block -> FetchResult, c: Cache, n: nat, v: View)
    requires Faithful(src, want) && Genuine(want, c) && n >= 1 && Sane(v.served) && Sane(v.servedParent)
    ensures var event := Process(src, c, n, v).1;
            var before := BeforeParent(src, c, n, v);
            var block := Held(c, n, v.served);
            var parent := Held(before, n - 1, v.servedParent);
            && (event.Some? <==>
                && (Lookup(c, n).Some? || (v.blockOk && n <= v.served.Number()))
                && (n == 1 || Lookup(before, n - 1).Some? || (v.parentOk && n - 1 <= v.servedParent.Number())))
            && (event.Some? ==>
                && block.Some? && want(block.value).block == block.value
                && (n > 1 ==> parent.Some? && want(parent.value).block == parent.value)
                && event.value == MakeEvent(src, n, want(block.value), if n > 1 then Some(want(parent.value)) else None))
  {
    hide Genuine, Fetch, FetchIf, Touched, Held, Lookup, Sane, MakeEvent;
    SaneIsShort(v.served);
    SaneIsShort(v.servedParent);
    FetchIsGenuine(src, want, c, n, v.served, v.blockOk);
    TouchedIsGenuine(src, want, Fetch(c, n, FetchIf(src, v.served, n, v.blockOk)).0, v.served, v.between);
    var before := BeforeParent(src, c, n, v);
    FetchIsGenuine(src, want, before, n - 1, v.servedParent, v.parentOk);
    var current := Fetch(c, n, FetchIf(src, v.served, n, v.blockOk)).1;
    var parent := Fetch(before, n - 1, FetchIf(src, v.servedParent, n - 1, v.parentOk)).1;
    assert Process(src, c, n, v).1 ==
           if current.None? then None
           else if n == 1 then Some(MakeEvent(src, n, current.value, None))
           else if parent.None? then None else Some(MakeEvent(src, n, current.value, parent));
    assert parent.Some? ==> parent == Some(parent.value);
  }

  lemma {:induction false} EventIsOf(src: Source, want: Block -> FetchResult, block: Block, parent: Block, next: Block)
    requires Faithful(src, want) && next.Child? && next.Number() + 1 < UINT32
    requires want(block).block == block && want(parent).block == parent
    ensures var event := MakeEvent(src, next.Number(), want(block), if next.Number() > 1 then Some(want(parent)) else None);
            event == EventOf(src, want, next) <==> block == next && (next.Number() == 1 || parent == next.parent)
  {
    assert want(next).block == next && want(next.parent).block == next.parent;
  }

  // A reorg between the check and the fetch.

  lemma {:induction false} PointStays(stamps: Stamps, db: set<Point>, log: seq<Event>, i: nat, p: Point)
    requires i <= |log| && NoForkFrom(log, i) && p in Interpret(stamps, db, log[..i])
    ensures p in Interpret(stamps, db, log)
    decreases |log|
  {
    if i < |log| {
      assert log[..|log| - 1][..i] == log[..i];
      PointStays(stamps, db, log[..|log| - 1], i, p);
    } else {
      assert log[..i] == log;
    }
  }

  lemma {:induction false} StepServes(src: Source, s: State, v: View, next: Block)
    requires Advances(s, v) && next == v.leaf.At(s.prev.Number() + 1)
    ensures var (s', control) := Step(src, s, v);
            var event := Process(src, Touched(src, s.cache, v.leaf, v.before), next.Number(), v).1;
            if event.None? then s'.prev == s.prev && s'.log == s.log && control == Running
            else if v.cancelledAtSend then s'.prev == s.prev && s'.log == s.log && control == Returned
            else s'.prev == next && s'.log == s.log + [Published(event.value)] && control == Running
  {
    hide Process, Touched;
  }

  /** If the block that the fetch got is not the one that was checked, and the chain then goes on past the checked
      block, no fork event ever comes: the points of that other block stay in the database, and it is not on the
      followed chain. */
  lemma {:induction false} ReorgIsNeverRepaired(stamps: Stamps, src: Source, want: Block -> FetchResult, s: State, v: View,
                                                sibling: Block, views: seq<View>, db: set<Point>)
    requires Faithful(src, want) && Genuine(want, s.cache) && Sane(v.leaf) && Sane(v.served) && Sane(v.servedParent)
    requires Advances(s, v) && !v.cancelledAtSend
    requires var c := Touched(src, s.cache, v.leaf, v.before);
             && Process(src, c, s.prev.Number() + 1, v).1.Some?
             && Held(c, s.prev.Number() + 1, v.served) == Some(sibling)
    requires sibling.Number() == s.prev.Number() + 1 && sibling != v.leaf.At(s.prev.Number() + 1)
    requires Growing(views) && (views != [] ==> Within(v.leaf.At(s.prev.Number() + 1), views[0].leaf))
    ensures var end := Run(src, s, [v] + views);
            PointsOf(stamps, sibling) <= Interpret(stamps, db, end.log) && !Within(sibling, end.prev)
  {
    hide Step, Process, Touched, Genuine, Held;
    var next := v.leaf.At(s.prev.Number() + 1);
    AtAt(v.leaf, next.Number(), s.prev.Number());
    TouchedIsGenuine(src, want, s.cache, v.leaf, v.before);
    ServedIsNextIff(src, want, Touched(src, s.cache, v.leaf, v.before), v, next);
    StepServes(src, s, v, next);
    var s1 := Step(src, s, v).0;
    assert ([v] + views)[1..] == views;
    var end := Run(src, s1, views);
    RunGrows(src, s1, views);
    assert end.log[..|s1.log|] == s1.log && s1.log[..|s1.log| - 1] == s.log;
    forall p | p in PointsOf(stamps, sibling)
      ensures p in Interpret(stamps, db, end.log)
    {
      PointStays(stamps, db, end.log, |s1.log|, p);
    }
  }

  // A failed fetch of the parent.

  /** A block whose parent could not be fetched stays in the cache, and the next iteration publishes it, on
      whatever chain that iteration is: what is published is deserved exactly when the block is still there. */
  lemma {:induction false} HalfFetchedIff(src: Source, want: Block -> FetchResult, s: State, block: Block, best: Block,
                                          finalized: Block, before: seq<nat>)
    requires Faithful(src, want) && block.Number() + 1 < UINT32 && best.Number() + 1 < UINT32
    requires block.Number() >= 2 && block.parent == s.prev && Within(s.prev, best) && s.prev.Number() < best.Number()
    requires var c := Touched(src, s.cache, block, before);
             Lru.Valid(c) && Lookup(c, block.Number()).None? && Lookup(c, s.prev.Number()).None?
    ensures var v := Clear(block, finalized).(before := before, parentOk := false);
            var (s1, control) := Step(src, s, v);
            var s2 := Step(src, s1, Clear(best, finalized)).0;
            && control == Running && s1.prev == s.prev && s1.log == s.log
            && Step(src, s1, Clear(best, finalized)).1 == Running && s2.prev == best.At(block.Number())
            && s2.log == s.log + [Published(EventOf(src, want, block))]
            && (s2.log == s.log + [Published(EventOf(src, want, s2.prev))] <==> s2.prev == block)
  {
    hide Promote, Lookup, Touched, Step;
    var n := block.Number();
    var c := Touched(src, s.cache, block, before);
    HalfStep(src, want, s, block, finalized, before);
    var s1 := Step(src, s, Clear(block, finalized).(before := before, parentOk := false)).0;
    ClearPublishes(src, want, s1, best, finalized);
    HitServes(want, s1, c, block);
    BlockOfWant(src, want, block, block);
    AtAt(best, n, n);
    BlockOfWant(src, want, best, best.At(n));
    assert s1.prev == s.prev && s1.log == s.log;
    assert Publish(src, want, s1, best.At(n)).log == s.log + [Published(EventOf(src, want, block))];
    assert EventOf(src, want, block).block == block && EventOf(src, want, best.At(n)).block == best.At(n);
    var a, b := Published(EventOf(src, want, block)), Published(EventOf(src, want, best.At(n)));
    assert (s.log + [a])[|s.log|] == a && (s.log + [b])[|s.log|] == b;
  }

  lemma {:induction false} HalfStep(src: Source, want: Block -> FetchResult, s: State, block: Block, finalized: Block,
                                    before: seq<nat>)
    requires Faithful(src, want) && block.Number() + 1 < UINT32 && block.Number() >= 2 && block.parent == s.prev
    requires var c := Touched(src, s.cache, block, before);
             Lru.Valid(c) && Lookup(c, block.Number()).None? && Lookup(c, s.prev.Number()).None?
    ensures var v := Clear(block, finalized).(before := before, parentOk := false);
            var c := Touched(src, s.cache, block, before);
            Step(src, s, v) == (State(s.prev, Promote(c, Entry(block.Number(), want(block))), s.log), Running)
  {
    hide Promote, Process, Touched;
    HalfProcess(src, want, Touched(src, s.cache, block, before), block, Clear(block, finalized).(before := before, parentOk := false));
  }

  lemma {:induction false} HalfProcess(src: Source, want: Block -> FetchResult, c: Cache, block: Block, v: View)
    requires Faithful(src, want) && block.Number() + 1 < UINT32 && block.Number() >= 2
    requires v.served == block && v.blockOk && !v.parentOk && v.between == []
    requires Lru.Valid(c) && Lookup(c, block.Number()).None? && Lookup(c, block.Number() - 1).None?
    ensures Process(src, c, block.Number(), v) == (Promote(c, Entry(block.Number(), want(block))), None)
  {
    hide Promote;
    var n := block.Number();
    var e := Entry(n, want(block));
    assert src.fetch(block, n) == Some(want(block));
    PromoteShape(c, e);
    var c1 := Promote(c, e);
    assert forall i :: 0 < i < |c1| ==> c1[i] == c[i - 1];
    assert Find(c1, n - 1) == |c1|;
    assert Touched(src, c1, block, []) == c1;
  }

  lemma {:induction false} HitServes(want: Block -> FetchResult, s1: State, c: Cache, block: Block)
    requires Lru.Valid(c) && Lookup(c, block.Number()).None? && block.Number() >= 2
    requires Lookup(c, block.Number() - 1).None?
    requires s1.cache == Promote(c, Entry(block.Number(), want(block)))
    ensures Lookup(s1.cache, block.Number()) == Some(want(block))
    ensures var c2 := Promote(s1.cache, Entry(block.Number(), want(block)));
            Lookup(c2, block.Number() - 1).None?
  {
    hide Promote;
    var n := block.Number();
    var e := Entry(n, want(block));
    PromoteShape(c, e);
    assert Find(s1.cache, n) == 0;
    PromoteShape(s1.cache, e);
    var c2 := Promote(s1.cache, e);
    assert forall i :: 0 < i < |c2| ==> c2[i] == s1.cache[i] == c[i - 1];
    assert Find(c2, n - 1) == |c2|;
  }

  /** The heights that one flush of the cache fetches. */
  function Heights(low: nat, k: nat): seq<nat>
    decreases k
  {
    if k == 0 then [] else [low] + Heights(low + 1, k - 1)
  }

  lemma {:induction false} FlushOne(src: Source, want: Block -> FetchResult, c: Cache, leaf: Block, low: nat, m: nat)
    requires Faithful(src, want) && leaf.Number() + 1 < UINT32 && low + m <= leaf.Number()
    requires Lru.Valid(c) && forall i :: 0 <= i < |c| && i < m ==> low <= c[i].key < low + m
    ensures var r := Fetch(c, low + m, src.fetch(leaf, low + m)).0;
            Lru.Valid(r) && forall i :: 0 <= i < |r| && i < m + 1 ==> low <= r[i].key < low + m + 1
  {
    hide Promote;
    var h := low + m;
    AtAt(leaf, h, h);
    assert src.fetch(leaf, h) == Some(want(leaf.At(h)));
    var e := Entry(h, if Lookup(c, h).Some? then Lookup(c, h).value else want(leaf.At(h)));
    PromoteShape(c, e);
    var r := Promote(c, e);
    forall i | 0 <= i < |r| && i < m + 1
      ensures low <= r[i].key < low + m + 1
    {
      assert i == 0 || r[i] == c[Origin(Find(c, h), i)];
    }
  }

  /** Fetching as many other heights as the cache holds leaves nothing else in it. */
  lemma {:induction false} Flushes(src: Source, want: Block -> FetchResult, c: Cache, leaf: Block, low: nat, m: nat, k: nat)
    requires Faithful(src, want) && leaf.Number() + 1 < UINT32 && low + m + k <= leaf.Number() + 1
    requires Lru.Valid(c) && forall i :: 0 <= i < |c| && i < m ==> low <= c[i].key < low + m
    ensures var r := Touched(src, c, leaf, Heights(low + m, k));
            Lru.Valid(r) && forall i :: 0 <= i < |r| && i < m + k ==> low <= r[i].key < low + m + k
    decreases k
  {
    hide Fetch;
    if k > 0 {
      var h := low + m;
      FlushOne(src, want, c, leaf, low, m);
      assert Heights(h, k)[0] == h && Heights(h, k)[1..] == Heights(h + 1, k - 1);
      Flushes(src, want, Fetch(c, h, src.fetch(leaf, h)).0, leaf, low, m + 1, k - 1);
    }
  }

  /** Such a run of the service: it has followed blocks from height `g` on, backward sync has just gone through a
      cacheful of heights below, the parent's fetch fails, and a sibling becomes canonical before the retry. */
  lemma {:induction false} HalfFetchedRun(src: Source, want: Block -> FetchResult, block: Block, best: Block, finalized: Block,
                                          g: nat, low: nat)
    requires Faithful(src, want) && Sane(block) && Sane(best) && low + CACHE_SIZE <= g + 1
    requires g + 2 <= block.Number() <= best.Number()
    requires best.At(block.Number() - 1) == block.parent && best.At(block.Number()) != block
    ensures var v := Clear(block, finalized);
            var end := Run(src, State(block.At(g), [], []),
                           Repeat(v, block.Number() - 1 - g) +
                           [v.(before := Heights(low, CACHE_SIZE), parentOk := false), Clear(best, finalized)]);
            && end.prev == best.At(block.Number()) != block
            && end.log == EventsOf(src, want, block, g, block.Number() - 1) + [Published(EventOf(src, want, block))]
  {
    hide Step, Run, Repeat, EventsOf, EventOf, Inv, Recency, Touched, Heights, Lookup, Sane, Within, Block.At, Block.Number;
    HalfGeometry(block, best, g);
    var n := block.Number();
    var v := Clear(block, finalized);
    var before := Heights(low, CACHE_SIZE);
    var half, last := v.(before := before, parentOk := false), Clear(best, finalized);
    Starts(want, block, g);
    var s := FollowMany(src, want, block, finalized, State(block.At(g), [], []), block.At(g), n - 1 - g, [half, last]);
    InvIsValid(want, s, block.At(g));
    Flushes(src, want, s.cache, block, low, 0, CACHE_SIZE);
    Flushed(Touched(src, s.cache, block, before), low, n);
    Flushed(Touched(src, s.cache, block, before), low, n - 1);
    HalfFetchedIff(src, want, s, block, best, finalized, before);
    RunTwo(src, s, half, last);
    assert [] + EventsOf(src, want, block, g, n - 1) == EventsOf(src, want, block, g, n - 1);
  }

  lemma {:induction false} HalfGeometry(block: Block, best: Block, g: nat)
    requires Sane(block) && Sane(best) && g + 2 <= block.Number() <= best.Number()
    requires best.At(block.Number() - 1) == block.parent
    ensures block.Number() + 1 < UINT32 && best.Number() + 1 < UINT32
    ensures block.At(block.Number() - 1) == block.parent && Within(block.parent, best)
    ensures block.parent.Number() == block.Number() - 1 && Within(block.At(g), block)
  {
    AtAt(block, g, g);
    AtAt(best, block.Number() - 1, block.Number() - 1);
    assert block.At(block.Number() - 1) == block.parent;
  }

  lemma {:induction false} InvIsValid(want: Block -> FetchResult, s: State, base: Block)
    requires Inv(want, s, base)
    ensures Lru.Valid(s.cache)
  {
  }

  lemma {:induction false} Flushed(c: Cache, low: nat, n: nat)
    requires Lru.Valid(c) && low + CACHE_SIZE <= n
    requires forall i :: 0 <= i < |c| && i < CACHE_SIZE ==> low <= c[i].key < low + CACHE_SIZE
    ensures Lookup(c, n).None?
  {
  }

  lemma {:induction false} RunTwo(src: Source, s: State, v: View, w: View)
    requires Step(src, s, v).1 == Running && Step(src, Step(src, s, v).0, w).1 == Running
    ensures Run(src, s, [v, w]) == Step(src, Step(src, s, v).0, w).0
  {
    hide Step;
    var s1 := Step(src, s, v).0;
    assert [v, w][1..] == [w] && [w][1..] == [];
    assert Run(src, s, [v, w]) == Run(src, s1, [w]);
  }
}
