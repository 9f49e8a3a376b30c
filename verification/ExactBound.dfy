/** How deep a rollback has to be for its replay to be clean, exactly: an undisturbed run follows one branch,
    meets another, rolls back and replays.  The argument keeps the whole recency order of the cache. */
module ExactBound {
  import opened Chain
  import opened Lru
  import opened Types
  import opened BlockFetcher
  import opened ForwardSyncer
  import opened Replay
  import opened Stabilisation

  /** An iteration in which every request gets through and sees one chain, and nobody else fetches. */
  function Clear(leaf: Block, finalized: Block): View {
    View(false, true, leaf, leaf, leaf, finalized, true, true, true, true, false, [], [])
  }

  function Repeat(v: View, k: nat): seq<View> {
    if k == 0 then [] else [v] + Repeat(v, k - 1)
  }

  // One iteration, whatever the cache holds.

  /** What a fetch of `b` serves. */
  function Served(want: Block -> FetchResult, c: Cache, b: Block): FetchResult {
    var hit := Lookup(c, b.Number());
    if hit.Some? then hit.value else want(b)
  }

  /** The state after `next` was processed with the cache as it stands. */
  function Publish(src: Source, want: Block -> FetchResult, s: State, next: Block): State
    requires next.Child?
  {
    var n := next.Number();
    var x := Served(want, s.cache, next);
    var c := Promote(s.cache, Entry(n, x));
    var y := Served(want, c, next.parent);
    if n == 1 then State(next, c, s.log + [Published(MakeEvent(src, n, x, None))])
    else State(next, Promote(c, Entry(n - 1, y)), s.log + [Published(MakeEvent(src, n, x, Some(y)))])
  }

  lemma {:induction false} ClearPublishes(src: Source, want: Block -> FetchResult, s: State, leaf: Block, finalized: Block)
    requires Faithful(src, want) && Within(s.prev, leaf) && s.prev.Number() < leaf.Number() && leaf.Number() + 1 < UINT32
    ensures leaf.At(s.prev.Number() + 1).Child? && leaf.At(s.prev.Number() + 1).parent == s.prev
    ensures Step(src, s, Clear(leaf, finalized)) ==
            (Publish(src, want, s, leaf.At(s.prev.Number() + 1)), Running)
  {
    hide Promote, Lookup;
    var n := s.prev.Number() + 1;
    AtAt(leaf, n, n - 1);
    AtAt(leaf, n, n);
    assert src.fetch(leaf, n) == Some(want(leaf.At(n)));
    assert src.fetch(leaf, n - 1) == Some(want(s.prev));
  }

  lemma {:induction false} ClearForks(src: Source, s: State, leaf: Block, finalized: Block)
    requires s.prev.Number() < leaf.Number() && leaf.At(s.prev.Number() + 1).parent != s.prev
    ensures Step(src, s, Clear(leaf, finalized)) ==
            (State(finalized, s.cache, s.log + [Forked(leaf.At(s.prev.Number() + 1), finalized, s.prev)]), Running)
  {
    hide Process;
  }

  lemma {:induction false} RunRepeat(src: Source, s: State, v: View, k: nat, rest: seq<View>)
    requires Step(src, s, v).1 == Running
    ensures Run(src, s, Repeat(v, k + 1) + rest) == Run(src, Step(src, s, v).0, Repeat(v, k) + rest)
  {
    hide Step;
    var views := Repeat(v, k + 1) + rest;
    assert views[0] == v && views[1..] == Repeat(v, k) + rest;
  }

  lemma {:induction false} RepeatSum(v: View, j: nat, k: nat, rest: seq<View>)
    ensures Repeat(v, j + k) + rest == Repeat(v, j) + (Repeat(v, k) + rest)
  {
    if j > 0 {
      RepeatSum(v, j - 1, k, rest);
      assert Repeat(v, j + k) + rest == [v] + (Repeat(v, j - 1 + k) + rest);
      assert Repeat(v, j) + (Repeat(v, k) + rest) == [v] + (Repeat(v, j - 1) + (Repeat(v, k) + rest));
    } else {
      assert Repeat(v, 0) + (Repeat(v, k) + rest) == Repeat(v, k) + rest;
    }
  }

  lemma {:induction false} RunNothing(src: Source, s: State, v: View, rest: seq<View>)
    ensures Run(src, s, Repeat(v, 0) + rest) == Run(src, s, rest)
  {
    assert Repeat(v, 0) + rest == rest;
  }

  /** A run only adds to the log. */
  lemma {:induction false} RunAppends(src: Source, s: State, views: seq<View>)
    ensures s.log <= Run(src, s, views).log
    decreases |views|
  {
    hide Step;
    if views != [] {
      StepCases(src, s, views[0]);
      var s1 := Step(src, s, views[0]).0;
      assert s.log <= s1.log;
      RunAppends(src, s1, views[1..]);
    }
  }

  lemma {:induction false} EventsOfAt(src: Source, want: Block -> FetchResult, leaf: Block, n: nat, m: nat, h: nat)
    requires n < h <= m <= leaf.Number()
    ensures |EventsOf(src, want, leaf, n, m)| == m - n
    ensures EventsOf(src, want, leaf, n, m)[h - n - 1] == Published(EventOf(src, want, leaf.At(h)))
    decreases m - n
  {
    hide EventOf;
    if n + 1 < h {
      EventsOfAt(src, want, leaf, n + 1, m, h);
    } else {
      EventsOfLength(src, want, leaf, n + 1, m);
    }
  }

  lemma {:induction false} EventsOfLength(src: Source, want: Block -> FetchResult, leaf: Block, n: nat, m: nat)
    requires n <= m <= leaf.Number()
    ensures |EventsOf(src, want, leaf, n, m)| == m - n
    decreases m - n
  {
    hide EventOf;
    if n < m {
      EventsOfLength(src, want, leaf, n + 1, m);
    }
  }

  lemma {:induction false} EventsOfSnoc(src: Source, want: Block -> FetchResult, leaf: Block, n: nat, m: nat)
    requires n < m <= leaf.Number()
    ensures EventsOf(src, want, leaf, n, m) ==
            EventsOf(src, want, leaf, n, m - 1) + [Published(EventOf(src, want, leaf.At(m)))]
    decreases m - n
  {
    hide EventOf;
    if n + 1 < m {
      EventsOfSnoc(src, want, leaf, n + 1, m);
    } else {
      assert EventsOf(src, want, leaf, m, m) == [];
    }
  }

  // The recency order while a chain is followed.

  function Lowest(g: nat): nat {
    if g == 0 then 1 else g
  }

  /** The heights that the cache holds, most recent first, once block `n` was followed: each block is fetched
      before its parent. */
  function KeyAt(n: nat, i: nat): int {
    if i == 0 then n - 1 else if i == 1 then n else n - i
  }

  /** The cache of a service that started at block `g` with none, once it has followed up to height `n`. */
  predicate Recency<V>(c: seq<Entry<V>>, g: nat, n: nat) {
    && Lru.Valid(c) && g <= n
    && (n <= Lowest(g) ==> |c| == (if g < n then 1 else 0) && forall i :: 0 <= i < |c| ==> c[i].key == n)
    && (n > Lowest(g) ==>
          && |c| == (if n - Lowest(g) + 1 < CACHE_SIZE then n - Lowest(g) + 1 else CACHE_SIZE)
          && forall i :: 0 <= i < |c| ==> c[i].key == KeyAt(n, i))
  }

  /** The same once block `n + 1` is in and its parent is not. */
  predicate MidRecency<V>(c: seq<Entry<V>>, g: nat, n: nat) {
    && Lru.Valid(c) && g <= n && |c| > 0 && c[0].key == n + 1
    && (n <= Lowest(g) ==> |c| == (if g < n then 2 else 1) && forall i :: 1 <= i < |c| ==> c[i].key == n)
    && (n > Lowest(g) ==>
          && |c| == (if n - Lowest(g) + 2 < CACHE_SIZE then n - Lowest(g) + 2 else CACHE_SIZE)
          && forall i :: 1 <= i < |c| ==> c[i].key == KeyAt(n, i - 1))
  }

  lemma {:induction false} RecencyMid<V>(c: seq<Entry<V>>, g: nat, n: nat, x: V)
    requires Recency(c, g, n)
    ensures Find(c, n + 1) == |c| && MidRecency(Promote(c, Entry(n + 1, x)), g, n)
  {
    hide Promote;
    PromoteShape(c, Entry(n + 1, x));
  }

  lemma {:induction false} MidFinds<V>(c: seq<Entry<V>>, g: nat, n: nat)
    requires MidRecency(c, g, n) && n > 0
    ensures Find(c, n) == if n > Lowest(g) then 2 else 1
  {
    assert n > Lowest(g) ==> c[2].key == n;
  }

  lemma {:induction false} MidRecent<V>(c: seq<Entry<V>>, g: nat, n: nat, y: V)
    requires MidRecency(c, g, n)
    ensures Recency(if n == 0 then c else Promote(c, Entry(n, y)), g, n + 1)
  {
    hide Promote;
    if n > 0 {
      MidFinds(c, g, n);
      PromoteShape(c, Entry(n, y));
    }
  }

  lemma {:induction false} Starts(want: Block -> FetchResult, side: Block, g: nat)
    requires g <= side.Number()
    ensures Inv(want, State(side.At(g), [], []), side.At(g)) && Within(side.At(g), side)
    ensures Recency<FetchResult>([], g, g)
  {
  }

  /** Following: each clear iteration on the chain that the state is on publishes what is deserved. */
  lemma {:induction false} FollowMany(src: Source, want: Block -> FetchResult, leaf: Block, finalized: Block, s: State,
                                      base: Block, k: nat, rest: seq<View>) returns (s': State)
    requires Faithful(src, want) && Sane(leaf) && Inv(want, s, base) && Within(base, leaf) && Within(s.prev, leaf)
    requires s.prev.Number() + k <= leaf.Number()
    ensures s'.prev == leaf.At(s.prev.Number() + k) && Inv(want, s', base)
    ensures s'.log == s.log + EventsOf(src, want, leaf, s.prev.Number(), s.prev.Number() + k)
    ensures forall g :: Recency(s.cache, g, s.prev.Number()) ==> Recency(s'.cache, g, s.prev.Number() + k)
    ensures Run(src, s, Repeat(Clear(leaf, finalized), k) + rest) == Run(src, s', rest)
    decreases k
  {
    hide Step, Inv, Recency, EventOf, EventsOf, Run, Within, Sane;
    var v := Clear(leaf, finalized);
    var n := s.prev.Number();
    if k == 0 {
      RunNothing(src, s, v, rest);
      Stays(src, want, s.prev, leaf);
      s' := s;
    } else {
      FollowOne(src, want, leaf, finalized, s, base);
      Climbs(src, want, s.prev, leaf, leaf, leaf, n + k);
      RunRepeat(src, s, v, k - 1, rest);
      s' := FollowMany(src, want, leaf, finalized, Step(src, s, v).0, base, k - 1, rest);
      assert s.log + [Published(EventOf(src, want, leaf.At(n + 1)))] + EventsOf(src, want, leaf, n + 1, n + k) ==
             s.log + ([Published(EventOf(src, want, leaf.At(n + 1)))] + EventsOf(src, want, leaf, n + 1, n + k));
    }
  }

  lemma {:induction false} FollowOne(src: Source, want: Block -> FetchResult, leaf: Block, finalized: Block, s: State,
                                     base: Block)
    requires Faithful(src, want) && Sane(leaf) && Inv(want, s, base) && Within(base, leaf) && Within(s.prev, leaf)
    requires s.prev.Number() < leaf.Number()
    ensures var (s', control) := Step(src, s, Clear(leaf, finalized));
            var n := s.prev.Number();
            && control == Running && s'.prev == leaf.At(n + 1) && Inv(want, s', base) && Within(leaf, leaf)
            && s'.log == s.log + [Published(EventOf(src, want, leaf.At(n + 1)))]
            && forall g :: Recency(s.cache, g, n) ==> Recency(s'.cache, g, n + 1)
  {
    hide Step, Inv, Recency, EventOf, Publish, Calm, Productive;
    var v := Clear(leaf, finalized);
    var n := s.prev.Number();
    ClearIsCalm(s, base, leaf, finalized);
    PublishesNext(src, want, s, base, v);
    ClearPublishes(src, want, s, leaf, finalized);
    forall g | Recency(s.cache, g, n)
      ensures Recency(Step(src, s, v).0.cache, g, n + 1)
    {
      PublishKeepsRecency(src, want, s, leaf.At(n + 1), g);
    }
  }

  lemma {:induction false} PublishKeepsRecency(src: Source, want: Block -> FetchResult, s: State, next: Block, g: nat)
    requires next.Child? && next.parent == s.prev && Recency(s.cache, g, s.prev.Number())
    ensures Recency(Publish(src, want, s, next).cache, g, s.prev.Number() + 1)
  {
    hide Recency, MidRecency, Promote, Served;
    var x := Served(want, s.cache, next);
    var c := Promote(s.cache, Entry(next.Number(), x));
    RecencyMid(s.cache, g, s.prev.Number(), x);
    MidRecent(c, g, s.prev.Number(), Served(want, c, next.parent));
  }

  lemma {:induction false} ClearIsCalm(s: State, base: Block, leaf: Block, finalized: Block)
    requires Sane(leaf) && Within(base, leaf) && Within(s.prev, leaf) && s.prev.Number() < leaf.Number()
    ensures Calm(s, base, Clear(leaf, finalized)) && Productive(Clear(leaf, finalized))
  {
    AtAt(leaf, s.prev.Number() + 1, s.prev.Number());
    AtAt(leaf, s.prev.Number() + 1, s.prev.Number() + 1);
  }

  /** The cache holds the old branch from height `low` to `n`. */
  predicate Holds(c: Cache, want: Block -> FetchResult, side: Block, low: nat)
  {
    forall h :: low <= h <= side.Number() ==> Lookup(c, h) == Some(want(side.At(h)))
  }

  lemma {:induction false} RecencyHolds(c: Cache, want: Block -> FetchResult, base: Block, side: Block, g: nat, low: nat)
    requires Recency(c, g, side.Number()) && AllRight(want, c, base, side) && Within(base, side)
    requires g < side.Number() && Lowest(g) <= low && side.Number() - low < CACHE_SIZE
    ensures Holds(c, want, side, low)
  {
    var n := side.Number();
    forall h | low <= h <= n
      ensures Lookup(c, h) == Some(want(side.At(h)))
    {
      var i := if n <= Lowest(g) || h == n - 1 then 0 else if h == n then 1 else n - h;
      assert c[i].key == h;
      RightAt(want, c, i, base, side);
      if h <= base.Number() {
        AgreeBelow(base, side, h);
      }
    }
  }

  // A shallow rollback: every height of the replay up to the old tip hits.

  lemma {:induction false} HitKeepsLookups<V>(c: seq<Entry<V>>, k: nat, h: nat)
    requires Lru.Valid(c) && Lookup(c, k).Some?
    ensures var r := Promote(c, Entry(k, Lookup(c, k).value)); Lru.Valid(r) && Lookup(r, h) == Lookup(c, h)
  {
    hide Promote;
    var e := Entry(k, Lookup(c, k).value);
    var p := Find(c, k);
    var r := Promote(c, e);
    PromoteShape(c, e);
    var i := Find(r, h);
    var j := Find(c, h);
    if i < |r| {
      assert c[if i == 0 then p else Origin(p, i)] == r[i];
    }
    if j < |c| {
      assert r[if j == p then 0 else if j < p then j + 1 else j] == c[j];
    }
  }

  lemma {:induction false} ReplayHits(src: Source, want: Block -> FetchResult, side: Block, best: Block, finalized: Block,
                                      s: State, k: nat, rest: seq<View>) returns (s': State)
    requires Faithful(src, want) && Sane(best) && Within(s.prev, best) && Lru.Valid(s.cache)
    requires s.prev.Number() + k <= side.Number() < best.Number()
    requires Holds(s.cache, want, side, Lowest(s.prev.Number()))
    ensures s'.prev == best.At(s.prev.Number() + k) && |s'.log| == |s.log| + k
    ensures Lru.Valid(s'.cache) && Holds(s'.cache, want, side, Lowest(s.prev.Number() + k))
    ensures Run(src, s, Repeat(Clear(best, finalized), k) + rest) == Run(src, s', rest)
    decreases k
  {
    hide Step, Run, Publish, Holds, Sane, Within, Repeat, Clear, Block.At, Block.Number;
    var v := Clear(best, finalized);
    var n := s.prev.Number();
    if k == 0 {
      RunNothing(src, s, v, rest);
      AtItself(s.prev, best);
      s' := s;
    } else {
      SaneIsShort(best);
      ClearPublishes(src, want, s, best, finalized);
      PublishHits(src, want, s, best.At(n + 1), side);
      WithinAt(best, n + 1);
      RunRepeat(src, s, v, k - 1, rest);
      s' := ReplayHits(src, want, side, best, finalized, Step(src, s, v).0, k - 1, rest);
    }
  }

  lemma {:induction false} AtItself(b: Block, leaf: Block)
    requires Within(b, leaf)
    ensures b.Number() <= leaf.Number() && leaf.At(b.Number()) == b
  {
  }

  lemma {:induction false} SaneIsShort(leaf: Block)
    requires Sane(leaf)
    ensures leaf.Number() + 1 < UINT32
  {
  }

  lemma {:induction false} WithinAt(leaf: Block, h: nat)
    requires h <= leaf.Number()
    ensures Within(leaf.At(h), leaf) && Within(leaf.At(h), leaf.At(h))
  {
    AtAt(leaf, h, h);
  }

  lemma {:induction false} PublishHits(src: Source, want: Block -> FetchResult, s: State, next: Block, side: Block)
    requires next.Child? && next.parent == s.prev && Lru.Valid(s.cache) && next.Number() <= side.Number()
    requires Holds(s.cache, want, side, Lowest(s.prev.Number()))
    ensures var s' := Publish(src, want, s, next);
            && s'.prev == next && Lru.Valid(s'.cache) && |s'.log| == |s.log| + 1
            && s'.log[|s.log|].Published?
            && s'.log[|s.log|].event.block == want(side.At(next.Number())).block
            && Holds(s'.cache, want, side, Lowest(next.Number()))
  {
    hide Promote, Lookup;
    var n := next.Number();
    assert Lookup(s.cache, n) == Some(want(side.At(n)));
    var c := Promote(s.cache, Entry(n, want(side.At(n))));
    forall h
      ensures Lru.Valid(c) && Lookup(c, h) == Lookup(s.cache, h)
    {
      HitKeepsLookups(s.cache, n, h);
    }
    if n > 1 {
      assert Lookup(c, n - 1) == Some(want(side.At(n - 1)));
      var c' := Promote(c, Entry(n - 1, want(side.At(n - 1))));
      forall h
        ensures Lru.Valid(c') && Lookup(c', h) == Lookup(c, h)
      {
        HitKeepsLookups(c, n - 1, h);
      }
    }
  }
}
