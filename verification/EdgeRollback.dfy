/** The one depth at which the parting height decides: the old tip is exactly the size of the cache above the
    lowest height that the replay fetches.  Every fetch of the replay then evicts the block that comes next, up
    to the block below the old tip, which hits. */
module EdgeRollback {
  import opened Chain
  import opened Lru
  import opened BlockFetcher
  import opened ForwardSyncer
  import opened Replay
  import opened ExactBound

  /** A full cache in the order that following up to `low + CACHE_SIZE` leaves. */
  predicate Full<V>(was: seq<Entry<V>>, low: nat) {
    low >= 1 && |was| == CACHE_SIZE && Lru.Valid(was) &&
    forall i :: 0 <= i < CACHE_SIZE ==> was[i].key == KeyAt(low + CACHE_SIZE, i)
  }

  /** That cache once `m` entries are those of the replay, which has reached height `low + m - 1`. */
  predicate Renewed<V(==)>(c: seq<Entry<V>>, was: seq<Entry<V>>, low: nat, m: nat) {
    && Full(was, low) && Lru.Valid(c) && |c| == CACHE_SIZE && 1 <= m < CACHE_SIZE
    && (forall i :: 0 <= i < m ==> low <= c[i].key < low + m)
    && Find(c, low + m - 1) < m
    && (forall i :: m <= i < CACHE_SIZE ==> c[i] == was[i - m])
  }

  lemma {:induction false} RenewBlock<V>(c: seq<Entry<V>>, was: seq<Entry<V>>, low: nat, m: nat, e: Entry<V>)
    requires Renewed(c, was, low, m) && m + 1 < CACHE_SIZE && e.key == low + m
    ensures Lookup(c, e.key).None?
    ensures var c1 := Promote(c, e);
            && Lru.Valid(c1) && |c1| == CACHE_SIZE && c1[0] == e
            && (forall i :: 0 < i < CACHE_SIZE ==> c1[i] == c[i - 1])
  {
    hide Promote;
    assert forall i :: m <= i < CACHE_SIZE ==> c[i].key == KeyAt(low + CACHE_SIZE, i - m);
    PromoteShape(c, e);
  }

  lemma {:induction false} RenewParent<V>(c: seq<Entry<V>>, was: seq<Entry<V>>, low: nat, m: nat, e: Entry<V>)
    requires Renewed(c, was, low, m) && m + 1 < CACHE_SIZE && e.key == low + m
    ensures var hit := Lookup(Promote(c, e), low + m - 1);
            && hit.Some? && hit == Lookup(c, low + m - 1)
            && Renewed(Promote(Promote(c, e), Entry(low + m - 1, hit.value)), was, low, m + 1)
  {
    hide Promote;
    RenewBlock(c, was, low, m, e);
    var c1 := Promote(c, e);
    var p := Find(c1, low + m - 1);
    assert c1[Find(c, low + m - 1) + 1] == c[Find(c, low + m - 1)];
    assert p == Find(c, low + m - 1) + 1;
    var c2 := Promote(c1, Entry(low + m - 1, c1[p].value));
    PromoteShape(c1, Entry(low + m - 1, c1[p].value));
    assert c2[1] == c1[0];
    forall i | 0 <= i < m + 1
      ensures low <= c2[i].key < low + m + 1
    {
      assert i == 0 || c2[i] == c1[Origin(p, i)];
    }
    forall i | m + 1 <= i < CACHE_SIZE
      ensures c2[i] == was[i - (m + 1)]
    {
      assert c2[i] == c1[i];
    }
  }

  /** Above genesis the first block of the replay hits, and the fetch of the rollback block evicts. */
  lemma {:induction false} RenewFirst<V>(was: seq<Entry<V>>, low: nat, y: V)
    requires Full(was, low)
    ensures var hit := Lookup(was, low + 1);
            && hit.Some? && hit.value == was[CACHE_SIZE - 1].value
            && Lookup(Promote(was, Entry(low + 1, hit.value)), low).None?
            && Renewed(Promote(Promote(was, Entry(low + 1, hit.value)), Entry(low, y)), was, low, 2)
  {
    hide Promote;
    var last := was[CACHE_SIZE - 1];
    assert last.key == low + 1;
    var c1 := Promote(was, last);
    PromoteShape(was, last);
    assert forall i :: 0 < i < CACHE_SIZE ==> c1[i] == was[i - 1];
    assert forall i :: 0 <= i < CACHE_SIZE ==> c1[i].key != low;
    PromoteShape(c1, Entry(low, y));
    assert Promote(c1, Entry(low, y))[1] == c1[0];
  }

  /** At genesis it misses, and has no parent to fetch. */
  lemma {:induction false} RenewGenesis<V>(was: seq<Entry<V>>, x: V)
    requires Full(was, 1)
    ensures Lookup(was, 1).None? && Renewed(Promote(was, Entry(1, x)), was, 1, 1)
  {
    hide Promote;
    assert forall i :: 0 <= i < CACHE_SIZE ==> was[i].key != 1;
    PromoteShape(was, Entry(1, x));
  }

  /** Every entry up to height `n` holds what the new branch deserves. */
  predicate RightBelow(c: Cache, want: Block -> FetchResult, best: Block, n: nat)
    requires n <= best.Number()
  {
    forall i :: 0 <= i < |c| && c[i].key <= n ==> c[i].value == want(best.At(c[i].key))
  }

  lemma {:induction false} PromoteRight(c: Cache, want: Block -> FetchResult, best: Block, n: nat, e: Entry<FetchResult>)
    requires n <= best.Number() && Lru.Valid(c) && RightBelow(c, want, best, n)
    requires e.key <= n ==> e.value == want(best.At(e.key))
    ensures RightBelow(Promote(c, e), want, best, n)
  {
    hide Promote;
    PromoteShape(c, e);
    var r := Promote(c, e);
    forall i | 0 <= i < |r| && r[i].key <= n
      ensures r[i].value == want(best.At(r[i].key))
    {
      assert i == 0 || r[i] == c[Origin(Find(c, e.key), i)];
    }
  }

  lemma {:induction false} LookupRight(c: Cache, want: Block -> FetchResult, best: Block, n: nat, k: nat)
    requires k <= n <= best.Number() && RightBelow(c, want, best, n)
    ensures Lookup(c, k).Some? ==> Lookup(c, k).value == want(best.At(k))
  {
  }

  /** The replay has reached `s.prev`.  It is `clean` if it has published what the new branch deserves and the
      cache is right up to the block below the old tip. */
  predicate Replaying(src: Source, want: Block -> FetchResult, s: State, was: Cache, best: Block, low: nat, f: nat,
                      log: seq<Event>, clean: bool)
    requires low + CACHE_SIZE <= best.Number()
  {
    var h := s.prev.Number();
    && f <= h && low <= h && Within(s.prev, best)
    && Renewed(s.cache, was, low, h - low + 1)
    && |s.log| == |log| + (h - f)
    && (clean ==> && RightBelow(s.cache, want, best, low + CACHE_SIZE - 1)
                  && s.log == log + EventsOf(src, want, best, f, h))
  }

  lemma {:induction false} ReplayOne(src: Source, want: Block -> FetchResult, s: State, was: Cache, best: Block, low: nat,
                                     f: nat, log: seq<Event>, clean: bool)
    requires low + CACHE_SIZE <= best.Number() && s.prev.Number() + 1 < low + CACHE_SIZE - 1
    requires Replaying(src, want, s, was, best, low, f, log, clean)
    ensures best.At(s.prev.Number() + 1).Child?
    ensures Replaying(src, want, Publish(src, want, s, best.At(s.prev.Number() + 1)), was, best, low, f, log, clean)
  {
    hide Promote, Renewed, Lookup, RightBelow;
    var h := s.prev.Number();
    var a := low + CACHE_SIZE - 1;
    var next := best.At(h + 1);
    AtAt(best, h + 1, h);
    AtAt(best, h + 1, h + 1);
    assert next.At(h) == next.parent == s.prev;
    var e := Entry(h + 1, want(next));
    RenewBlock(s.cache, was, low, h - low + 1, e);
    RenewParent(s.cache, was, low, h - low + 1, e);
    var c := Promote(s.cache, e);
    RenewedIsValid(s.cache, was, low, h - low + 1);
    if clean {
      PromoteRight(s.cache, want, best, a, e);
      LookupRight(c, want, best, a, h);
      PromoteRight(c, want, best, a, Entry(h, Lookup(c, h).value));
      EventsOfSnoc(src, want, best, f, h + 1);
    }
  }

  lemma {:induction false} RenewedIsValid<V>(c: seq<Entry<V>>, was: seq<Entry<V>>, low: nat, m: nat)
    requires Renewed(c, was, low, m)
    ensures Lru.Valid(c) && low >= 1
  {
  }

  lemma {:induction false} ReplayMany(src: Source, want: Block -> FetchResult, s: State, was: Cache, best: Block, finalized: Block,
                                      low: nat, f: nat, log: seq<Event>, clean: bool, k: nat, rest: seq<View>) returns (s': State)
    requires Faithful(src, want) && Sane(best)
    requires low + CACHE_SIZE <= best.Number() && s.prev.Number() + k < low + CACHE_SIZE - 1
    requires Replaying(src, want, s, was, best, low, f, log, clean)
    ensures s'.prev.Number() == s.prev.Number() + k && Replaying(src, want, s', was, best, low, f, log, clean)
    ensures Run(src, s, Repeat(Clear(best, finalized), k) + rest) == Run(src, s', rest)
    decreases k
  {
    hide Step, Run, Repeat, Clear, Publish, Renewed, RightBelow, Sane, EventsOf, Block.At, Block.Number;
    var v := Clear(best, finalized);
    if k == 0 {
      RunNothing(src, s, v, rest);
      s' := s;
    } else {
      SaneIsShort(best);
      ClearPublishes(src, want, s, best, finalized);
      ReplayOne(src, want, s, was, best, low, f, log, clean);
      RunRepeat(src, s, v, k - 1, rest);
      PublishMoves(src, want, s, best.At(s.prev.Number() + 1));
      s' := ReplayMany(src, want, Step(src, s, v).0, was, best, finalized, low, f, log, clean, k - 1, rest);
    }
  }

  lemma {:induction false} PublishMoves(src: Source, want: Block -> FetchResult, s: State, next: Block)
    requires next.Child?
    ensures Publish(src, want, s, next).prev == next
  {
  }

  /** The block below the old tip hits. */
  lemma {:induction false} LastHits<V>(c: seq<Entry<V>>, was: seq<Entry<V>>, low: nat)
    requires Renewed(c, was, low, CACHE_SIZE - 1)
    ensures |was| == CACHE_SIZE && Lookup(c, low + CACHE_SIZE - 1) == Some(was[0].value)
  {
    assert c[CACHE_SIZE - 1] == was[0];
  }

  lemma {:induction false} LastSettles<V>(c: seq<Entry<V>>, was: seq<Entry<V>>, low: nat, x: V, y: V)
    requires Renewed(c, was, low, CACHE_SIZE - 1)
    ensures var n := low + CACHE_SIZE - 1;
            var c1 := Promote(c, Entry(n, x));
            var c2 := Promote(c1, Entry(n - 1, y));
            && Lru.Valid(c1) && Lookup(c1, n - 1).Some?
            && Lru.Valid(c2) && forall i :: 0 <= i < |c2| ==> c2[i].key <= n
  {
    hide Promote;
    var n := low + CACHE_SIZE - 1;
    assert c[CACHE_SIZE - 1].key == n;
    var c1 := Promote(c, Entry(n, x));
    PromoteShape(c, Entry(n, x));
    assert forall i :: 0 < i < CACHE_SIZE ==> c1[i] == c[i - 1];
    assert c1[Find(c, n - 1) + 1] == c[Find(c, n - 1)];
    PromoteShape(c1, Entry(n - 1, y));
  }

  /** A cache that holds nothing above the block last followed, and is right, keeps the invariant from there. */
  lemma {:induction false} SettledInv(want: Block -> FetchResult, s: State, best: Block)
    requires Lru.Valid(s.cache) && Within(s.prev, best) && RightBelow(s.cache, want, best, s.prev.Number())
    requires forall i :: 0 <= i < |s.cache| ==> s.cache[i].key <= s.prev.Number()
    ensures Inv(want, s, s.prev)
  {
    forall i | 0 <= i < |s.cache|
      ensures s.cache[i].value == Expected(want, s.prev, s.prev, s.cache[i].key)
    {
      AgreeBelow(s.prev, best, s.cache[i].key);
    }
  }

  /** Once the block below the old tip is replayed cleanly, nothing of the old branch is left. */
  lemma {:induction false} ReplayLast(src: Source, want: Block -> FetchResult, s: State, was: Cache, best: Block, low: nat,
                                      f: nat, log: seq<Event>)
    requires low + CACHE_SIZE <= best.Number() && s.prev.Number() == low + CACHE_SIZE - 2
    requires Replaying(src, want, s, was, best, low, f, log, true)
    ensures best.At(s.prev.Number() + 1).Child?
    ensures var next := best.At(s.prev.Number() + 1);
            var s' := Publish(src, want, s, next);
            s'.prev == next && Inv(want, s', next) && s'.log == log + EventsOf(src, want, best, f, next.Number())
  {
    hide Promote, Renewed, Lookup, RightBelow;
    var h := s.prev.Number();
    var next := best.At(h + 1);
    AtAt(best, h + 1, h);
    AtAt(best, h + 1, h + 1);
    LastHits(s.cache, was, low);
    LookupRight(s.cache, want, best, h + 1, h + 1);
    RenewedIsValid(s.cache, was, low, CACHE_SIZE - 1);
    var e := Entry(h + 1, want(next));
    PromoteRight(s.cache, want, best, h + 1, e);
    LastSettles(s.cache, was, low, want(next), want(s.prev));
    var c := Promote(s.cache, e);
    LookupRight(c, want, best, h + 1, h);
    PromoteRight(c, want, best, h + 1, Entry(h, want(s.prev)));
    EventsOfSnoc(src, want, best, f, h + 1);
    SettledInv(want, Publish(src, want, s, next), best);
  }

  lemma {:induction false} RecencyIsFull<V>(c: seq<Entry<V>>, g: nat, low: nat)
    requires Recency(c, g, low + CACHE_SIZE) && 1 <= Lowest(g) <= low
    ensures Full(c, low)
  {
  }

  /** The first block of the replay. */
  lemma {:induction false} ReplayFirst(src: Source, want: Block -> FetchResult, s: State, best: Block, f: nat, clean: bool)
    requires s.prev.Number() == f && Within(s.prev, best) && Full(s.cache, Lowest(f)) && Lowest(f) + CACHE_SIZE <= best.Number()
    requires clean ==> RightBelow(s.cache, want, best, Lowest(f) + CACHE_SIZE - 1)
    ensures best.At(f + 1).Child?
    ensures Replaying(src, want, Publish(src, want, s, best.At(f + 1)), s.cache, best, Lowest(f), f, s.log, clean)
  {
    hide Promote, Renewed, Lookup, RightBelow;
    var low := Lowest(f);
    var a := low + CACHE_SIZE - 1;
    var next := best.At(f + 1);
    AtAt(best, f + 1, f);
    AtAt(best, f + 1, f + 1);
    assert next.At(f) == next.parent == s.prev;
    EventsOfSnoc(src, want, best, f, f + 1);
    if f == 0 {
      RenewGenesis(s.cache, want(next));
      if clean {
        PromoteRight(s.cache, want, best, a, Entry(1, want(next)));
      }
    } else {
      RenewFirst(s.cache, low, want(s.prev));
      var x := Lookup(s.cache, f + 1).value;
      if clean {
        LookupRight(s.cache, want, best, a, f + 1);
        PromoteRight(s.cache, want, best, a, Entry(f + 1, x));
        assert Lru.Valid(Promote(s.cache, Entry(f + 1, x))) by { PromoteShape(s.cache, Entry(f + 1, x)); }
        PromoteRight(Promote(s.cache, Entry(f + 1, x)), want, best, a, Entry(f, want(s.prev)));
      }
    }
  }
}
