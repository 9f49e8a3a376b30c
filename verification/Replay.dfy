/** The cache is keyed by height and nothing purges it on a fork.  This module shows when that is
    harmless: every rollback is deeper than the cache, so an entry of the abandoned branch is evicted
    before the replay reaches its height.  The argument follows each entry's distance from eviction:
    its index plus the number of fetches left until its height comes up. */
module Replay {
  import opened Chain
  import opened Lru
  import opened Types
  import opened BlockFetcher
  import opened ForwardSyncer

  /** Where an entry of height `h` may sit at index `i` once the chain is followed up to height `n`,
      `base` being the last rollback: heights above `base` are ordered by recency, and a height yet to
      come is too far back to survive until then.  Right after a rollback the front entry is one
      short; the fetch of the rollback block itself makes up for it. */
  predicate SlotOk(i: nat, h: nat, base: nat, n: nat) {
    && (base < h <= n - 2 ==> i >= n - h)
    && (base < h == n && n >= 2 ==> i >= 1)
    && (n < base ==> h <= base)
    && (h > base && h > n ==>
          i + h - n - 1 >= CACHE_SIZE
          || (i == 0 && n == base && n >= 1 && h - n - 1 >= CACHE_SIZE - 1))
  }

  /** The same between the fetch of height `n + 1` and the fetch of its parent. */
  predicate MidSlotOk(front: nat, i: nat, h: nat, base: nat, n: nat) {
    && (base < h <= n - 2 ==> i >= n + 1 - h)
    && (base < h == n - 1 ==> i >= 2 || (i == 1 && front == n + 1))
    && (n < base ==> h <= base)
    && (h > base && h > n + 1 ==>
          i + h - n - 2 >= CACHE_SIZE
          || (i == 1 && front == n + 1 && n >= 1 && h - n - 2 >= CACHE_SIZE - 2))
  }

  /** What height `k` holds, at or below the rollback block `base` or on the way from it to `top`;
      `want` says what a block deserves. */
  function Expected<V>(want: Block -> V, base: Block, top: Block, k: nat): V
    requires k <= base.Number() || k <= top.Number()
  {
    want(if k <= base.Number() then base.At(k) else top.At(k))
  }

  predicate AllRight<V(==)>(want: Block -> V, c: seq<Entry<V>>, base: Block, top: Block) {
    forall i :: 0 <= i < |c| && (c[i].key <= base.Number() || c[i].key <= top.Number()) ==>
      c[i].value == Expected(want, base, top, c[i].key)
  }

  predicate Slots<V>(c: seq<Entry<V>>, base: nat, n: nat) {
    Lru.Valid(c) && forall i :: 0 <= i < |c| ==> SlotOk(i, c[i].key, base, n)
  }

  predicate MidSlots<V>(c: seq<Entry<V>>, base: nat, n: nat) {
    Lru.Valid(c) && forall i :: 0 <= i < |c| ==> MidSlotOk(c[0].key, i, c[i].key, base, n)
  }

  /** A fetch of a settled height serves what that height holds, hit or miss. */
  lemma {:induction false} FetchSettled<V>(want: Block -> V, c: seq<Entry<V>>, k: nat, answer: Option<V>, base: Block, top: Block)
    requires Lru.Valid(c) && AllRight(want, c, base, top)
    requires k <= base.Number() || k <= top.Number()
    requires answer.Some? ==> answer.value == Expected(want, base, top, k)
    ensures var (c1, served) := Fetch(c, k, answer);
            AllRight(want, c1, base, top) &&
            if served.None? then c1 == c
            else served.value == Expected(want, base, top, k) && c1 == Promote(c, Entry(k, served.value))
  {
    hide Promote, AllRight, Expected;
    PromoteKeepsRight(want, c, k, base, top);
    if Find(c, k) < |c| {
      RightAt(want, c, Find(c, k), base, top);
    }
  }

  lemma {:induction false} RightAt<V>(want: Block -> V, c: seq<Entry<V>>, i: nat, base: Block, top: Block)
    requires AllRight(want, c, base, top) && i < |c|
    requires c[i].key <= base.Number() || c[i].key <= top.Number()
    ensures c[i].value == Expected(want, base, top, c[i].key)
  {
  }

  lemma {:induction false} PromoteKeepsRight<V>(want: Block -> V, c: seq<Entry<V>>, k: nat, base: Block, top: Block)
    requires Lru.Valid(c) && AllRight(want, c, base, top)
    requires k <= base.Number() || k <= top.Number()
    ensures AllRight(want, Promote(c, Entry(k, Expected(want, base, top, k))), base, top)
  {
    hide Promote, Expected;
    var e := Entry(k, Expected(want, base, top, k));
    PromoteShape(c, e);
    var r := Promote(c, e);
    forall i | 0 <= i < |r| && (r[i].key <= base.Number() || r[i].key <= top.Number())
      ensures r[i].value == Expected(want, base, top, r[i].key)
    {
      assert i == 0 || r[i] == c[Origin(Find(c, k), i)];
    }
  }

  lemma {:induction false} PromoteKeepsSlots<V>(c: seq<Entry<V>>, e: Entry<V>, base: nat, n: nat)
    requires Slots(c, base, n) && e.key <= base
    ensures Slots(Promote(c, e), base, n)
  {
    hide Promote;
    PromoteShape(c, e);
    var p := Find(c, e.key);
    forall i | 0 <= i < |Promote(c, e)|
      ensures SlotOk(i, Promote(c, e)[i].key, base, n)
    {
      if i > 0 {
        assert SlotOk(Origin(p, i), c[Origin(p, i)].key, base, n);
      }
    }
  }

  lemma {:induction false} PromoteKeepsMidSlots<V>(c: seq<Entry<V>>, e: Entry<V>, base: nat, n: nat)
    requires MidSlots(c, base, n) && e.key <= base
    ensures MidSlots(Promote(c, e), base, n)
  {
    hide Promote;
    PromoteShape(c, e);
    var p := Find(c, e.key);
    var r := Promote(c, e);
    forall i | 0 <= i < |r|
      ensures MidSlotOk(r[0].key, i, r[i].key, base, n)
    {
      if i > 0 {
        assert MidSlotOk(c[0].key, Origin(p, i), c[Origin(p, i)].key, base, n);
      }
    }
  }

  predicate AtMost(heights: seq<nat>, b: nat) {
    forall i :: 0 <= i < |heights| ==> heights[i] <= b
  }

  /** Backward-sync fetches at or below the rollback block disturb nothing. */
  lemma {:induction false} TouchedKeeps(src: Source, want: Block -> FetchResult, c: Cache, leaf: Block, heights: seq<nat>,
                                        base: Block, top: Block, mid: bool, n: nat)
    requires Answers(src, want)
    requires Within(base, leaf) && leaf.Number() + 1 < UINT32 && AtMost(heights, base.Number())
    requires AllRight(want, c, base, top)
    requires if mid then MidSlots(c, base.Number(), n) else Slots(c, base.Number(), n)
    ensures var r := Touched(src, c, leaf, heights);
            AllRight(want, r, base, top) &&
            if mid then MidSlots(r, base.Number(), n) else Slots(r, base.Number(), n)
    decreases |heights|
  {
    hide Promote;
    if heights != [] {
      var k := heights[0];
      var answer := src.fetch(leaf, k);
      FetchAnswers(src, want, leaf, base, k);
      FetchSettled(want, c, k, answer, base, top);
      var (c1, served) := Fetch(c, k, answer);
      if mid {
        PromoteKeepsMidSlots(c, Entry(k, served.value), base.Number(), n);
      } else {
        PromoteKeepsSlots(c, Entry(k, served.value), base.Number(), n);
      }
      TouchedKeeps(src, want, c1, leaf, heights[1..], base, top, mid, n);
    }
  }

  lemma {:induction false} FetchAnswers(src: Source, want: Block -> FetchResult, leaf: Block, b: Block, k: nat)
    requires Answers(src, want)
    requires Within(b, leaf) && leaf.Number() + 1 < UINT32 && k <= b.Number()
    ensures src.fetch(leaf, k) == Some(want(b.At(k)))
  {
    AgreeBelow(b, leaf, k);
    AtAt(leaf, k, k);
  }

  /** The next height is not in the cache, unless it is the rollback block itself. */
  lemma {:induction false} NextMisses<V>(c: seq<Entry<V>>, base: nat, n: nat)
    requires Slots(c, base, n) && base <= n
    ensures Find(c, n + 1) == |c|
  {
  }

  lemma {:induction false} FetchNextSlots<V>(c: seq<Entry<V>>, e: Entry<V>, base: nat, n: nat)
    requires Slots(c, base, n) && e.key == n + 1 && base <= n + 1
    ensures MidSlots(Promote(c, e), base, n)
  {
    hide Promote;
    if base <= n {
      NextMisses(c, base, n);
    }
    PromoteShape(c, e);
    var r := Promote(c, e);
    forall i | 0 <= i < |r|
      ensures MidSlotOk(r[0].key, i, r[i].key, base, n)
    {
      if i > 0 {
        var j := Origin(Find(c, n + 1), i);
        assert SlotOk(j, c[j].key, base, n);
      }
    }
  }

  /** The next height is never a stale hit. */
  lemma {:induction false} FetchNext<V>(want: Block -> V, c: seq<Entry<V>>, next: Block, base: Block, answer: Option<V>)
    requires next.Child? && base.Number() <= next.Number()
    requires base.Number() == next.Number() ==> base == next
    requires Slots(c, base.Number(), next.Number() - 1) && AllRight(want, c, base, next.parent)
    requires answer.Some? ==> answer.value == want(next)
    ensures var (c1, served) := Fetch(c, next.Number(), answer);
            if served.None? then c1 == c
            else served.value == want(next) && c1 == Promote(c, Entry(next.Number(), want(next))) &&
                 AllRight(want, c1, base, next)
  {
    hide Promote;
    if base == next {
      assert AllRight(want, c, base, next);
      FetchSettled(want, c, next.Number(), answer, base, next);
    } else {
      NextMisses(c, base.Number(), next.Number() - 1);
      PromoteShape(c, Entry(next.Number(), want(next)));
    }
  }

  lemma {:induction false} AgreeAt(a: Block, b: Block, leaf: Block)
    requires Within(a, leaf) && Within(b, leaf) && a.Number() == b.Number()
    ensures a == b
  {
  }

  /** Fetching the parent completes the step; above genesis it is what a front entry lacked. */
  lemma {:induction false} FetchParentSlots<V>(c: seq<Entry<V>>, e: Entry<V>, base: nat, n: nat)
    requires MidSlots(c, base, n) && e.key == n >= 1
    ensures Slots(Promote(c, e), base, n + 1)
  {
    hide Promote;
    PromoteShape(c, e);
    var p := Find(c, n);
    var r := Promote(c, e);
    forall i | 0 <= i < |r|
      ensures SlotOk(i, r[i].key, base, n + 1)
    {
      if i > 0 {
        assert MidSlotOk(c[0].key, Origin(p, i), c[Origin(p, i)].key, base, n);
      }
    }
  }

  /** A rollback deeper than the cache leaves no entry that its replay can reach. */
  lemma {:induction false} RollbackSlots<V>(c: seq<Entry<V>>, base: nat, n: nat, f: nat)
    requires Slots(c, base, n) && base <= f < n && Deep(n, f)
    ensures Slots(c, f, f)
  {
    forall i | 0 <= i < |c|
      ensures SlotOk(i, c[i].key, f, f)
    {
      assert SlotOk(i, c[i].key, base, n);
    }
  }

  /** Deep enough a rollback: more than the cache holds, and one more when it goes back to genesis,
      whose replay does not fetch the rollback block. */
  predicate Deep(n: nat, f: nat) {
    n - f > CACHE_SIZE + (if f == 0 then 1 else 0)
  }

  predicate Forks(s: State, v: View) {
    && !v.cancelled && v.due && v.nextOk && s.prev.Number() < v.leaf.Number()
    && v.leaf.At(s.prev.Number() + 1).parent != s.prev
  }

  predicate Advances(s: State, v: View) {
    && !v.cancelled && v.due && v.nextOk && s.prev.Number() < v.leaf.Number()
    && v.leaf.At(s.prev.Number() + 1).parent == s.prev
  }

  /** The block just checked, and its parent, are still canonical when they are fetched. */
  predicate Steady(s: State, v: View) {
    Advances(s, v) ==> Within(v.leaf.At(s.prev.Number() + 1), v.served) && Within(s.prev, v.servedParent)
  }

  predicate Sane(leaf: Block) {
    leaf.Number() + 1 < UINT32 && leaf.Timely()
  }

  /** What one iteration assumes of its surroundings.  `base` is the last rollback block, or the
      block that backward sync starts from: it stays canonical, and backward sync stays at or below it.
      A block fetched without its parent would stay cached, so the parent's fetch does not fail. */
  predicate Calm(s: State, base: Block, v: View) {
    && Sane(v.leaf) && Sane(v.served) && Sane(v.servedParent)
    && Within(base, v.leaf) && Within(base, v.served)
    && AtMost(v.before, base.Number()) && AtMost(v.between, base.Number())
    && v.parentOk && Steady(s, v)
    && (Forks(s, v) ==>
          && Within(base, v.finalized) && Within(v.finalized, s.prev)
          && Deep(s.prev.Number(), v.finalized.Number()))
  }

  function Base(s: State, base: Block, v: View): Block {
    if Forks(s, v) then v.finalized else base
  }

  predicate CalmRun(src: Source, s: State, base: Block, views: seq<View>)
    decreases |views|
  {
    views == [] ||
    (Calm(s, base, views[0]) &&
     var (s1, control) := Step(src, s, views[0]);
     control == Running ==> CalmRun(src, s1, Base(s, base, views[0]), views[1..]))
  }

  predicate Ordered(prev: Block, base: Block) {
    Within(base, prev) || (base.Child? && base.parent == prev)
  }

  predicate Inv(want: Block -> FetchResult, s: State, base: Block) {
    && Ordered(s.prev, base)
    && Slots(s.cache, base.Number(), s.prev.Number())
    && AllRight(want, s.cache, base, s.prev)
  }

  /** The follower without a cache: it stays, publishes the event that the next canonical block deserves,
      or goes back to the finalized block because the next canonical block has another parent. */
  predicate Follows(src: Source, want: Block -> FetchResult, s: State, v: View, s': State) {
    if Forks(s, v) then
      && s'.prev == v.finalized
      && s'.log == s.log + [Forked(v.leaf.At(s.prev.Number() + 1), v.finalized, s.prev)]
    else
      || (s'.prev == s.prev && s'.log == s.log)
      || (&& s'.prev.Child? && s'.prev.parent == s.prev && Within(s'.prev, v.leaf)
          && s'.log == s.log + [Published(EventOf(src, want, s'.prev))])
  }

  lemma {:induction false} ServeParent(src: Source, want: Block -> FetchResult, c: Cache, next: Block, base: Block, v: View)
    requires Answers(src, want)
    requires next.Number() >= 2 && Within(next.parent, v.servedParent) && v.servedParent.Number() + 1 < UINT32
    requires v.parentOk && Ordered(next.parent, base)
    requires MidSlots(c, base.Number(), next.Number() - 1) && AllRight(want, c, base, next)
    ensures var n := next.Number() - 1;
            var (c', parent) := Fetch(c, n, FetchIf(src, v.servedParent, n, v.parentOk));
            parent == Some(want(next.parent)) &&
            Slots(c', base.Number(), n + 1) && AllRight(want, c', base, next)
  {
    hide Promote, SlotOk, MidSlotOk;
    var n := next.Number() - 1;
    FetchAnswers(src, want, v.servedParent, next.parent, n);
    assert n <= base.Number() ==> base.At(n) == next.parent;
    FetchSettled(want, c, n, src.fetch(v.servedParent, n), base, next);
    FetchParentSlots(c, Entry(n, want(next.parent)), base.Number(), n);
  }

  lemma {:induction false} ServeBlock(src: Source, want: Block -> FetchResult, c: Cache, next: Block, base: Block, v: View)
    requires Answers(src, want)
    requires next.Child? && Within(next, v.served) && Within(base, v.served) && v.served.Number() + 1 < UINT32
    requires Ordered(next.parent, base) && AtMost(v.between, base.Number())
    requires Slots(c, base.Number(), next.Number() - 1) && AllRight(want, c, base, next.parent)
    ensures var (c1, current) := Fetch(c, next.Number(), FetchIf(src, v.served, next.Number(), v.blockOk));
            var c2 := Touched(src, c1, v.served, v.between);
            if current.None? then c1 == c
            else current.value == want(next) &&
                 MidSlots(c2, base.Number(), next.Number() - 1) && AllRight(want, c2, base, next)
  {
    hide Promote, Slots, MidSlots, AllRight;
    var n := next.Number() - 1;
    FetchAnswers(src, want, v.served, next, n + 1);
    if base.Number() == n + 1 {
      AgreeAt(base, next, v.served);
    }
    FetchNext(want, c, next, base, FetchIf(src, v.served, n + 1, v.blockOk));
    var (c1, current) := Fetch(c, n + 1, FetchIf(src, v.served, n + 1, v.blockOk));
    if current.Some? {
      FetchNextSlots(c, Entry(n + 1, want(next)), base.Number(), n);
      TouchedKeeps(src, want, c1, v.served, v.between, base, next, true, n);
    }
  }

  /** Whatever the cache holds, a processed block yields the event that the block deserves. */
  lemma {:induction false} ProcessServesTheBlock(src: Source, want: Block -> FetchResult, c: Cache, next: Block, base: Block, v: View)
    requires Answers(src, want)
    requires next.Child? && Within(next, v.served) && Within(base, v.served) && v.served.Number() + 1 < UINT32
    requires Within(next.parent, v.servedParent) && v.servedParent.Number() + 1 < UINT32
    requires Ordered(next.parent, base) && v.parentOk && AtMost(v.between, base.Number())
    requires Slots(c, base.Number(), next.Number() - 1) && AllRight(want, c, base, next.parent)
    ensures var (c', event) := Process(src, c, next.Number(), v);
            if event.None? then c' == c
            else event.value == EventOf(src, want, next) &&
                 Slots(c', base.Number(), next.Number()) && AllRight(want, c', base, next)
  {
    hide Promote, Slots, MidSlots, AllRight;
    ServeBlock(src, want, c, next, base, v);
    var (c1, current) := Fetch(c, next.Number(), FetchIf(src, v.served, next.Number(), v.blockOk));
    if current.Some? {
      var c2 := Touched(src, c1, v.served, v.between);
      if next.Number() >= 2 {
        ServeParent(src, want, c2, next, base, v);
      } else {
        GenesisSlots(c2, base.Number());
      }
    }
  }

  /** Block 1 is published without fetching genesis. */
  lemma {:induction false} GenesisSlots<V>(c: seq<Entry<V>>, base: nat)
    requires MidSlots(c, base, 0)
    ensures Slots(c, base, 1)
  {
    forall i | 0 <= i < |c|
      ensures SlotOk(i, c[i].key, base, 1)
    {
      assert MidSlotOk(c[0].key, i, c[i].key, base, 0);
    }
  }

  /** One iteration with the cache is one iteration of the follower without it. */
  lemma {:induction false} StepFollows(src: Source, want: Block -> FetchResult, s: State, base: Block, v: View)
    requires Answers(src, want)
    requires Inv(want, s, base) && Calm(s, base, v)
    ensures var (s', control) := Step(src, s, v);
            Follows(src, want, s, v, s') && (control == Running ==> Inv(want, s', Base(s, base, v)))
  {
    hide Promote, Slots, AllRight;
    TouchedKeeps(src, want, s.cache, v.leaf, v.before, base, s.prev, false, s.prev.Number());
    var c := Touched(src, s.cache, v.leaf, v.before);
    if !v.cancelled && v.due && v.nextOk && s.prev.Number() < v.leaf.Number() {
      var next := v.leaf.At(s.prev.Number() + 1);
      AtAt(v.leaf, next.Number(), next.Number());
      if next.parent == s.prev {
        ProcessServesTheBlock(src, want, c, next, base, v);
        if Within(base, s.prev) {
          WithinTransitive(base, s.prev, next);
        } else {
          AgreeAt(base, next, v.leaf);
        }
      } else {
        RollbackKeeps(want, c, s.prev, base, v.finalized);
      }
    }
  }

  lemma {:induction false} RollbackKeeps(want: Block -> FetchResult, c: Cache, prev: Block, base: Block, finalized: Block)
    requires Ordered(prev, base) && Slots(c, base.Number(), prev.Number()) && AllRight(want, c, base, prev)
    requires Within(base, finalized) && Within(finalized, prev) && Deep(prev.Number(), finalized.Number())
    ensures Slots(c, finalized.Number(), finalized.Number())
    ensures AllRight(want, c, finalized, finalized)
  {
    RollbackSlots(c, base.Number(), prev.Number(), finalized.Number());
    forall i | 0 <= i < |c| && c[i].key <= finalized.Number()
      ensures c[i].value == Expected(want, finalized, finalized, c[i].key)
    {
      AgreeBelow(finalized, prev, c[i].key);
      if c[i].key <= base.Number() {
        AgreeBelow(base, finalized, c[i].key);
      }
    }
  }
}
