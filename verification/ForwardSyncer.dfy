/** Block events, and `ForwardSyncer.Start`: follow the canonical chain, and on a parent mismatch emit a
    fork event and go back to the finalized block. */
module ForwardSyncer {
  import opened Chain
  import opened Lru
  import opened Types
  import opened BlockFetcher

  datatype BlockEvent = BlockEvent(
    block: Block,
    prev: Option<Block>,
    active: bool,
    forked: bool,
    staker: Option<StakerInformation>,
    parentStaker: Option<StakerInformation>,
    seed: Seed,
    authNodes: seq<AuthorityNode>,
    parentAuthNodes: seq<AuthorityNode>,
    futureSeed: Seed)

  datatype Event =
    | Published(event: BlockEvent)
    | Forked(best: Block, finalized: Block, sideChain: Block)

  function MakeEvent(src: Source, n: nat, current: FetchResult, prev: Option<FetchResult>): BlockEvent {
    BlockEvent(
      current.block,
      if prev.Some? then Some(prev.value.block) else None,
      n >= src.activeBlock,
      n >= src.forkedBlock,
      current.staker,
      if prev.Some? then prev.value.staker else None,
      current.seed,
      current.authNodes,
      if prev.Some? then prev.value.authNodes else [],
      current.futureSeed)
  }

  /** The event a block deserves when a fetch of `b` deserves `want(b)`; no cache in sight. */
  function EventOf(src: Source, want: Block -> FetchResult, b: Block): BlockEvent {
    MakeEvent(src, b.Number(), want(b), if b.Number() > 1 then Some(want(b.parent)) else None)
  }

  /** The events that the blocks of the chain ending in `leaf` deserve, from just above height `n` to `m`. */
  function EventsOf(src: Source, want: Block -> FetchResult, leaf: Block, n: nat, m: nat): seq<Event>
    requires n <= m <= leaf.Number()
    decreases m - n
  {
    if n == m then [] else
    [Published(EventOf(src, want, leaf.At(n + 1)))] + EventsOf(src, want, leaf, n + 1, m)
  }

  type Cache = seq<Entry<FetchResult>>

  /** What one iteration of the loop meets.  The requests of one iteration are separate: the check of the
      next block sees the chain ending in `leaf`, the fetches of the block and of its parent the chains
      ending in `served` and in `servedParent`.  Then which requests get through, and the heights that
      backward-sync workers fetch before the block and between the block and its parent. */
  datatype View = View(
    cancelled: bool,
    due: bool,
    leaf: Block,
    served: Block,
    servedParent: Block,
    finalized: Block,
    nextOk: bool,
    bestOk: bool,
    blockOk: bool,
    parentOk: bool,
    cancelledAtSend: bool,
    before: seq<nat>,
    between: seq<nat>)

  datatype Control = Running | Returned | Restarted

  datatype State = State(prev: Block, cache: Cache, log: seq<Event>)

  function FetchIf(src: Source, leaf: Block, n: nat, reachable: bool): Option<FetchResult>
  {
    if reachable then src.fetch(leaf, n) else None
  }

  /** The cache after other goroutines fetched these heights in turn. */
  function Touched(src: Source, c: Cache, leaf: Block, heights: seq<nat>): Cache
    decreases |heights|
  {
    if heights == [] then c else
    Touched(src, Fetch(c, heights[0], src.fetch(leaf, heights[0])).0, leaf, heights[1..])
  }

  /** `ProcessBlock`: block `n` first, then its parent when there is one above genesis. */
  function Process(src: Source, c: Cache, n: nat, v: View): (Cache, Option<BlockEvent>)
  {
    var (c1, current) := Fetch(c, n, FetchIf(src, v.served, n, v.blockOk));
    if current.None? then (c1, None) else
    var c2 := Touched(src, c1, v.served, v.between);
    if n <= 1 then (c2, Some(MakeEvent(src, n, current.value, None))) else
    var (c3, parent) := Fetch(c2, n - 1, FetchIf(src, v.servedParent, n - 1, v.parentOk));
    (c3, if parent.None? then None else Some(MakeEvent(src, n, current.value, parent)))
  }

  /** One iteration of `Start`. */
  function Step(src: Source, s: State, v: View): (State, Control)
  {
    var s1 := s.(cache := Touched(src, s.cache, v.leaf, v.before));
    var n := s.prev.Number() + 1;
    if v.cancelled then (s1, Returned)
    else if !v.due || !v.nextOk then (s1, Running)
    else if n > v.leaf.Number() then
      (s1, if v.bestOk && s.prev.Number() > v.leaf.Number() then Restarted else Running)
    else
      var next := v.leaf.At(n);
      if next.parent != s.prev then
        (s1.(log := s1.log + [Forked(next, v.finalized, s.prev)], prev := v.finalized), Running)
      else
        var (c, event) := Process(src, s1.cache, n, v);
        if event.None? then (s1.(cache := c), Running)
        else if v.cancelledAtSend then (s1.(cache := c), Returned)
        else (State(next, c, s.log + [Published(event.value)]), Running)
  }

  /** The loop over everything it meets until it returns or the process restarts. */
  function Run(src: Source, s: State, views: seq<View>): State
    decreases |views|
  {
    if views == [] then s else
    var (s1, control) := Step(src, s, views[0]);
    if control == Running then Run(src, s1, views[1..]) else s1
  }

  class ForwardSyncer {
    const src: Source
    const fetcher: BlockFetcher
    var prev: Block
    var blockChan: seq<Event>

    ghost predicate Valid()
      reads this, fetcher.cache
    {
      fetcher.src == src && Lru.Valid(fetcher.cache.entries)
    }

    ghost function Abstract(): State
      reads this, fetcher.cache
    {
      State(prev, fetcher.cache.entries, blockChan)
    }

    constructor (fetcher: BlockFetcher, startingBlock: Block)
      requires Lru.Valid(fetcher.cache.entries)
      ensures Valid() && src == fetcher.src && this.fetcher == fetcher
      ensures Abstract() == State(startingBlock, fetcher.cache.entries, [])
    {
      src, this.fetcher, prev, blockChan := fetcher.src, fetcher, startingBlock, [];
    }

    /** The other goroutines' fetches. */
    method Interfere(leaf: Block, heights: seq<nat>)
      requires Valid()
      modifies fetcher.cache
      ensures Valid()
      ensures fetcher.cache.entries == Touched(src, old(fetcher.cache.entries), leaf, heights)
    {
      for i := 0 to |heights|
        invariant Valid()
        invariant Touched(src, fetcher.cache.entries, leaf, heights[i..]) ==
                  Touched(src, old(fetcher.cache.entries), leaf, heights)
      {
        var _ := fetcher.FetchBlock(leaf, heights[i], true);
        assert heights[i..][1..] == heights[i + 1..];
      }
    }

    method ProcessBlock(n: nat, v: View) returns (event: Option<BlockEvent>)
      requires Valid()
      modifies fetcher.cache
      ensures Valid()
      ensures (fetcher.cache.entries, event) == Process(src, old(fetcher.cache.entries), n, v)
    {
      hide Promote;
      var current := fetcher.FetchBlock(v.served, n, v.blockOk);
      if current.None? {
        return None;
      }
      Interfere(v.served, v.between);
      if n <= 1 {
        return Some(MakeEvent(src, n, current.value, None));
      }
      var parent := fetcher.FetchBlock(v.servedParent, n - 1, v.parentOk);
      if parent.None? {
        return None;
      }
      return Some(MakeEvent(src, n, current.value, parent));
    }

    method Iterate(v: View) returns (control: Control)
      requires Valid()
      modifies this, fetcher.cache
      ensures Valid()
      ensures (Abstract(), control) == Step(src, old(Abstract()), v)
    {
      Interfere(v.leaf, v.before);
      if v.cancelled {
        return Returned;
      }
      var nextBlockNum := prev.Number() + 1;
      if !v.due || !v.nextOk {
        return Running;
      }
      if nextBlockNum > v.leaf.Number() {
        return if v.bestOk && prev.Number() > v.leaf.Number() then Restarted else Running;
      }
      var next := v.leaf.At(nextBlockNum);
      if next.parent != prev {
        blockChan := blockChan + [Forked(next, v.finalized, prev)];
        prev := v.finalized;
        return Running;
      }
      var event := ProcessBlock(nextBlockNum, v);
      if event.None? {
        return Running;
      }
      if v.cancelledAtSend {
        return Returned;
      }
      blockChan := blockChan + [Published(event.value)];
      prev := next;
      return Running;
    }

    method Start(views: seq<View>)
      requires Valid()
      modifies this, fetcher.cache
      ensures Valid()
      ensures Abstract() == Run(src, old(Abstract()), views)
    {
      var control := Running;
      var i := 0;
      while i < |views| && control == Running
        invariant i <= |views| && Valid()
        invariant Run(src, old(Abstract()), views) ==
                  if control == Running then Run(src, Abstract(), views[i..]) else Abstract()
      {
        control := Iterate(views[i]);
        assert views[i..][1..] == views[i + 1..];
        i := i + 1;
      }
    }
  }
}
