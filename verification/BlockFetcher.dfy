/** `FetchBlock`: blocks with their seeds and node lists, served through the cache by height. */
module BlockFetcher {
  import opened Arithmetic
  import opened Chain
  import opened Lru
  import opened Types

  datatype FetchResult = FetchResult(
    block: Block,
    seed: Seed,
    staker: Option<StakerInformation>,
    authNodes: seq<AuthorityNode>,
    futureSeed: Seed)

  /** The chain configuration, and what a node answers about one block: the VRF beta of its header and
      the contract state after it. */
  datatype Network = Network(
    seederInterval: Positive,
    forkedBlock: nat,
    activeBlock: nat,
    beta: Block -> Seed,
    staker: Block -> StakerInformation,
    authority: Block -> seq<AuthorityNode>)

  /** The uint32 increment, which wraps. */
  function Next32(n: nat): nat {
    if n == UINT32 - 1 then 0 else n + 1
  }

  /** The number held by the first four bytes of a block's parent ID; genesis points at number -1. */
  function ParentNumber(b: Block): nat {
    if b.Genesis? then UINT32 - 1 else b.parent.Number()
  }

  function FetchSeed(net: Network, leaf: Block, parentNumber: nat): Option<Seed>
  {
    var blockNum := Next32(parentNumber);
    var epoch := blockNum / net.seederInterval;
    if epoch <= 1 then Some([]) else
    var seedNum := (epoch - 1) * net.seederInterval;
    if seedNum > leaf.Number() then None else Some(net.beta(leaf.At(seedNum)))
  }

  predicate Boundary(interval: Positive, n: nat)
  {
    Next32(n) % interval == 0
  }

  /** The block's own seed, except that the last block of a seeder interval fetches the next one. */
  function FetchFutureSeed(net: Network, leaf: Block, block: Block): Option<Seed>
  {
    FetchSeed(net, leaf,
      if Boundary(net.seederInterval, block.Number()) then block.Number() else ParentNumber(block))
  }

  /** One uncached fetch of height `n` from a node whose canonical chain ends in `leaf`. */
  function FetchFrom(net: Network, leaf: Block, n: nat): Option<FetchResult>
  {
    if n > leaf.Number() then None else
    var block := leaf.At(n);
    var seed := FetchSeed(net, leaf, ParentNumber(block));
    var futureSeed := FetchFutureSeed(net, leaf, block);
    if seed.None? || futureSeed.None? then None else
    Some(FetchResult(
      block,
      seed.value,
      if n >= net.forkedBlock then Some(net.staker(block)) else None,
      if n <= net.activeBlock then net.authority(block) else [],
      futureSeed.value))
  }

  /** The seed under which block `n` of the chain ending in `b` is scheduled: the beta of the first block
      of the seeder interval before its own, and nothing in the first two intervals. */
  function SeedOf(net: Network, b: Block, n: nat): Seed
    requires n <= b.Number() + 1
  {
    var h := SeedHeight(net.seederInterval, n);
    if h == 0 then [] else net.beta(b.At(h))
  }

  /** Counted interval by interval, with no division. */
  function SeedHeight(interval: Positive, n: nat): (h: nat)
    ensures h == 0 || (h + interval <= n < h + 2 * interval)
  {
    if n < 2 * interval then 0 else interval + SeedHeight(interval, n - interval)
  }

  lemma {:induction false} SeedHeightFormula(interval: Positive, n: nat)
    ensures SeedHeight(interval, n) == if n / interval <= 1 then 0 else (n / interval - 1) * interval
    ensures n / interval > 1 ==> SeedHeight(interval, n) > 0
  {
    if n < interval {
      QuotientUnique(interval, n, 0, n);
    } else if n < 2 * interval {
      QuotientUnique(interval, n, 1, n - interval);
    } else {
      SeedHeightFormula(interval, n - interval);
      QuotientStep(interval, n);
      MulSub((n - interval) / interval, 1, interval);
    }
  }

  lemma {:induction false} QuotientStep(d: nat, n: nat)
    requires n >= 2 * d > 0
    ensures n / d == (n - d) / d + 1 && (n - d) / d >= 1
  {
    var q := (n - d) / d;
    assert n - d == q * d + (n - d) % d;
    QuotientUnique(d, n, q + 1, (n - d) % d);
  }

  /** Within one seeder interval the seed height does not move. */
  lemma {:induction false} SameInterval(interval: Positive, n: nat)
    requires (n + 1) % interval != 0
    ensures SeedHeight(interval, n) == SeedHeight(interval, n + 1)
  {
    if n + 1 >= 2 * interval {
      var q := (n + 1) / interval;
      QuotientUnique(interval, n + 1 - interval, q - 1, (n + 1) % interval);
      if n + 1 > 2 * interval {
        SameInterval(interval, n - interval);
      } else {
        QuotientUnique(interval, n + 1, 2, 0);
        assert false;
      }
    }
  }

  /** What every fetch of block `b` ought to return, from `b` and its ancestors alone: in particular the
      future seed is the seed of the next height. */
  function ResultOf(net: Network, b: Block): FetchResult
  {
    var n := b.Number();
    FetchResult(
      b,
      SeedOf(net, b, n),
      if n >= net.forkedBlock then Some(net.staker(b)) else None,
      if n <= net.activeBlock then net.authority(b) else [],
      SeedOf(net, b, n + 1))
  }

  lemma {:induction false} FetchSeedIsSeedOf(net: Network, leaf: Block, b: Block, n: nat, parentNumber: nat)
    requires Within(b, leaf) && n <= b.Number() + 1
    requires n == Next32(parentNumber)
    ensures FetchSeed(net, leaf, parentNumber) == Some(SeedOf(net, b, n))
  {
    SeedHeightFormula(net.seederInterval, n);
    AgreeBelow(b, leaf, SeedHeight(net.seederInterval, n));
  }

  /** Off the boundary the seed of the block itself serves for the next one. */
  lemma {:induction false} InnerSeed(net: Network, b: Block)
    requires b.Number() + 1 < UINT32 && !Boundary(net.seederInterval, b.Number())
    ensures SeedOf(net, b, b.Number()) == SeedOf(net, b, b.Number() + 1)
  {
    SameInterval(net.seederInterval, b.Number());
  }

  lemma {:induction false} FutureSeedRule(net: Network, leaf: Block, b: Block)
    requires Within(b, leaf) && b.Number() + 1 < UINT32
    ensures FetchFutureSeed(net, leaf, b) == Some(SeedOf(net, b, b.Number() + 1))
  {
    hide FetchSeed, SeedOf;
    if Boundary(net.seederInterval, b.Number()) {
      FetchSeedIsSeedOf(net, leaf, b, b.Number() + 1, b.Number());
    } else {
      InnerSeed(net, b);
      FetchSeedIsSeedOf(net, leaf, b, b.Number(), ParentNumber(b));
    }
  }

  lemma {:induction false} SeedHeightIs(interval: Positive, n: nat, k: nat)
    requires k >= 1 && k * interval + interval <= n < k * interval + 2 * interval
    ensures SeedHeight(interval, n) == k * interval
  {
    MulSub(k, 1, interval);
    MulAtLeast(k, interval);
    if k > 1 {
      SeedHeightIs(interval, n - interval, k - 1);
    }
  }

  /** The seed of height `n`, said outright: none in the first two intervals, then the beta of the block that
      begins the interval before. */
  lemma {:induction false} SeedIsBetaBefore(net: Network, b: Block, n: nat, h: nat)
    requires n <= b.Number() + 1 && h % net.seederInterval == 0
    ensures n < 2 * net.seederInterval ==> SeedOf(net, b, n) == []
    ensures 0 < h && h + net.seederInterval <= n < h + 2 * net.seederInterval ==>
              h <= b.Number() && SeedOf(net, b, n) == net.beta(b.At(h))
  {
    var d := net.seederInterval;
    if 0 < h && h + d <= n < h + 2 * d {
      var k := h / d;
      assert h == k * d;
      SeedHeightIs(d, n, k);
    }
  }

  /** A fetch depends on the block alone, not on how far the canonical chain has grown past it; and the
      boundary rule makes every future seed the seed of the next height. */
  lemma {:induction false} FetchIsResultOf(net: Network, leaf: Block, b: Block)
    requires Within(b, leaf) && b.Number() + 1 < UINT32
    ensures FetchFrom(net, leaf, b.Number()) == Some(ResultOf(net, b))
  {
    hide FetchSeed, FetchFutureSeed, SeedOf;
    FetchSeedIsSeedOf(net, leaf, b, b.Number(), ParentNumber(b));
    FutureSeedRule(net, leaf, b);
  }

  /** The future seed served with block N is the seed served with block N + 1, whichever moments and
      canonical heads the two fetches saw. */
  lemma {:induction false} FutureSeedIsNextSeed(net: Network, before: Block, after: Block, next: Block)
    requires next.Child? && next.Number() + 1 < UINT32
    requires Within(next.parent, before) && Within(next, after)
    ensures var r := FetchFrom(net, before, next.Number() - 1);
            var s := FetchFrom(net, after, next.Number());
            r.Some? && s.Some? && r.value.futureSeed == s.value.seed
  {
    FetchIsResultOf(net, before, next.parent);
    FetchIsResultOf(net, after, next);
  }

  /** A node as the syncers see it: one uncached fetch of a height from the chain ending in a block, and
      the two fork heights. */
  datatype Source = Source(fetch: (Block, nat) -> Option<FetchResult>, forkedBlock: nat, activeBlock: nat)

  function SourceOf(net: Network): Source {
    Source((leaf: Block, n: nat) => FetchFrom(net, leaf, n), net.forkedBlock, net.activeBlock)
  }

  /** A fetch returns what the block at that height deserves, whatever lies above it, and nothing above the
      chain. */
  ghost predicate Answers(src: Source, want: Block -> FetchResult) {
    && (forall b: Block, leaf: Block :: Within(b, leaf) && leaf.Number() + 1 < UINT32 ==>
          src.fetch(leaf, b.Number()) == Some(want(b)))
    && forall leaf: Block, n: nat :: leaf.Number() < n ==> src.fetch(leaf, n) == None
  }

  /** And what a block deserves is a result about that block. */
  ghost predicate Faithful(src: Source, want: Block -> FetchResult) {
    && Answers(src, want)
    && forall b: Block :: b.Number() + 1 < UINT32 ==> want(b).block == b
  }

  lemma {:induction false} BlockOfWant(src: Source, want: Block -> FetchResult, leaf: Block, b: Block)
    requires Faithful(src, want) && Within(b, leaf) && leaf.Number() + 1 < UINT32
    ensures want(b).block == b
  {
    assert src.fetch(leaf, b.Number()) == Some(want(b));
  }

  function Want(net: Network): Block -> FetchResult {
    (b: Block) => ResultOf(net, b)
  }

  lemma {:induction false} NodesAreFaithful(net: Network)
    ensures Faithful(SourceOf(net), Want(net))
  {
    forall b: Block, leaf: Block | Within(b, leaf) && leaf.Number() + 1 < UINT32
      ensures SourceOf(net).fetch(leaf, b.Number()) == Some(Want(net)(b)) && Want(net)(b).block == b
    {
      FetchIsResultOf(net, leaf, b);
    }
  }

  /** A fetch through the cache: a hit is served as it is, a miss asks the node and stores its answer. */
  function Fetch<V>(c: seq<Entry<V>>, key: nat, answer: Option<V>): (seq<Entry<V>>, Option<V>) {
    var hit := Lookup(c, key);
    var served := if hit.Some? then hit else answer;
    (if served.Some? then Promote(c, Entry(key, served.value)) else c, served)
  }

  class BlockFetcher {
    const src: Source
    const cache: LruCache<FetchResult>

    constructor (src: Source)
      ensures this.src == src && fresh(cache) && cache.entries == []
    {
      this.src := src;
      cache := new LruCache();
    }

    /** `reachable` says whether the requests for a missing height get through before the retries end. */
    method FetchBlock(leaf: Block, n: nat, reachable: bool) returns (result: Option<FetchResult>)
      requires Valid(cache.entries)
      modifies cache
      ensures Valid(cache.entries)
      ensures (cache.entries, result) ==
              Fetch(old(cache.entries), n, if reachable then src.fetch(leaf, n) else None)
    {
      result := cache.Get(n);
      if result.Some? {
        return;
      }
      if reachable {
        result := src.fetch(leaf, n);
      }
      if result.Some? {
        cache.Add(n, result.value);
      }
    }
  }
}
