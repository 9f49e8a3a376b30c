/** `NewPublisher`: which heights the two syncers will cover, in wrapping uint32 arithmetic. */
module Publisher {
  import opened Types

  type uint32 = x: nat | x < UINT32

  /** The uint32 difference, which wraps below zero. */
  function Sub32(a: uint32, b: uint32): (r: uint32)
    ensures a >= b ==> r == a - b
    ensures a < b ==> r == a + UINT32 - b
  {
    if a >= b then a - b else a + UINT32 - b
  }

  /** `NewBackwardSyncer`: the exclusive lower end of the descending range. */
  method MinBlock(head: uint32, backSyncBlocks: uint32) returns (minBlock: uint32)
    ensures minBlock == if head > backSyncBlocks then head - backSyncBlocks else 0
  {
    minBlock := 0;
    if head > backSyncBlocks {
      minBlock := Sub32(head, backSyncBlocks);
    }
  }

  datatype Plan = Plan(first: uint32, previous: uint32, backSyncBlocks: uint32, minBlock: uint32, forward: bool)

  /** The heights that a plan publishes: backward sync takes (minBlock, first], and the forward syncer,
      absent when an end block is set, everything above `previous`. */
  predicate Backward(p: Plan, h: nat) {
    p.minBlock < h <= p.first
  }

  predicate Forward(p: Plan, h: nat) {
    p.forward && p.previous < h
  }

  /** The request as the code clamps it: one short of `first` when it is larger than `first`. */
  function Clamped(request: uint32, first: uint32): nat
    requires first > 0
  {
    if request > first then first - 1 else request
  }

  function Max(a: int, b: int): int { if a < b then b else a }

  function Min(a: int, b: int): int { if a < b then a else b }

  /** The highest height that nobody publishes. */
  function Gap(first: uint32, request: uint32, latest: uint32): nat
    requires first > 0
  {
    Min(Max(first - Clamped(request, first), latest), first - 1)
  }

  /** `start` is the number of the end block if one is set, else of the finalized block; `latest` is the
      newest block in the database, zero when the query fails. */
  method NewPublisher(start: uint32, endBlock: uint32, request: uint32, latest: uint32) returns (p: Plan)
    requires endBlock != 0 ==> start == endBlock
    ensures p.first == Max(start, 1) && p.previous == p.first - 1 && p.forward == (endBlock == 0)
    ensures p.backSyncBlocks <= p.first && p.minBlock == p.first - p.backSyncBlocks
    ensures p.backSyncBlocks > 0 ==> p.minBlock == Gap(p.first, request, latest)
    ensures forall h: nat :: Backward(p, h) || h >= p.first <==> h > Gap(p.first, request, latest)
    ensures p.forward ==> forall h: nat :: Backward(p, h) || Forward(p, h) <==> h > Gap(p.first, request, latest)
    ensures forall h: nat :: Backward(p, h) && Forward(p, h) ==> h == p.first
    ensures Backward(p, p.first) <==> p.backSyncBlocks > 0
    ensures p.backSyncBlocks > 0 <==> latest < p.first && Clamped(request, p.first) > 0
  {
    var first, previous := start, start;
    if first == 0 {
      first := 1;
    } else {
      previous := Sub32(first, 1);
    }
    var backSyncBlocks := request;
    assert first >= 1;
    if backSyncBlocks > first {
      backSyncBlocks := Sub32(first, 1);
    }
    if latest > Sub32(first, backSyncBlocks) {
      if latest >= first {
        backSyncBlocks := 0;
      } else {
        backSyncBlocks := Sub32(first, latest);
      }
    }
    var minBlock := MinBlock(first, backSyncBlocks);
    p := Plan(first, previous, backSyncBlocks, minBlock, endBlock == 0);
  }

  /** Asking for more than the chain holds covers less than asking for exactly as much: block 1 is left
      out, on an empty database. */
  lemma {:induction false} OverlongRequestLosesBlockOne(first: uint32, request: uint32)
    requires first > 1
    ensures Gap(first, request, 0) == 0 <==> request == first
    ensures request > first ==> Gap(first, request, 0) == 1
  {
  }

  /** The block at which proof of stake becomes active: a uint32 sum, which wraps. */
  function ActiveBlock(forkBlock: uint32, transition: uint32): uint32 {
    (forkBlock + transition) % UINT32
  }

  /** Proof of stake is active no earlier than the fork precisely when that sum does not wrap; a network
      that never forks, with the largest fork height, is taken for an active one. */
  lemma {:induction false} ActiveNotBeforeFork(forkBlock: uint32, transition: uint32)
    ensures forkBlock <= ActiveBlock(forkBlock, transition) <==> forkBlock + transition < UINT32
  {
    if forkBlock + transition >= UINT32 {
      assert ActiveBlock(forkBlock, transition) == forkBlock + transition - UINT32;
    }
  }
}
