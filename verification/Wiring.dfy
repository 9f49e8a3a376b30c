/** What an event says about its block, field by field, in terms of the network alone. */
module Wiring {
  import opened Chain
  import opened BlockFetcher
  import opened ForwardSyncer

  /** The event that block `b` deserves. */
  lemma {:induction false} EventFields(net: Network, b: Block)
    ensures var e := EventOf(SourceOf(net), Want(net), b);
            var n := b.Number();
            && e.block == b
            && (e.active <==> n >= net.activeBlock)
            && (e.forked <==> n >= net.forkedBlock)
            && (e.prev.None? <==> n <= 1)
            && (n >= 2 ==> e.prev == Some(b.parent))
            && e.staker == (if n >= net.forkedBlock then Some(net.staker(b)) else None)
            && e.authNodes == (if n <= net.activeBlock then net.authority(b) else [])
            && e.parentStaker == (if n >= 2 && n - 1 >= net.forkedBlock then Some(net.staker(b.parent)) else None)
            && e.parentAuthNodes == (if n >= 2 && n - 1 <= net.activeBlock then net.authority(b.parent) else [])
  {
    hide SeedOf;
  }

  /** Its seed is the one before it, its future seed the one of the next height. */
  lemma {:induction false} EventSeeds(net: Network, b: Block, h: nat)
    requires h % net.seederInterval == 0 && h > 0
    ensures var e := EventOf(SourceOf(net), Want(net), b);
            var n := b.Number();
            && (n < 2 * net.seederInterval ==> e.seed == [])
            && (n + 1 < 2 * net.seederInterval ==> e.futureSeed == [])
            && (h + net.seederInterval <= n < h + 2 * net.seederInterval ==> e.seed == net.beta(b.At(h)))
            && (h + net.seederInterval <= n + 1 < h + 2 * net.seederInterval ==> e.futureSeed == net.beta(b.At(h)))
  {
    hide SeedOf;
    SeedIsBetaBefore(net, b, b.Number(), h);
    SeedIsBetaBefore(net, b, b.Number() + 1, h);
  }

  /** Under proof of authority the node lists of the block and its parent are there. */
  lemma {:induction false} PoaEvent(net: Network, b: Block)
    requires b.Number() < net.activeBlock
    ensures var e := EventOf(SourceOf(net), Want(net), b);
            && !e.active && e.authNodes == net.authority(b)
            && (b.Number() >= 2 ==> e.parentAuthNodes == net.authority(b.parent))
  {
    EventFields(net, b);
  }
}
