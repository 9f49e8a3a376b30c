/** `ForkHandler`: delete what lies after the finalized block, extract the side chain, record it. */
module ForkHandler {
  import opened Chain
  import opened Points

  datatype Outcome = Blocks(chain: seq<Block>) | Failed

  predicate ParentOf(a: Block, b: Block) {
    b.Child? && b.parent == a
  }

  /** The blocks from `side` down to the child of the block where it leaves the chain ending in `leaf`. */
  predicate IsSideChain(chain: seq<Block>, side: Block, leaf: Block) {
    && |chain| > 0 && chain[0] == side
    && (forall i :: 0 <= i < |chain| ==> !Within(chain[i], leaf))
    && (forall i, j :: 0 <= i && j == i + 1 < |chain| ==> ParentOf(chain[j], chain[i]))
    && chain[|chain| - 1].Child? && Within(chain[|chain| - 1].parent, leaf)
  }

  function SideChainOf(side: Block, leaf: Block): seq<Block> {
    if side.Genesis? || Within(side.parent, leaf) then [side] else [side] + SideChainOf(side.parent, leaf)
  }

  lemma {:induction false} SideChainIsSideChain(side: Block, leaf: Block)
    requires !Within(side, leaf) && side.Number() <= leaf.Number() && side.At(0) == leaf.At(0)
    ensures IsSideChain(SideChainOf(side, leaf), side, leaf)
  {
    if side.Child? && !Within(side.parent, leaf) {
      SideChainIsSideChain(side.parent, leaf);
      var rest := SideChainOf(side.parent, leaf);
      var chain := SideChainOf(side, leaf);
      assert forall i :: 0 < i < |chain| ==> chain[i] == rest[i - 1];
      forall i, j | 0 <= i && j == i + 1 < |chain|
        ensures ParentOf(chain[j], chain[i])
      {
        assert i > 0 ==> ParentOf(rest[j - 1], rest[i - 1]);
      }
    }
  }

  /** A side chain is determined by its tip and the canonical chain. */
  lemma {:induction false} SideChainUnique(chain: seq<Block>, side: Block, leaf: Block)
    requires IsSideChain(chain, side, leaf)
    ensures chain == SideChainOf(side, leaf)
    decreases |chain|
  {
    if |chain| > 1 {
      assert ParentOf(chain[1], chain[0]);
      forall i, j | 0 <= i && j == i + 1 < |chain| - 1
        ensures ParentOf(chain[1..][j], chain[1..][i])
      {
        assert ParentOf(chain[j + 1], chain[i + 1]);
      }
      SideChainUnique(chain[1..], side.parent, leaf);
    }
  }

  /** The side chain hangs off the lowest common ancestor, and a block's position counts its distance
      from that ancestor. */
  lemma {:induction false} SideChainShape(chain: seq<Block>, side: Block, leaf: Block, i: nat)
    requires IsSideChain(chain, side, leaf) && i < |chain|
    ensures var ancestor := chain[|chain| - 1].parent;
            chain[i].Child? && chain[i].Number() == ancestor.Number() + |chain| - i &&
            Within(ancestor, chain[i]) &&
            forall b :: Within(b, chain[i]) && Within(b, leaf) ==> Within(b, ancestor)
    decreases |chain| - i
  {
    var ancestor := chain[|chain| - 1].parent;
    if i < |chain| - 1 {
      assert ParentOf(chain[i + 1], chain[i]);
      SideChainShape(chain, side, leaf, i + 1);
    }
    forall b | Within(b, chain[i]) && Within(b, leaf)
      ensures Within(b, ancestor)
    {
      assert Within(b, chain[i].parent);
    }
  }

  /** The lowest height that the ancestor search compares. */
  function Floor(side: Block, finalized: Block): nat {
    if finalized.Number() < side.Number() then finalized.Number() else 0
  }

  lemma {:induction false} AgreementIsDownward(a: Block, b: Block, h: nat, k: nat)
    requires k <= h <= a.Number() && h <= b.Number() && a.At(h) == b.At(h)
    ensures a.At(k) == b.At(k)
  {
    AtAt(a, h, k);
    AtAt(b, h, k);
  }

  /** Where the search stands: `last` on the side chain and `main` on the canonical one, level and
      different, with no comparison at the finalized height behind it. */
  predicate Searching(last: Block, main: Block, side: Block, leaf: Block, finalized: Block) {
    && side.Number() <= leaf.Number() && Within(last, side) && Within(main, leaf)
    && main.Number() == last.Number() && last != main
    && (finalized.Number() < side.Number() ==> finalized.Number() < last.Number())
  }

  /** The side chain leaves the canonical one below every height that the search compares. */
  predicate Diverges(side: Block, leaf: Block, finalized: Block)
    requires side.Number() <= leaf.Number()
  {
    side.At(Floor(side, finalized)) != leaf.At(Floor(side, finalized))
  }

  lemma {:induction false} DivergesIs(side: Block, leaf: Block, finalized: Block)
    requires side.Number() <= leaf.Number()
    ensures var h := if finalized.Number() < side.Number() then finalized.Number() else 0;
            Diverges(side, leaf, finalized) <==> side.At(h) != leaf.At(h)
    ensures Within(side, leaf) <==> leaf.At(side.Number()) == side
  {
  }

  lemma {:induction false} SearchStart(side: Block, leaf: Block, finalized: Block)
    requires side.Number() <= leaf.Number() && leaf.At(side.Number()) != side
    ensures Searching(side, leaf.At(side.Number()), side, leaf, finalized)
  {
  }

  lemma {:induction false} SearchStep(last: Block, main: Block, side: Block, leaf: Block, finalized: Block)
    requires Searching(last, main, side, leaf, finalized)
    ensures last.Child? <==> main.Child?
    ensures last.Genesis? ==> Diverges(side, leaf, finalized)
    ensures last.Child? ==>
      if last.parent == main.parent then Within(last.parent, leaf) && !Diverges(side, leaf, finalized)
      else !Within(last.parent, leaf) &&
           if last.parent.Number() == finalized.Number() then Diverges(side, leaf, finalized)
           else Searching(last.parent, main.parent, side, leaf, finalized)
  {
    var n := last.Number();
    if last.Child? {
      AtAt(side, n, n - 1);
      AtAt(leaf, n, n - 1);
      if last.parent == main.parent {
        AgreementIsDownward(side, leaf, n - 1, Floor(side, finalized));
      }
    }
  }

  /** `leaf` ends the canonical chain that the node serves while the search runs. */
  method GetSideChain(leaf: Block, best: Block, side: Block, finalized: Block) returns (r: Outcome)
    ensures r.Failed? <==>
            || side.Number() > best.Number() || side.Number() > leaf.Number()
            || (!Within(side, leaf) &&
                var h := if finalized.Number() < side.Number() then finalized.Number() else 0;
                side.At(h) != leaf.At(h))
    ensures r.Blocks? ==> r.chain == if Within(side, leaf) then [] else SideChainOf(side, leaf)
  {
    hide Diverges, Searching, Within, Block.At;
    if side.Number() > best.Number() {
      return Failed;
    }
    var bestNum := best.Number();
    while bestNum > side.Number()
      invariant bestNum >= side.Number()
    {
      bestNum := bestNum - 1;
    }
    if bestNum > leaf.Number() {
      return Failed;
    }
    DivergesIs(side, leaf, finalized);
    var bestChainBlock := leaf.At(bestNum);
    if bestChainBlock == side {
      return Blocks([]);
    }
    SearchStart(side, leaf, finalized);
    var sideChain := [side];
    while true
      invariant |sideChain| > 0
      invariant Searching(sideChain[|sideChain| - 1], bestChainBlock, side, leaf, finalized)
      invariant SideChainOf(side, leaf) ==
                sideChain[..|sideChain| - 1] + SideChainOf(sideChain[|sideChain| - 1], leaf)
      decreases bestChainBlock
    {
      var prev := sideChain[|sideChain| - 1];
      SearchStep(prev, bestChainBlock, side, leaf, finalized);
      if bestChainBlock.Genesis? || prev.Genesis? {
        return Failed;
      }
      bestChainBlock := bestChainBlock.parent;
      var sideChainBlock := prev.parent;
      if sideChainBlock == bestChainBlock {
        return Blocks(sideChain);
      }
      if sideChainBlock.Number() == finalized.Number() {
        return Failed;
      }
      sideChain := sideChain + [sideChainBlock];
    }
  }

  /** The searches that find a side chain. */
  predicate Resolvable(leaf: Block, best: Block, side: Block, finalized: Block) {
    && side.Number() <= best.Number() && side.Number() <= leaf.Number()
    && !Within(side, leaf) && !Diverges(side, leaf, finalized)
  }

  lemma {:induction false} ResolvableIsSideChain(leaf: Block, best: Block, side: Block, finalized: Block)
    requires Resolvable(leaf, best, side, finalized)
    ensures IsSideChain(SideChainOf(side, leaf), side, leaf)
  {
    AgreementIsDownward(side, leaf, Floor(side, finalized), 0);
    SideChainIsSideChain(side, leaf);
  }

  /** When the finalized block is on both chains the search cannot fail, and stays above it. */
  lemma {:induction false} FinalizedForksResolve(leaf: Block, best: Block, side: Block, finalized: Block)
    requires Within(finalized, side) && Within(finalized, leaf)
    requires side.Number() <= best.Number() && side.Number() <= leaf.Number() && !Within(side, leaf)
    ensures Resolvable(leaf, best, side, finalized)
    ensures forall b :: b in SideChainOf(side, leaf) ==> finalized.Number() < b.Number()
  {
    AgreementIsDownward(side, leaf, finalized.Number(), 0);
    ResolvableIsSideChain(leaf, best, side, finalized);
    var chain := SideChainOf(side, leaf);
    SideChainShape(chain, side, leaf, 0);
    forall i | 0 <= i < |chain|
      ensures finalized.Number() < chain[i].Number()
    {
      SideChainShape(chain, side, leaf, i);
    }
  }

  /** A point of the forks measurement; genesis has no parent to name. */
  datatype ForkPoint = ForkPoint(group: Block, number: nat, parent: Option<Block>, id: Block, length: nat,
                                 index: nat, timestamp: nat)

  function PointOf(chain: seq<Block>, i: nat): ForkPoint
    requires i < |chain|
  {
    var b := chain[i];
    ForkPoint(chain[0], b.Number(), if b.Child? then Some(b.parent) else None, b, |chain|, |chain| - i, b.timestamp)
  }

  /** The points recorded for a side chain: stored descending, indexed ascending. */
  function ForkPoints(chain: seq<Block>): seq<ForkPoint> {
    seq(|chain|, i requires 0 <= i < |chain| => PointOf(chain, i))
  }

  /** Each point's index counts from the common ancestor, and the length is the whole distance to it. */
  lemma {:induction false} PointsCountFromAncestor(chain: seq<Block>, side: Block, leaf: Block, i: nat)
    requires IsSideChain(chain, side, leaf) && i < |chain|
    ensures var ancestor := chain[|chain| - 1].parent;
            var p := ForkPoints(chain)[i];
            |ForkPoints(chain)| == |chain| &&
            p.id == chain[i] && chain[i].Child? && p.parent == Some(chain[i].parent) && p.group == side &&
            p.number == chain[i].Number() && p.timestamp == chain[i].timestamp &&
            p.index == p.number - ancestor.Number() && p.length == side.Number() - ancestor.Number()
  {
    SideChainShape(chain, side, leaf, 0);
    SideChainShape(chain, side, leaf, i);
  }

  class ForkHandler {
    /** The stored points that depend on the chain, and the forks measurement, which deletes spare. */
    var points: set<Point>
    var forks: seq<ForkPoint>

    method WriteForkedBlock(chain: seq<Block>)
      modifies this`forks
      ensures forks == old(forks) + ForkPoints(chain)
    {
      for i := 0 to |chain|
        invariant forks == old(forks) + ForkPoints(chain)[..i]
      {
        forks := forks + [PointOf(chain, i)];
      }
    }

    /** `deleteOk` says whether the database accepts the delete. */
    method Resolve(now: nat, leaf: Block, best: Block, side: Block, finalized: Block, deleteOk: bool)
      modifies this
      ensures points == if deleteOk then DeleteRange(old(points), finalized.timestamp + 1, now + 3600)
                        else old(points)
      ensures forks == old(forks) + if deleteOk && Resolvable(leaf, best, side, finalized)
                                    then ForkPoints(SideChainOf(side, leaf)) else []
    {
      if !deleteOk {
        return;
      }
      points := DeleteRange(points, finalized.timestamp + 1, now + HOUR);
      var r := GetSideChain(leaf, best, side, finalized);
      if r.Failed? {
        return;
      }
      WriteForkedBlock(r.chain);
    }
  }
}
