/** The slots writer: who should have signed this block, and who will sign the next ones. */
module SlotsWriter {
  import opened Chain
  import opened Types
  import opened BlockFetcher
  import opened ForwardSyncer
  import opened Wiring
  import opened Sorting
  import opened Calculator

  const DEFAULT_FUTURE_PROPOSER_COUNT: nat := 10

  /** A validator's locked weight in VET; a missing or non-positive weight counts as none. */
  function LockedWeight(v: Validation): nat {
    if v.totalLockedWeight.Some? && v.totalLockedWeight.value > 0 then ScaleToVET(v.totalLockedWeight.value) else 0
  }

  function ToPosNode(v: Validation): PosNode {
    PosNode(v.address, v.endorser, v.online, LockedWeight(v))
  }

  /** The validators with weight, in their order. */
  function PosNodesOf(vs: seq<Validation>): seq<PosNode> {
    if vs == [] then [] else
    PosNodesOf(vs[..|vs| - 1]) + if LockedWeight(vs[|vs| - 1]) != 0 then [ToPosNode(vs[|vs| - 1])] else []
  }

  /** The nodes come from the validators with a positive scaled weight, in their order, one each. */
  lemma {:induction false} PosNodesAre(vs: seq<Validation>) returns (places: seq<nat>)
    ensures forall i, j :: 0 <= i < j < |places| ==> places[i] < places[j]
    ensures forall i :: i in places <==>
      0 <= i < |vs| && vs[i].totalLockedWeight.Some? && vs[i].totalLockedWeight.value > 0 &&
      ScaleToVET(vs[i].totalLockedWeight.value) > 0
    ensures |PosNodesOf(vs)| == |places| && forall k :: 0 <= k < |places| ==>
      places[k] < |vs| && var v := vs[places[k]];
      v.totalLockedWeight.Some? &&
      PosNodesOf(vs)[k] == PosNode(v.address, v.endorser, v.online, ScaleToVET(v.totalLockedWeight.value))
  {
    hide ScaleToVET;
    places := PickAre(HasWeight(), ToNode(), vs);
    PosNodesPicked(vs);
    assert forall k :: 0 <= k < |places| ==> places[k] in places;
  }

  function ToNode(): Validation -> PosNode {
    (v: Validation) => PosNode(v.address, v.endorser, v.online,
                               if v.totalLockedWeight.Some? then ScaleToVET(v.totalLockedWeight.value) else 0)
  }

  lemma {:induction false} PosNodesPicked(vs: seq<Validation>)
    ensures PosNodesOf(vs) == Pick(HasWeight(), ToNode(), vs)
  {
    hide ScaleToVET;
    if vs != [] {
      PosNodesPicked(vs[..|vs| - 1]);
    }
  }

  function HasWeight(): Validation -> bool {
    (v: Validation) => v.totalLockedWeight.Some? && v.totalLockedWeight.value > 0 && ScaleToVET(v.totalLockedWeight.value) > 0
  }

  method ConvertStakerToPosNodes(info: Option<StakerInformation>) returns (posNodes: seq<PosNode>)
    ensures posNodes == if info.None? then [] else PosNodesOf(info.value.validations)
  {
    posNodes := [];
    if info.None? {
      return;
    }
    var vs := info.value.validations;
    for i := 0 to |vs|
      invariant posNodes == PosNodesOf(vs[..i])
    {
      assert vs[..i + 1][..i] == vs[..i];
      var weight := 0;
      if vs[i].totalLockedWeight.Some? && vs[i].totalLockedWeight.value > 0 {
        weight := ScaleToVET(vs[i].totalLockedWeight.value);
      }
      if weight == 0 {
        continue;
      }
      posNodes := posNodes + [PosNode(vs[i].address, vs[i].endorser, vs[i].online, weight)];
    }
    assert vs[..|vs|] == vs;
  }

  function IsActive(): AuthorityNode -> bool {
    (n: AuthorityNode) => n.active
  }

  /** What the writer computes for one block: the coming proposers, the signer expected for the block
      itself (the zero address when unknown), and the number of active nodes. */
  datatype Prediction = Prediction(futures: seq<FutureProposer>, expected: Address, activeCount: nat)

  const NOTHING: Prediction := Prediction([], 0, 0)

  function StakeOrder(o: Oracle, info: StakerInformation, seed: Seed, num: nat): seq<AuthorityNode> {
    AuthorityNodes(Nodes(Sampled(o, PosNodesOf(info.validations), seed, num)))
  }

  function PredictPos(o: Oracle, count: nat, e: BlockEvent): Prediction
    requires e.block.Number() >= 1
  {
    var n := e.block.Number();
    if e.staker.None? || PosNodesOf(e.staker.value.validations) == [] then NOTHING else
    var expected := if e.parentStaker.None? then [] else StakeOrder(o, e.parentStaker.value, e.seed, n - 1);
    Prediction(Proposers(StakeOrder(o, e.staker.value, e.futureSeed, n), count),
               if expected == [] then 0 else expected[0].master,
               |PosNodesOf(e.staker.value.validations)|)
  }

  function PredictPoa(o: Oracle, count: nat, e: BlockEvent): Prediction
    requires e.block.Number() >= 1
  {
    var n := e.block.Number();
    var expected := AuthorityShuffle(o, e.parentAuthNodes, e.seed, n - 1);
    if Filter(IsActive(), e.parentAuthNodes) == [] || expected == [] then NOTHING else
    Prediction(Proposers(AuthorityShuffle(o, e.authNodes, e.futureSeed, n), count),
               expected[0].master,
               |Filter(IsActive(), e.authNodes)|)
  }

  datatype Point = Point(blockNumber: nat, position: int, posActive: bool, authorityNode: Address,
                         endorsorNode: Address, currentSigner: Address, totalActiveNodes: nat, weightMillions: nat,
                         expectedBlockSigner: Address)

  /** The validators by address; of two with one address the later counts. */
  function ValidationMap(vs: seq<Validation>): map<Address, Validation> {
    if vs == [] then map[] else ValidationMap(vs[..|vs| - 1])[vs[|vs| - 1].address := vs[|vs| - 1]]
  }

  lemma {:induction false} ValidationMapFinds(vs: seq<Validation>, a: Address)
    ensures a in ValidationMap(vs) <==> exists i :: 0 <= i < |vs| && vs[i].address == a
    ensures a in ValidationMap(vs) ==>
              exists i :: 0 <= i < |vs| && ValidationMap(vs)[a] == vs[i] && vs[i].address == a &&
                          forall j :: i < j < |vs| ==> vs[j].address != a
  {
    if vs != [] {
      var init := vs[..|vs| - 1];
      ValidationMapFinds(init, a);
      if vs[|vs| - 1].address != a && a in ValidationMap(init) {
        var i :| 0 <= i < |init| && ValidationMap(init)[a] == init[i] && init[i].address == a &&
                 forall j :: i < j < |init| ==> init[j].address != a;
        assert vs[i] == init[i];
        assert forall j :: i < j < |init| ==> vs[j] == init[j];
      }
    }
  }

  function ScaleToMillionVET(wei: Option<int>): nat {
    if wei.None? then 0 else ScaleToVET(wei.value) / 1_000_000
  }

  /** A proposer's weight in millions of VET: 25 under proof of authority, and for an unknown validator. */
  function WeightMillions(e: BlockEvent, master: Address): nat {
    if e.active && e.staker.Some? && master in ValidationMap(e.staker.value.validations)
    then ScaleToMillionVET(ValidationMap(e.staker.value.validations)[master].totalLockedWeight)
    else 25
  }

  /** The points written for an event; an event without a previous block gets none. */
  function PointsOf(o: Oracle, count: nat, e: BlockEvent): seq<Point>
    requires e.block.Number() >= 1
  {
    if e.prev.None? then [] else
    PointsFrom(o, e, if e.active then PredictPos(o, count, e) else PredictPoa(o, count, e))
  }

  /** One point for each coming proposer. */
  function PointsFrom(o: Oracle, e: BlockEvent, p: Prediction): seq<Point> {
    seq(|p.futures|, i requires 0 <= i < |p.futures| =>
      Point(e.block.Number(), p.futures[i].position, e.active, p.futures[i].node.master,
            p.futures[i].node.endorsor, o.signer(e.block), p.activeCount, WeightMillions(e, p.futures[i].node.master),
            p.expected))
  }

  /** A negative count, when it is used. */
  predicate PosPanics(count: int, e: BlockEvent) {
    count < 0 && e.staker.Some? && PosNodesOf(e.staker.value.validations) != []
  }

  /** A negative count, or a count of zero with which the first expected proposer is missing; that one is not
      looked at when the parent has no active node. */
  predicate PoaPanics(count: int, e: BlockEvent) {
    count < 0 || (count == 0 && Filter(IsActive(), e.parentAuthNodes) != [])
  }

  /** An active event without staker information is a nil dereference. */
  predicate WritePanics(count: int, e: BlockEvent) {
    e.prev.Some? && if e.active then e.staker.None? || PosPanics(count, e) else PoaPanics(count, e)
  }

  function Clamped(count: int): nat {
    if count < 0 then 0 else count
  }

  lemma {:induction false} SomeActiveIff(nodes: seq<AuthorityNode>)
    ensures Filter(IsActive(), nodes) != [] <==> exists i :: 0 <= i < |nodes| && nodes[i].active
  {
    var active := Filter(IsActive(), nodes);
    if active != [] {
      FilterMembers(IsActive(), nodes, active[0]);
    }
    if i :| 0 <= i < |nodes| && nodes[i].active {
      FilterMembers(IsActive(), nodes, nodes[i]);
    }
  }

  class Writer {
    var futureProposerCount: int

    constructor ()
      ensures futureProposerCount == 10
    {
      futureProposerCount := DEFAULT_FUTURE_PROPOSER_COUNT;
    }

    method SetFutureProposerCount(count: int)
      modifies this
      ensures futureProposerCount == count
    {
      futureProposerCount := count;
    }

    /** None is a panic, here and below. */
    method CalculatePosProposers(o: Oracle, e: BlockEvent) returns (p: Option<Prediction>)
      requires e.block.Number() >= 1
      ensures p == if PosPanics(futureProposerCount, e) then None
                   else Some(PredictPos(o, Clamped(futureProposerCount), e))
    {
      hide Sampled, Nodes, AuthorityNodes, PosNodesOf;
      if e.staker.None? {
        return Some(NOTHING);
      }
      var expected: seq<FutureProposer> := [];
      if e.parentStaker.Some? {
        var parentPosNodes := ConvertStakerToPosNodes(e.parentStaker);
        var first := NextBlockProposersPoS(o, parentPosNodes, e.seed, e.block.Number() - 1, 1);
        expected := first.value;
      }
      var posNodes := ConvertStakerToPosNodes(e.staker);
      if |posNodes| == 0 {
        return Some(NOTHING);
      }
      var futures := NextBlockProposersPoS(o, posNodes, e.futureSeed, e.block.Number(), futureProposerCount);
      if futures.None? {
        return None;
      }
      var signer := 0;
      if |expected| > 0 {
        signer := expected[0].node.master;
      }
      p := Some(Prediction(futures.value, signer, |posNodes|));
    }

    method CalculatePoaProposers(o: Oracle, e: BlockEvent) returns (p: Option<Prediction>)
      requires e.block.Number() >= 1 && SortsByHash(o)
      ensures p == if PoaPanics(futureProposerCount, e) then None
                   else Some(PredictPoa(o, Clamped(futureProposerCount), e))
    {
      hide AuthorityShuffle, SortsByHash, LeastByHash, Map;
      var expected := NextBlockProposersPoA(o, e.parentAuthNodes, e.seed, e.block.Number() - 1, futureProposerCount);
      if expected.None? {
        return None;
      }
      ShuffleKeepsLength(o, e.parentAuthNodes, e.seed, e.block.Number() - 1);
      var active := Filter(IsActive(), e.parentAuthNodes);
      if |active| == 0 {
        return Some(NOTHING);
      }
      FilterMembers(IsActive(), e.parentAuthNodes, active[0]);
      var futures := NextBlockProposersPoA(o, e.authNodes, e.futureSeed, e.block.Number(), futureProposerCount);
      if |expected.value| == 0 {
        return None;
      }
      p := Some(Prediction(futures.value, expected.value[0].node.master, |Filter(IsActive(), e.authNodes)|));
    }

    method Write(o: Oracle, e: BlockEvent) returns (points: Option<seq<Point>>)
      requires e.block.Number() >= 1 && SortsByHash(o)
      ensures points == if WritePanics(futureProposerCount, e) then None
                        else Some(PointsOf(o, Clamped(futureProposerCount), e))
      ensures points.None? <==>
              e.prev.Some? &&
              if e.active
              then e.staker.None? || (futureProposerCount < 0 && PosNodesOf(e.staker.value.validations) != [])
              else futureProposerCount < 0 ||
                   (futureProposerCount == 0 &&
                    exists i :: 0 <= i < |e.parentAuthNodes| && e.parentAuthNodes[i].active)
    {
      SomeActiveIff(e.parentAuthNodes);
      hide PredictPos, PredictPoa, SortsByHash, ValidationMap;
      if e.prev.None? {
        return Some([]);
      }
      var r;
      var validationMap: map<Address, Validation> := map[];
      if e.active {
        r := CalculatePosProposers(o, e);
        if r.None? || e.staker.None? {
          return None;
        }
        validationMap := ValidationMap(e.staker.value.validations);
      } else {
        r := CalculatePoaProposers(o, e);
        if r.None? {
          return None;
        }
      }
      var p := r.value;
      var written: seq<Point> := [];
      for i := 0 to |p.futures|
        invariant written == PointsFrom(o, e, p)[..i]
      {
        var proposer := p.futures[i];
        var weightMillions := 25;
        if e.active && e.staker.Some? && proposer.node.master in validationMap {
          weightMillions := ScaleToMillionVET(validationMap[proposer.node.master].totalLockedWeight);
        }
        written := written + [Point(e.block.Number(), proposer.position, e.active, proposer.node.master,
                                    proposer.node.endorsor, o.signer(e.block), p.activeCount, weightMillions, p.expected)];
      }
      assert written == PointsFrom(o, e, p);
      points := Some(written);
    }
  }

  // Consistency of predictions.

  lemma {:induction false} SeedIsShared(net: Network, b: Block)
    requires b.Child?
    ensures SeedOf(net, b.parent, b.Number()) == SeedOf(net, b, b.Number())
  {
  }

  /** The first proposer predicted with block N is the signer expected with block N + 1, whenever both are
      written and both blocks are in the same consensus mode. */
  lemma {:induction false} PredictionsAgree(net: Network, o: Oracle, count: nat, next: Block)
    requires next.Child? && next.parent.Child? && net.forkedBlock <= net.activeBlock && count >= 1
    requires var e := EventOf(SourceOf(net), Want(net), next.parent);
             var e' := EventOf(SourceOf(net), Want(net), next);
             e.active == e'.active && PointsOf(o, count, e) != [] && PointsOf(o, count, e') != []
    ensures var e := EventOf(SourceOf(net), Want(net), next.parent);
            var e' := EventOf(SourceOf(net), Want(net), next);
            PointsOf(o, count, e)[0].position == 1 &&
            PointsOf(o, count, e)[0].authorityNode == PointsOf(o, count, e')[0].expectedBlockSigner
  {
    hide SeedOf;
    SeedIsShared(net, next);
  }

  /** Whether writing a block's event panics for a positive count: exactly when the block is taken for active
      before the fork brings staker information, which takes a wrapped activation height. */
  lemma {:induction false} WritingPanicsIff(net: Network, count: int, b: Block)
    requires count > 0
    ensures WritePanics(count, EventOf(SourceOf(net), Want(net), b)) <==>
            b.Number() >= 2 && net.activeBlock <= b.Number() < net.forkedBlock
  {
    hide SeedOf;
    EventFields(net, b);
  }

  // The points, field by field.

  lemma {:induction false} WeightMillionsIs(e: BlockEvent, vs: seq<Validation>, i: nat, master: Address)
    requires e.active && e.staker.Some? && e.staker.value.validations == vs
    ensures (forall j :: 0 <= j < |vs| ==> vs[j].address != master) ==> WeightMillions(e, master) == 25
    ensures i < |vs| && vs[i].address == master && (forall j :: i < j < |vs| ==> vs[j].address != master) ==>
              WeightMillions(e, master) ==
              if vs[i].totalLockedWeight.None? then 0 else ScaleToVET(vs[i].totalLockedWeight.value) / 1_000_000
  {
    ValidationMapFinds(vs, master);
  }

  /** Under proof of stake: the proposers of the next block in their weighted order, and the signer expected for
      this one, who was first at the parent. */
  lemma {:induction false} PosPointsAre(o: Oracle, count: nat, e: BlockEvent, k: nat)
    requires e.block.Number() >= 1 && e.prev.Some? && e.active && e.staker.Some?
    ensures var n := e.block.Number();
            var nodes := PosNodesOf(e.staker.value.validations);
            var parents := if e.parentStaker.Some? then PosNodesOf(e.parentStaker.value.validations) else [];
            var order, before := Order(o, nodes, e.futureSeed, n), Order(o, parents, e.seed, n - 1);
            && |PointsOf(o, count, e)| == (if |order| < count then |order| else count)
            && (k < |PointsOf(o, count, e)| ==>
                  && order[k] < |nodes| && (before != [] ==> before[0] < |parents|)
                  && PointsOf(o, count, e)[k] ==
                     Point(n, k + 1, true, nodes[order[k]].master, nodes[order[k]].endorsor, o.signer(e.block), |nodes|,
                           WeightMillions(e, nodes[order[k]].master), if before == [] then 0 else parents[before[0]].master))
  {
    hide PosNodesOf, WeightMillions, Sampled;
    var n := e.block.Number();
    var parents := if e.parentStaker.Some? then PosNodesOf(e.parentStaker.value.validations) else [];
    OrderIsWeighted(o, PosNodesOf(e.staker.value.validations), e.futureSeed, n);
    OrderIsWeighted(o, parents, e.seed, n - 1);
    var order, before := Order(o, PosNodesOf(e.staker.value.validations), e.futureSeed, n), Order(o, parents, e.seed, n - 1);
    assert order != [] ==> order[0] in order;
    assert before != [] ==> before[0] in before;
  }

  /** Under proof of authority the same over the nodes in the order of their hashes; nothing when the parent has no
      active node. */
  lemma {:induction false} PoaPointsAre(o: Oracle, count: nat, e: BlockEvent, k: nat)
    requires e.block.Number() >= 1 && e.prev.Some? && !e.active && SortsByHash(o)
    ensures var n := e.block.Number();
            var w, before := AuthorityShuffle(o, e.authNodes, e.futureSeed, n), AuthorityShuffle(o, e.parentAuthNodes, e.seed, n - 1);
            if forall i :: 0 <= i < |e.parentAuthNodes| ==> !e.parentAuthNodes[i].active then PointsOf(o, count, e) == []
            else
              && |PointsOf(o, count, e)| == (if |e.authNodes| < count then |e.authNodes| else count)
              && (k < |PointsOf(o, count, e)| ==>
                    && |w| == |e.authNodes| && before != []
                    && PointsOf(o, count, e)[k] ==
                       Point(n, k + 1, false, w[k].master, w[k].endorsor, o.signer(e.block),
                             |Filter(IsActive(), e.authNodes)|, 25, before[0].master))
  {
    hide AuthorityShuffle, SortsByHash;
    var n := e.block.Number();
    ShuffleKeepsLength(o, e.authNodes, e.futureSeed, n);
    ShuffleKeepsLength(o, e.parentAuthNodes, e.seed, n - 1);
    var active := Filter(IsActive(), e.parentAuthNodes);
    if active != [] {
      FilterMembers(IsActive(), e.parentAuthNodes, active[0]);
    } else {
      forall i | 0 <= i < |e.parentAuthNodes|
        ensures !e.parentAuthNodes[i].active
      {
        FilterMembers(IsActive(), e.parentAuthNodes, e.parentAuthNodes[i]);
      }
    }
  }
}
