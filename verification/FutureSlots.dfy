/** `FutureSlots`: the staker's own prediction for the rest of the epoch, and its agreement with the slots
    writer. */
module FutureSlots {
  import opened Arithmetic
  import opened Chain
  import opened Types
  import Validators
  import opened BlockFetcher
  import opened ForwardSyncer
  import opened Sorting
  import opened Calculator
  import opened SlotsWriter

  datatype FutureSlot = FutureSlot(block: nat, signer: Address, index: nat)

  /** The active validators, with the weight in VET that was unpacked for them. */
  function ActiveNodesOf(vs: seq<Validation>): seq<PosNode> {
    if vs == [] then [] else
    var v := vs[|vs| - 1];
    ActiveNodesOf(vs[..|vs| - 1]) +
    if v.status == Active then [PosNode(v.address, v.endorser, v.online, v.weight)] else []
  }

  /** They come from the validators in active status, in their order, one each. */
  lemma {:induction false} ActiveNodesAre(vs: seq<Validation>) returns (places: seq<nat>)
    ensures forall i, j :: 0 <= i < j < |places| ==> places[i] < places[j]
    ensures forall i :: i in places <==> 0 <= i < |vs| && vs[i].status == Active
    ensures |ActiveNodesOf(vs)| == |places| && forall k :: 0 <= k < |places| ==>
      places[k] < |vs| && var v := vs[places[k]]; ActiveNodesOf(vs)[k] == PosNode(v.address, v.endorser, v.online, v.weight)
  {
    places := PickAre(HasActiveStatus(), ToSlotNode(), vs);
    ActiveNodesPicked(vs);
  }

  function HasActiveStatus(): Validation -> bool {
    (v: Validation) => v.status == Active
  }

  function ToSlotNode(): Validation -> PosNode {
    (v: Validation) => PosNode(v.address, v.endorser, v.online, v.weight)
  }

  lemma {:induction false} ActiveNodesPicked(vs: seq<Validation>)
    ensures ActiveNodesOf(vs) == Pick(HasActiveStatus(), ToSlotNode(), vs)
  {
    if vs != [] {
      ActiveNodesPicked(vs[..|vs| - 1]);
    }
  }

  method CreateSlotsProposers(vs: seq<Validation>) returns (proposers: seq<PosNode>)
    ensures proposers == ActiveNodesOf(vs)
  {
    proposers := [];
    for i := 0 to |vs|
      invariant proposers == ActiveNodesOf(vs[..i])
    {
      assert vs[..i + 1][..i] == vs[..i];
      if vs[i].status == Active {
        proposers := proposers + [PosNode(vs[i].address, vs[i].endorser, vs[i].online, vs[i].weight)];
      }
    }
    assert vs[..|vs|] == vs;
  }

  predicate SomeEligible(nodes: seq<PosNode>) {
    exists i :: 0 <= i < |nodes| && Eligible(nodes[i])
  }

  /** The weighted order is empty exactly when nobody is eligible. */
  lemma {:induction false} OrderIsEmptyIff(o: Oracle, nodes: seq<PosNode>, seed: Seed, num: nat)
    ensures AuthorityNodes(Nodes(Sampled(o, nodes, seed, num))) != [] <==> SomeEligible(nodes)
  {
    OrderIsWeighted(o, nodes, seed, num);
    var order := Order(o, nodes, seed, num);
    if order != [] {
      assert order[0] in order;
    }
  }

  function FirstSigner(o: Oracle, nodes: seq<PosNode>, seed: Seed, num: nat): Address {
    var order := AuthorityNodes(Nodes(Sampled(o, nodes, seed, num)));
    if order == [] then 0 else order[0].master
  }

  /** How many blocks after block `n` are still in its epoch. */
  function Predictable(n: nat, epochLength: Positive): nat {
    epochLength - n % epochLength - 1
  }

  /** What is predicted for the block `i` places after the next one. */
  function FutureSlotAt(o: Oracle, validators: seq<Validation>, n: nat, seed: Seed, i: nat): FutureSlot {
    var parent := (n + i) % UINT32;
    FutureSlot((parent + 1) % UINT32, FirstSigner(o, ActiveNodesOf(validators), seed, parent), i + 1)
  }

  lemma {:induction false} SomeEligibleIff(vs: seq<Validation>)
    ensures SomeEligible(ActiveNodesOf(vs)) <==>
            exists i :: 0 <= i < |vs| && vs[i].status == Active && vs[i].online && vs[i].weight != 0
  {
    var nodes := ActiveNodesOf(vs);
    var places := ActiveNodesAre(vs);
    if k :| 0 <= k < |nodes| && Eligible(nodes[k]) {
      assert places[k] in places;
    }
    if i :| 0 <= i < |vs| && vs[i].status == Active && vs[i].online && vs[i].weight != 0 {
      var k :| 0 <= k < |places| && places[k] == i;
      assert Eligible(nodes[k]);
    }
  }

  lemma {:induction false} EpochGoesOnIff(n: nat, epochLength: Positive)
    ensures Predictable(n, epochLength) > 0 <==> (n + 1) % epochLength != 0
  {
    var q, r := n / epochLength, n % epochLength;
    assert n == q * epochLength + r;
    if r + 1 < epochLength {
      QuotientUnique(epochLength, n + 1, q, r + 1);
    } else {
      QuotientUnique(epochLength, n + 1, q + 1, 0);
    }
  }

  /** None is a panic: there is a slot to predict and no eligible validator to take it. */
  method Predict(o: Oracle, validators: seq<Validation>, n: nat, seed: Seed, epochLength: Positive)
    returns (futures: Option<seq<FutureSlot>>)
    ensures futures.None? <==> Predictable(n, epochLength) > 0 && !SomeEligible(ActiveNodesOf(validators))
    ensures futures.None? <==>
            (n + 1) % epochLength != 0 &&
            forall i :: 0 <= i < |validators| && validators[i].status == Active ==>
              !validators[i].online || validators[i].weight == 0
    ensures futures.Some? ==>
              |futures.value| == Predictable(n, epochLength) &&
              forall i :: 0 <= i < |futures.value| ==> futures.value[i] == FutureSlotAt(o, validators, n, seed, i)
  {
    SomeEligibleIff(validators);
    EpochGoesOnIff(n, epochLength);
    hide SomeEligible, ActiveNodesOf;
    var blockInEpoch := n % epochLength;
    var predictableSlots := epochLength - blockInEpoch - 1;
    var slots: seq<FutureSlot> := [];
    var proposers := CreateSlotsProposers(validators);
    for i := 0 to predictableSlots
      invariant i > 0 ==> SomeEligible(proposers)
      invariant |slots| == i && forall k :: 0 <= k < i ==> slots[k] == FutureSlotAt(o, validators, n, seed, k)
    {
      var parent := (n + i) % UINT32;
      var futureBlockNumber := (parent + 1) % UINT32;
      var list := NextBlockProposersPoS(o, proposers, seed, parent, 101);
      OrderIsEmptyIff(o, proposers, seed, parent);
      if |list.value| == 0 {
        return None;
      }
      slots := slots + [FutureSlot(futureBlockNumber, list.value[0].node.master, i + 1)];
    }
    futures := Some(slots);
  }

  /** A predicted slot, said outright: for the block after the `i`th one, numbered from one, signed by the first of
      the weighted order, or the zero address when that is empty. */
  lemma {:induction false} FutureSlotIs(o: Oracle, validators: seq<Validation>, n: nat, seed: Seed, i: nat)
    requires n + i + 1 < UINT32
    ensures var nodes := ActiveNodesOf(validators);
            var order := Order(o, nodes, seed, n + i);
            var slot := FutureSlotAt(o, validators, n, seed, i);
            && slot.block == n + i + 1 && slot.index == i + 1
            && (order != [] ==> order[0] < |nodes| && slot.signer == nodes[order[0]].master)
            && (order == [] ==> slot.signer == 0)
  {
    hide ActiveNodesOf, Sampled;
    OrderIsWeighted(o, ActiveNodesOf(validators), seed, n + i);
  }

  /** The predicted blocks are exactly the rest of the epoch. */
  lemma {:induction false} PredictsRestOfEpoch(n: nat, epochLength: Positive, m: nat)
    ensures n < m <= n + Predictable(n, epochLength) <==> n < m && m / epochLength == n / epochLength
  {
    var q, r := n / epochLength, n % epochLength;
    assert n == q * epochLength + r;
    if n < m <= n + Predictable(n, epochLength) {
      QuotientUnique(epochLength, m, q, r + m - n);
    }
    if n < m && m / epochLength == q {
      assert m == q * epochLength + m % epochLength;
    }
  }

  lemma {:induction false} MultipleOfMultiple(x: nat, interval: Positive, epochLength: Positive)
    requires interval % epochLength == 0 && x % interval == 0
    ensures x % epochLength == 0
  {
    var p, q := x / interval, interval / epochLength;
    assert x == p * interval && interval == q * epochLength;
    assert x == (p * q) * epochLength;
    QuotientUnique(epochLength, x, p * q, 0);
  }

  /** Inside an epoch no seeder interval begins when epochs divide intervals. */
  lemma {:induction false} EpochKeepsSeedHeight(interval: Positive, epochLength: Positive, n: nat, m: nat)
    requires interval % epochLength == 0 && n <= m <= n + Predictable(n, epochLength)
    ensures SeedHeight(interval, m) == SeedHeight(interval, n)
    decreases m - n
  {
    if n < m {
      assert n == n / epochLength * epochLength + n % epochLength;
      QuotientUnique(epochLength, n + 1, n / epochLength, n % epochLength + 1);
      if (n + 1) % interval == 0 {
        MultipleOfMultiple(n + 1, interval, epochLength);
        assert false;
      }
      SameInterval(interval, n);
      EpochKeepsSeedHeight(interval, epochLength, n + 1, m);
    }
  }

  /** The seed of block `b` schedules every block that is predicted from it, on whichever branch. */
  lemma {:induction false} SeedServesTheEpoch(net: Network, epochLength: Positive, b: Block, c: Block, m: nat)
    requires net.seederInterval % epochLength == 0 && Within(b, c) && m <= c.Number() + 1
    requires b.Number() <= m <= b.Number() + Predictable(b.Number(), epochLength)
    ensures SeedOf(net, c, m) == SeedOf(net, b, b.Number())
  {
    EpochKeepsSeedHeight(net.seederInterval, epochLength, b.Number(), m);
    AgreeBelow(b, c, SeedHeight(net.seederInterval, b.Number()));
  }

  /** Active status coincides with weight, and the weight in VET is the one unpacked. */
  predicate WeighedByStatus(vs: seq<Validation>) {
    forall i :: 0 <= i < |vs| ==>
      && (vs[i].status == Active <==> LockedWeight(vs[i]) != 0)
      && (vs[i].status == Active ==> vs[i].weight == LockedWeight(vs[i]))
  }

  /** For validators read from the staker contract the second half always holds, and the first half says that
      the contract gives weight to the active ones only. */
  lemma {:induction false} UnpackedAreWeighed(s: Validators.Staker, ids: seq<Address>, vs: seq<Validation>)
    requires |vs| == |ids|
    requires forall i :: 0 <= i < |vs| ==> vs[i] == Validators.ValidationOf(ids[i], s.record(ids[i]))
    ensures WeighedByStatus(vs) <==> forall i :: 0 <= i < |ids| ==>
              (s.record(ids[i]).status == Active <==> ScaleToVET(s.record(ids[i]).weight) != 0)
  {
    forall i | 0 <= i < |vs|
      ensures LockedWeight(vs[i]) == ScaleToVET(s.record(ids[i]).weight) == vs[i].weight
      ensures vs[i].status == s.record(ids[i]).status
    {
    }
  }

  lemma {:induction false} SameNodes(vs: seq<Validation>)
    requires WeighedByStatus(vs)
    ensures ActiveNodesOf(vs) == PosNodesOf(vs)
  {
    if vs != [] {
      SameNodes(vs[..|vs| - 1]);
    }
  }

  lemma {:induction false} FirstPoint(o: Oracle, count: nat, e: BlockEvent)
    requires e.block.Number() >= 1 && count >= 1 && e.prev.Some? && e.active && e.staker.Some?
    requires PosNodesOf(e.staker.value.validations) != []
    requires StakeOrder(o, e.staker.value, e.futureSeed, e.block.Number()) != []
    ensures PointsOf(o, count, e) != []
    ensures PointsOf(o, count, e)[0].authorityNode ==
            StakeOrder(o, e.staker.value, e.futureSeed, e.block.Number())[0].master
  {
    hide StakeOrder;
  }

  lemma {:induction false} PosEvent(net: Network, b: Block)
    requires b.Number() >= 2 && b.Number() >= net.activeBlock && b.Number() >= net.forkedBlock
    ensures var e := EventOf(SourceOf(net), Want(net), b);
            e.block == b && e.prev.Some? && e.active && e.staker == Some(net.staker(b)) &&
            e.seed == SeedOf(net, b, b.Number()) && e.futureSeed == SeedOf(net, b, b.Number() + 1)
  {
    hide SeedOf;
  }

  /** The staker's first predicted signer is the slots writer's first future proposer. */
  lemma {:induction false} PredictorsAgree(net: Network, o: Oracle, count: nat, epochLength: Positive, b: Block)
    requires net.seederInterval % epochLength == 0 && count >= 1 && b.Number() >= 2
    requires b.Number() >= net.activeBlock && b.Number() >= net.forkedBlock
    requires Predictable(b.Number(), epochLength) > 0
    requires WeighedByStatus(net.staker(b).validations) && SomeEligible(ActiveNodesOf(net.staker(b).validations))
    ensures var e := EventOf(SourceOf(net), Want(net), b);
            var vs := net.staker(b).validations;
            PointsOf(o, count, e) != [] &&
            PointsOf(o, count, e)[0].authorityNode == FirstSigner(o, ActiveNodesOf(vs), e.seed, b.Number())
  {
    hide SeedOf, EventOf, PointsOf, PosNodesOf, ActiveNodesOf, SourceOf;
    PosEvent(net, b);
    var vs := net.staker(b).validations;
    SameNodes(vs);
    SeedServesTheEpoch(net, epochLength, b, b, b.Number() + 1);
    OrderIsEmptyIff(o, PosNodesOf(vs), SeedOf(net, b, b.Number()), b.Number());
    assert PosNodesOf(vs) != [];
    FirstPoint(o, count, EventOf(SourceOf(net), Want(net), b));
  }

  lemma {:induction false} LaterEvent(net: Network, c: Block)
    requires c.Number() >= 2 && c.Number() > net.activeBlock && c.Number() > net.forkedBlock
    ensures var e := EventOf(SourceOf(net), Want(net), c);
            && e.block == c && e.active && e.staker == Some(net.staker(c)) && e.parentStaker == Some(net.staker(c.parent))
            && e.seed == SeedOf(net, c, c.Number())
  {
    hide SeedOf;
  }

  lemma {:induction false} ExpectedIsFirst(o: Oracle, count: nat, e: BlockEvent, nodes: seq<PosNode>)
    requires e.block.Number() >= 1 && e.active && e.staker.Some? && e.parentStaker.Some?
    requires PosNodesOf(e.staker.value.validations) != [] && PosNodesOf(e.parentStaker.value.validations) == nodes
    ensures PredictPos(o, count, e).expected == FirstSigner(o, nodes, e.seed, e.block.Number() - 1)
    ensures forall p :: p in PointsOf(o, count, e) ==> p.expectedBlockSigner == PredictPos(o, count, e).expected
  {
    hide Sampled, PosNodesOf;
  }

  /** Every slot of the prediction: the signer predicted at block `b` for a later block `c` of the epoch is the one
      that the slots writer expects for `c`, on whichever branch, when the validators with weight at the parent of
      `c` are the active ones at `b`. */
  lemma {:induction false} EverySlotAgrees(net: Network, o: Oracle, count: nat, epochLength: Positive, b: Block, c: Block, i: nat)
    requires net.seederInterval % epochLength == 0 && Within(b, c) && c.Number() + 1 < UINT32
    requires i < Predictable(b.Number(), epochLength) && c.Number() == b.Number() + i + 1
    requires b.Number() >= 1 && b.Number() >= net.activeBlock && b.Number() >= net.forkedBlock
    requires PosNodesOf(net.staker(c.parent).validations) == ActiveNodesOf(net.staker(b).validations)
    requires PosNodesOf(net.staker(c).validations) != []
    ensures var e := EventOf(SourceOf(net), Want(net), c);
            var slot := FutureSlotAt(o, net.staker(b).validations, b.Number(), SeedOf(net, b, b.Number()), i);
            && slot.block == c.Number() && PredictPos(o, count, e).expected == slot.signer
            && forall p :: p in PointsOf(o, count, e) ==> p.expectedBlockSigner == slot.signer
  {
    hide SeedOf, EventOf, PointsOf, PredictPos, PosNodesOf, ActiveNodesOf, SourceOf;
    LaterEvent(net, c);
    SeedServesTheEpoch(net, epochLength, b, c, c.Number());
    ExpectedIsFirst(o, count, EventOf(SourceOf(net), Want(net), c), ActiveNodesOf(net.staker(b).validations));
  }
}
