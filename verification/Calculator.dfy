/** Seeded proposer prediction: the weighted proof-of-stake order and the hashed proof-of-authority one.
    The hash, the random draws and the logarithm are parameters. */
module Calculator {
  import opened Chain
  import opened Types
  import opened Sorting

  datatype PosNode = PosNode(master: Address, endorsor: Address, active: bool, weight: nat) {
    function ToAuthorityNode(): AuthorityNode {
      AuthorityNode(master, endorsor, active)
    }
  }

  datatype FutureProposer = FutureProposer(node: AuthorityNode, position: int)

  datatype HashedNode = HashedNode(node: AuthorityNode, hash: nat)

  /** `hash` digests a seed and a block number, `draw` is the generator that a digest seeds, `negLog` the
      negated logarithm, `hashWith` digests an address too, `sortNodes` is the unstable library sort by hash,
      and `signer` recovers a block's signer. */
  datatype Oracle = Oracle(
    hash: (Seed, nat) -> nat,
    draw: (nat, nat) -> real,
    negLog: real -> real,
    hashWith: (Seed, nat, Address) -> nat,
    sortNodes: seq<HashedNode> -> seq<HashedNode>,
    signer: Block -> Address)

  /** An entry of the weighted sample; `index` is its node's place in the list. */
  datatype PosEntry = PosEntry(index: nat, node: PosNode, score: real)

  predicate Eligible(n: PosNode) {
    n.active && n.weight != 0
  }

  /** The draw that belongs to place `i`, with zero replaced. */
  function Drawn(o: Oracle, seed: Seed, num: nat, i: nat): real {
    var random := o.draw(o.hash(seed, num), i);
    if random == 0.0 then 0.0000000001 else random
  }

  function Score(o: Oracle, seed: Seed, num: nat, i: nat, n: PosNode): real
    requires n.weight != 0
  {
    o.negLog(Drawn(o, seed, num, i)) / n.weight as real
  }

  /** The entries of the first `n` nodes. */
  function Entries(o: Oracle, nodes: seq<PosNode>, seed: Seed, num: nat, n: nat): seq<PosEntry>
    requires n <= |nodes|
  {
    if n == 0 then [] else
    Entries(o, nodes, seed, num, n - 1) +
    if Eligible(nodes[n - 1])
    then [PosEntry(n - 1, nodes[n - 1], Score(o, seed, num, n - 1, nodes[n - 1]))]
    else []
  }

  /** Insertion behind every entry of the same score or less. */
  function Insert(s: seq<PosEntry>, e: PosEntry): seq<PosEntry> {
    if s == [] || s[|s| - 1].score <= e.score then s + [e]
    else Insert(s[..|s| - 1], e) + [s[|s| - 1]]
  }

  /** The stable library sort by score. */
  function StableSort(s: seq<PosEntry>): seq<PosEntry> {
    if s == [] then [] else Insert(StableSort(s[..|s| - 1]), s[|s| - 1])
  }

  function Nodes(s: seq<PosEntry>): seq<PosNode> {
    seq(|s|, i requires 0 <= i < |s| => s[i].node)
  }

  function Sampled(o: Oracle, nodes: seq<PosNode>, seed: Seed, num: nat): seq<PosEntry> {
    StableSort(Entries(o, nodes, seed, num, |nodes|))
  }

  method ShufflePosNodes(o: Oracle, nodes: seq<PosNode>, seed: Seed, num: nat) returns (shuffled: seq<PosNode>)
    ensures shuffled == Nodes(Sampled(o, nodes, seed, num))
    ensures |shuffled| == |Order(o, nodes, seed, num)|
    ensures forall k :: 0 <= k < |shuffled| ==>
      Order(o, nodes, seed, num)[k] < |nodes| && shuffled[k] == nodes[Order(o, nodes, seed, num)[k]]
  {
    OrderIsWeighted(o, nodes, seed, num);
    if |nodes| == 0 {
      return nodes;
    }
    var hashedSeed := o.hash(seed, num);
    var entries: seq<PosEntry> := [];
    for i := 0 to |nodes|
      invariant entries == Entries(o, nodes, seed, num, i)
    {
      var node := nodes[i];
      var random := o.draw(hashedSeed, i);
      if random == 0.0 {
        random := 0.0000000001;
      }
      if !node.active || node.weight == 0 {
        continue;
      }
      var score := o.negLog(random) / node.weight as real;
      entries := entries + [PosEntry(i, node, score)];
    }
    entries := StableSort(entries);
    shuffled := [];
    for i := 0 to |entries|
      invariant shuffled == Nodes(entries)[..i]
    {
      shuffled := shuffled + [entries[i].node];
    }
  }

  /** The first `count` of a shuffled list, numbered from one. */
  function Proposers(shuffled: seq<AuthorityNode>, count: nat): seq<FutureProposer> {
    var n := if |shuffled| < count then |shuffled| else count;
    seq(n, i requires 0 <= i < n => FutureProposer(shuffled[i], i + 1))
  }

  function AuthorityNodes(nodes: seq<PosNode>): seq<AuthorityNode> {
    seq(|nodes|, i requires 0 <= i < |nodes| => nodes[i].ToAuthorityNode())
  }

  /** None is a panic, for a negative count. */
  method NextBlockProposersPoS(o: Oracle, nodes: seq<PosNode>, seed: Seed, num: nat, count: int)
    returns (proposers: Option<seq<FutureProposer>>)
    ensures proposers == if count < 0 then None
                         else Some(Proposers(AuthorityNodes(Nodes(Sampled(o, nodes, seed, num))), count))
    ensures proposers.Some? ==>
              var order := Order(o, nodes, seed, num);
              && |proposers.value| == (if |order| < count then |order| else count)
              && forall i :: 0 <= i < |proposers.value| ==>
                   order[i] < |nodes| &&
                   var n := nodes[order[i]];
                   proposers.value[i] == FutureProposer(AuthorityNode(n.master, n.endorsor, n.active), i + 1)
  {
    hide Order, Sampled;
    var shuffled := ShufflePosNodes(o, nodes, seed, num);
    var maxCount := count;
    if |shuffled| < maxCount {
      maxCount := |shuffled|;
    }
    if maxCount < 0 {
      return None;
    }
    var futureProposers: seq<FutureProposer> := [];
    for i := 0 to maxCount
      invariant futureProposers == Proposers(AuthorityNodes(shuffled), count)[..i]
    {
      futureProposers := futureProposers + [FutureProposer(shuffled[i].ToAuthorityNode(), i + 1)];
    }
    assert futureProposers == Proposers(AuthorityNodes(shuffled), count);
    proposers := Some(futureProposers);
  }

  /** The order that a stable sort by score produces. */
  predicate EntryLt(a: PosEntry, b: PosEntry) {
    a.score < b.score || (a.score == b.score && a.index < b.index)
  }

  predicate Ordered(s: seq<PosEntry>) {
    forall i, j :: 0 <= i < j < |s| ==> EntryLt(s[i], s[j])
  }

  lemma {:induction false} InsertMembers(s: seq<PosEntry>, e: PosEntry, x: PosEntry)
    ensures |Insert(s, e)| == |s| + 1
    ensures x in Insert(s, e) <==> x in s || x == e
  {
    if s != [] {
      assert s == s[..|s| - 1] + [s[|s| - 1]];
      InsertMembers(s[..|s| - 1], e, x);
    }
  }

  /** Inserting an entry with the latest place keeps the order. */
  lemma {:induction false} InsertSorted(s: seq<PosEntry>, e: PosEntry)
    requires Ordered(s) && forall i :: 0 <= i < |s| ==> s[i].index < e.index
    ensures Ordered(Insert(s, e))
  {
    if s == [] || s[|s| - 1].score <= e.score {
      forall i | 0 <= i < |s|
        ensures EntryLt(s[i], e)
      {
        assert i < |s| - 1 ==> EntryLt(s[i], s[|s| - 1]);
      }
    } else {
      var init, last := s[..|s| - 1], s[|s| - 1];
      InsertSorted(init, e);
      forall i | 0 <= i < |Insert(init, e)|
        ensures EntryLt(Insert(init, e)[i], last)
      {
        InsertMembers(init, e, Insert(init, e)[i]);
        assert forall j :: 0 <= j < |init| ==> init[j] == s[j] && EntryLt(s[j], s[|s| - 1]);
      }
    }
  }

  /** The score of each place; places that are skipped have none that matters. */
  function Scores(o: Oracle, nodes: seq<PosNode>, seed: Seed, num: nat): nat -> real {
    (i: nat) => if i < |nodes| && nodes[i].weight != 0 then Score(o, seed, num, i, nodes[i]) else 0.0
  }

  predicate EntryOf(o: Oracle, nodes: seq<PosNode>, seed: Seed, num: nat, e: PosEntry) {
    && e.index < |nodes| && e.node == nodes[e.index] && Eligible(e.node)
    && e.score == Scores(o, nodes, seed, num)(e.index)
  }

  lemma {:induction false} EntriesMembers(o: Oracle, nodes: seq<PosNode>, seed: Seed, num: nat, n: nat, e: PosEntry)
    requires n <= |nodes|
    ensures e in Entries(o, nodes, seed, num, n) <==> EntryOf(o, nodes, seed, num, e) && e.index < n
  {
    if n > 0 {
      EntriesMembers(o, nodes, seed, num, n - 1, e);
    }
  }

  /** Sorting the first `n` entries: the same entries, ordered by score and then by place. */
  lemma {:induction false} SortsEntries(o: Oracle, nodes: seq<PosNode>, seed: Seed, num: nat, n: nat)
    requires n <= |nodes|
    ensures var r := StableSort(Entries(o, nodes, seed, num, n));
            Ordered(r) && forall e :: e in r <==> EntryOf(o, nodes, seed, num, e) && e.index < n
  {
    hide StableSort, EntryOf, Score;
    if n == 0 {
      assert StableSort([]) == [] by { SortsNothing(); }
    } else {
      SortsEntries(o, nodes, seed, num, n - 1);
      var before := Entries(o, nodes, seed, num, n - 1);
      if Eligible(nodes[n - 1]) {
        var e := PosEntry(n - 1, nodes[n - 1], Score(o, seed, num, n - 1, nodes[n - 1]));
        assert Entries(o, nodes, seed, num, n) == before + [e];
        EligibleEntry(o, nodes, seed, num, n - 1);
        SortsOneMore(o, nodes, seed, num, n, before, e);
      } else {
        assert Entries(o, nodes, seed, num, n) == before;
        forall e | EntryOf(o, nodes, seed, num, e)
          ensures e.index != n - 1
        {
          EntryIsEligible(o, nodes, seed, num, e);
        }
      }
    }
  }

  lemma {:induction false} SortsNothing()
    ensures StableSort([]) == []
  {
  }

  lemma {:induction false} EligibleEntry(o: Oracle, nodes: seq<PosNode>, seed: Seed, num: nat, i: nat)
    requires i < |nodes| && Eligible(nodes[i])
    ensures EntryOf(o, nodes, seed, num, PosEntry(i, nodes[i], Score(o, seed, num, i, nodes[i])))
  {
  }

  lemma {:induction false} EntryIsEligible(o: Oracle, nodes: seq<PosNode>, seed: Seed, num: nat, e: PosEntry)
    requires EntryOf(o, nodes, seed, num, e)
    ensures e.index < |nodes| && Eligible(nodes[e.index])
  {
  }

  lemma {:induction false} SortsOneMore(o: Oracle, nodes: seq<PosNode>, seed: Seed, num: nat, n: nat,
                                        before: seq<PosEntry>, e: PosEntry)
    requires 0 < n <= |nodes| && e.index == n - 1 && EntryOf(o, nodes, seed, num, e)
    requires Ordered(StableSort(before))
    requires forall x :: x in StableSort(before) <==> EntryOf(o, nodes, seed, num, x) && x.index < n - 1
    ensures var r := StableSort(before + [e]);
            Ordered(r) && forall x :: x in r <==> EntryOf(o, nodes, seed, num, x) && x.index < n
  {
    hide EntryOf;
    var r := StableSort(before);
    assert (before + [e])[..|before|] == before;
    forall i | 0 <= i < |r|
      ensures r[i].index < e.index
    {
      assert r[i] in r;
    }
    InsertSorted(r, e);
    forall x
      ensures x in StableSort(before + [e]) <==> EntryOf(o, nodes, seed, num, x) && x.index < n
    {
      InsertMembers(r, e, x);
      if EntryOf(o, nodes, seed, num, x) && x.index == n - 1 {
        OneEntryPerPlace(o, nodes, seed, num, x, e);
      }
    }
  }

  lemma {:induction false} OneEntryPerPlace(o: Oracle, nodes: seq<PosNode>, seed: Seed, num: nat,
                                            x: PosEntry, y: PosEntry)
    requires EntryOf(o, nodes, seed, num, x) && EntryOf(o, nodes, seed, num, y) && x.index == y.index
    ensures x == y
  {
  }

  // The weighted order, as an order of places.

  /** Place `i` comes before place `j`: a lower score, or the same score and an earlier place. */
  function Lt(score: nat -> real): (nat, nat) -> bool {
    (i: nat, j: nat) => score(i) < score(j) || (score(i) == score(j) && i < j)
  }

  function Places(s: seq<PosEntry>): seq<nat> {
    seq(|s|, i requires 0 <= i < |s| => s[i].index)
  }

  /** The places of the proposers, first to last. */
  function Order(o: Oracle, nodes: seq<PosNode>, seed: Seed, num: nat): seq<nat> {
    Places(Sampled(o, nodes, seed, num))
  }

  /** The proof-of-stake shuffle is exactly the online nodes with weight, by score and then by place. */
  lemma {:induction false} OrderIsWeighted(o: Oracle, nodes: seq<PosNode>, seed: Seed, num: nat)
    ensures var order := Order(o, nodes, seed, num);
            && SortedBy(Lt(Scores(o, nodes, seed, num)), order)
            && (forall i: nat :: i in order <==> i < |nodes| && nodes[i].active && nodes[i].weight > 0)
            && |Nodes(Sampled(o, nodes, seed, num))| == |order|
            && forall k :: 0 <= k < |order| ==>
                 order[k] < |nodes| && Nodes(Sampled(o, nodes, seed, num))[k] == nodes[order[k]]
  {
    SortsEntries(o, nodes, seed, num, |nodes|);
    var r := Sampled(o, nodes, seed, num);
    var order := Order(o, nodes, seed, num);
    forall k | 0 <= k < |order|
      ensures order[k] < |nodes| && Eligible(nodes[order[k]]) && Nodes(r)[k] == nodes[order[k]]
      ensures r[k].score == Scores(o, nodes, seed, num)(order[k])
    {
      assert r[k] in r;
    }
    forall i, j | 0 <= i < j < |order|
      ensures Lt(Scores(o, nodes, seed, num))(order[i], order[j])
    {
      assert EntryLt(r[i], r[j]);
    }
    forall i: nat | i < |nodes| && Eligible(nodes[i])
      ensures i in order
    {
      var e := PosEntry(i, nodes[i], Scores(o, nodes, seed, num)(i));
      assert e in r;
      var k :| 0 <= k < |r| && r[k] == e;
      assert order[k] == i;
    }
  }

  /** The order, said outright: of two proposers the earlier one has the lower score, or the same score and the
      earlier place in the list, where a node's score is the negated logarithm of its own draw over its weight. */
  lemma {:induction false} OrderIsByScore(o: Oracle, nodes: seq<PosNode>, seed: Seed, num: nat, p: nat, q: nat)
    requires p < q < |Order(o, nodes, seed, num)|
    ensures var i := Order(o, nodes, seed, num)[p];
            var j := Order(o, nodes, seed, num)[q];
            && i < |nodes| && j < |nodes| && nodes[i].weight > 0 && nodes[j].weight > 0
            && var a := o.draw(o.hash(seed, num), i);
               var b := o.draw(o.hash(seed, num), j);
               var x := o.negLog(if a == 0.0 then 0.0000000001 else a) / nodes[i].weight as real;
               var y := o.negLog(if b == 0.0 then 0.0000000001 else b) / nodes[j].weight as real;
               x < y || (x == y && i < j)
  {
    OrderIsWeighted(o, nodes, seed, num);
    var order := Order(o, nodes, seed, num);
    assert order[p] in order && order[q] in order;
    assert Lt(Scores(o, nodes, seed, num))(order[p], order[q]);
  }

  lemma {:induction false} LtAsymmetric(score: nat -> real)
    ensures Asymmetric(Lt(score))
  {
  }

  function Others(k: nat): nat -> bool {
    (i: nat) => i != k
  }

  predicate AgreeOff(nodes: seq<PosNode>, nodes': seq<PosNode>, k: nat) {
    |nodes| == |nodes'| && forall i :: 0 <= i < |nodes| && i != k ==> nodes[i] == nodes'[i]
  }

  /** Changing one node, its flag and its weight alike, leaves the order of all the others alone. */
  lemma {:induction false} DrawsAreIndependent(o: Oracle, nodes: seq<PosNode>, nodes': seq<PosNode>,
                                               seed: Seed, num: nat, k: nat)
    requires AgreeOff(nodes, nodes', k)
    ensures Filter(Others(k), Order(o, nodes, seed, num)) == Filter(Others(k), Order(o, nodes', seed, num))
  {
    var lt, lt' := Lt(Scores(o, nodes, seed, num)), Lt(Scores(o, nodes', seed, num));
    var a, b := Order(o, nodes, seed, num), Order(o, nodes', seed, num);
    OrderIsWeighted(o, nodes, seed, num);
    OrderIsWeighted(o, nodes', seed, num);
    var fa, fb := Filter(Others(k), a), Filter(Others(k), b);
    FilterSorted(lt, Others(k), a);
    FilterSorted(lt', Others(k), b);
    forall x
      ensures x in fa <==> x in a && x != k
      ensures x in fb <==> x in b && x != k
    {
      FilterMembers(Others(k), a, x);
      FilterMembers(Others(k), b, x);
    }
    forall i, j | 0 <= i < j < |fb|
      ensures lt(fb[i], fb[j])
    {
      assert lt'(fb[i], fb[j]) && fb[i] in fb && fb[j] in fb;
    }
    LtAsymmetric(Scores(o, nodes, seed, num));
    SortedUnique(lt, fa, fb);
  }

  /** Draws lie in [0, 1) and the negated logarithm is not negative there. */
  ghost predicate Sound(o: Oracle) {
    && (forall d, i :: 0.0 <= o.draw(d, i) < 1.0)
    && (forall r :: 0.0 < r < 1.0 ==> o.negLog(r) >= 0.0)
  }

  lemma {:induction false} HeavierScoresLower(l: real, w: nat, w': nat)
    requires l >= 0.0 && 0 < w <= w'
    ensures l / w' as real <= l / w as real
  {
    var a, b := l / w as real, l / w' as real;
    assert a * w as real == l && b * w' as real == l && b >= 0.0;
    assert b * w as real <= a * w as real;
  }

  /** Raising an online node's weight never moves it to a later position, ties included. */
  lemma {:induction false} RaisedWeightIsNotLater(o: Oracle, nodes: seq<PosNode>, seed: Seed, num: nat,
                                                  k: nat, weight: nat, i: nat, j: nat)
    requires Sound(o) && k < |nodes| && Eligible(nodes[k]) && nodes[k].weight <= weight
    requires i < |Order(o, nodes, seed, num)| && Order(o, nodes, seed, num)[i] == k
    requires var nodes' := nodes[k := nodes[k].(weight := weight)];
             j < |Order(o, nodes', seed, num)| && Order(o, nodes', seed, num)[j] == k
    ensures j <= i
  {
    hide Order, Score;
    var nodes' := nodes[k := nodes[k].(weight := weight)];
    var score, score' := Scores(o, nodes, seed, num), Scores(o, nodes', seed, num);
    OrderIsWeighted(o, nodes, seed, num);
    OrderIsWeighted(o, nodes', seed, num);
    LtAsymmetric(score);
    LtAsymmetric(score');
    assert score'(k) <= score(k) by { RaisedScore(o, nodes, seed, num, k, weight); }
    forall y | y in Order(o, nodes', seed, num) && Lt(score')(y, k)
      ensures y in Order(o, nodes, seed, num) && Lt(score)(y, k)
    {
      assert y != k && score'(y) == score(y);
    }
    FewerAhead(Lt(score), Order(o, nodes, seed, num), i, Lt(score'), Order(o, nodes', seed, num), j);
  }

  lemma {:induction false} RaisedScore(o: Oracle, nodes: seq<PosNode>, seed: Seed, num: nat, k: nat, weight: nat)
    requires Sound(o) && k < |nodes| && Eligible(nodes[k]) && nodes[k].weight <= weight
    ensures Scores(o, nodes[k := nodes[k].(weight := weight)], seed, num)(k) <= Scores(o, nodes, seed, num)(k)
  {
    HeavierScoresLower(o.negLog(Drawn(o, seed, num, k)), nodes[k].weight, weight);
  }

  // Proof of authority.

  function Hashed(o: Oracle, nodes: seq<AuthorityNode>, seed: Seed, num: nat): seq<HashedNode> {
    seq(|nodes|, i requires 0 <= i < |nodes| => HashedNode(nodes[i], o.hashWith(seed, num, nodes[i].master)))
  }

  function Unhashed(s: seq<HashedNode>): seq<AuthorityNode> {
    seq(|s|, i requires 0 <= i < |s| => s[i].node)
  }

  function AuthorityShuffle(o: Oracle, nodes: seq<AuthorityNode>, seed: Seed, num: nat): seq<AuthorityNode> {
    Unhashed(o.sortNodes(Hashed(o, nodes, seed, num)))
  }

  /** The unstable library sort by hash: a permutation in non-descending order. */
  ghost predicate SortsByHash(o: Oracle) {
    forall xs :: multiset(o.sortNodes(xs)) == multiset(xs) &&
                 forall i, j :: 0 <= i < j < |o.sortNodes(xs)| ==> o.sortNodes(xs)[i].hash <= o.sortNodes(xs)[j].hash
  }

  lemma {:induction false} ShuffleKeepsLength(o: Oracle, nodes: seq<AuthorityNode>, seed: Seed, num: nat)
    requires SortsByHash(o)
    ensures |AuthorityShuffle(o, nodes, seed, num)| == |nodes|
  {
    var xs := Hashed(o, nodes, seed, num);
    assert |multiset(o.sortNodes(xs))| == |multiset(xs)|;
  }

  predicate InHashOrder(o: Oracle, nodes: seq<AuthorityNode>, seed: Seed, num: nat) {
    forall i, j :: 0 <= i < j < |nodes| ==>
      o.hashWith(seed, num, nodes[i].master) <= o.hashWith(seed, num, nodes[j].master)
  }

  /** The shuffle lists exactly the given nodes, active or not, in the order of their hashes. */
  lemma {:induction false} ShuffleIsByHash(o: Oracle, nodes: seq<AuthorityNode>, seed: Seed, num: nat)
    requires SortsByHash(o)
    ensures var shuffled := AuthorityShuffle(o, nodes, seed, num);
            multiset(shuffled) == multiset(nodes) && InHashOrder(o, shuffled, seed, num)
  {
    var xs := Hashed(o, nodes, seed, num);
    var r := o.sortNodes(xs);
    UnhashedPermutes(xs, r);
    assert Unhashed(xs) == nodes;
    forall i | 0 <= i < |r|
      ensures r[i].hash == o.hashWith(seed, num, r[i].node.master)
    {
      assert r[i] in multiset(xs);
      var k :| 0 <= k < |xs| && xs[k] == r[i];
    }
  }

  lemma {:induction false} UnhashedPermutes(s: seq<HashedNode>, t: seq<HashedNode>)
    requires multiset(s) == multiset(t)
    ensures multiset(Unhashed(s)) == multiset(Unhashed(t))
  {
    var f := (h: HashedNode) => h.node;
    assert Unhashed(s) == Map(f, s) && Unhashed(t) == Map(f, t);
    MapPermutes(f, s, t);
  }

  /** So it lists active nodes only exactly when there are no others. */
  lemma {:induction false} ShuffleIsActiveIff(o: Oracle, nodes: seq<AuthorityNode>, seed: Seed, num: nat)
    requires SortsByHash(o)
    ensures (forall n :: n in AuthorityShuffle(o, nodes, seed, num) ==> n.active) <==> (forall n :: n in nodes ==> n.active)
  {
    ShuffleIsByHash(o, nodes, seed, num);
    var shuffled := AuthorityShuffle(o, nodes, seed, num);
    forall n
      ensures n in shuffled <==> n in nodes
    {
      assert n in shuffled <==> n in multiset(shuffled);
      assert n in nodes <==> n in multiset(nodes);
    }
  }

  method ShuffleAuthorityNodes(o: Oracle, nodes: seq<AuthorityNode>, seed: Seed, num: nat)
    returns (shuffled: seq<AuthorityNode>)
    ensures shuffled == AuthorityShuffle(o, nodes, seed, num)
    ensures SortsByHash(o) ==> multiset(shuffled) == multiset(nodes) && InHashOrder(o, shuffled, seed, num)
  {
    var list: seq<HashedNode> := [];
    for i := 0 to |nodes|
      invariant list == Hashed(o, nodes, seed, num)[..i]
    {
      list := list + [HashedNode(nodes[i], o.hashWith(seed, num, nodes[i].master))];
    }
    assert list == Hashed(o, nodes, seed, num);
    list := o.sortNodes(list);
    shuffled := [];
    for i := 0 to |list|
      invariant shuffled == Unhashed(list)[..i]
    {
      shuffled := shuffled + [list[i].node];
    }
    if SortsByHash(o) {
      ShuffleIsByHash(o, nodes, seed, num);
    }
  }

  /** The chosen nodes, in the order of their hashes, are the ones of least hash: with the rest they make up the
      list, and none of the rest has a lower hash. */
  ghost predicate LeastByHash(o: Oracle, nodes: seq<AuthorityNode>, chosen: seq<AuthorityNode>, seed: Seed, num: nat) {
    && InHashOrder(o, chosen, seed, num)
    && exists rest: seq<AuthorityNode> ::
         && multiset(chosen + rest) == multiset(nodes)
         && forall i, j :: 0 <= i < |chosen| && 0 <= j < |rest| ==>
              o.hashWith(seed, num, chosen[i].master) <= o.hashWith(seed, num, rest[j].master)
  }

  lemma {:induction false} SplitIsLeast(o: Oracle, nodes: seq<AuthorityNode>, w: seq<AuthorityNode>, seed: Seed, num: nat, n: nat)
    requires multiset(w) == multiset(nodes) && InHashOrder(o, w, seed, num) && n <= |w|
    ensures LeastByHash(o, nodes, w[..n], seed, num)
  {
    var chosen, rest := w[..n], w[n..];
    assert chosen + rest == w;
    forall i, j | 0 <= i < |chosen| && 0 <= j < |rest|
      ensures o.hashWith(seed, num, chosen[i].master) <= o.hashWith(seed, num, rest[j].master)
    {
      assert chosen[i] == w[i] && rest[j] == w[n + j];
    }
  }

  /** None is a panic, for a negative count. */
  method NextBlockProposersPoA(o: Oracle, nodes: seq<AuthorityNode>, seed: Seed, num: nat, count: int)
    returns (proposers: Option<seq<FutureProposer>>)
    ensures proposers == if count < 0 then None else Some(Proposers(AuthorityShuffle(o, nodes, seed, num), count))
    ensures proposers.Some? ==> forall i :: 0 <= i < |proposers.value| ==> proposers.value[i].position == i + 1
    ensures proposers.Some? && SortsByHash(o) ==>
              && |proposers.value| == (if |nodes| < count then |nodes| else count)
              && LeastByHash(o, nodes, Map((p: FutureProposer) => p.node, proposers.value), seed, num)
  {
    hide AuthorityShuffle;
    var shuffled := ShuffleAuthorityNodes(o, nodes, seed, num);
    var maxCount := count;
    if |shuffled| < maxCount {
      maxCount := |shuffled|;
    }
    if maxCount < 0 {
      return None;
    }
    var futureProposers: seq<FutureProposer> := [];
    for i := 0 to maxCount
      invariant futureProposers == Proposers(shuffled, count)[..i]
    {
      futureProposers := futureProposers + [FutureProposer(shuffled[i], i + 1)];
    }
    assert futureProposers == Proposers(shuffled, count);
    proposers := Some(futureProposers);
    if SortsByHash(o) {
      ShuffleKeepsLength(o, nodes, seed, num);
      ShuffleIsByHash(o, nodes, seed, num);
      SplitIsLeast(o, nodes, shuffled, seed, num, maxCount);
      assert Map((p: FutureProposer) => p.node, futureProposers) == shuffled[..maxCount];
    }
  }
}
