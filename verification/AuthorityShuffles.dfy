/** `shuffleCandidates`, and its agreement with the slots writer's shuffle of the same nodes. */
module AuthorityShuffles {
  import opened Types
  import opened ForwardSyncer
  import opened Sorting
  import opened Calculator
  import opened SlotsWriter

  datatype Candidate = Candidate(master: Address, endorsor: Address, identity: seq<Byte>, active: bool)

  datatype HashedAddress = HashedAddress(addr: Address, hash: nat)

  /** The hashed masters of the active candidates, in their order. */
  function HashedActive(o: Oracle, cs: seq<Candidate>, seed: Seed, num: nat): seq<HashedAddress> {
    if cs == [] then [] else
    var c := cs[|cs| - 1];
    HashedActive(o, cs[..|cs| - 1], seed, num) +
    if c.active then [HashedAddress(c.master, o.hashWith(seed, num, c.master))] else []
  }

  function Addresses(s: seq<HashedAddress>): seq<Address> {
    seq(|s|, i requires 0 <= i < |s| => s[i].addr)
  }

  /** `sortAddresses` is the unstable library sort by hash. */
  method ShuffleCandidates(o: Oracle, sortAddresses: seq<HashedAddress> -> seq<HashedAddress>,
                           candidates: seq<Candidate>, seed: Seed, num: nat) returns (shuffled: seq<Address>)
    ensures shuffled == Addresses(sortAddresses(HashedActive(o, candidates, seed, num)))
    ensures SortsAddresses(sortAddresses) ==>
              && multiset(shuffled) == multiset(ActiveMasters(candidates))
              && forall i, j :: 0 <= i < j < |shuffled| ==>
                   o.hashWith(seed, num, shuffled[i]) <= o.hashWith(seed, num, shuffled[j])
  {
    var list: seq<HashedAddress> := [];
    for i := 0 to |candidates|
      invariant list == HashedActive(o, candidates[..i], seed, num)
    {
      assert candidates[..i + 1][..i] == candidates[..i];
      var p := candidates[i];
      if p.active {
        list := list + [HashedAddress(p.master, o.hashWith(seed, num, p.master))];
      }
    }
    assert candidates[..|candidates|] == candidates;
    list := sortAddresses(list);
    shuffled := [];
    for i := 0 to |list|
      invariant shuffled == Addresses(list)[..i]
    {
      shuffled := shuffled + [list[i].addr];
    }
    assert shuffled == Addresses(list);
    if SortsAddresses(sortAddresses) {
      CandidatesByHash(o, sortAddresses, candidates, seed, num);
    }
  }

  function ActiveMasters(cs: seq<Candidate>): seq<Address> {
    if cs == [] then [] else
    var c := cs[|cs| - 1];
    ActiveMasters(cs[..|cs| - 1]) + if c.active then [c.master] else []
  }

  /** The shuffled candidates are the active ones' masters in the order of their hashes. */
  lemma {:induction false} CandidatesByHash(o: Oracle, sortAddresses: seq<HashedAddress> -> seq<HashedAddress>,
                                            cs: seq<Candidate>, seed: Seed, num: nat)
    requires SortsAddresses(sortAddresses)
    ensures var shuffled := Addresses(sortAddresses(HashedActive(o, cs, seed, num)));
            && multiset(shuffled) == multiset(ActiveMasters(cs))
            && forall i, j :: 0 <= i < j < |shuffled| ==>
                 o.hashWith(seed, num, shuffled[i]) <= o.hashWith(seed, num, shuffled[j])
  {
    var xs := HashedActive(o, cs, seed, num);
    var r := sortAddresses(xs);
    HashedActiveAre(o, cs, seed, num);
    AddressesPermute(xs, r);
    forall i | 0 <= i < |r|
      ensures r[i].hash == o.hashWith(seed, num, r[i].addr)
    {
      assert r[i] in multiset(xs);
      var k :| 0 <= k < |xs| && xs[k] == r[i];
    }
  }

  lemma {:induction false} HashedActiveAre(o: Oracle, cs: seq<Candidate>, seed: Seed, num: nat)
    ensures Addresses(HashedActive(o, cs, seed, num)) == ActiveMasters(cs)
    ensures forall i :: 0 <= i < |HashedActive(o, cs, seed, num)| ==>
      var h := HashedActive(o, cs, seed, num)[i]; h.hash == o.hashWith(seed, num, h.addr)
  {
    if cs != [] {
      HashedActiveAre(o, cs[..|cs| - 1], seed, num);
    }
  }

  lemma {:induction false} AddressesPermute(s: seq<HashedAddress>, t: seq<HashedAddress>)
    requires multiset(s) == multiset(t)
    ensures multiset(Addresses(s)) == multiset(Addresses(t))
  {
    var f := (h: HashedAddress) => h.addr;
    assert Addresses(s) == Map(f, s) && Addresses(t) == Map(f, t);
    MapPermutes(f, s, t);
  }

  ghost predicate SortsAddresses(sortAddresses: seq<HashedAddress> -> seq<HashedAddress>) {
    forall xs :: multiset(sortAddresses(xs)) == multiset(xs) &&
                 forall i, j :: 0 <= i < j < |sortAddresses(xs)| ==>
                   sortAddresses(xs)[i].hash <= sortAddresses(xs)[j].hash
  }

  predicate SameNodes(cs: seq<Candidate>, nodes: seq<AuthorityNode>) {
    |cs| == |nodes| && forall i :: 0 <= i < |cs| ==> cs[i].master == nodes[i].master && cs[i].active == nodes[i].active
  }

  predicate DistinctHashes(s: seq<HashedNode>) {
    forall i, j :: 0 <= i < j < |s| ==> s[i].hash != s[j].hash
  }

  predicate DistinctAddresses(s: seq<HashedAddress>) {
    forall i, j :: 0 <= i < j < |s| ==> s[i].hash != s[j].hash
  }

  function EntryActive(): HashedNode -> bool {
    (e: HashedNode) => e.node.active
  }

  function ToAddress(e: HashedNode): HashedAddress {
    HashedAddress(e.node.master, e.hash)
  }

  function ToAddresses(s: seq<HashedNode>): seq<HashedAddress> {
    seq(|s|, i requires 0 <= i < |s| => ToAddress(s[i]))
  }

  function Masters(nodes: seq<AuthorityNode>): seq<Address> {
    seq(|nodes|, i requires 0 <= i < |nodes| => nodes[i].master)
  }

  function HashLt(): (HashedAddress, HashedAddress) -> bool {
    (a: HashedAddress, b: HashedAddress) => a.hash < b.hash
  }

  function NodeLt(): (HashedNode, HashedNode) -> bool {
    (a: HashedNode, b: HashedNode) => a.hash < b.hash
  }

  /** Dropping the hashes and keeping the active nodes commute. */
  lemma {:induction false} FilterUnhashes(s: seq<HashedNode>)
    ensures Masters(Filter(IsActive(), Unhashed(s))) == Addresses(ToAddresses(Filter(EntryActive(), s)))
  {
    if s != [] {
      FilterUnhashes(s[1..]);
      assert Unhashed(s)[1..] == Unhashed(s[1..]);
      var rest := Filter(EntryActive(), s[1..]);
      var kept := Filter(IsActive(), Unhashed(s[1..]));
      assert ToAddresses([s[0]] + rest) == [ToAddress(s[0])] + ToAddresses(rest);
      assert Addresses([ToAddress(s[0])] + ToAddresses(rest)) == [s[0].node.master] + Addresses(ToAddresses(rest));
      assert Masters([s[0].node] + kept) == [s[0].node.master] + Masters(kept);
      assert [] + rest == rest && [] + kept == kept;
    }
  }

  lemma {:induction false} HashedActiveMembers(o: Oracle, cs: seq<Candidate>, nodes: seq<AuthorityNode>,
                                               seed: Seed, num: nat, x: HashedAddress)
    requires SameNodes(cs, nodes)
    ensures x in HashedActive(o, cs, seed, num) <==>
            exists i :: 0 <= i < |nodes| && nodes[i].active && x == ToAddress(Hashed(o, nodes, seed, num)[i])
  {
    if cs != [] {
      var n := |cs| - 1;
      HashedActiveMembers(o, cs[..n], nodes[..n], seed, num, x);
      assert forall i :: 0 <= i < n ==> Hashed(o, nodes[..n], seed, num)[i] == Hashed(o, nodes, seed, num)[i];
    }
  }

  lemma {:induction false} HashedActiveDistinct(o: Oracle, cs: seq<Candidate>, nodes: seq<AuthorityNode>,
                                                seed: Seed, num: nat)
    requires SameNodes(cs, nodes) && DistinctHashes(Hashed(o, nodes, seed, num))
    ensures DistinctAddresses(HashedActive(o, cs, seed, num))
  {
    if cs != [] {
      var n := |cs| - 1;
      var h := Hashed(o, nodes, seed, num);
      assert Hashed(o, nodes[..n], seed, num) == h[..n];
      HashedActiveDistinct(o, cs[..n], nodes[..n], seed, num);
      var s := HashedActive(o, cs[..n], seed, num);
      forall i | 0 <= i < |s|
        ensures s[i].hash != h[n].hash
      {
        HashedActiveMembers(o, cs[..n], nodes[..n], seed, num, s[i]);
      }
    }
  }

  /** A permutation sorted by distinct hashes is strictly sorted. */
  lemma {:induction false} AddressesStrict(xs: seq<HashedAddress>, r: seq<HashedAddress>)
    requires multiset(r) == multiset(xs)
    requires forall i, j :: 0 <= i < j < |r| ==> r[i].hash <= r[j].hash
    requires DistinctAddresses(xs)
    ensures SortedBy(HashLt(), r) && SameElements(xs, r)
  {
    PermutationKeeps(xs, r);
    forall i, j | 0 <= i < j < |r|
      ensures r[i].hash < r[j].hash
    {
      assert r[i] in xs && r[j] in xs && r[i] != r[j];
    }
  }

  lemma {:induction false} NodesStrict(xs: seq<HashedNode>, r: seq<HashedNode>)
    requires multiset(r) == multiset(xs) && DistinctHashes(xs)
    requires forall i, j :: 0 <= i < j < |r| ==> r[i].hash <= r[j].hash
    ensures SortedBy(NodeLt(), r) && SameElements(xs, r)
  {
    PermutationKeeps(xs, r);
    forall i, j | 0 <= i < j < |r|
      ensures r[i].hash < r[j].hash
    {
      assert r[i] in xs && r[j] in xs && r[i] != r[j];
    }
  }

  /** With distinct hashes the two shuffles agree: the shuffled candidates are the masters of the active
      nodes of the shuffled list, whatever unstable sort either side uses. */
  lemma {:induction false} ShufflesAgree(o: Oracle, sortAddresses: seq<HashedAddress> -> seq<HashedAddress>,
                                         cs: seq<Candidate>, nodes: seq<AuthorityNode>, seed: Seed, num: nat)
    requires SortsByHash(o) && SortsAddresses(sortAddresses) && SameNodes(cs, nodes)
    requires DistinctHashes(Hashed(o, nodes, seed, num))
    ensures Addresses(sortAddresses(HashedActive(o, cs, seed, num))) ==
            Masters(Filter(IsActive(), AuthorityShuffle(o, nodes, seed, num)))
  {
    var xs := Hashed(o, nodes, seed, num);
    var a := o.sortNodes(xs);
    NodesStrict(xs, a);
    var fa := Filter(EntryActive(), a);
    FilterSorted(NodeLt(), EntryActive(), a);
    var m := ToAddresses(fa);
    var ys := HashedActive(o, cs, seed, num);
    var b := sortAddresses(ys);
    HashedActiveDistinct(o, cs, nodes, seed, num);
    AddressesStrict(ys, b);
    forall i, j | 0 <= i < j < |m|
      ensures HashLt()(m[i], m[j])
    {
      assert NodeLt()(fa[i], fa[j]);
    }
    forall x
      ensures x in m <==> x in b
    {
      HashedActiveMembers(o, cs, nodes, seed, num, x);
      ActiveMembers(xs, a, x);
    }
    SortedUnique(HashLt(), m, b);
    FilterUnhashes(a);
  }

  lemma {:induction false} ActiveMembers(xs: seq<HashedNode>, a: seq<HashedNode>, x: HashedAddress)
    requires SameElements(xs, a)
    ensures x in ToAddresses(Filter(EntryActive(), a)) <==>
            exists i :: 0 <= i < |xs| && xs[i].node.active && x == ToAddress(xs[i])
  {
    var fa := Filter(EntryActive(), a);
    if x in ToAddresses(fa) {
      var k :| 0 <= k < |fa| && ToAddresses(fa)[k] == x;
      FilterMembers(EntryActive(), a, fa[k]);
      assert fa[k] in fa && fa[k] in xs;
    }
    if i :| 0 <= i < |xs| && xs[i].node.active && x == ToAddress(xs[i]) {
      assert xs[i] in xs && xs[i] in a;
      FilterMembers(EntryActive(), a, xs[i]);
      var k :| 0 <= k < |fa| && fa[k] == xs[i];
      assert ToAddresses(fa)[k] == x;
    }
  }

  /** With distinct hashes no master occurs twice in the shuffle. */
  lemma {:induction false} ShuffledMastersDiffer(o: Oracle, nodes: seq<AuthorityNode>, seed: Seed, num: nat, k: nat)
    requires SortsByHash(o) && DistinctHashes(Hashed(o, nodes, seed, num))
    requires 0 < k < |AuthorityShuffle(o, nodes, seed, num)|
    ensures var w := AuthorityShuffle(o, nodes, seed, num); w[k].master != w[0].master
  {
    var xs := Hashed(o, nodes, seed, num);
    var r := o.sortNodes(xs);
    NodesStrict(xs, r);
    assert NodeLt()(r[0], r[k]);
    assert r[0] in xs && r[k] in xs;
  }

  predicate SomeActive(nodes: seq<AuthorityNode>) {
    exists i :: 0 <= i < |nodes| && nodes[i].active
  }

  /** The first of the shuffle has the least hash. */
  lemma {:induction false} FirstHasLeastHash(o: Oracle, nodes: seq<AuthorityNode>, seed: Seed, num: nat, i: nat)
    requires SortsByHash(o) && i < |nodes|
    ensures var w := AuthorityShuffle(o, nodes, seed, num);
            w != [] && o.hashWith(seed, num, w[0].master) <= o.hashWith(seed, num, nodes[i].master)
  {
    hide AuthorityShuffle;
    var w := AuthorityShuffle(o, nodes, seed, num);
    ShuffleIsByHash(o, nodes, seed, num);
    assert nodes[i] in multiset(w);
    var k :| 0 <= k < |w| && w[k] == nodes[i];
  }

  lemma {:induction false} FirstsAgreeIff(o: Oracle, sortAddresses: seq<HashedAddress> -> seq<HashedAddress>,
                                          cs: seq<Candidate>, nodes: seq<AuthorityNode>, seed: Seed, num: nat)
    requires SortsByHash(o) && SortsAddresses(sortAddresses) && SameNodes(cs, nodes) && SomeActive(nodes)
    requires DistinctHashes(Hashed(o, nodes, seed, num))
    ensures var expected := Addresses(sortAddresses(HashedActive(o, cs, seed, num)));
            var w := AuthorityShuffle(o, nodes, seed, num);
            expected != [] && w != [] && (w[0].master == expected[0] <==> w[0].active)
  {
    hide AuthorityShuffle, HashedActive;
    var w := AuthorityShuffle(o, nodes, seed, num);
    ShuffleIsByHash(o, nodes, seed, num);
    ShufflesAgree(o, sortAddresses, cs, nodes, seed, num);
    var i :| 0 <= i < |nodes| && nodes[i].active;
    assert nodes[i] in multiset(w);
    FilterMembers(IsActive(), w, nodes[i]);
    var kept := Filter(IsActive(), w);
    if !w[0].active {
      FilterMembers(IsActive(), w, kept[0]);
      var k :| 0 <= k < |w| && w[k] == kept[0];
      ShuffledMastersDiffer(o, nodes, seed, num, k);
    }
  }

  /** The signer that the slots writer expects and the proposer that the authority list expects are the same
      exactly when the node of least hash is active. */
  lemma {:induction false} ExpectedSignersAgreeIff(o: Oracle, sortAddresses: seq<HashedAddress> -> seq<HashedAddress>,
                                                   cs: seq<Candidate>, count: nat, e: BlockEvent)
    requires SortsByHash(o) && SortsAddresses(sortAddresses) && SameNodes(cs, e.parentAuthNodes) && e.block.Number() >= 1
    requires DistinctHashes(Hashed(o, e.parentAuthNodes, e.seed, e.block.Number() - 1)) && SomeActive(e.parentAuthNodes)
    ensures var num := e.block.Number() - 1;
            var expected := Addresses(sortAddresses(HashedActive(o, cs, e.seed, num)));
            var w := AuthorityShuffle(o, e.parentAuthNodes, e.seed, num);
            expected != [] && w != [] && (PredictPoa(o, count, e).expected == expected[0] <==> w[0].active)
  {
    hide AuthorityShuffle, HashedActive, Hashed;
    FirstsAgreeIff(o, sortAddresses, cs, e.parentAuthNodes, e.seed, e.block.Number() - 1);
    var i :| 0 <= i < |e.parentAuthNodes| && e.parentAuthNodes[i].active;
    FilterMembers(IsActive(), e.parentAuthNodes, e.parentAuthNodes[i]);
  }
}
