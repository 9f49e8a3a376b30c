/** The helper contract's `list()`: walk the authority's linked list into an array that doubles when it is
    full, then shrink it; and the way of that list through the ABI back to the node list. */
module AuthorityContract {
  import opened Types
  import opened Sorting
  import opened LinkedLists
  import opened Words
  import opened Abi

  datatype Listing = Listing(listed: bool, endorsor: Address, active: bool)

  /** The authority contract; address zero ends the list. */
  datatype Authority = Authority(first: Address, next: Address -> Address, get: Address -> Listing)

  /** The listed nodes of the first `n` links, in link order. */
  function ListedNodes(auth: Authority, chain: seq<Address>, n: nat): seq<AuthorityNode>
    requires n <= |chain|
  {
    if n == 0 then [] else
    var l := auth.get(chain[n - 1]);
    ListedNodes(auth, chain, n - 1) +
    if l.listed then [AuthorityNode(chain[n - 1], l.endorsor, l.active)] else []
  }

  /** They come from the links that are listed, in link order, one each. */
  lemma {:induction false} ListedNodesAre(auth: Authority, chain: seq<Address>) returns (places: seq<nat>)
    ensures forall i, j :: 0 <= i < j < |places| ==> places[i] < places[j]
    ensures forall i :: i in places <==> 0 <= i < |chain| && auth.get(chain[i]).listed
    ensures var nodes := ListedNodes(auth, chain, |chain|);
            |nodes| == |places| && forall k :: 0 <= k < |places| ==>
              places[k] < |chain| && var a := chain[places[k]];
              nodes[k] == AuthorityNode(a, auth.get(a).endorsor, auth.get(a).active)
  {
    places := PickAre(IsListed(auth), ToListedNode(auth), chain);
    ListedNodesPicked(auth, chain, |chain|);
    assert chain[..|chain|] == chain;
  }

  function IsListed(auth: Authority): Address -> bool {
    (a: Address) => auth.get(a).listed
  }

  function ToListedNode(auth: Authority): Address -> AuthorityNode {
    (a: Address) => AuthorityNode(a, auth.get(a).endorsor, auth.get(a).active)
  }

  lemma {:induction false} ListedNodesPicked(auth: Authority, chain: seq<Address>, n: nat)
    requires n <= |chain|
    ensures ListedNodes(auth, chain, n) == Pick(IsListed(auth), ToListedNode(auth), chain[..n])
  {
    if n > 0 {
      ListedNodesPicked(auth, chain, n - 1);
      assert chain[..n][..n - 1] == chain[..n - 1];
    }
  }

  const EMPTY: AuthorityNode := AuthorityNode(0, 0, false)

  method Expand(arr: array<AuthorityNode>) returns (bigger: array<AuthorityNode>)
    ensures fresh(bigger) && bigger.Length == if arr.Length == 0 then 10 else 2 * arr.Length
    ensures bigger[..arr.Length] == arr[..]
  {
    var newLength := if arr.Length == 0 then 10 else arr.Length * 2;
    bigger := new AuthorityNode[newLength](_ => EMPTY);
    for i := 0 to arr.Length
      invariant bigger[..i] == arr[..i]
    {
      bigger[i] := arr[i];
    }
    assert arr[..arr.Length] == arr[..];
  }

  /** For a finite acyclic list of any length: the listed nodes in link order, and nothing else. */
  method List(auth: Authority, ghost chain: seq<Address>) returns (result: array<AuthorityNode>)
    requires Linked(auth.next, auth.first, chain)
    ensures fresh(result) && result[..] == ListedNodes(auth, chain, |chain|)
  {
    var nodes := new AuthorityNode[102](_ => EMPTY);
    var index := 0;
    var current := auth.first;
    ghost var k := 0;
    while current != 0
      invariant k <= |chain| && current == AddressAt(chain, k)
      invariant fresh(nodes) && index <= nodes.Length
      invariant nodes[..index] == ListedNodes(auth, chain, k)
      decreases |chain| - k
    {
      var l := auth.get(current);
      if l.listed {
        if index == nodes.Length {
          nodes := Expand(nodes);
        }
        nodes[index] := AuthorityNode(current, l.endorsor, l.active);
        index := index + 1;
      }
      current := auth.next(current);
      k := k + 1;
    }
    result := new AuthorityNode[index](_ => EMPTY);
    for i := 0 to index
      invariant result[..i] == nodes[..i]
      invariant nodes[..index] == ListedNodes(auth, chain, |chain|)
    {
      result[i] := nodes[i];
    }
    assert result[..] == result[..index];
  }

  /** An address has 160 bits. */
  predicate IsAddress(a: Address) {
    a < Pow2(160)
  }

  predicate HasAddresses(ns: seq<AuthorityNode>) {
    forall i :: 0 <= i < |ns| ==> IsAddress(ns[i].master) && IsAddress(ns[i].endorsor)
  }

  function ToAbi(n: AuthorityNode): Node {
    Node(FillBytes(n.master, 20), FillBytes(n.endorsor, 20), n.active)
  }

  function ToAbiList(ns: seq<AuthorityNode>): (r: seq<Node>)
    ensures |r| == |ns| && forall i :: 0 <= i < |r| ==>
              r[i].Valid() && r[i] == Node(FillBytes(ns[i].master, 20), FillBytes(ns[i].endorsor, 20), ns[i].active)
  {
    seq(|ns|, i requires 0 <= i < |ns| => ToAbi(ns[i]))
  }

  /** `FetchAuthorityNodes`: decode the returned data and convert each node. */
  method ReadAuthorityNodes(data: seq<Byte>) returns (r: Outcome<seq<AuthorityNode>>)
    requires |data| <= MAX_SLICE
    ensures ListOf(data).Ok? ==> r == Ok(FromAbiList(ListOf(data).value))
    ensures r.Ok? ==> ListOf(data).Ok? && |r.value| == |ListOf(data).value| && forall i :: 0 <= i < |r.value| ==>
              var n := ListOf(data).value[i];
              r.value[i] == AuthorityNode(SetBytes(n.nodeMaster), SetBytes(n.endorsor), n.active)
    ensures ListOf(data).Err? ==> r.Err?
    ensures ListOf(data).Panic? ==> r.Panic?
  {
    var nodes := DecodeImpl(data);
    if nodes.Err? {
      return Err;
    }
    if nodes.Panic? {
      return Panic;
    }
    var authNodes: seq<AuthorityNode> := [];
    for i := 0 to |nodes.value|
      invariant authNodes == FromAbiList(nodes.value)[..i]
    {
      var node := nodes.value[i];
      authNodes := authNodes + [AuthorityNode(SetBytes(node.nodeMaster), SetBytes(node.endorsor), node.active)];
    }
    assert authNodes == FromAbiList(nodes.value);
    r := Ok(authNodes);
  }

  function FromAbiList(ns: seq<Node>): seq<AuthorityNode> {
    seq(|ns|, i requires 0 <= i < |ns| =>
      AuthorityNode(SetBytes(ns[i].nodeMaster), SetBytes(ns[i].endorsor), ns[i].active))
  }

  /** End to end: the nodes that the contract lists are the nodes that the reader gets from the encoding
      of what it returns. */
  lemma {:induction false} ListSurvivesTheWire(auth: Authority, chain: seq<Address>)
    requires Linked(auth.next, auth.first, chain) && HasAddresses(ListedNodes(auth, chain, |chain|))
    requires |EncodeList(ToAbiList(ListedNodes(auth, chain, |chain|)))| <= MAX_SLICE
    ensures var listed := ListedNodes(auth, chain, |chain|);
            var decoded := ListOf(EncodeList(ToAbiList(listed)));
            decoded.Ok? && FromAbiList(decoded.value) == listed
  {
    hide Abi.EncodeList, Abi.ListOf, Words.FillBytes, Words.SetBytes;
    var listed := ListedNodes(auth, chain, |chain|);
    var ns := ToAbiList(listed);
    var data := EncodeList(ns);
    assert data + [] == data;
    ListRoundTrip(ns, []);
    forall i | 0 <= i < |listed|
      ensures FromAbiList(ns)[i] == listed[i]
    {
      SetFill(listed[i].master, 20);
      SetFill(listed[i].endorsor, 20);
    }
  }
}
