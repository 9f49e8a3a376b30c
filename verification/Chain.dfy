/** Blocks of a forking chain.  A block ID is a collision-free digest of the block, its parent ID
    included, so the model compares blocks where the program compares IDs, and following a parent ID
    is following `parent`. */
module Chain {

  datatype Option<+T> = None | Some(value: T)

  datatype Block =
    | Genesis(timestamp: nat)
    | Child(parent: Block, timestamp: nat, payload: nat)
  {
    function Number(): nat {
      if Genesis? then 0 else parent.Number() + 1
    }

    /** Timestamps strictly increase along parents. */
    predicate Timely() {
      Genesis? || (parent.timestamp < timestamp && parent.Timely())
    }

    /** The block at height `h` on the chain that ends in this block. */
    function At(h: nat): (b: Block)
      requires h <= Number()
      ensures b.Number() == h
    {
      if h == Number() then this else parent.At(h)
    }
  }

  /** `a` is `b` or one of its ancestors. */
  predicate Within(a: Block, b: Block) {
    a.Number() <= b.Number() && b.At(a.Number()) == a
  }

  /** The blocks of the chain ending in `end` that lie above height `n`. */
  function Above(n: nat, end: Block): set<Block> {
    if end.Number() <= n then {} else {end} + Above(n, end.parent)
  }

  lemma {:induction false} AtAt(b: Block, h: nat, k: nat)
    requires k <= h <= b.Number()
    ensures b.At(h).At(k) == b.At(k)
  {
    if h < b.Number() {
      AtAt(b.parent, h, k);
    }
  }

  lemma {:induction false} WithinTransitive(a: Block, b: Block, c: Block)
    requires Within(a, b) && Within(b, c)
    ensures Within(a, c)
  {
    AtAt(c, b.Number(), a.Number());
  }

  /** Two blocks of one chain are ordered by height. */
  lemma {:induction false} WithinLinear(a: Block, b: Block, c: Block)
    requires Within(a, c) && Within(b, c) && a.Number() <= b.Number()
    ensures Within(a, b)
  {
    AtAt(c, b.Number(), a.Number());
  }

  /** Chains that share a block agree at and below it. */
  lemma {:induction false} AgreeBelow(a: Block, b: Block, h: nat)
    requires Within(a, b) && h <= a.Number()
    ensures b.At(h) == a.At(h)
  {
    AtAt(b, a.Number(), h);
  }

  lemma {:induction false} AboveMembers(n: nat, end: Block, b: Block)
    ensures b in Above(n, end) <==> n < b.Number() && Within(b, end)
  {
    if n < end.Number() {
      AboveMembers(n, end.parent, b);
    }
  }

  lemma {:induction false} TimestampsFollowHeight(a: Block, b: Block)
    requires b.Timely() && Within(a, b)
    ensures a.Timely()
    ensures a.timestamp <= b.timestamp
    ensures a.Number() < b.Number() ==> a.timestamp < b.timestamp
  {
    if a.Number() < b.Number() {
      TimestampsFollowHeight(a, b.parent);
    }
  }
}
