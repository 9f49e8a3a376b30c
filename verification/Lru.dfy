/** The least-recently-used cache behind the block fetcher, as the recency sequence that the contract
    of `lru.Get` and `lru.Add` describes: index 0 is the most recently used entry. */
module Lru {
  import opened Chain

  const CACHE_SIZE: nat := 100

  datatype Entry<+V> = Entry(key: nat, value: V)

  predicate Valid<V>(c: seq<Entry<V>>) {
    |c| <= CACHE_SIZE && forall i, j :: 0 <= i < j < |c| ==> c[i].key != c[j].key
  }

  /** The index of `key`, or the length of the sequence when it is absent. */
  function Find<V>(c: seq<Entry<V>>, key: nat): (i: nat)
    ensures i <= |c|
    ensures i < |c| ==> c[i].key == key
    ensures forall j :: 0 <= j < i ==> c[j].key != key
  {
    if c == [] || c[0].key == key then 0 else 1 + Find(c[1..], key)
  }

  function Trim<V>(c: seq<Entry<V>>): seq<Entry<V>> {
    if |c| <= CACHE_SIZE then c else c[..CACHE_SIZE]
  }

  /** The entry becomes the most recent one; the oldest entry leaves when there is no room. */
  function Promote<V>(c: seq<Entry<V>>, e: Entry<V>): (r: seq<Entry<V>>)
  {
    var i := Find(c, e.key);
    if i < |c| then [e] + c[..i] + c[i + 1..] else Trim([e] + c)
  }

  function Lookup<V>(c: seq<Entry<V>>, key: nat): Option<V> {
    var i := Find(c, key);
    if i < |c| then Some(c[i].value) else None
  }

  class LruCache<V> {
    var entries: seq<Entry<V>>

    constructor ()
      ensures entries == []
    {
      entries := [];
    }

    method Get(key: nat) returns (value: Option<V>)
      requires Valid(entries)
      modifies this
      ensures Valid(entries)
      ensures value == Lookup(old(entries), key)
      ensures entries == if value.Some? then Promote(old(entries), Entry(key, value.value)) else old(entries)
    {
      value := Lookup(entries, key);
      if value.Some? {
        PromoteShape(entries, Entry(key, value.value));
        entries := Promote(entries, Entry(key, value.value));
      }
    }

    method Add(key: nat, value: V)
      requires Valid(entries)
      modifies this
      ensures Valid(entries)
      ensures entries == Promote(old(entries), Entry(key, value))
    {
      PromoteShape(entries, Entry(key, value));
      entries := Promote(entries, Entry(key, value));
    }
  }

  /** Where the entry now at index `i` > 0 was before the entry at `p` was promoted: one step nearer the
      front, unless the promoted entry already was ahead of it. */
  function Origin(p: nat, i: nat): nat
    requires i > 0
  {
    if i <= p then i - 1 else i
  }

  lemma {:induction false} PromoteShape<V>(c: seq<Entry<V>>, e: Entry<V>)
    requires Valid(c)
    ensures Valid(Promote(c, e))
    ensures |Promote(c, e)| == if Find(c, e.key) < |c| || |c| == CACHE_SIZE then |c| else |c| + 1
    ensures Promote(c, e)[0] == e
    ensures forall i :: 0 < i < |Promote(c, e)| ==>
      Origin(Find(c, e.key), i) < |c| && Promote(c, e)[i] == c[Origin(Find(c, e.key), i)]
  {
    var r := Promote(c, e);
    var p := Find(c, e.key);
    forall i | 0 < i < |r|
      ensures Origin(p, i) < |c| && r[i] == c[Origin(p, i)]
    {
    }
    forall i, j | 0 <= i < j < |r|
      ensures r[i].key != r[j].key
    {
      assert r[j] == c[Origin(p, j)];
      assert i > 0 ==> r[i] == c[Origin(p, i)];
    }
  }
}
