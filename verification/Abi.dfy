/** The generated contract binding's codec, over byte sequences, and the Contract ABI encoding of a list of
    nodes that it decodes. */
module Abi {
  import opened Types
  import opened Words

  /** A call's value, an error value, or a run-time panic. */
  datatype Outcome<+T> = Ok(value: T) | Err | Panic

  const WORD: nat := 32
  const INT63: nat := 0x8000_0000_0000_0000

  /** 2 to the 255. */
  function Half(): int { Pow2(255) }

  function EncodeUint256(v: int): Outcome<seq<Byte>> {
    if v < 0 || v >= Pow2(256) then Err else Ok(FillBytes(v, WORD))
  }

  function DecodeUint256(data: seq<Byte>): Outcome<nat> {
    if |data| < WORD then Err else Ok(SetBytes(data[..WORD]))
  }

  function Mask(): nat { Pow2(256) - 1 }

  /** Rejects what needs 256 bits besides the sign, and takes the two's complement of negative values. */
  function EncodeInt256(v: int): Outcome<seq<Byte>> {
    if v >= Half() || -v >= Half() then Err
    else if v >= 0 then Ok(FillBytes(v, WORD))
    else Ok(FillBytes(Xor(-v - 1, Mask()), WORD))
  }

  function DecodeInt256(data: seq<Byte>): Outcome<int> {
    if |data| < WORD then Err else
    var result := SetBytes(data[..WORD]);
    if data[0] >= 0x80 then Ok(-(Xor(result, Mask()) + 1)) else Ok(result)
  }

  function EncodeAddress(addr: seq<Byte>): seq<Byte>
    requires |addr| == 20
  {
    seq(12, i => 0) + addr
  }

  function DecodeAddress(data: seq<Byte>): Outcome<seq<Byte>> {
    if |data| < WORD then Err else Ok(data[12..WORD])
  }

  function EncodeBool(val: bool): seq<Byte> {
    seq(31, i => 0) + [if val then 1 else 0]
  }

  function DecodeBool(data: seq<Byte>): Outcome<bool> {
    if |data| < WORD then Err else Ok(data[31] != 0)
  }

  lemma {:induction false} UintRoundTrip(v: int)
    ensures EncodeUint256(v).Ok? <==> 0 <= v < Pow2(256)
    ensures EncodeUint256(v).Ok? ==> DecodeUint256(EncodeUint256(v).value) == Ok(v)
  {
    if 0 <= v < Pow2(256) {
      SetFill(v, WORD);
      assert FillBytes(v, WORD)[..WORD] == FillBytes(v, WORD);
    }
  }

  lemma {:induction false} UintWordRoundTrip(w: seq<Byte>)
    requires |w| == WORD
    ensures DecodeUint256(w).Ok? && EncodeUint256(DecodeUint256(w).value) == Ok(w)
  {
    FillSet(w);
    assert w[..WORD] == w;
  }

  lemma {:induction false} Complement(x: nat)
    requires x < Pow2(256)
    ensures 0 <= Mask() - x < Pow2(256) && Xor(x, Mask()) == Mask() - x
    ensures Pow2(256) == 2 * Half()
  {
    XorOnes(x, 256);
  }

  /** The word of `x` decodes to `x`, or to `x` less 2 to the 256 when its top bit is set. */
  lemma {:induction false} DecodeWord(w: seq<Byte>, x: nat)
    requires |w| == WORD && SetBytes(w) == x
    ensures x < Pow2(256)
    ensures DecodeInt256(w) == Ok(if x < Half() then x else x - Pow2(256))
  {
    hide Pow2, Xor, SetBytes;
    FillSet(w);
    TopBit(w);
    assert w[..WORD] == w;
    Complement(x);
  }

  /** Every accepted integer survives the round trip. */
  lemma {:induction false} IntRoundTrip(v: int)
    ensures EncodeInt256(v).Ok? <==> -Half() < v < Half()
    ensures EncodeInt256(v).Ok? ==> DecodeInt256(EncodeInt256(v).value) == Ok(v)
  {
    hide Pow2, Xor, SetBytes, FillBytes, DecodeInt256;
    Complement(0);
    if -Half() < v < Half() {
      if v < 0 {
        Complement(-v - 1);
      }
      var x := if v >= 0 then v else Mask() - (-v - 1);
      SetFill(x, WORD);
      DecodeWord(FillBytes(x, WORD), x);
    }
  }

  /** Every word survives the round trip except the one for the least integer, which encoding rejects. */
  lemma {:induction false} IntWordRoundTrip(w: seq<Byte>)
    requires |w| == WORD
    ensures DecodeInt256(w).Ok? && -Half() <= DecodeInt256(w).value < Half()
    ensures EncodeInt256(DecodeInt256(w).value) == if DecodeInt256(w).value == -Half() then Err else Ok(w)
  {
    hide Pow2, Xor, SetBytes, FillBytes, DecodeInt256;
    var x := SetBytes(w);
    DecodeWord(w, x);
    FillSet(w);
    Complement(x);
    Complement(Mask() - x);
  }

  lemma {:induction false} AddressAndBoolRoundTrip(addr: seq<Byte>, val: bool)
    requires |addr| == 20
    ensures DecodeAddress(EncodeAddress(addr)) == Ok(addr) && |EncodeAddress(addr)| == WORD
    ensures DecodeBool(EncodeBool(val)) == Ok(val) && |EncodeBool(val)| == WORD
  {
    assert EncodeAddress(addr)[12..WORD] == addr;
  }

  lemma {:induction false} LeadingZeros(n: nat, b: seq<Byte>)
    ensures SetBytes(seq(n, i => 0) + b) == SetBytes(b)
  {
    var z := seq(n, i => 0);
    if b != [] {
      LeadingZeros(n, b[..|b| - 1]);
      assert (z + b)[..|z + b| - 1] == z + b[..|b| - 1];
    } else if n > 0 {
      LeadingZeros(n - 1, b);
      assert (z + b)[..n - 1] == seq(n - 1, i => 0) + b;
    }
  }

  /** As the standard has it, an address is encoded as the unsigned integer of its bytes and a boolean as one or
      zero. */
  lemma {:induction false} AddressAndBoolAreUints(addr: seq<Byte>, val: bool)
    requires |addr| == 20
    ensures SetBytes(EncodeAddress(addr)) == SetBytes(addr)
    ensures SetBytes(EncodeBool(val)) == if val then 1 else 0
  {
    LeadingZeros(12, addr);
    LeadingZeros(31, [if val then 1 else 0]);
    assert SetBytes([if val then 1 else 0]) == if val then 1 else 0;
  }

  /** Decoding looks at the low 20 bytes and at the last byte alone. */
  lemma {:induction false} AddressAndBoolDecode(w: seq<Byte>)
    ensures |w| < 32 <==> DecodeAddress(w).Err?
    ensures |w| < 32 <==> DecodeBool(w).Err?
    ensures |w| >= 32 ==> DecodeAddress(w) == Ok(w[12..32]) && DecodeBool(w) == Ok(w[31] > 0)
  {
  }

  // Dynamic values.  Offsets and lengths are Go ints: the low 64 bits, signed.

  /** No slice is longer than the address space. */
  const MAX_SLICE: nat := 0x1_0000_0000_0000

  function ToInt(x: nat): int
    requires x < UINT64
  {
    if x < INT63 then x else x - UINT64
  }

  function Wrap(x: int): int {
    if x >= INT63 then x - UINT64 else if x + INT63 < 0 then x + UINT64 else x
  }

  function Padded(n: nat): nat {
    (n + 31) / 32 * 32
  }

  function Zeros(n: nat): seq<Byte> {
    seq(n, i => 0)
  }

  function EncodeBytes(bs: seq<Byte>): seq<Byte>
    requires |bs| <= MAX_SLICE
  {
    FillBytes(|bs|, WORD) + bs + Zeros(Padded(|bs|) - |bs|)
  }

  /** The value and the offset after its padding.  A length so large that the bounds check wraps passes
      it, and the allocation panics. */
  function DecodeBytes(data: seq<Byte>, offset: nat): Outcome<(seq<Byte>, nat)>
    requires |data| <= MAX_SLICE && offset < INT63
  {
    if |data| < Wrap(offset + 32) then Err
    else if offset + 32 > |data| then Panic
    else
      var lengthBig := SetBytes(data[offset..offset + 32]);
      if lengthBig >= UINT64 then Err else
      var length := ToInt(lengthBig);
      if |data| < Wrap(offset + 32 + length) then Err
      else if length < 0 || offset + 32 + length > |data| then Panic
      else Ok((data[offset + 32..offset + 32 + length], offset + 32 + Padded(length)))
  }

  lemma {:induction false} SmallWord(n: nat)
    requires n < UINT64
    ensures SetBytes(FillBytes(n, WORD)) == n
  {
    Pow2Of64();
    Pow2Monotone(64, 256);
    SetFill(n, WORD);
  }

  /** A byte string encoded at any offset decodes to itself, and to the offset right behind its padding. */
  lemma {:induction false} BytesRoundTrip(pre: seq<Byte>, bs: seq<Byte>, post: seq<Byte>)
    requires |bs| <= MAX_SLICE && |pre + EncodeBytes(bs) + post| <= MAX_SLICE
    ensures DecodeBytes(pre + EncodeBytes(bs) + post, |pre|) == Ok((bs, |pre| + |EncodeBytes(bs)|))
  {
    hide SetBytes, FillBytes;
    var data := pre + EncodeBytes(bs) + post;
    assert data[|pre|..|pre| + 32] == FillBytes(|bs|, WORD);
    assert data[|pre| + 32..|pre| + 32 + |bs|] == bs;
    SmallWord(|bs|);
  }

  /** The encoding is a length word, the bytes, and zeros up to the next multiple of 32. */
  lemma {:induction false} BytesLayout(bs: seq<Byte>)
    requires |bs| <= MAX_SLICE
    ensures var e := EncodeBytes(bs);
            && |e| % 32 == 0 && 32 + |bs| <= |e| < 64 + |bs|
            && SetBytes(e[..32]) == |bs| && e[32..32 + |bs|] == bs
            && forall i :: 32 + |bs| <= i < |e| ==> e[i] == 0
  {
    hide SetBytes, FillBytes;
    SmallWord(|bs|);
    var e := EncodeBytes(bs);
    assert e[..32] == FillBytes(|bs|, WORD);
    assert e[32..32 + |bs|] == bs;
  }

  /** Which data decodes, and which makes the program panic: a length of 2 to the 63 or more, or an offset so close
      to that that adding to it wraps. */
  lemma {:induction false} DecodeBytesIff(data: seq<Byte>, offset: nat)
    requires |data| <= MAX_SLICE && offset < INT63
    ensures var r := DecodeBytes(data, offset);
            var there := offset + 32 <= |data|;
            && (r.Ok? <==> there && offset + 32 + SetBytes(data[offset..offset + 32]) <= |data|)
            && (r.Ok? ==>
                  var n := SetBytes(data[offset..offset + 32]);
                  r.value.0 == data[offset + 32..offset + 32 + n] &&
                  r.value.1 % 32 == offset % 32 && offset + 32 + n <= r.value.1 < offset + 64 + n)
            && (r.Panic? <==>
                  || offset + 32 >= INT63
                  || (there && var n := SetBytes(data[offset..offset + 32]); n < UINT64 && offset + 32 + n >= INT63))
  {
    hide SetBytes;
  }

  // The list of authority nodes.

  datatype Node = Node(nodeMaster: seq<Byte>, endorsor: seq<Byte>, active: bool) {
    predicate Valid() { |nodeMaster| == 20 && |endorsor| == 20 }
  }

  const NODE_WORDS: nat := 96

  /** The static tuple of the Contract ABI: three words. */
  function EncodeNode(n: Node): seq<Byte>
    requires n.Valid()
  {
    EncodeAddress(n.nodeMaster) + EncodeAddress(n.endorsor) + EncodeBool(n.active)
  }

  function EncodeNodes(ns: seq<Node>): seq<Byte>
    requires forall i :: 0 <= i < |ns| ==> ns[i].Valid()
  {
    if ns == [] then [] else EncodeNodes(ns[..|ns| - 1]) + EncodeNode(ns[|ns| - 1])
  }

  /** A returned dynamic array of static tuples: the offset of its data, its length, its elements. */
  function EncodeList(ns: seq<Node>): seq<Byte>
    requires forall i :: 0 <= i < |ns| ==> ns[i].Valid()
  {
    FillBytes(WORD, WORD) + FillBytes(|ns|, WORD) + EncodeNodes(ns)
  }

  lemma {:induction false} SubSlice(data: seq<Byte>, a: nat, b: nat, i: nat, j: nat)
    requires a <= b <= |data| && i <= j <= b - a
    ensures data[a..b][i..j] == data[a + i..a + j]
  {
    var s, t := data[a..b][i..j], data[a + i..a + j];
    assert |s| == |t| && forall k :: 0 <= k < |s| ==> s[k] == t[k];
  }

  /** One element and the offset after it. */
  method DecodeNode(data: seq<Byte>, offset: nat) returns (r: Outcome<(Node, nat)>)
    requires |data| <= MAX_SLICE
    ensures r == if |data| < offset + NODE_WORDS then Err else Ok((NodeAt(data, offset), offset + NODE_WORDS))
    ensures |data| >= offset + 96 ==>
              r == Ok((Node(data[offset + 12..offset + 32], data[offset + 44..offset + 64], data[offset + 95] > 0), offset + 96))
  {
    var currentOffset := offset;
    if |data| < currentOffset + 32 {
      return Err;
    }
    SubSlice(data, currentOffset, currentOffset + 32, 12, 32);
    var master := DecodeAddress(data[currentOffset..currentOffset + 32]);
    currentOffset := currentOffset + 32;
    if |data| < currentOffset + 32 {
      return Err;
    }
    SubSlice(data, currentOffset, currentOffset + 32, 12, 32);
    var endorsor := DecodeAddress(data[currentOffset..currentOffset + 32]);
    currentOffset := currentOffset + 32;
    if |data| < currentOffset + 32 {
      return Err;
    }
    var active := DecodeBool(data[currentOffset..currentOffset + 32]);
    currentOffset := currentOffset + 32;
    r := Ok((Node(master.value, endorsor.value, active.value), currentOffset));
  }

  function NodeAt(data: seq<Byte>, offset: nat): (n: Node)
    requires offset + NODE_WORDS <= |data|
    ensures n.Valid()
  {
    Node(data[offset + 12..offset + 32], data[offset + 44..offset + 64], data[offset + 95] != 0)
  }

  /** The first `n` elements from an offset. */
  function NodesAt(data: seq<Byte>, offset: nat, n: nat): (ns: seq<Node>)
    requires offset + n * NODE_WORDS <= |data|
    ensures |ns| == n && forall i :: 0 <= i < n ==> ns[i].Valid()
  {
    if n == 0 then [] else NodesAt(data, offset, n - 1) + [NodeAt(data, offset + (n - 1) * NODE_WORDS)]
  }

  /** Size in bytes of a decoded element, and what allocating so many of them does. */
  const NODE_SIZE: nat := 41

  predicate Allocates(length: int) {
    0 <= length && length * NODE_SIZE <= MAX_SLICE
  }

  /** What decoding a return value yields, from its offset and length words. */
  function ListOf(data: seq<Byte>): Outcome<seq<Node>>
    requires |data| <= MAX_SLICE
  {
    if |data| < WORD then Err else
    var offsetWord := SetBytes(data[..WORD]);
    if offsetWord >= UINT64 then Err else
    var offset := ToInt(offsetWord);
    if |data| < Wrap(offset + WORD) then Err
    else if offset < 0 || offset + WORD > |data| then Panic
    else
      var lengthWord := SetBytes(data[offset..offset + WORD]);
      if lengthWord >= UINT64 then Err
      else if !Allocates(ToInt(lengthWord)) then Panic
      else if offset + WORD + lengthWord * NODE_WORDS > |data| then Err
      else Ok(NodesAt(data, offset + WORD, lengthWord))
  }

  method DecodeImpl(data: seq<Byte>) returns (r: Outcome<seq<Node>>)
    requires |data| <= MAX_SLICE
    ensures r == ListOf(data)
  {
    hide SetBytes, NodeAt;
    if |data| < 32 {
      return Err;
    }
    var arrayOffset := DecodeUint256(data[0..32]).value;
    assert data[0..32][..WORD] == data[..WORD];
    if arrayOffset >= UINT64 {
      return Err;
    }
    var arrayOffsetInt := ToInt(arrayOffset);
    if |data| < Wrap(arrayOffsetInt + 32) {
      return Err;
    }
    if arrayOffsetInt < 0 || arrayOffsetInt + 32 > |data| {
      return Panic;
    }
    var word := data[arrayOffsetInt..arrayOffsetInt + 32];
    var val := DecodeUint256(word).value;
    assert word[..WORD] == word;
    if val >= UINT64 {
      return Err;
    }
    var length := ToInt(val);
    if !Allocates(length) {
      return Panic;
    }
    var start := arrayOffsetInt + 32;
    var offset := start;
    var result: seq<Node> := [];
    var i := 0;
    while i < length
      invariant 0 <= i <= length && offset == start + i * NODE_WORDS && offset <= |data|
      invariant result == NodesAt(data, start, i)
    {
      var elem := DecodeNode(data, offset);
      if elem.Err? {
        return Err;
      }
      result := result + [elem.value.0];
      offset := elem.value.1;
      i := i + 1;
    }
    return Ok(result);
  }

  lemma {:induction false} EncodeNodesLength(ns: seq<Node>)
    requires forall i :: 0 <= i < |ns| ==> ns[i].Valid()
    ensures |EncodeNodes(ns)| == |ns| * NODE_WORDS
  {
    if ns != [] {
      EncodeNodesLength(ns[..|ns| - 1]);
    }
  }

  lemma {:induction false} NodeRoundTrip(data: seq<Byte>, offset: nat, n: Node)
    requires n.Valid() && offset + NODE_WORDS <= |data| && data[offset..offset + NODE_WORDS] == EncodeNode(n)
    ensures NodeAt(data, offset) == n
  {
    var w := data[offset..offset + NODE_WORDS];
    assert w[12..32] == n.nodeMaster && w[44..64] == n.endorsor && (w[95] != 0) == n.active;
    SubSlice(data, offset, offset + NODE_WORDS, 12, 32);
    SubSlice(data, offset, offset + NODE_WORDS, 44, 64);
  }

  lemma {:induction false} NodesRoundTrip(data: seq<Byte>, offset: nat, ns: seq<Node>)
    requires forall i :: 0 <= i < |ns| ==> ns[i].Valid()
    requires offset + |ns| * NODE_WORDS <= |data|
    requires data[offset..offset + |ns| * NODE_WORDS] == EncodeNodes(ns)
    ensures NodesAt(data, offset, |ns|) == ns
  {
    hide EncodeNode, NodeAt;
    if ns != [] {
      var init, last := ns[..|ns| - 1], ns[|ns| - 1];
      var split := offset + |init| * NODE_WORDS;
      EncodeNodesLength(init);
      var all := data[offset..offset + |ns| * NODE_WORDS];
      assert all == EncodeNodes(init) + EncodeNode(last);
      assert data[offset..split] == all[..|init| * NODE_WORDS] == EncodeNodes(init);
      assert data[split..split + NODE_WORDS] == all[|init| * NODE_WORDS..] == EncodeNode(last);
      NodesRoundTrip(data, offset, init);
      NodeRoundTrip(data, split, last);
      assert ns == init + [last];
    }
  }

  /** Decoding inverts the encoding of every list that fits in memory, whatever follows it. */
  lemma {:induction false} ListRoundTrip(ns: seq<Node>, post: seq<Byte>)
    requires forall i :: 0 <= i < |ns| ==> ns[i].Valid()
    requires |EncodeList(ns) + post| <= MAX_SLICE
    ensures ListOf(EncodeList(ns) + post) == Ok(ns)
  {
    hide SetBytes, FillBytes, NodesAt;
    var data := EncodeList(ns) + post;
    EncodeNodesLength(ns);
    SmallWord(WORD);
    SmallWord(|ns|);
    assert data[..WORD] == FillBytes(WORD, WORD);
    assert data[WORD..WORD + WORD] == FillBytes(|ns|, WORD);
    assert data[2 * WORD..2 * WORD + |ns| * NODE_WORDS] == EncodeNodes(ns);
    NodesRoundTrip(data, 2 * WORD, ns);
  }

  /** Each element is three words: the master, the endorsor, and whether it is active. */
  lemma {:induction false} NodesAtAre(data: seq<Byte>, offset: nat, n: nat, i: nat)
    requires offset + n * NODE_WORDS <= |data| && i < n
    ensures var at := offset + i * 96;
            at + 96 <= |data| &&
            NodesAt(data, offset, n)[i] == Node(data[at + 12..at + 32], data[at + 44..at + 64], data[at + 95] > 0)
  {
    if i < n - 1 {
      NodesAtAre(data, offset, n - 1, i);
    }
  }

  /** Which data decodes, to how many elements, and which makes the program panic: an offset that wraps when 32 is
      added, or a length whose elements exceed the address space. */
  lemma {:induction false} ListOfIff(data: seq<Byte>)
    requires |data| <= MAX_SLICE
    ensures var r := ListOf(data);
            var offset := if |data| < 32 then 0 else SetBytes(data[..32]);
            var there := |data| >= 32 && offset + 32 <= |data|;
            var length := if there then SetBytes(data[offset..offset + 32]) else 0;
            && (r.Ok? <==> there && offset + 32 + length * 96 <= |data|)
            && (r.Ok? ==> |r.value| == length && r.value == NodesAt(data, offset + 32, length))
            && (r.Panic? <==>
                  && |data| >= 32
                  && ((INT63 - 32 <= offset < UINT64) || (there && length < UINT64 && length * 41 > MAX_SLICE)))
  {
    hide SetBytes, NodesAt;
  }
}
