/** Big-endian bytes and the bitwise complement: what `FillBytes`, `SetBytes` and `Xor` of the big integers
    compute. */
module Words {
  import opened Types

  function Pow2(n: nat): (p: nat)
    ensures p > 0
  {
    if n == 0 then 1 else 2 * Pow2(n - 1)
  }

  /** The `n` low bytes of `v`, most significant first. */
  function FillBytes(v: nat, n: nat): (b: seq<Byte>)
    ensures |b| == n
  {
    if n == 0 then [] else FillBytes(v / 256, n - 1) + [v % 256]
  }

  function SetBytes(b: seq<Byte>): nat {
    if b == [] then 0 else SetBytes(b[..|b| - 1]) * 256 + b[|b| - 1]
  }

  lemma {:induction false} Pow2Byte(n: nat)
    ensures Pow2(8 * n + 8) == 256 * Pow2(8 * n)
  {
    assert Pow2(8 * n + 8) == 2 * Pow2(8 * n + 7) == 4 * Pow2(8 * n + 6) == 8 * Pow2(8 * n + 5);
    assert Pow2(8 * n + 5) == 2 * Pow2(8 * n + 4) == 4 * Pow2(8 * n + 3) == 8 * Pow2(8 * n + 2);
    assert Pow2(8 * n + 2) == 2 * Pow2(8 * n + 1) == 4 * Pow2(8 * n);
  }

  lemma {:induction false} SetFill(v: nat, n: nat)
    requires v < Pow2(8 * n)
    ensures SetBytes(FillBytes(v, n)) == v
  {
    if n > 0 {
      Pow2Byte(n - 1);
      SetFill(v / 256, n - 1);
      assert FillBytes(v, n)[..n - 1] == FillBytes(v / 256, n - 1);
    }
  }

  lemma {:induction false} FillSet(b: seq<Byte>)
    ensures FillBytes(SetBytes(b), |b|) == b
    ensures SetBytes(b) < Pow2(8 * |b|)
  {
    if b != [] {
      Pow2Byte(|b| - 1);
      FillSet(b[..|b| - 1]);
      assert SetBytes(b) / 256 == SetBytes(b[..|b| - 1]) && SetBytes(b) % 256 == b[|b| - 1];
      assert b == b[..|b| - 1] + [b[|b| - 1]];
    }
  }

  /** The top byte decides the top bit. */
  lemma {:induction false} TopBit(b: seq<Byte>)
    requires b != []
    ensures b[0] >= 128 <==> 2 * SetBytes(b) >= Pow2(8 * |b|)
    ensures b[0] < 128 <==> 2 * SetBytes(b) < Pow2(8 * |b|)
  {
    var init := b[..|b| - 1];
    if init != [] {
      TopBit(init);
      Pow2Byte(|b| - 1);
      var n := 8 * |init|;
      assert Pow2(n) == 2 * Pow2(n - 1);
    } else {
      Pow2Byte(0);
    }
  }

  /** The bitwise exclusive or. */
  function Xor(a: nat, b: nat): nat
    decreases a + b
  {
    if a == 0 && b == 0 then 0 else 2 * Xor(a / 2, b / 2) + (a % 2 + b % 2) % 2
  }

  /** Against all ones it is the complement. */
  lemma {:induction false} XorOnes(x: nat, n: nat)
    requires x < Pow2(n)
    ensures Xor(x, Pow2(n) - 1) == Pow2(n) - 1 - x
  {
    if n > 0 {
      var p := Pow2(n - 1);
      assert (2 * p - 1) / 2 == p - 1 && (2 * p - 1) % 2 == 1;
      XorOnes(x / 2, n - 1);
    }
  }

  lemma {:induction false} Pow2Monotone(m: nat, n: nat)
    requires m <= n
    ensures Pow2(m) <= Pow2(n)
  {
    if m < n {
      Pow2Monotone(m, n - 1);
    }
  }

  lemma {:induction false} Pow2Of64()
    ensures Pow2(64) == UINT64
  {
    Pow2Byte(0);
    Pow2Byte(1);
    Pow2Byte(2);
    Pow2Byte(3);
    Pow2Byte(4);
    Pow2Byte(5);
    Pow2Byte(6);
    Pow2Byte(7);
  }
}
