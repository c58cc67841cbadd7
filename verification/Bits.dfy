/** Bit-level helpers: powers of two, exclusive-or on naturals, and bitmaps. */
module Bits {

  function Pow2(k: nat): (r: nat)
    ensures r >= 1
  {
    if k == 0 then 1 else 2 * Pow2(k - 1)
  }

  lemma {:induction false} Pow2Monotone(j: nat, k: nat)
    requires j <= k
    ensures Pow2(j) <= Pow2(k)
    ensures j < k ==> 2 * Pow2(j) <= Pow2(k)
    decreases k
  {
    if j < k { Pow2Monotone(j, k - 1); }
  }

  /** Bitwise exclusive-or, one binary digit at a time. */
  function Xor(a: nat, b: nat): nat
    decreases a + b
  {
    if a == 0 then b
    else if b == 0 then a
    else 2 * Xor(a / 2, b / 2) + (a + b) % 2
  }

  // Bitmaps are sequences of bits; a set bit marks an item in use.

  /** The indices below n whose bit is clear. */
  function Clear(bm: seq<bool>, n: nat): set<nat>
    requires n <= |bm|
  {
    set i: nat | i < n && !bm[i]
  }

  /** Setting a bit removes exactly that index from the clear set; clearing it adds exactly that index. */
  lemma ClearUpdate(bm: seq<bool>, n: nat, i: nat)
    requires i < n <= |bm|
    ensures Clear(bm[i := true], n) == Clear(bm, n) - {i}
    ensures Clear(bm[i := false], n) == Clear(bm, n) + {i}
    ensures !bm[i] ==> |Clear(bm[i := true], n)| == |Clear(bm, n)| - 1
    ensures bm[i] ==> |Clear(bm[i := false], n)| == |Clear(bm, n)| + 1
  {
    assert Clear(bm[i := true], n) == Clear(bm, n) - {i};
    assert Clear(bm[i := false], n) == Clear(bm, n) + {i};
  }
}
