/** Blocks of 2^k units that start at a multiple of 2^k. */
module Dyadic {
  import opened Arith
  import opened Bits

  /** u is a multiple of 2^k. */
  predicate Aligned(u: nat, k: nat)
    decreases k
  {
    k == 0 || (u % 2 == 0 && Aligned(u / 2, k - 1))
  }

  lemma {:induction false} AlignedMod(u: nat, k: nat)
    ensures Aligned(u, k) <==> u % Pow2(k) == 0
    decreases k
  {
    if k > 0 {
      AlignedMod(u / 2, k - 1);
      HalfMod(u, Pow2(k - 1));
    }
  }

  lemma HalfMod(u: nat, m: nat)
    requires m > 0
    ensures u % (2 * m) == 0 <==> u % 2 == 0 && (u / 2) % m == 0
  {
    var q, r := u / (2 * m), u % (2 * m);
    assert u == 2 * (m * q) + r;
    if u % 2 == 0 {
      assert u / 2 == m * q + r / 2;
      DivModUnique(u / 2, m, q, r / 2);
    }
  }

  lemma {:induction false} AlignedDown(u: nat, j: nat, k: nat)
    requires Aligned(u, k) && j <= k
    ensures Aligned(u, j)
    decreases j
  {
    if j > 0 { AlignedDown(u / 2, j - 1, k - 1); }
  }

  /** Aligned blocks nest: the smaller one, once begun inside the larger, ends inside it. */
  lemma {:induction false} Nested(h: nat, j: nat, a: nat, k: nat)
    requires k <= j && Aligned(h, j) && Aligned(a, k) && h <= a < h + Pow2(j)
    ensures a + Pow2(k) <= h + Pow2(j)
    decreases k
  {
    if k > 0 { Nested(h / 2, j - 1, a / 2, k - 1); }
  }

  /** The two halves of an aligned block. */
  lemma {:induction false} Halves(u: nat, k: nat)
    requires Aligned(u, k + 1)
    ensures Aligned(u, k) && Aligned(u + Pow2(k), k) && !Aligned(u + Pow2(k), k + 1)
    decreases k
  {
    if k > 0 {
      Halves(u / 2, k - 1);
      assert (u + Pow2(k)) / 2 == u / 2 + Pow2(k - 1);
    }
  }

  /** The address arithmetic of the allocator: flipping bit k of a block's offset. */
  function Buddy(u: nat, k: nat): nat {
    Xor(u, Pow2(k))
  }

  /** Flipping bit k of an aligned offset moves to the other half of the enclosing block. */
  lemma {:induction false} BuddyMeans(u: nat, k: nat)
    requires Aligned(u, k)
    ensures Aligned(u, k + 1) ==> Buddy(u, k) == u + Pow2(k)
    ensures !Aligned(u, k + 1) ==> u >= Pow2(k) && Buddy(u, k) == u - Pow2(k) && Aligned(u - Pow2(k), k + 1)
    decreases k
  {
    if k == 0 {
      XorOne(u);
    } else {
      BuddyMeans(u / 2, k - 1);
      XorTwice(u / 2, Pow2(k - 1));
    }
  }

  lemma XorTwice(x: nat, y: nat)
    ensures Xor(2 * x, 2 * y) == 2 * Xor(x, y)
  {
    assert (2 * x) / 2 == x && (2 * y) / 2 == y && (2 * x + 2 * y) % 2 == 0;
  }

  lemma XorOne(u: nat)
    ensures Xor(u, 1) == if u % 2 == 0 then u + 1 else u - 1
  {
    if u > 0 { assert Xor(u / 2, 0) == u / 2; }
  }

  lemma BuddyBack(u: nat, k: nat)
    requires Aligned(u, k)
    ensures Aligned(Buddy(u, k), k) && Buddy(Buddy(u, k), k) == u && Buddy(u, k) != u
  {
    BuddyMeans(u, k);
    if Aligned(u, k + 1) {
      Halves(u, k);
      BuddyMeans(u + Pow2(k), k);
    } else {
      Halves(u - Pow2(k), k);
      BuddyMeans(u - Pow2(k), k);
    }
  }
}
