/** The pool of the buddy allocator as a tiling by aligned blocks. One unit is 64 bytes. */
module BuddyTiles {
  import opened Bits
  import opened Dyadic

  const MAX_ORDER: nat := 18

  /** The blocks (first unit to order), the block each unit belongs to, and which blocks are free. */
  datatype View = View(order: map<nat, nat>, owner: seq<nat>, free: set<nat>)

  predicate Covers(v: View, h: nat, u: nat) {
    h in v.order && h <= u < h + Pow2(v.order[h])
  }

  /** Every unit lies in exactly one block, and blocks stay in the pool. */
  ghost predicate Partition(v: View) {
    && (forall h | h in v.order :: v.order[h] <= MAX_ORDER && h + Pow2(v.order[h]) <= |v.owner|)
    && (forall u: nat | u < |v.owner| :: Covers(v, v.owner[u], u))
    && (forall h, u: nat {:trigger Covers(v, h, u)} | Covers(v, h, u) && u < |v.owner| :: v.owner[u] == h)
    && v.free <= v.order.Keys
  }

  /** A partition into blocks that are aligned to their size, counted from the start of the pool. */
  ghost predicate Tiled(v: View) {
    Partition(v) && forall h | h in v.order :: Aligned(h, v.order[h])
  }

  /** No two free blocks of the same order are buddies. */
  ghost predicate Canonical(v: View)
    requires v.free <= v.order.Keys
  {
    forall h | h in v.free && v.order[h] < MAX_ORDER && Buddy(h, v.order[h]) in v.free ::
      v.order[Buddy(h, v.order[h])] != v.order[h]
  }

  /** The live blocks with their orders. */
  ghost function Live(v: View): map<nat, nat> {
    map h | h in v.order && h !in v.free :: v.order[h]
  }

  // What a tiling by aligned blocks implies.

  /** The block over the first unit of an aligned region either contains the region or starts with it. */
  lemma Corner(v: View, a: nat, k: nat)
    requires Tiled(v) && Aligned(a, k) && a < |v.owner|
    ensures v.owner[a] in v.order && v.owner[a] <= a
    ensures v.order[v.owner[a]] >= k ==> a + Pow2(k) <= v.owner[a] + Pow2(v.order[v.owner[a]])
    ensures v.order[v.owner[a]] <= k ==> v.owner[a] == a
  {
    var o := v.owner[a];
    assert Covers(v, o, a);
    var j := v.order[o];
    if j >= k { Nested(o, j, a, k); }
    if j <= k {
      AlignedDown(a, j, k);
      Nested(o, j, a, j);
    }
  }

  lemma Own(v: View, h: nat)
    requires Tiled(v) && h in v.order
    ensures h < |v.owner| && v.owner[h] == h
  {
    assert Covers(v, h, h);
  }

  /** The header that free inspects is the header of a current block, whatever the memory between heads holds. */
  lemma BuddyIsHead(v: View, h: nat)
    requires Tiled(v) && h in v.order && Buddy(h, v.order[h]) < |v.owner|
    ensures Buddy(h, v.order[h]) in v.order && v.order[Buddy(h, v.order[h])] <= v.order[h]
  {
    var k, b := v.order[h], Buddy(h, v.order[h]);
    BuddyMeans(h, k);
    BuddyBack(h, k);
    Own(v, h);
    Corner(v, b, k);
    var o := v.owner[b];
    if v.order[o] > k {
      if b < h {
        Corner(v, b, k + 1);
        assert Covers(v, o, h);
      } else {
        AlignedDown(o, k + 1, v.order[o]);
        if o > h {
          Nested(h, k + 1, o, k + 1);
        } else {
          assert Covers(v, o, b);
          assert Covers(v, o, h);
        }
      }
    }
  }

  ghost predicate AllFree(v: View, a: nat, k: nat) {
    a + Pow2(k) <= |v.owner| && forall u | a <= u < a + Pow2(k) :: v.owner[u] in v.free
  }

  /** With no free buddies left to merge, every wholly free aligned region lies inside one free block. */
  lemma {:induction false} FreeRegion(v: View, a: nat, k: nat)
    requires Tiled(v) && Canonical(v) && Aligned(a, k) && k <= MAX_ORDER && AllFree(v, a, k)
    ensures v.owner[a] in v.free && v.order[v.owner[a]] >= k
    decreases k
  {
    hide Tiled, Canonical, Aligned, Buddy;
    FreeFields(v, a, k);
    if k > 0 {
      var c := a + Pow2(k - 1);
      Halves(a, k - 1);
      FreeRegion(v, a, k - 1);
      FreeRegion(v, c, k - 1);
      Corner(v, a, k - 1);
      Corner(v, c, k - 1);
      if v.order[v.owner[a]] == k - 1 {
        if v.order[v.owner[c]] == k - 1 {
          BuddyMeans(a, k - 1);
          NotBoth(v, a);
        } else {
          RightHalf(v, a, k - 1);
        }
      }
    }
  }

  /** When the left half of a region is one block, the right half is no part of a larger one. */
  lemma RightHalf(v: View, a: nat, k: nat)
    requires Tiled(v) && Aligned(a, k + 1) && a in v.order && v.order[a] == k && a + Pow2(k) < |v.owner|
    ensures v.order[v.owner[a + Pow2(k)]] <= k
  {
    var c := a + Pow2(k);
    var o: nat := v.owner[c];
    assert Covers(v, o, c);
    Own(v, a);
    Own(v, o);
    Halves(a, k);
    if v.order[o] > k {
      AlignedDown(o, k + 1, v.order[o]);
      assert o <= a ==> Covers(v, o, a);
      assert a <= o < c ==> Covers(v, a, o);
    }
  }

  lemma FreeFields(v: View, a: nat, k: nat)
    requires Tiled(v) && AllFree(v, a, k)
    ensures v.free <= v.order.Keys && v.owner[a] in v.free
    ensures forall h | h in v.order :: Aligned(h, v.order[h])
  {
  }

  lemma NotBoth(v: View, h: nat)
    requires v.free <= v.order.Keys && Canonical(v) && h in v.free && v.order[h] < MAX_ORDER
    requires Buddy(h, v.order[h]) in v.free
    ensures v.order[Buddy(h, v.order[h])] != v.order[h]
  {
  }

  // The tiling is determined by the live blocks.

  /** Where the live blocks of two tilings agree, a free block of one covers only free units of the other. */
  lemma FreeElsewhere(v: View, w: View, h: nat)
    requires Tiled(v) && Tiled(w) && |v.owner| == |w.owner| && Live(v) == Live(w) && h in v.free
    ensures h in v.order && AllFree(w, h, v.order[h])
  {
    forall u | h <= u < h + Pow2(v.order[h]) ensures u < |w.owner| && w.owner[u] in w.free {
      assert Covers(v, h, u) && Covers(w, w.owner[u], u);
      var x := w.owner[u];
      if x !in w.free {
        assert x in Live(w);
        assert x in Live(v);
        assert Covers(v, x, u);
      }
    }
  }

  lemma SameBlock(v: View, w: View, h: nat)
    requires Tiled(v) && Tiled(w) && Canonical(v) && Canonical(w)
    requires |v.owner| == |w.owner| && Live(v) == Live(w) && h in v.free
    ensures h in v.order && h in w.free && h in w.order && w.order[h] == v.order[h]
  {
    hide Canonical, Live, AllFree;
    FreeElsewhere(v, w, h);
    Own(v, h);
    FreeRegion(w, h, v.order[h]);
    Corner(w, h, v.order[h]);
    var o := w.owner[h];
    FreeElsewhere(w, v, o);
    FreeRegion(v, o, w.order[o]);
    Corner(v, o, w.order[o]);
    assert Covers(w, o, h);
    assert Covers(v, v.owner[o], h);
  }

  /** Two pools with the same live blocks have the same free blocks: no trace of the history is left. */
  lemma UniqueTiling(v: View, w: View)
    requires Tiled(v) && Tiled(w) && Canonical(v) && Canonical(w)
    requires |v.owner| == |w.owner| && Live(v) == Live(w)
    ensures v == w
  {
    hide Canonical;
    forall h | h in v.free ensures h in w.free && w.order[h] == v.order[h] { SameBlock(v, w, h); }
    forall h | h in w.free ensures h in v.free && v.order[h] == w.order[h] { SameBlock(w, v, h); }
    forall h ensures h in v.order <==> h in w.order {
      if h in v.order && h !in v.free { assert h in Live(w); }
      if h in w.order && h !in w.free { assert h in Live(v); }
    }
    forall h | h in v.order ensures v.order[h] == w.order[h] {
      if h !in v.free { assert v.order[h] == Live(v)[h]; }
    }
    assert v.order == w.order;
    forall u: nat | u < |v.owner| ensures v.owner[u] == w.owner[u] { assert Covers(w, v.owner[u], u); }
  }

  // The four moves of the allocator.

  ghost function Reowned(v: View, from: nat, len: nat, to: nat): seq<nat> {
    seq(|v.owner|, (i: nat) requires i < |v.owner| => if from <= i < from + len then to else v.owner[i])
  }

  /** Cut block b, which is on no list, in two halves; the right half becomes free. */
  ghost function Split(v: View, b: nat): View
    requires b in v.order && v.order[b] > 0
  {
    var k := v.order[b] - 1;
    var c := b + Pow2(k);
    View(v.order[b := k][c := k], Reowned(v, c, Pow2(k), c), v.free + {c})
  }

  lemma SplitAt(v: View, b: nat) returns (k: nat, c: nat)
    requires Tiled(v) && b in v.order && v.order[b] > 0
    ensures k + 1 == v.order[b] <= MAX_ORDER && c == b + Pow2(k) && Pow2(k + 1) == 2 * Pow2(k)
    ensures c + Pow2(k) <= |v.owner|
    ensures Aligned(b, k) && Aligned(c, k) && Buddy(c, k) == b && c !in v.order && c !in v.free && Pow2(k) > 0
  {
    k := v.order[b] - 1;
    c := b + Pow2(k);
    Halves(b, k);
    BuddyMeans(c, k);
    assert Covers(v, b, c);
    if c in v.order { Own(v, c); }
  }

  lemma SplitTiled(v: View, b: nat, w: View)
    requires Tiled(v) && b in v.order && b !in v.free && v.order[b] > 0 && w == Split(v, b)
    ensures Tiled(w)
  {
    hide Pow2, Aligned;
    var k, c := SplitAt(v, b);
    forall u: nat | u < |w.owner| ensures Covers(w, w.owner[u], u) {
      assert Covers(v, v.owner[u], u);
      assert w.owner[u] == if c <= u < c + Pow2(k) then c else v.owner[u];
    }
    forall h, u: nat | Covers(w, h, u) && u < |w.owner| ensures w.owner[u] == h {
      assert Covers(v, if h == c then b else h, u);
      assert c <= u < c + Pow2(k) ==> Covers(v, b, u);
      assert w.owner[u] == if c <= u < c + Pow2(k) then c else v.owner[u];
    }
  }

  lemma SplitCanonical(v: View, b: nat, w: View)
    requires Tiled(v) && Canonical(v) && b in v.order && b !in v.free && v.order[b] > 0 && w == Split(v, b) && Tiled(w)
    ensures Canonical(w) && Live(w) == Live(v)[b := v.order[b] - 1]
  {
    hide Pow2, Aligned, Buddy, Reowned;
    var k, c := SplitAt(v, b);
    forall h | h in w.free && w.order[h] < MAX_ORDER && Buddy(h, w.order[h]) in w.free
      ensures w.order[Buddy(h, w.order[h])] != w.order[h]
    {
      if h != c && Buddy(h, w.order[h]) == c { BuddyBack(h, w.order[h]); }
    }
  }

  /** Join block b, which is on no list, with its free buddy c. */
  ghost function Merge(v: View, b: nat, c: nat): View
    requires b in v.order
  {
    var k := v.order[b];
    var p, q := if b < c then b else c, if b < c then c else b;
    View((v.order - {q})[p := k + 1], Reowned(v, q, Pow2(k), p), v.free - {c})
  }

  ghost predicate Mergeable(v: View, b: nat) {
    b in v.order && b !in v.free && v.order[b] < MAX_ORDER
    && Buddy(b, v.order[b]) in v.free && Buddy(b, v.order[b]) in v.order && v.order[Buddy(b, v.order[b])] == v.order[b]
  }

  lemma MergeAt(v: View, b: nat) returns (p: nat, q: nat)
    requires Tiled(v) && Mergeable(v, b)
    ensures var c, k := Buddy(b, v.order[b]), v.order[b];
            && p == (if b < c then b else c) && q == (if b < c then c else b) && c != b
            && q == p + Pow2(k) && Aligned(p, k + 1) && Pow2(k + 1) == 2 * Pow2(k) && Pow2(k) > 0
  {
    var c, k := Buddy(b, v.order[b]), v.order[b];
    BuddyMeans(b, k);
    BuddyBack(b, k);
    p, q := if b < c then b else c, if b < c then c else b;
  }

  lemma MergeTiled(v: View, b: nat, w: View)
    requires Tiled(v) && Mergeable(v, b) && w == Merge(v, b, Buddy(b, v.order[b]))
    ensures Tiled(w)
  {
    hide Pow2, Aligned, Buddy;
    var k, c := v.order[b], Buddy(b, v.order[b]);
    var p, q := MergeAt(v, b);
    forall u: nat | u < |w.owner| ensures Covers(w, w.owner[u], u) {
      assert Covers(v, v.owner[u], u);
      if v.owner[u] == q { assert q <= u < q + Pow2(k); }
    }
    forall h, u: nat | Covers(w, h, u) && u < |w.owner| ensures w.owner[u] == h {
      if h != p { assert Covers(v, h, u); Apart(v, h, q, u); } else { assert Covers(v, p, u) || Covers(v, q, u); }
    }
  }

  lemma Apart(v: View, h: nat, q: nat, u: nat)
    requires Tiled(v) && Covers(v, h, u) && u < |v.owner| && h != q
    ensures !Covers(v, q, u) && v.owner[u] == h
  {
  }

  lemma MergeCanonical(v: View, b: nat, w: View)
    requires Tiled(v) && Canonical(v) && Mergeable(v, b) && w == Merge(v, b, Buddy(b, v.order[b])) && Tiled(w)
    ensures Canonical(w)
    ensures var c := Buddy(b, v.order[b]); Live(w) == (Live(v) - {b})[if b < c then b else c := v.order[b] + 1]
  {
    var c := Buddy(b, v.order[b]);
    forall h | h in w.free && w.order[h] < MAX_ORDER && Buddy(h, w.order[h]) in w.free
      ensures w.order[Buddy(h, w.order[h])] != w.order[h]
    {
      assert h in v.free && w.order[h] == v.order[h];
    }
    BuddyBack(b, v.order[b]);
    var p := if b < c then b else c;
    assert Live(w) == (Live(v) - {b})[p := v.order[b] + 1];
  }

  /** Putting a block back keeps the pool canonical when its buddy is not a free block of the same order. */
  lemma ReleaseCanonical(v: View, b: nat, w: View)
    requires Tiled(v) && Canonical(v) && b in v.order && b !in v.free && w == v.(free := v.free + {b})
    requires v.order[b] < MAX_ORDER && Buddy(b, v.order[b]) in v.free ==> v.order[Buddy(b, v.order[b])] != v.order[b]
    ensures Tiled(w) && Canonical(w) && Live(w) == Live(v) - {b}
  {
    ReleaseTiled(v, w);
    forall h | h in w.free && w.order[h] < MAX_ORDER && Buddy(h, w.order[h]) in w.free
      ensures w.order[Buddy(h, w.order[h])] != w.order[h]
    {
      BuddyBack(h, w.order[h]);
    }
  }

  lemma ReleaseTiled(v: View, w: View)
    requires Tiled(v) && w == v.(free := w.free) && w.free <= v.order.Keys
    ensures Tiled(w)
  {
    forall h, u: nat | Covers(w, h, u) && u < |w.owner| ensures w.owner[u] == h { assert Covers(v, h, u); }
    forall u: nat | u < |w.owner| ensures Covers(w, w.owner[u], u) { assert Covers(v, v.owner[u], u); }
  }

  /** Taking a free block off its list. */
  lemma TakeCanonical(v: View, b: nat, w: View)
    requires Tiled(v) && Canonical(v) && b in v.free && w == v.(free := v.free - {b})
    ensures Tiled(w) && Canonical(w) && Live(w) == Live(v)[b := v.order[b]]
  {
    ReleaseTiled(v, w);
    forall h | h in w.free && w.order[h] < MAX_ORDER && Buddy(h, w.order[h]) in w.free
      ensures w.order[Buddy(h, w.order[h])] != w.order[h]
    {
      assert h in v.free;
    }
  }
}
