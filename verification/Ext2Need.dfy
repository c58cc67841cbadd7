/** The blocks that a range of bytes needs: the empty places among the leaves of its logical blocks and
    the tables above them, each counted once. */
module Ext2Need {
  import opened Arith
  import opened Forest
  import opened Sets
  import opened Ext2State
  import opened Ext2Layout
  import opened Ext2Grow

  /** The empty places at p and above it. */
  ghost function Empties(s: Fs, p: Pos): set<Pos> {
    (if At(s, p) == 0 then {p} else {}) +
    match p
    case Slot(_, _) => {}
    case Child(q, _) => Empties(s, q)
  }

  lemma {:induction false} InEmpties(s: Fs, p: Pos, q: Pos)
    ensures q in Empties(s, p) <==> Under(p, q) && At(s, q) == 0
  {
    hide At;
    if p.Child? { InEmpties(s, p.parent, q); }
  }

  /** They are the missing tables and, where there is none, the block at p itself. */
  lemma {:induction false} EmptiesCount(s: Fs, p: Pos)
    ensures |Empties(s, p)| == Missing(s, p) + if At(s, p) == 0 then 1 else 0
  {
    hide At;
    if p.Child? {
      EmptiesCount(s, p.parent);
      InEmpties(s, p.parent, p);
      NotUnderChild(p.parent, p);
    }
  }

  /** Nothing is empty above a pointer. */
  lemma {:induction false} NoEmpties(s: Fs, p: Pos)
    requires At(s, p) != 0
    ensures Empties(s, p) == {}
  {
    if p.Child? { NoEmpties(s, p.parent); }
  }

  lemma {:induction false} UnderTrans(p: Pos, q: Pos, r: Pos)
    requires Under(p, q) && Under(q, r)
    ensures Under(p, r)
  {
    if p != q { UnderTrans(p.parent, q, r); }
  }

  lemma {:induction false} UnderValid(sh: Shape, p: Pos, q: Pos)
    requires ValidPos(sh, p) && Under(p, q)
    ensures ValidPos(sh, q) && Owner(q) == Owner(p)
  {
    if p != q { UnderValid(sh, p.parent, q); }
  }

  /** What is empty above an empty place is empty above everything below it. */
  lemma EmptiesClosed(s: Fs, p: Pos, q: Pos)
    requires q in Empties(s, p)
    ensures Empties(s, q) <= Empties(s, p)
  {
    hide At, Empties;
    InEmpties(s, p, q);
    forall r | r in Empties(s, q) ensures r in Empties(s, p) {
      InEmpties(s, q, r);
      UnderTrans(p, q, r);
      InEmpties(s, p, r);
    }
  }

  /** The need of the logical blocks from lo up to hi of inode o. */
  ghost function Need(geo: Geometry, s: Fs, o: nat, lo: nat, hi: nat): set<Pos>
    requires geo.Ok()
  {
    if hi <= lo then {} else Need(geo, s, o, lo, hi - 1) + Empties(s, Leaf(geo, o, hi - 1))
  }

  /** The block behind the n bytes at offset c. */
  function Past(geo: Geometry, c: nat, n: nat): nat
    requires geo.Ok()
  {
    if n == 0 then Quo(c, geo.bs) else Quo(c + n - 1, geo.bs) + 1
  }

  /** The need of the n bytes at offset c of inode o. */
  ghost function NeedBytes(geo: Geometry, s: Fs, o: nat, c: nat, n: nat): set<Pos>
    requires geo.Ok()
  {
    Need(geo, s, o, Quo(c, geo.bs), Past(geo, c, n))
  }

  lemma {:induction false} NeedHas(geo: Geometry, s: Fs, o: nat, lo: nat, hi: nat, k: nat)
    requires geo.Ok() && lo <= k < hi
    ensures Empties(s, Leaf(geo, o, k)) <= Need(geo, s, o, lo, hi)
  {
    hide Leaf, Empties;
    if k < hi - 1 { NeedHas(geo, s, o, lo, hi - 1, k); }
  }

  lemma {:induction false} NeedFrom(geo: Geometry, s: Fs, o: nat, lo: nat, hi: nat, q: Pos) returns (k: nat)
    requires geo.Ok() && q in Need(geo, s, o, lo, hi)
    ensures lo <= k < hi && q in Empties(s, Leaf(geo, o, k))
    decreases hi
  {
    hide Leaf, Empties;
    if q in Empties(s, Leaf(geo, o, hi - 1)) { return hi - 1; }
    k := NeedFrom(geo, s, o, lo, hi - 1, q);
  }

  lemma {:induction false} NeedMono(geo: Geometry, s: Fs, o: nat, lo: nat, hi: nat, hi': nat)
    requires geo.Ok() && hi <= hi'
    ensures Need(geo, s, o, lo, hi) <= Need(geo, s, o, lo, hi')
  {
    hide Leaf, Empties;
    if hi < hi' { NeedMono(geo, s, o, lo, hi, hi' - 1); }
  }

  lemma QuoMono(x: nat, y: nat, n: nat)
    requires n > 0 && x <= y
    ensures Quo(x, n) <= Quo(y, n)
  {
    QuoRem(x, n);
    QuoRem(y, n);
    if Quo(y, n) < Quo(x, n) { TimesLess(Quo(y, n), Quo(x, n), n); }
  }

  lemma PastMono(geo: Geometry, c: nat, n: nat, n': nat)
    requires geo.Ok() && n <= n'
    ensures Quo(c, geo.bs) <= Past(geo, c, n) <= Past(geo, c, n')
  {
    hide Quo;
    if n > 0 {
      QuoMono(c, c + n - 1, geo.bs);
      QuoMono(c + n - 1, c + n' - 1, geo.bs);
    } else if n' > 0 {
      QuoMono(c, c + n' - 1, geo.bs);
    }
  }

  /** More bytes need no less. */
  lemma BytesMono(geo: Geometry, s: Fs, o: nat, c: nat, n: nat, n': nat)
    requires geo.Ok() && n <= n'
    ensures NeedBytes(geo, s, o, c, n) <= NeedBytes(geo, s, o, c, n')
    ensures |NeedBytes(geo, s, o, c, n)| <= |NeedBytes(geo, s, o, c, n')|
  {
    hide Need, Past;
    PastMono(geo, c, n, n');
    NeedMono(geo, s, o, Quo(c, geo.bs), Past(geo, c, n), Past(geo, c, n'));
    Fewer(NeedBytes(geo, s, o, c, n), NeedBytes(geo, s, o, c, n'));
  }

  /** After n bytes, len more that lie in one block need what that block needs. */
  lemma NeedStep(geo: Geometry, s: Fs, o: nat, c: nat, n: nat, len: nat)
    requires geo.Ok() && 0 < len && Rem(c + n, geo.bs) + len <= geo.bs
    ensures NeedBytes(geo, s, o, c, n + len) ==
        NeedBytes(geo, s, o, c, n) + Empties(s, Leaf(geo, o, Quo(c + n, geo.bs)))
  {
    hide Quo, Rem, Leaf, Empties;
    var bs, k := geo.bs, Quo(c + n, geo.bs);
    SameQuo(bs, c + n, c + n + len - 1);
    assert Past(geo, c, n + len) == k + 1;
    QuoMono(c, c + n, bs);
    if n > 0 { NextQuo(c + n - 1, bs); }
    if Past(geo, c, n) == k + 1 { NeedHas(geo, s, o, Quo(c, bs), k + 1, k); }
  }

  lemma NextQuo(x: nat, n: nat)
    requires n > 0
    ensures Quo(x, n) <= Quo(x + 1, n) <= Quo(x, n) + 1
  {
    hide Quo, Rem;
    QuoMono(x, x + 1, n);
    QuoRem(x, n);
    QuoRem(x + 1, n);
    if Quo(x, n) + 1 < Quo(x + 1, n) { TimesLess(Quo(x, n) + 1, Quo(x + 1, n), n); }
    assert Times(Quo(x, n) + 1, n) == Times(Quo(x, n), n) + n;
  }

  lemma {:induction false} EmptiesSame(geo: Geometry, s: Fs, s': Fs, p: Pos)
    requires ValidPos(geo.Shape(), p) && forall q | ValidPos(geo.Shape(), q) :: At(s', q) == At(s, q)
    ensures Empties(s', p) == Empties(s, p)
  {
    hide At;
    if p.Child? { EmptiesSame(geo, s, s', p.parent); }
  }

  // States in which a set of places has been filled.

  /** The empty data places of s are those of s' and the ones in N. */
  ghost predicate Filling(geo: Geometry, s: Fs, s': Fs, N: set<Pos>) {
    forall p {:trigger At(s', p)} | ValidPos(geo.Shape(), p) && Level(geo.Shape(), p) == 0 ::
      At(s', p) == 0 <==> At(s, p) == 0 && p !in N
  }

  /** The same for all places, and each of them took one free block. */
  ghost predicate Covering(geo: Geometry, s: Fs, s': Fs, N: set<Pos>) {
    && (forall p {:trigger At(s', p)} | ValidPos(geo.Shape(), p) :: At(s', p) == 0 <==> At(s, p) == 0 && p !in N)
    && |s'.free| + |N| == |s.free|
  }

  lemma EmptiesAfter(geo: Geometry, s: Fs, s': Fs, N: set<Pos>, p: Pos)
    requires Covering(geo, s, s', N) && ValidPos(geo.Shape(), p)
    ensures Empties(s', p) == Empties(s, p) - N
  {
    hide At, Empties, ValidPos;
    forall q ensures q in Empties(s', p) <==> q in Empties(s, p) - N {
      InEmpties(s, p, q);
      InEmpties(s', p, q);
      if Under(p, q) { UnderValid(geo.Shape(), p, q); }
    }
  }

  lemma {:induction false} NeedAfter(geo: Geometry, s: Fs, s': Fs, N: set<Pos>, o: nat, lo: nat, hi: nat)
    requires geo.Ok() && Covering(geo, s, s', N) && hi <= geo.MaxBlocks()
    ensures Need(geo, s', o, lo, hi) == Need(geo, s, o, lo, hi) - N
  {
    hide Leaf, Empties, Covering, ValidPos;
    if lo < hi {
      NeedAfter(geo, s, s', N, o, lo, hi - 1);
      LeafPlace(geo, o, hi - 1);
      EmptiesAfter(geo, s, s', N, Leaf(geo, o, hi - 1));
    }
  }

  /** Filling N and then what is left of E fills both. */
  lemma CoverMore(geo: Geometry, s0: Fs, s1: Fs, s2: Fs, N: set<Pos>, E: set<Pos>)
    requires Covering(geo, s0, s1, N) && Covering(geo, s1, s2, E - N)
    ensures Covering(geo, s0, s2, N + E)
  {
    hide At, ValidPos;
    assert N + E == N + (E - N);
    forall p | ValidPos(geo.Shape(), p) ensures At(s2, p) == 0 <==> At(s0, p) == 0 && p !in N + E {
      assert At(s1, p) == 0 <==> At(s0, p) == 0 && p !in N;
    }
  }

  lemma FillMore(geo: Geometry, s0: Fs, s1: Fs, s2: Fs, N: set<Pos>, E: set<Pos>)
    requires Filling(geo, s0, s1, N) && Filling(geo, s1, s2, E)
    ensures Filling(geo, s0, s2, N + E)
  {
    hide At, ValidPos, Level;
    forall p | ValidPos(geo.Shape(), p) && Level(geo.Shape(), p) == 0
      ensures At(s2, p) == 0 <==> At(s0, p) == 0 && p !in N + E
    {
      assert At(s1, p) == 0 <==> At(s0, p) == 0 && p !in N;
    }
  }

  lemma CoverFills(geo: Geometry, s: Fs, s': Fs, N: set<Pos>)
    requires Covering(geo, s, s', N)
    ensures Filling(geo, s, s', N)
  {
    hide At, ValidPos, Level;
  }

  lemma SameCovers(geo: Geometry, s: Fs, s': Fs)
    requires (forall p | ValidPos(geo.Shape(), p) :: At(s', p) == At(s, p)) && s'.free == s.free
    ensures Covering(geo, s, s', {})
  {
    hide At, ValidPos;
  }

  /** Where the tree of every inode is the same, so are the pointers. */
  lemma SameHomeAt(geo: Geometry, s: Fs, s': Fs, p: Pos)
    requires Ok(geo, s) && Ok(geo, s') && s'.home == s.home && ValidPos(geo.Shape(), p)
    ensures At(s', p) == At(s, p)
  {
    hide SectorsOk, Node, ValidPos;
    var b, b' := At(s, p), At(s', p);
    if b != 0 { assert s.home[b] == p; }
    if b' != 0 { assert s'.home[b'] == p; }
  }

  /** A block hung at an empty leaf together with the tables above it fills exactly what was empty there. */
  lemma GrownCovers(geo: Geometry, s: Fs, s': Fs, leaf: Pos, v: nat)
    requires Grown(geo, s, s', leaf, v) && v != 0 && ValidPos(geo.Shape(), leaf) && Level(geo.Shape(), leaf) == 0
    requires At(s, leaf) == 0 && |s'.free| + Missing(s, leaf) == |s.free|
    ensures forall p | ValidPos(geo.Shape(), p) :: At(s', p) == 0 <==> At(s, p) == 0 && p !in Empties(s, leaf)
    ensures |s'.free| + |Empties(s, leaf)| == |s.free| + 1
  {
    hide At, ValidPos, Ok, Level, SameInodes, SameBlocks, SameData, Missing, Empties;
    EmptiesCount(s, leaf);
    forall p | ValidPos(geo.Shape(), p) ensures At(s', p) == 0 <==> At(s, p) == 0 && p !in Empties(s, leaf) {
      InEmpties(s, leaf, p);
      NoEmpties(s', leaf);
      InEmpties(s', leaf, p);
    }
  }

  /** A hook that failed moved no data pointer. */
  lemma GrownFills(geo: Geometry, s: Fs, s': Fs, leaf: Pos)
    requires Grown(geo, s, s', leaf, 0) && At(s, leaf) == 0
    ensures Filling(geo, s, s', {})
  {
    hide At, ValidPos, Ok, Level, SameInodes, SameBlocks, SameData;
  }
}
