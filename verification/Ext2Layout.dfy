/** Where logical block n of a file hangs. */
module Ext2Layout {
  import opened Arith
  import opened Words
  import opened Forest
  import opened Ext2State

  /** The place of logical block n of inode o: direct, single, double or triple indirect, with w
      pointers per block. */
  function LeafAt(w: nat, o: nat, n: nat): Pos
    requires w > 0
  {
    if n < NDIR then Slot(o, n)
    else if n - NDIR < w then Child(Slot(o, IND), n - NDIR)
    else if n - NDIR - w < Times(w, w) then DoubleAt(w, o, n - NDIR - w)
    else TripleAt(w, o, n - NDIR - w - Times(w, w))
  }

  function DoubleAt(w: nat, o: nat, m: nat): Pos
    requires w > 0
  {
    Child(Child(Slot(o, DIND), Quo(m, w)), Rem(m, w))
  }

  function TripleAt(w: nat, o: nat, m: nat): Pos
    requires w > 0
  {
    Child(Child(Child(Slot(o, TIND), Quo(Quo(m, w), w)), Rem(Quo(m, w), w)), Rem(m, w))
  }

  function Leaf(geo: Geometry, o: nat, n: nat): Pos
    requires geo.Ok()
  {
    LeafAt(geo.Ppb(), o, n)
  }

  /** The logical block number of a data place. */
  function Index(w: nat, p: Pos): nat {
    match p
    case Slot(_, i) => i
    case Child(Slot(_, _), i) => NDIR + i
    case Child(Child(Slot(_, _), i), j) => NDIR + w + Times(i, w) + j
    case Child(Child(Child(Slot(_, _), i), j), k) => NDIR + w + Times(w, w) + Times(Times(i, w) + j, w) + k
    case _ => 0
  }

  ghost predicate DataPlace(geo: Geometry, p: Pos, o: nat, n: nat) {
    ValidPos(geo.Shape(), p) && Level(geo.Shape(), p) == 0 && Owner(p) == o && Index(geo.Ppb(), p) == n
  }

  lemma TablePlaces(geo: Geometry, o: nat, i: nat, j: nat, k: nat)
    requires geo.Ok() && i < geo.Ppb() && j < geo.Ppb() && k < geo.Ppb()
    ensures var w := geo.Ppb();
            && DataPlace(geo, Child(Child(Slot(o, DIND), i), j), o, NDIR + w + Times(i, w) + j)
            && DataPlace(geo, Child(Child(Child(Slot(o, TIND), i), j), k), o,
                NDIR + w + Times(w, w) + Times(Times(i, w) + j, w) + k)
  {
    var p, q := Child(Slot(o, DIND), i), Child(Slot(o, TIND), i);
    assert Owner(p) == o && Level(geo.Shape(), p) == 1 && ValidPos(geo.Shape(), p);
    assert Owner(q) == o && Level(geo.Shape(), q) == 2 && ValidPos(geo.Shape(), q);
    assert Owner(Child(q, j)) == o && Level(geo.Shape(), Child(q, j)) == 1 && ValidPos(geo.Shape(), Child(q, j));
  }

  lemma DoublePlace(geo: Geometry, o: nat, m: nat, w: nat)
    requires geo.Ok() && w == geo.Ppb() && m < Times(w, w)
    ensures DataPlace(geo, DoubleAt(w, o, m), o, NDIR + w + m) && Quo(m, w) < w
  {
    QuoRem(m, w);
    QuoLess(m, w, w);
    TablePlaces(geo, o, Quo(m, w), Rem(m, w), 0);
  }

  lemma TriplePlace(geo: Geometry, o: nat, m: nat, w: nat)
    requires geo.Ok() && w == geo.Ppb() && m < Times(Times(w, w), w)
    ensures DataPlace(geo, TripleAt(w, o, m), o, NDIR + w + Times(w, w) + m) && Quo(Quo(m, w), w) < w
  {
    QuoRem(m, w);
    QuoLess(m, Times(w, w), w);
    var q := Quo(m, w);
    QuoRem(q, w);
    QuoLess(q, w, w);
    TablePlaces(geo, o, Quo(q, w), Rem(q, w), Rem(m, w));
  }

  /** Every logical block number below the limit has a data place of its own. */
  lemma LeafPlace(geo: Geometry, o: nat, n: nat)
    requires geo.Ok() && n < geo.MaxBlocks()
    ensures DataPlace(geo, Leaf(geo, o, n), o, n)
  {
    var w := geo.Ppb();
    if n >= NDIR + w {
      if n - NDIR - w < Times(w, w) { DoublePlace(geo, o, n - NDIR - w, w); }
      else { TriplePlace(geo, o, n - NDIR - w - Times(w, w), w); }
    }
  }

  lemma LeafInjective(geo: Geometry, o: nat, n: nat, o': nat, n': nat)
    requires geo.Ok() && n < geo.MaxBlocks() && n' < geo.MaxBlocks()
    ensures Leaf(geo, o, n) == Leaf(geo, o', n') <==> o == o' && n == n'
  {
    LeafPlace(geo, o, n);
    LeafPlace(geo, o', n');
  }

  lemma DoubleOnto(w: nat, o: nat, i: nat, j: nat)
    requires i < w && j < w
    ensures Times(i, w) + j < Times(w, w)
    ensures LeafAt(w, o, NDIR + w + Times(i, w) + j) == Child(Child(Slot(o, DIND), i), j)
  {
    hide Times, Quo, Rem;
    TimesLess(i, w, w);
    QuoOf(i, w, j);
  }

  lemma TripleOnto(w: nat, o: nat, i: nat, j: nat, k: nat)
    requires i < w && j < w && k < w
    ensures Times(Times(i, w) + j, w) + k < Times(Times(w, w), w)
    ensures LeafAt(w, o, NDIR + w + Times(w, w) + Times(Times(i, w) + j, w) + k) ==
              Child(Child(Child(Slot(o, TIND), i), j), k)
  {
    hide Times, Quo, Rem;
    TimesLess(i, w, w);
    TimesLess(Times(i, w) + j, Times(w, w), w);
    QuoOf(Times(i, w) + j, w, k);
    QuoOf(i, w, j);
  }

  /** Conversely, every data place of an inode is that of an addressable logical block. */
  lemma LeafOnto(geo: Geometry, p: Pos)
    requires geo.Ok() && ValidPos(geo.Shape(), p) && Level(geo.Shape(), p) == 0
    ensures Index(geo.Ppb(), p) < geo.MaxBlocks() && Leaf(geo, Owner(p), Index(geo.Ppb(), p)) == p
  {
    hide Times, Quo, Rem;
    var w, o, sh := geo.Ppb(), Owner(p), geo.Shape();
    if p.Slot? { return; }
    Above(sh, p);
    var q := p.parent;
    if q.Slot? { return; }
    Above(sh, q);
    var r := q.parent;
    if r.Slot? {
      DoubleOnto(w, o, q.index, p.index);
      return;
    }
    Above(sh, r);
    TopLevel(sh, r.parent);
    TripleOnto(w, o, r.index, q.index, p.index);
  }

  lemma Above(sh: Shape, p: Pos)
    requires ValidPos(sh, p) && p.Child?
    ensures ValidPos(sh, p.parent) && Level(sh, p.parent) == Level(sh, p) + 1 && Owner(p.parent) == Owner(p)
    ensures p.index < sh.width
  {
  }

  lemma {:induction false} TopLevel(sh: Shape, p: Pos)
    requires ValidPos(sh, p) && sh == Shape(NBLOCKS, NDIR, 0, sh.width)
    ensures Level(sh, p) <= 3 && (Level(sh, p) == 3 ==> p.Slot?)
  {
    if p.Child? { TopLevel(sh, p.parent); }
  }

  lemma QuoOf(i: nat, w: nat, j: nat)
    requires j < w
    ensures Quo(Times(i, w) + j, w) == i && Rem(Times(i, w) + j, w) == j
  {
    QuoRem(Times(i, w) + j, w);
    TimesMul(i, w);
    DivModUnique(Times(i, w) + j, w, i, j);
  }

  /** Offsets below 2^32 stay within the addressable blocks. */
  lemma OffsetAddressable(geo: Geometry, i: nat)
    requires geo.Ok() && i < U32
    ensures Quo(i, geo.bs) < geo.MaxBlocks()
  {
    var w := geo.Ppb();
    assert i < 0x40_0000 * geo.bs;
    TimesMul(0x40_0000, geo.bs);
    QuoLess(i, 0x40_0000, geo.bs);
    TimesMul(w, w);
    MulMono(256, w, w);
    assert Times(w, w) >= 0x1_0000;
    TimesMul(Times(w, w), w);
    MulMono(0x1_0000, Times(w, w), w);
  }
}
