/** inode_set_block on a logical block that is mapped already: its pointer is replaced and the old block is left
    hanging nowhere. */
module Ext2Replace {
  import opened Arith
  import opened Words
  import opened Forest
  import opened Ext2Groups
  import opened Ext2State
  import opened Ext2Layout
  import opened Ext2Grow
  import opened Ext2Tree

  /** leaf is a data place of inode ino, and holds a block. */
  ghost predicate Mapped(geo: Geometry, s: Fs, ino: nat, leaf: Pos) {
    && ValidPos(geo.Shape(), leaf) && Level(geo.Shape(), leaf) == 0 && Owner(leaf) == ino && ino in s.inodes
    && At(s, leaf) != 0
  }

  /** The root slot, or the table with its bytes, that holds the place. */
  ghost predicate Holds(s: Fs, leaf: Pos) {
    match leaf
    case Slot(o, i) => o in s.inodes && i < |s.inodes[o].block|
    case Child(q, i) =>
      var x := At(s, q);
      x in s.disk && x in s.tabs && i < |s.tabs[x]| && 4 * i + 4 <= |s.disk[x]|
  }

  /** The state with v at the place; only a pointer and the homes of two blocks change. */
  ghost function Swap(s: Fs, leaf: Pos, v: nat): Fs
    requires Holds(s, leaf) && v < U32
  {
    var home := (s.home - {At(s, leaf)})[v := leaf];
    match leaf
    case Slot(o, i) =>
      s.(inodes := s.inodes[o := s.inodes[o].(block := With(s.inodes[o].block, i, v))], home := home)
    case Child(q, i) =>
      var x := At(s, q);
      s.(disk := s.disk[x := PutWord(s.disk[x], 4 * i, v)], tabs := s.tabs[x := With(s.tabs[x], i, v)], home := home)
  }

  lemma MappedHolds(geo: Geometry, s: Fs, ino: nat, leaf: Pos)
    requires Ok(geo, s) && Mapped(geo, s, ino, leaf)
    ensures Holds(s, leaf) && At(s, leaf) in s.home && s.home[At(s, leaf)] == leaf
    ensures 0 < At(s, leaf) < geo.count && At(s, leaf) !in s.free
    ensures leaf.Child? ==> At(s, leaf.parent) in s.home && s.home[At(s, leaf.parent)] == leaf.parent
    ensures geo.count < U32
  {
    hide SectorsOk;
    if leaf.Child? { ParentIsTable(geo, s, leaf); }
  }

  /** Only the pointer at the place changes. */
  lemma SwapAt(geo: Geometry, s: Fs, ino: nat, leaf: Pos, v: nat, p: Pos)
    requires Ok(geo, s) && Mapped(geo, s, ino, leaf) && Loose(geo, s, v) && v < U32 && ValidPos(geo.Shape(), p)
    ensures Holds(s, leaf) && At(Swap(s, leaf, v), p) == if p == leaf then v else At(s, p)
  {
    hide SectorsOk, PutWord, Planted;
    MappedHolds(geo, s, ino, leaf);
    var s' := Swap(s, leaf, v);
    match leaf
    case Slot(o, i) =>
      assert RootsOf(s'.inodes) == RootsOf(s.inodes)[o := With(s.inodes[o].block, i, v)];
      HangSlot(geo.Shape(), s.tabs, RootsOf(s.inodes), s.home, leaf, v, p);
    case Child(q, i) =>
      HangChild(geo.Shape(), s.tabs, RootsOf(s.inodes), s.home, leaf, v, p);
  }

  /** The forest stays one, and the block that was at the place hangs nowhere. */
  lemma SwapTree(geo: Geometry, s: Fs, ino: nat, leaf: Pos, v: nat)
    requires Ok(geo, s) && Mapped(geo, s, ino, leaf) && Loose(geo, s, v) && v < U32
    ensures Holds(s, leaf) && TreeOk(geo, Swap(s, leaf, v)) && Loose(geo, Swap(s, leaf, v), At(s, leaf))
  {
    hide SectorsOk, At, Planted;
    MappedHolds(geo, s, ino, leaf);
    SwapPlanted(geo, s, ino, leaf, v);
  }

  lemma SwapPlanted(geo: Geometry, s: Fs, ino: nat, leaf: Pos, v: nat)
    requires Ok(geo, s) && Mapped(geo, s, ino, leaf) && Loose(geo, s, v) && v < U32 && Holds(s, leaf)
    ensures var s' := Swap(s, leaf, v); Planted(geo.Shape(), s'.tabs, RootsOf(s'.inodes), s'.home)
  {
    hide SectorsOk, Swap, Planted, Holds;
    var s' := Swap(s, leaf, v);
    SwapFields(s, leaf, v);
    forall p | ValidPos(geo.Shape(), p)
      ensures Node(s'.tabs, RootsOf(s'.inodes), p) == if p == leaf then v else Node(s.tabs, RootsOf(s.inodes), p)
    {
      SwapAt(geo, s, ino, leaf, v, p);
    }
    SwapWidth(geo, s, leaf, v);
    SwapKeeps(geo.Shape(), s.tabs, RootsOf(s.inodes), s.home, s'.tabs, RootsOf(s'.inodes), leaf, v);
  }

  lemma SwapFields(s: Fs, leaf: Pos, v: nat)
    requires Holds(s, leaf) && v < U32
    ensures var s' := Swap(s, leaf, v); s'.home == (s.home - {At(s, leaf)})[v := leaf] && s'.free == s.free
  {
  }

  lemma SwapWidth(geo: Geometry, s: Fs, leaf: Pos, v: nat)
    requires TreeOk(geo, s) && Holds(s, leaf) && v < U32 && Loose(geo, s, v)
    ensures v in s.tabs && |s.tabs[v]| == geo.Ppb() && forall b | b in s.home :: b in s.tabs && |s.tabs[b]| == geo.Ppb()
    ensures var s' := Swap(s, leaf, v);
            forall b | b in s.tabs :: b in s'.tabs && |s'.tabs[b]| == |s.tabs[b]|
  {
  }

  lemma SwapOk(geo: Geometry, s: Fs, ino: nat, leaf: Pos, v: nat)
    requires Ok(geo, s) && Mapped(geo, s, ino, leaf) && Loose(geo, s, v) && v < U32
    ensures Holds(s, leaf) && Ok(geo, Swap(s, leaf, v)) && Loose(geo, Swap(s, leaf, v), At(s, leaf))
  {
    hide TreeOk, At;
    SwapTree(geo, s, ino, leaf, v);
    var s' := Swap(s, leaf, v);
    forall o | o in s'.inodes ensures s'.inodes[o].sectors == Times(|Owned(s'.home, o)|, geo.bs / 512) {
      MappedHolds(geo, s, ino, leaf);
      SwapOwned(s.home, leaf, At(s, leaf), v, o);
    }
  }

  /** One block out, one in. */
  lemma SwapOwned(home: map<nat, Pos>, leaf: Pos, was: nat, v: nat, o: nat)
    requires was in home && home[was] == leaf && v !in home
    ensures |Owned((home - {was})[v := leaf], o)| == |Owned(home, o)|
  {
    var a, b := Owned(home, o), Owned((home - {was})[v := leaf], o);
    if o == Owner(leaf) {
      assert b == a - {was} + {v};
    } else {
      assert b == a;
    }
  }

  // The laws of setting a block that is mapped.

  lemma PutAgain(b: seq<byte>, at: nat, v: nat, w: nat)
    requires at + 4 <= |b| && v < U32 && w < U32
    ensures PutWord(PutWord(b, at, v), at, w) == PutWord(b, at, w)
  {
    hide WordBytes, Word;
    var x := PutWord(b, at, v);
    assert x[..at] == b[..at] && x[at + 4..] == b[at + 4..];
  }

  lemma PutBack(b: seq<byte>, at: nat, v: nat)
    requires at + 4 <= |b| && v < U32
    ensures PutWord(PutWord(b, at, v), at, Word(b, at)) == b
  {
    PutAgain(b, at, v, Word(b, at));
    WordOrder(b, at);
    assert WordBytes(Word(b, at)) == b[at..at + 4];
    assert b == b[..at] + b[at..at + 4] + b[at + 4..];
  }

  /** The table that holds the place is the same one after a set. */
  lemma SwapHolds(geo: Geometry, s: Fs, ino: nat, leaf: Pos, v: nat)
    requires Ok(geo, s) && Mapped(geo, s, ino, leaf) && Loose(geo, s, v) && v < U32
    ensures Holds(s, leaf) && Mapped(geo, Swap(s, leaf, v), ino, leaf) && Holds(Swap(s, leaf, v), leaf)
    ensures At(Swap(s, leaf, v), leaf) == v
    ensures leaf.Child? ==> At(Swap(s, leaf, v), leaf.parent) == At(s, leaf.parent)
  {
    hide At;
    SwapOk(geo, s, ino, leaf, v);
    SwapAt(geo, s, ino, leaf, v, leaf);
    if leaf.Child? { SwapAt(geo, s, ino, leaf, v, leaf.parent); }
    var s' := Swap(s, leaf, v);
    assert ino in s'.inodes;
    MappedHolds(geo, s', ino, leaf);
  }

  /** Setting twice is setting once. */
  lemma SetSet(geo: Geometry, s: Fs, ino: nat, leaf: Pos, v: nat, w: nat)
    requires Ok(geo, s) && Mapped(geo, s, ino, leaf) && Loose(geo, s, v) && Loose(geo, s, w) && v < U32 && w < U32
    ensures Holds(s, leaf) && Holds(Swap(s, leaf, v), leaf)
    ensures Swap(Swap(s, leaf, v), leaf, w) == Swap(s, leaf, w)
  {
    hide Ok, At, Mapped, PutWord;
    SwapHolds(geo, s, ino, leaf, v);
    var s' := Swap(s, leaf, v);
    assert s.home - {At(s, leaf)} == s'.home - {v} by { assert v !in s.home; }
    match leaf
    case Slot(o, i) =>
      var block := s.inodes[o].block;
      assert With(With(block, i, v), i, w) == With(block, i, w);
    case Child(q, i) =>
      var x := At(s, q);
      PutAgain(s.disk[x], 4 * i, v, w);
      assert With(With(s.tabs[x], i, v), i, w) == With(s.tabs[x], i, w);
  }

  /** Setting the block that was there before undoes a set. */
  lemma SetBack(geo: Geometry, s: Fs, ino: nat, leaf: Pos, v: nat)
    requires Ok(geo, s) && Mirror(s.disk, s.tabs) && Mapped(geo, s, ino, leaf) && Loose(geo, s, v) && v < U32
    ensures Holds(s, leaf) && Holds(Swap(s, leaf, v), leaf) && At(s, leaf) < U32
    ensures Swap(Swap(s, leaf, v), leaf, At(s, leaf)) == s
  {
    hide Ok, Mapped, PutWord;
    SwapHolds(geo, s, ino, leaf, v);
    MappedHolds(geo, s, ino, leaf);
    var s', was := Swap(s, leaf, v), At(s, leaf);
    assert (s'.home - {v})[was := leaf] == s.home;
    match leaf
    case Slot(o, i) =>
      var block := s.inodes[o].block;
      assert With(With(block, i, v), i, was) == block;
    case Child(q, i) =>
      var x := At(s, q);
      assert s.tabs[x] == Table(s.disk[x]);
      PutBack(s.disk[x], 4 * i, v);
      assert With(With(s.tabs[x], i, v), i, was) == s.tabs[x];
  }

  // The walk.

  /** phys can take the place of the block at leaf. */
  ghost predicate CanReplace(vol: Volume, s: Fs, ino: nat, leaf: Pos, phys: nat) {
    Mapped(vol.geo, s, ino, leaf) && Loose(vol.geo, s, phys) && vol.blay.Covers(phys) && phys < U32
  }

  ghost predicate Replaced(vol: Volume, s: Fs, vol': Volume, s': Fs, leaf: Pos, phys: nat) {
    && Holds(s, leaf) && phys < U32 && s' == Swap(s, leaf, phys)
    && SameVolume(vol, vol') && Valid(vol', s') && Loose(vol.geo, s', At(s, leaf))
  }

  /** Overwrite entry i of the table x that hangs at p. */
  method OverEntry(vol: Volume, ino: nat, x: nat, i: nat, phys: nat, ghost s: Fs, ghost p: Pos)
    returns (vol': Volume, ghost s': Fs)
    requires Valid(vol, s) && CanReplace(vol, s, ino, Child(p, i), phys) && x == At(s, p)
    ensures Replaced(vol, s, vol', s', Child(p, i), phys)
  {
    hide Ok, At, Represents;
    SwapOk(vol.geo, s, ino, Child(p, i), phys);
    MirrorPut(s.disk, s.tabs, x, i, phys);
    vol' := vol.(disk := vol.disk[x := PutWord(vol.disk[x], 4 * i, phys)]);
    s' := Swap(s, Child(p, i), phys);
  }

  /** Overwrite a direct pointer of the inode. */
  method OverSlot(vol: Volume, ino: nat, n: nat, phys: nat, ghost s: Fs) returns (vol': Volume, ghost s': Fs)
    requires Valid(vol, s) && CanReplace(vol, s, ino, Slot(ino, n), phys)
    ensures Replaced(vol, s, vol', s', Slot(ino, n), phys)
  {
    hide Ok, At, Represents, Mirror;
    SwapOk(vol.geo, s, ino, Slot(ino, n), phys);
    var inode := vol.inodes[ino];
    vol' := vol.(inodes := vol.inodes[ino := inode.(block := With(inode.block, n, phys))]);
    s' := Swap(s, Slot(ino, n), phys);
  }

  /** inode_set_block where a block is mapped: every table on the way exists, so nothing is allocated. */
  method ReplaceBlock(vol: Volume, ino: nat, n: nat, phys: nat, ghost s: Fs) returns (vol': Volume, ghost s': Fs)
    requires Valid(vol, s) && n < vol.geo.MaxBlocks() && CanReplace(vol, s, ino, Leaf(vol.geo, ino, n), phys)
    ensures Replaced(vol, s, vol', s', Leaf(vol.geo, ino, n), phys)
  {
    hide Rep, Ok, TreeOk, At, CanReplace, Replaced, DoubleAt, TripleAt, Times;
    ReplaceInode(vol, ino, n, phys, s);
    GetFacts(vol, ino, n, s);
    var w := vol.geo.Ppb();
    if n < NDIR {
      vol', s' := OverSlot(vol, ino, n, phys, s);
      return;
    }
    var m := n - NDIR;
    if m < w {
      vol', s' := OverEntry(vol, ino, vol.inodes[ino].block[IND], m, phys, s, Slot(ino, IND));
    } else {
      TimesMul(w, w);
      if m - w < w * w {
        vol', s' := OverDouble(vol, ino, m - w, phys, s);
      } else {
        vol', s' := OverTriple(vol, ino, m - w - w * w, phys, s);
      }
    }
  }

  lemma ReplaceInode(vol: Volume, ino: nat, n: nat, phys: nat, s: Fs)
    requires Valid(vol, s) && n < vol.geo.MaxBlocks() && CanReplace(vol, s, ino, Leaf(vol.geo, ino, n), phys)
    ensures ino in vol.inodes && vol.geo.Ok()
  {
    hide Represents, Mirror, SectorsOk, Leaf;
  }

  method OverDouble(vol: Volume, ino: nat, m: nat, phys: nat, ghost s: Fs) returns (vol': Volume, ghost s': Fs)
    requires Valid(vol, s) && ino in vol.inodes && m < Times(vol.geo.Ppb(), vol.geo.Ppb())
    requires CanReplace(vol, s, ino, DoubleAt(vol.geo.Ppb(), ino, m), phys)
    ensures Replaced(vol, s, vol', s', DoubleAt(vol.geo.Ppb(), ino, m), phys)
  {
    hide CanReplace, Replaced, Quo, Rem, Times;
    var i, j := SplitDouble(m, vol.geo.Ppb());
    DoublePlace(vol.geo, ino, m, vol.geo.Ppb());
    ghost var root := Slot(ino, DIND);
    var ind := Follow(vol, vol.inodes[ino].block[DIND], i, s, root);
    vol', s' := OverEntry(vol, ino, ind, j, phys, s, Child(root, i));
  }

  method OverTriple(vol: Volume, ino: nat, m: nat, phys: nat, ghost s: Fs) returns (vol': Volume, ghost s': Fs)
    requires Valid(vol, s) && ino in vol.inodes && m < Times(Times(vol.geo.Ppb(), vol.geo.Ppb()), vol.geo.Ppb())
    requires CanReplace(vol, s, ino, TripleAt(vol.geo.Ppb(), ino, m), phys)
    ensures Replaced(vol, s, vol', s', TripleAt(vol.geo.Ppb(), ino, m), phys)
  {
    hide CanReplace, Replaced, Quo, Rem, Times;
    var i, j, k := SplitTriple(m, vol.geo.Ppb());
    TriplePlace(vol.geo, ino, m, vol.geo.Ppb());
    ghost var root := Slot(ino, TIND);
    var dind := Follow(vol, vol.inodes[ino].block[TIND], i, s, root);
    var ind := Follow(vol, dind, j, s, Child(root, i));
    vol', s' := OverEntry(vol, ino, ind, k, phys, s, Child(Child(root, i), j));
  }

  /** Replacing logical block n and then getting it gives the new block; every other logical block of every
      inode keeps its pointer and its bytes. */
  lemma ReplaceLaws(vol: Volume, s: Fs, vol': Volume, s': Fs, ino: nat, n: nat, phys: nat, o: nat, k: nat)
    requires Valid(vol, s) && n < vol.geo.MaxBlocks() && k < vol.geo.MaxBlocks() && vol.geo.Ok()
    requires CanReplace(vol, s, ino, Leaf(vol.geo, ino, n), phys)
    requires Replaced(vol, s, vol', s', Leaf(vol.geo, ino, n), phys)
    ensures At(s', Leaf(vol.geo, ino, n)) == phys && s'.disk[phys] == s.disk[phys]
    ensures (o, k) != (ino, n) ==>
              var b := At(s, Leaf(vol.geo, o, k));
              At(s', Leaf(vol.geo, o, k)) == b && (b != 0 ==> b in s.disk && b in s'.disk && s'.disk[b] == s.disk[b])
  {
    hide Rep, Leaf, At, SectorsOk, Planted;
    var leaf, q := Leaf(vol.geo, ino, n), Leaf(vol.geo, o, k);
    LeafPlace(vol.geo, ino, n);
    LeafPlace(vol.geo, o, k);
    LeafInjective(vol.geo, o, k, ino, n);
    SwapAt(vol.geo, s, ino, leaf, phys, leaf);
    SwapAt(vol.geo, s, ino, leaf, phys, q);
    MappedHolds(vol.geo, s, ino, leaf);
    if At(s, q) != 0 { DataHome(vol.geo, s, q); }
  }

  lemma DataHome(geo: Geometry, s: Fs, q: Pos)
    requires Ok(geo, s) && ValidPos(geo.Shape(), q) && At(s, q) != 0
    ensures At(s, q) in s.home && s.home[At(s, q)] == q && At(s, q) in s.disk
  {
    hide SectorsOk;
  }
}
