/** Space for names: what removing an entry does to the room in a directory, and when a directory can
    get another block. */
module Ext2Space {
  import opened Arith
  import opened Words
  import opened Options
  import opened Ext2State
  import opened Ext2Layout
  import opened Ext2Dirent
  import opened Ext2Data
  import opened Ext2Directory
  import opened Ext2Names

  /** Block x of a directory without the record that has the name. */
  ghost function CutData(x: Option<seq<byte>>, name: Name): Option<seq<byte>> {
    if x.Some? && Chain(x.value, 0) && |x.value| < U16 then Some(Cut(x.value, name)) else x
  }

  /** Every block of d is the one it was without the record that has the name. */
  ghost predicate AllCut(geo: Geometry, s: Fs, s': Fs, d: nat, name: Name)
    requires geo.Ok() && d in s.inodes
  {
    forall n: nat {:trigger BlockData(geo, s', d, n)} | n < Blocks(geo, s.inodes, d) ::
      BlockData(geo, s', d, n) == CutData(BlockData(geo, s, d, n), name)
  }

  lemma CutDataElse(x: Option<seq<byte>>, name: Name)
    requires !NameIn(BagOf(x), name)
    ensures CutData(x, name) == x
  {
    hide Chain, Bag, NameIn, Cut;
    if x.Some? && Chain(x.value, 0) && |x.value| < U16 { CutElse(x.value, name); }
  }

  // A name is in one block only.

  lemma {:induction false} BlockShare(geo: Geometry, s: Fs, d: nat, i: nat, n: nat, e: Entry)
    requires geo.Ok() && i < n
    ensures DirBag(geo, s, d, n)[e] >= BagOf(BlockData(geo, s, d, i))[e]
  {
    hide BagOf, BlockData;
    if i < n - 1 { BlockShare(geo, s, d, i, n - 1, e); }
  }

  lemma {:induction false} TwoBlocks(geo: Geometry, s: Fs, d: nat, i: nat, j: nat, n: nat, e: Entry)
    requires geo.Ok() && i < j < n
    ensures DirBag(geo, s, d, n)[e] >= BagOf(BlockData(geo, s, d, i))[e] + BagOf(BlockData(geo, s, d, j))[e]
  {
    hide BagOf, BlockData;
    if j < n - 1 {
      TwoBlocks(geo, s, d, i, j, n - 1, e);
    } else {
      BlockShare(geo, s, d, i, n - 1, e);
    }
  }

  lemma NamedEntry(geo: Geometry, s: Fs, d: nat, m: NameMap, name: Name, i: nat, n: nat)
    requires geo.Ok() && i < n && Names(DirBag(geo, s, d, n), m) && NameIn(BagOf(BlockData(geo, s, d, i)), name)
    ensures name in m && BagOf(BlockData(geo, s, d, i))[Entry(name, m[name].0, m[name].1)] > 0
  {
    hide BagOf, BlockData, DirBag;
    var e :| e in BagOf(BlockData(geo, s, d, i)) && e.name == name;
    BlockShare(geo, s, d, i, n, e);
    assert DirBag(geo, s, d, n)[e] > 0;
  }

  lemma OnePlace(geo: Geometry, s: Fs, d: nat, m: NameMap, name: Name, i: nat, j: nat, n: nat)
    requires geo.Ok() && i < n && j < n && Names(DirBag(geo, s, d, n), m)
    requires NameIn(BagOf(BlockData(geo, s, d, i)), name) && NameIn(BagOf(BlockData(geo, s, d, j)), name)
    ensures i == j
  {
    hide BagOf, BlockData, DirBag, NameIn;
    NamedEntry(geo, s, d, m, name, i, n);
    NamedEntry(geo, s, d, m, name, j, n);
    var e := Entry(name, m[name].0, m[name].1);
    assert DirBag(geo, s, d, n)[e] <= 1;
    if i < j { TwoBlocks(geo, s, d, i, j, n, e); }
    if j < i { TwoBlocks(geo, s, d, j, i, n, e); }
  }

  /** Removing an entry cuts its name out of every block. */
  lemma CutEverywhere(geo: Geometry, s: Fs, s': Fs, d: nat, m: NameMap, name: Name)
    requires geo.Ok() && IsDir(geo, s, d, m) && d in s.inodes && CutOnce(geo, s, s', d, name)
    ensures AllCut(geo, s, s', d, name)
  {
    hide BagOf, BlockData, DirBag, NameIn, DirOk, Names, Cut, CutData, Chain, Bag, Quo;
    var n: nat, x :| CutHere(geo, s, s', d, name, n, x);
    var count := Blocks(geo, s.inodes, d);
    CutBlock(geo, s, d, n, x, name);
    SizeAddressable(geo, s, d);
    forall k: nat | k < count ensures BlockData(geo, s', d, k) == CutData(BlockData(geo, s, d, k), name) {
      if k != n {
        if NameIn(BagOf(BlockData(geo, s, d, k)), name) { OnePlace(geo, s, d, m, name, k, n, count); }
        CutDataElse(BlockData(geo, s, d, k), name);
      }
    }
  }

  lemma CutBlock(geo: Geometry, s: Fs, d: nat, n: nat, x: seq<byte>, name: Name)
    requires geo.Ok() && BlockData(geo, s, d, n) == Some(x) && Chain(x, 0) && |x| < U16 && NameIn(Bag(x, 0), name)
    ensures CutData(BlockData(geo, s, d, n), name) == Some(Cut(x, name)) && NameIn(BagOf(BlockData(geo, s, d, n)), name)
  {
    hide BlockData, Chain, Bag, Cut, NameIn;
  }

  /** A name that is not in the directory is in none of its blocks. */
  lemma CutNothing(geo: Geometry, s: Fs, d: nat, m: NameMap, name: Name)
    requires geo.Ok() && IsDir(geo, s, d, m) && d in s.inodes && name !in m
    ensures AllCut(geo, s, s, d, name)
  {
    hide BagOf, BlockData, DirBag, NameIn, DirOk, Names, CutData, Quo;
    forall k: nat | k < Blocks(geo, s.inodes, d)
      ensures BlockData(geo, s, d, k) == CutData(BlockData(geo, s, d, k), name)
    {
      if NameIn(BagOf(BlockData(geo, s, d, k)), name) { NamedEntry(geo, s, d, m, name, k, Blocks(geo, s.inodes, d)); }
      CutDataElse(BlockData(geo, s, d, k), name);
    }
  }

  /** Other changes that leave d alone keep its blocks cut. */
  lemma CutKept(geo: Geometry, s: Fs, s1: Fs, s2: Fs, d: nat, name: Name)
    requires geo.Ok() && DirOk(geo, s, d) && d in s.inodes && AllCut(geo, s, s1, d, name) && SameFile(geo, s1, s2, d)
    ensures AllCut(geo, s, s2, d, name)
  {
    hide BlockData, DirOk, CutData, Quo;
    SizeAddressable(geo, s, d);
    forall k: nat | k < Blocks(geo, s.inodes, d)
      ensures BlockData(geo, s2, d, k) == CutData(BlockData(geo, s, d, k), name)
    {
      assert BlockData(geo, s1, d, k) == CutData(BlockData(geo, s, d, k), name);
    }
  }

  // Room.

  /** After both names are cut out of d, some record has room for `needed` bytes. */
  ghost predicate RoomWithout(geo: Geometry, s: Fs, d: nat, was: Name, name: Name, needed: nat)
    requires geo.Ok() && d in s.inodes
  {
    exists n: nat {:trigger BlockData(geo, s, d, n)} ::
      n < Blocks(geo, s.inodes, d) && !Full(CutData(CutData(BlockData(geo, s, d, n), was), name), needed)
  }

  lemma RoomAfterCuts(geo: Geometry, s: Fs, s1: Fs, s2: Fs, d: nat, was: Name, name: Name, needed: nat)
    requires geo.Ok() && d in s.inodes && d in s1.inodes && d in s2.inodes
    requires s1.inodes[d].size == s.inodes[d].size == s2.inodes[d].size
    requires AllCut(geo, s, s1, d, was) && AllCut(geo, s1, s2, d, name)
    ensures Roomy(geo, s2, d, needed) <==> RoomWithout(geo, s, d, was, name, needed)
  {
    hide BlockData, CutData, Full, Quo;
    forall n: nat | n < Blocks(geo, s.inodes, d)
      ensures BlockData(geo, s2, d, n) == CutData(CutData(BlockData(geo, s, d, n), was), name)
    {
      assert BlockData(geo, s1, d, n) == CutData(BlockData(geo, s, d, n), was);
    }
    if Roomy(geo, s2, d, needed) {
      var n: nat :| n < Blocks(geo, s2.inodes, d) && !Full(BlockData(geo, s2, d, n), needed);
      assert !Full(CutData(CutData(BlockData(geo, s, d, n), was), name), needed);
    }
    if RoomWithout(geo, s, d, was, name, needed) {
      var n: nat :| n < Blocks(geo, s.inodes, d) && !Full(CutData(CutData(BlockData(geo, s, d, n), was), name), needed);
      assert !Full(BlockData(geo, s2, d, n), needed);
    }
  }

  lemma CutDataRoom(x: Option<seq<byte>>, name: Name, needed: nat)
    requires x.Some? ==> |x.value| < U16
    ensures CutData(x, name).Some? <==> x.Some?
    ensures x.Some? ==> |CutData(x, name).value| == |x.value|
    ensures !Full(x, needed) ==> !Full(CutData(x, name), needed)
    ensures NameIn(BagOf(x), name) && needed <= Needed(|name|) ==> !Full(CutData(x, name), needed)
  {
    hide Chain, Bag, NameIn, Cut, Crowded, Needed;
    if x.Some? && Chain(x.value, 0) { CutRoom(x.value, name, needed); }
    EmptyBag(name);
  }

  lemma EmptyBag(name: Name)
    ensures !NameIn(multiset{}, name)
  {
  }

  /** Where a name was, there is room for any name that needs no more space. */
  lemma RoomForShorter(geo: Geometry, s: Fs, d: nat, m: NameMap, was: Name, name: Name, needed: nat)
    requires geo.Ok() && Ok(geo, s) && IsDir(geo, s, d, m) && was in m && needed <= Needed(|was|)
    ensures d in s.inodes && RoomWithout(geo, s, d, was, name, needed)
  {
    hide BlockData, CutData, Full, Quo, Chain, BagOf, NameIn, Needed, Ok, Names, DirBag, DirOk;
    SizeAddressable(geo, s, d);
    IsDirNames(geo, s, d, m, was);
    var n := BlockWith(geo, s, d, was, Blocks(geo, s.inodes, d));
    var x := BlockData(geo, s, d, n);
    BlockShort(geo, s, d, n);
    CutDataRoom(x, was, needed);
    CutDataRoom(CutData(x, was), name, needed);
  }

  lemma BlockShort(geo: Geometry, s: Fs, d: nat, n: nat)
    requires geo.Ok() && Ok(geo, s) && n < geo.MaxBlocks()
    ensures BlockData(geo, s, d, n).Some? ==> |BlockData(geo, s, d, n).value| < U16
  {
    hide Ok, At, Leaf;
    if At(s, Leaf(geo, d, n)) != 0 { LeafInUse(geo, s, d, n, At(s, Leaf(geo, d, n))); }
  }

  lemma {:induction false} BlockWith(geo: Geometry, s: Fs, d: nat, name: Name, n: nat) returns (k: nat)
    requires geo.Ok() && NameIn(DirBag(geo, s, d, n), name)
    ensures k < n && NameIn(BagOf(BlockData(geo, s, d, k)), name)
    decreases n
  {
    hide BlockData, BagOf, NameIn;
    EmptyBag(name);
    NameInSum(DirBag(geo, s, d, n - 1), BagOf(BlockData(geo, s, d, n - 1)), name);
    if NameIn(BagOf(BlockData(geo, s, d, n - 1)), name) { return n - 1; }
    k := BlockWith(geo, s, d, name, n - 1);
  }
}
