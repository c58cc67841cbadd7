/** Directories: the entries of all blocks of a directory inode, and the scans that find, drop and
    add one. */
module Ext2Directory {
  import opened Arith
  import opened Words
  import opened Forest
  import opened Options
  import opened Ext2Groups
  import opened Ext2State
  import opened Ext2Layout
  import opened Ext2Grow
  import opened Ext2Tree
  import opened Ext2File
  import opened Ext2Dirent
  import opened Ext2Data

  ghost predicate BlockOk(x: Option<seq<byte>>) {
    x.Some? ==> Chain(x.value, 0)
  }

  ghost function BagOf(x: Option<seq<byte>>): multiset<Entry> {
    if x.Some? && Chain(x.value, 0) then Bag(x.value, 0) else multiset{}
  }

  /** The entries of the first n blocks of directory d. */
  ghost function DirBag(geo: Geometry, s: Fs, d: nat, n: nat): multiset<Entry>
    requires geo.Ok()
  {
    if n == 0 then multiset{} else DirBag(geo, s, d, n - 1) + BagOf(BlockData(geo, s, d, n - 1))
  }

  /** How many blocks directory d has. */
  function Blocks(geo: Geometry, inodes: map<nat, Inode>, d: nat): nat
    requires geo.Ok() && d in inodes
  {
    Quo(inodes[d].size, geo.bs)
  }

  /** All entries of directory d. */
  ghost function Entries(geo: Geometry, s: Fs, d: nat): multiset<Entry>
    requires geo.Ok() && d in s.inodes
  {
    DirBag(geo, s, d, Blocks(geo, s.inodes, d))
  }

  /** A directory has whole blocks, each exactly tiled by well-formed records, and none past its end. */
  ghost predicate DirOk(geo: Geometry, s: Fs, d: nat)
    requires geo.Ok()
  {
    && d in s.inodes && s.inodes[d].size < U32 && Rem(s.inodes[d].size, geo.bs) == 0
    && (forall n: nat {:trigger BlockData(geo, s, d, n)} | n < Blocks(geo, s.inodes, d) ::
          BlockOk(BlockData(geo, s, d, n)))
    && (forall n: nat {:trigger BlockData(geo, s, d, n)} | Blocks(geo, s.inodes, d) <= n < geo.MaxBlocks() ::
          BlockData(geo, s, d, n).None?)
  }

  /** Block n of the directory, as the scans read it. */
  method DirBlock(vol: Volume, d: nat, n: nat, ghost s: Fs) returns (b: nat, x: seq<byte>)
    requires Valid(vol, s) && vol.geo.Ok() && DirOk(vol.geo, s, d) && n < Blocks(vol.geo, s.inodes, d)
    ensures n < vol.geo.MaxBlocks() && b == At(s, Leaf(vol.geo, d, n))
    ensures b == 0 ==> BlockData(vol.geo, s, d, n).None? && BagOf(BlockData(vol.geo, s, d, n)) == multiset{}
    ensures b != 0 ==> BlockData(vol.geo, s, d, n) == Some(x) && Chain(x, 0) && |x| == vol.geo.bs < U16
    ensures b != 0 ==> BagOf(BlockData(vol.geo, s, d, n)) == Bag(x, 0)
  {
    hide Leaf, At, Chain, Bag;
    OffsetAddressable(vol.geo, s.inodes[d].size);
    b := InodeGetBlock(vol, d, n, s);
    x := [];
    if b != 0 {
      LeafPlace(vol.geo, d, n);
      LeafInUse(vol.geo, s, d, n, b);
      x := vol.disk[b];
      assert BlockOk(BlockData(vol.geo, s, d, n));
    }
  }

  lemma LeafInUse(geo: Geometry, s: Fs, d: nat, n: nat, b: nat)
    requires Ok(geo, s) && n < geo.MaxBlocks() && b == At(s, Leaf(geo, d, n)) != 0
    ensures b in s.disk && |s.disk[b]| == geo.bs
  {
    LeafPlace(geo, d, n);
  }

  /** finddir over all blocks: exactly the entry with the name, if there is one. */
  method Find(vol: Volume, d: nat, name: seq<byte>, ghost s: Fs) returns (found: bool, ino: nat, kind: byte)
    requires Valid(vol, s) && vol.geo.Ok() && DirOk(vol.geo, s, d)
    ensures d in s.inodes && (found <==> NameIn(Entries(vol.geo, s, d), name))
    ensures found ==> Entry(name, ino, kind) in Entries(vol.geo, s, d) && ino != 0
  {
    hide Rep, Ok, BlockData, BagOf, NameIn, DirBag, Bag, Chain, Leaf, At;
    found, ino, kind := false, 0, 0;
    DirBagStep(vol.geo, s, d, 0, name);
    VolumeFields(vol, s);
    QuoRem(vol.inodes[d].size, vol.geo.bs);
    var count := vol.inodes[d].size / vol.geo.bs;
    for n := 0 to count
      invariant !NameIn(DirBag(vol.geo, s, d, n), name)
    {
      DirBagStep(vol.geo, s, d, n, name);
      var b, x := DirBlock(vol, d, n, s);
      if b != 0 {
        found, ino, kind := FindInBlock(x, name);
        if found {
          DirBagMono(vol.geo, s, d, n + 1, count, Entry(name, ino, kind));
          EntryNamed(DirBag(vol.geo, s, d, count), Entry(name, ino, kind));
          return;
        }
      }
    }
    found := false;
  }

  lemma VolumeFields(vol: Volume, s: Fs)
    requires Rep(vol, s)
    ensures vol.inodes == s.inodes && vol.disk == s.disk
  {
  }

  lemma EntryNamed(bag: multiset<Entry>, e: Entry)
    requires e in bag
    ensures NameIn(bag, e.name)
  {
  }

  lemma DirBagStep(geo: Geometry, s: Fs, d: nat, n: nat, name: seq<byte>)
    requires geo.Ok()
    ensures !NameIn(DirBag(geo, s, d, 0), name) && !NameIn(multiset{}, name)
    ensures DirBag(geo, s, d, n + 1) == DirBag(geo, s, d, n) + BagOf(BlockData(geo, s, d, n))
    ensures NameIn(DirBag(geo, s, d, n + 1), name) <==>
            NameIn(DirBag(geo, s, d, n), name) || NameIn(BagOf(BlockData(geo, s, d, n)), name)
    ensures forall e :: e in BagOf(BlockData(geo, s, d, n)) ==> e in DirBag(geo, s, d, n + 1)
  {
    hide Leaf, At, BagOf, BlockData;
    NameInSum(DirBag(geo, s, d, n), BagOf(BlockData(geo, s, d, n)), name);
  }

  lemma {:induction false} DirBagMono(geo: Geometry, s: Fs, d: nat, m: nat, n: nat, e: Entry)
    requires geo.Ok() && m <= n && e in DirBag(geo, s, d, m)
    ensures e in DirBag(geo, s, d, n)
  {
    hide Leaf, At, BagOf, BlockData;
    if m < n { DirBagMono(geo, s, d, m, n - 1, e); }
  }

  /** Only directory d changed: blocks may have moved from the free set into its tree, and every other
      inode keeps its fields and its data. */
  ghost predicate Edited(geo: Geometry, s: Fs, s': Fs, d: nat)
    requires geo.Ok()
  {
    && s'.inodes.Keys == s.inodes.Keys && d in s.inodes
    && s'.inodes[d].kind == s.inodes[d].kind && s'.inodes[d].links == s.inodes[d].links
    && (forall k | k in s.inodes && k != d :: s'.inodes[k] == s.inodes[k])
    && (forall k: nat | k != d :: SameFile(geo, s, s', k))
    && (forall b | b in s.home :: b in s'.home && s'.home[b] == s.home[b])
    && (forall b | b in s'.home && b !in s.home :: Owner(s'.home[b]) == d)
    && s'.free + s'.home.Keys == s.free + s.home.Keys
    && DirOk(geo, s', d)
  }

  /** Rewriting block m of a directory with another well-formed block. */
  lemma {:induction false} DirBagPut(geo: Geometry, s: Fs, s': Fs, d: nat, m: nat, y: seq<byte>, n: nat)
    requires geo.Ok() && DataChanged(geo, s, s', d, m, y) && n <= geo.MaxBlocks()
    ensures n <= m ==> DirBag(geo, s', d, n) == DirBag(geo, s, d, n)
    ensures m < n ==> DirBag(geo, s', d, n) + BagOf(BlockData(geo, s, d, m)) == DirBag(geo, s, d, n) + BagOf(Some(y))
  {
    hide Leaf, At, BagOf, BlockData;
    if n > 0 {
      DirBagPut(geo, s, s', d, m, y, n - 1);
      assert BlockData(geo, s', d, n - 1) == if n - 1 == m then Some(y) else BlockData(geo, s, d, n - 1);
      Swap(DirBag(geo, s, d, n - 1), DirBag(geo, s', d, n - 1), BagOf(BlockData(geo, s, d, m)), BagOf(Some(y)),
          BagOf(BlockData(geo, s, d, n - 1)));
    }
  }

  lemma Swap(a: multiset<Entry>, a': multiset<Entry>, o: multiset<Entry>, y: multiset<Entry>, q: multiset<Entry>)
    ensures a' + o == a + y ==> (a' + q) + o == (a + q) + y
    ensures (a + y) + o == (a + o) + y
  {
    if a' + o == a + y {
      assert (a' + q) + o == (a' + o) + q;
      assert (a + q) + y == (a + y) + q;
    }
  }

  lemma PutDirBlock(geo: Geometry, s: Fs, s': Fs, d: nat, m: nat, b: nat, y: seq<byte>)
    requires geo.Ok() && Ok(geo, s) && DirOk(geo, s, d) && m < Blocks(geo, s.inodes, d)
    requires b == At(s, Leaf(geo, d, m)) != 0
    requires |y| == geo.bs && Chain(y, 0) && s' == Put(s, b, y)
    ensures Ok(geo, s') && Edited(geo, s, s', d) && s'.inodes == s.inodes && s'.free == s.free && s'.home == s.home
    ensures Entries(geo, s', d) + BagOf(BlockData(geo, s, d, m)) == Entries(geo, s, d) + Bag(y, 0)
    ensures DataChanged(geo, s, s', d, m, y)
  {
    hide Leaf, At, Chain, Bag, DirBag, Put, BlockData, Ok;
    OffsetAddressable(geo, s.inodes[d].size);
    PutBlockData(geo, s, s', d, m, b, y);
    PutFields(s, s', b, y);
    DirBagPut(geo, s, s', d, m, y, Blocks(geo, s.inodes, d));
    forall k: nat | k != d ensures SameFile(geo, s, s', k) {}
    forall n: nat | n < Blocks(geo, s.inodes, d) ensures BlockOk(BlockData(geo, s', d, n)) {
      assert BlockOk(BlockData(geo, s, d, n));
    }
  }

  lemma PutFields(s: Fs, s': Fs, b: nat, y: seq<byte>)
    requires s' == Put(s, b, y)
    ensures s'.inodes == s.inodes && s'.free == s.free && s'.home == s.home
  {
  }

  /** The volume after block b was rewritten. */
  lemma PutVolume(vol: Volume, s: Fs, vol': Volume, s': Fs, b: nat, y: seq<byte>)
    requires Rep(vol, s) && s' == Put(s, b, y) && vol' == vol.(disk := vol.disk[b := y])
    ensures Rep(vol', s') && SameVolume(vol, vol')
  {
    MirrorData(s.disk, s.tabs, b, y);
  }

  method WriteDirBlock(vol: Volume, d: nat, m: nat, b: nat, y: seq<byte>, ghost s: Fs)
    returns (vol': Volume, ghost s': Fs)
    requires Valid(vol, s) && vol.geo.Ok() && DirOk(vol.geo, s, d) && m < Blocks(vol.geo, s.inodes, d)
    requires b == At(s, Leaf(vol.geo, d, m)) != 0 && |y| == vol.geo.bs && Chain(y, 0)
    ensures SameVolume(vol, vol') && Valid(vol', s') && Edited(vol.geo, s, s', d)
    ensures s'.inodes == s.inodes && s'.free == s.free && s'.home == s.home
    ensures Entries(vol.geo, s', d) + BagOf(BlockData(vol.geo, s, d, m)) == Entries(vol.geo, s, d) + Bag(y, 0)
    ensures DataChanged(vol.geo, s, s', d, m, y)
  {
    hide Rep, Put, Ok, DirOk, Edited, Entries, Chain, Bag, BagOf, BlockData, Leaf, At, DataChanged;
    vol' := vol.(disk := vol.disk[b := y]);
    s' := Put(s, b, y);
    PutVolume(vol, s, vol', s', b, y);
    PutDirBlock(vol.geo, s, s', d, m, b, y);
  }

  /** Exactly one block of d changed: the name was in it and has been cut out. */
  ghost predicate CutOnce(geo: Geometry, s: Fs, s': Fs, d: nat, name: seq<byte>)
    requires geo.Ok() && d in s.inodes
  {
    exists n: nat, x: seq<byte> :: CutHere(geo, s, s', d, name, n, x)
  }

  ghost predicate CutHere(geo: Geometry, s: Fs, s': Fs, d: nat, name: seq<byte>, n: nat, x: seq<byte>)
    requires geo.Ok() && d in s.inodes
  {
    && n < Blocks(geo, s.inodes, d) && n < geo.MaxBlocks()
    && BlockData(geo, s, d, n) == Some(x) && Chain(x, 0) && |x| < U16 && NameIn(Bag(x, 0), name)
    && DataChanged(geo, s, s', d, n, Cut(x, name))
  }

  /** dir_remove_entry over all blocks. */
  method RemoveEntry(vol: Volume, d: nat, name: seq<byte>, ghost s: Fs)
    returns (found: bool, ino: nat, vol': Volume, ghost s': Fs, ghost e: Entry)
    requires Valid(vol, s) && vol.geo.Ok() && DirOk(vol.geo, s, d)
    ensures d in s.inodes && (found <==> NameIn(Entries(vol.geo, s, d), Short(name)))
    ensures !found ==> vol' == vol && s' == s
    ensures found ==> SameVolume(vol, vol') && Valid(vol', s') && Edited(vol.geo, s, s', d)
    ensures found ==> s'.inodes == s.inodes && s'.free == s.free && s'.home == s.home
    ensures found ==> e.name == Short(name) && e.ino == ino != 0
    ensures found ==> Entries(vol.geo, s, d) == Entries(vol.geo, s', d) + multiset{e}
    ensures found ==> CutOnce(vol.geo, s, s', d, Short(name))
  {
    hide Rep, Ok, BlockData, BagOf, NameIn, DirBag, Bag, Chain, Leaf, At, Short, Edited, DataChanged, Cut;
    found, ino, vol', s', e := false, 0, vol, s, Entry([], 0, 0);
    DirBagStep(vol.geo, s, d, 0, Short(name));
    VolumeFields(vol, s);
    QuoRem(vol.inodes[d].size, vol.geo.bs);
    var count := vol.inodes[d].size / vol.geo.bs;
    for n := 0 to count
      invariant vol' == vol && s' == s
      invariant !NameIn(DirBag(vol.geo, s, d, n), Short(name))
    {
      DirBagStep(vol.geo, s, d, n, Short(name));
      var b, x := DirBlock(vol, d, n, s);
      if b != 0 {
        var y;
        found, y, ino, e := RemoveInBlock(x, name);
        if found {
          vol', s' := WriteDirBlock(vol, d, n, b, y, s);
          CancelRemoved(Entries(vol.geo, s', d), Entries(vol.geo, s, d), Bag(y, 0), e);
          EntryNamed(Entries(vol.geo, s, d), e);
          assert CutHere(vol.geo, s, s', d, Short(name), n, x);
          return;
        }
      }
    }
    found := false;
  }

  lemma CancelRemoved(after: multiset<Entry>, before: multiset<Entry>, y: multiset<Entry>, e: Entry)
    requires after + (y + multiset{e}) == before + y
    ensures before == after + multiset{e} && e in before
  {
    forall f ensures before[f] == (after + multiset{e})[f] {
      assert (after + (y + multiset{e}))[f] == (before + y)[f];
    }
  }

  // Adding a block to a directory.

  /** Blocks that are the same in both states hold the same entries. */
  lemma {:induction false} DirBagSame(geo: Geometry, s: Fs, s': Fs, d: nat, n: nat)
    requires geo.Ok() && forall m: nat | m < n :: BlockData(geo, s', d, m) == BlockData(geo, s, d, m)
    ensures DirBag(geo, s', d, n) == DirBag(geo, s, d, n)
  {
    hide Leaf, At, BagOf, BlockData;
    if n > 0 { DirBagSame(geo, s, s', d, n - 1); }
  }

  /** Directory d got one more block, holding y, and nothing else changed in any inode's data. */
  lemma Extended(geo: Geometry, s: Fs, s': Fs, d: nat, y: seq<byte>)
    requires geo.Ok() && DirOk(geo, s, d) && s.inodes[d].size + geo.bs < U32 && Chain(y, 0)
    requires DataChanged(geo, s, s', d, Blocks(geo, s.inodes, d), y) && Kept(s, s', d, s.inodes[d].size + geo.bs, {})
    ensures Edited(geo, s, s', d) && Entries(geo, s', d) == Entries(geo, s, d) + Bag(y, 0)
  {
    hide Leaf, At, Chain, Bag, BlockData, Kept, Quo, Rem;
    var n := Blocks(geo, s.inodes, d);
    KeptFields(s, s', d, s.inodes[d].size + geo.bs);
    NextBlock(s.inodes[d].size, geo.bs);
    OffsetAddressable(geo, s.inodes[d].size);
    forall m: nat | m < n ensures BlockData(geo, s', d, m) == BlockData(geo, s, d, m) {}
    DirBagSame(geo, s, s', d, n);
    forall k: nat | k != d ensures SameFile(geo, s, s', k) {}
    forall m: nat | m < n + 1 ensures BlockOk(BlockData(geo, s', d, m)) {
      if m < n { assert BlockOk(BlockData(geo, s, d, m)); }
    }
  }

  lemma NextBlock(size: nat, bs: nat)
    requires bs > 0
    ensures Quo(size + bs, bs) == Quo(size, bs) + 1 && Rem(size + bs, bs) == Rem(size, bs)
  {
  }

  lemma KeptFields(s: Fs, s': Fs, d: nat, size: nat)
    requires Kept(s, s', d, size, {})
    ensures s'.inodes.Keys == s.inodes.Keys && d in s.inodes && s'.inodes[d].size == size
    ensures s'.inodes[d].kind == s.inodes[d].kind && s'.inodes[d].links == s.inodes[d].links
    ensures forall k | k in s.inodes && k != d :: s'.inodes[k] == s.inodes[k]
    ensures forall b | b in s.home :: b in s'.home && s'.home[b] == s.home[b]
    ensures forall b | b in s'.home && b !in s.home :: Owner(s'.home[b]) == d
    ensures s'.free + s'.home.Keys == s.free + s.home.Keys
  {
  }

  /** No data changed; at most tables were attached. */
  lemma Untouched(geo: Geometry, s: Fs, s': Fs, d: nat)
    requires geo.Ok() && DirOk(geo, s, d) && Kept(s, s', d, s.inodes[d].size, {})
    requires forall k: nat :: SameFile(geo, s, s', k)
    ensures Edited(geo, s, s', d) && Entries(geo, s', d) == Entries(geo, s, d)
  {
    hide Leaf, At, Chain, BlockData, Kept;
    var n := Blocks(geo, s.inodes, d);
    KeptFields(s, s', d, s.inodes[d].size);
    OffsetAddressable(geo, s.inodes[d].size);
    assert SameFile(geo, s, s', d);
    forall m: nat | m < n ensures BlockData(geo, s', d, m) == BlockData(geo, s, d, m) {}
    DirBagSame(geo, s, s', d, n);
    forall m: nat | m < n ensures BlockOk(BlockData(geo, s', d, m)) { assert BlockOk(BlockData(geo, s, d, m)); }
  }

  /** Allocating a block and setting it as logical block n, seen as a change of data. */
  lemma AttachData(geo: Geometry, s: Fs, s1: Fs, v: nat, s2: Fs, d: nat, n: nat, got: nat)
    requires geo.Ok() && Ok(geo, s) && Taken(geo, s, s1, v) && n < geo.MaxBlocks() && At(s, Leaf(geo, d, n)) == 0
    requires Grown(geo, s1, s2, Leaf(geo, d, n), got) && (got == v || got == 0)
    ensures Ok(geo, s2)
    ensures got != 0 ==> DataChanged(geo, s, s2, d, n, Zeros(geo.bs))
    ensures got == 0 ==> forall k: nat :: SameFile(geo, s, s2, k)
  {
    hide Leaf, BlockData, Ok, TreeOk, SectorsOk, SameInodes, SamePointers, SameBlocks, SameData;
    AttachReady(geo, s, s1, v, d, n);
    forall k: nat ensures SameFile(geo, s, s1, k) { TakenData(geo, s, s1, v, k); }
    GrownData(geo, s1, s2, d, n, got);
    forall k: nat, m: nat | m < geo.MaxBlocks()
      ensures BlockData(geo, s2, k, m) == if got != 0 && k == d && m == n then Some(Zeros(geo.bs))
            else BlockData(geo, s, k, m)
    {
      assert SameFile(geo, s, s1, k);
      assert got == 0 ==> SameFile(geo, s1, s2, k);
      assert BlockData(geo, s1, k, m) == BlockData(geo, s, k, m);
    }
  }

  lemma AttachReady(geo: Geometry, s: Fs, s1: Fs, v: nat, d: nat, n: nat)
    requires geo.Ok() && Ok(geo, s) && Taken(geo, s, s1, v) && n < geo.MaxBlocks() && At(s, Leaf(geo, d, n)) == 0
    ensures Ok(geo, s1) && At(s1, Leaf(geo, d, n)) == 0 && Loose(geo, s1, v) && s1.disk[v] == Zeros(geo.bs)
  {
    LeafPlace(geo, d, n);
    TakenKeeps(geo, s, s1, v);
  }

  /** Setting the size and writing y into the block just attached. */
  lemma FinishBlock(geo: Geometry, s: Fs, s2: Fs, s3: Fs, s4: Fs, d: nat, n: nat, v: nat, y: seq<byte>, size: nat)
    requires geo.Ok() && Ok(geo, s2) && n < geo.MaxBlocks() && v == At(s2, Leaf(geo, d, n)) != 0 && |y| == geo.bs
    requires d in s2.inodes
    requires DataChanged(geo, s, s2, d, n, Zeros(geo.bs)) && d in s.inodes && Kept(s, s2, d, s.inodes[d].size, {})
    requires s3 == s2.(inodes := Resized(s2.inodes, d, size)) && s4 == Put(s3, v, y)
    ensures Ok(geo, s4) && DataChanged(geo, s, s4, d, n, y) && Kept(s, s4, d, size, {})
  {
    hide Leaf, BlockData, Ok, At, Kept;
    Resize(geo, s2, s3, d, size);
    ResizeKept(s, s2, s3, d, s.inodes[d].size, size, {});
    ResizeAt(s2, s3, d, size, Leaf(geo, d, n));
    forall k: nat ensures SameFile(geo, s2, s3, k) { InodesData(geo, s2, s3, k); }
    PutBlockData(geo, s3, s4, d, n, v, y);
    PutKept(s, s3, s4, d, size, v, y);
    forall k: nat, m: nat | m < geo.MaxBlocks()
      ensures BlockData(geo, s4, k, m) == if k == d && m == n then Some(y) else BlockData(geo, s, k, m)
    {
      assert SameFile(geo, s2, s3, k);
      assert BlockData(geo, s3, k, m) == BlockData(geo, s2, k, m);
    }
  }

  lemma PutKept(s: Fs, s3: Fs, s4: Fs, d: nat, size: nat, v: nat, y: seq<byte>)
    requires Kept(s, s3, d, size, {}) && s4 == Put(s3, v, y)
    ensures Kept(s, s4, d, size, {})
  {
  }

  lemma ResizeAt(s: Fs, s': Fs, d: nat, size: nat, p: Pos)
    requires d in s.inodes && s' == s.(inodes := Resized(s.inodes, d, size))
    ensures At(s', p) == At(s, p)
  {
    assert RootsOf(s'.inodes) == RootsOf(s.inodes);
  }

  lemma HoleAtEnd(geo: Geometry, s: Fs, d: nat)
    requires Ok(geo, s) && DirOk(geo, s, d)
    ensures d in s.inodes && Blocks(geo, s.inodes, d) < geo.MaxBlocks()
    ensures At(s, Leaf(geo, d, Blocks(geo, s.inodes, d))) == 0
  {
    OffsetAddressable(geo, s.inodes[d].size);
    var n := Blocks(geo, s.inodes, d);
    LeafPlace(geo, d, n);
    assert BlockData(geo, s, d, n).None?;
  }

  /** What adding one entry comes to: it is there, or the directory is as before. */
  ghost predicate Appended(vol: Volume, s: Fs, vol': Volume, s': Fs, d: nat, e: Entry, ok: bool)
    requires vol.geo.Ok()
  {
    && SameVolume(vol, vol') && Valid(vol', s') && Edited(vol.geo, s, s', d)
    && d in s.inodes && d in s'.inodes
    && Entries(vol.geo, s', d) == Entries(vol.geo, s, d) + (if ok then multiset{e} else multiset{})
    && (!ok ==> |s'.free| <= 1)
  }

  /** The last part of dir_append_entry: a new block whose one record spans it. When the path to it
      cannot be allocated the block is given back. */
  method NewBlock(vol: Volume, d: nat, e: Entry, group: nat, ghost s: Fs) returns (ok: bool, vol': Volume, ghost s': Fs)
    requires Valid(vol, s) && vol.geo.Ok() && DirOk(vol.geo, s, d) && vol.inodes[d].size + vol.geo.bs < U32
    requires |e.name| < 256 && 0 < e.ino < U32
    ensures Appended(vol, s, vol', s', d, e, ok)
    ensures d in s.inodes && (ok <==> CanGrow(vol.geo, s, d, Blocks(vol.geo, s.inodes, d)))
    ensures ok ==> d in s'.inodes && s'.inodes[d].size == s.inodes[d].size + vol.geo.bs
  {
    hide Ok, Rep, DirOk, Edited, Entries, Leaf, Grown, CanSet;
    hide Kept, Chain, Bag, PutEntry, Resized, Put, Appended, DataChanged, SameFile;
    VolumeFields(vol, s);
    FreeRange(vol.geo, s);
    HoleAtEnd(vol.geo, s, d);
    QuoRem(vol.inodes[d].size, vol.geo.bs);
    var n := vol.inodes[d].size / vol.geo.bs;
    var v, vol1, got, vol2;
    ghost var s1, s2;
    v, vol1, s1 := AllocBlock(vol, group, s);
    if v == 0 {
      UnchangedDir(vol, s, d, e);
      return false, vol, s;
    }
    FillReady(vol, s, vol1, s1, v, d, n);
    got, vol2, s2 := InodeSetBlock(vol1, d, n, v, group, s1);
    FillEffect(vol.geo, s, s1, v, s2, d, n, got);
    AttachData(vol.geo, s, s1, v, s2, d, n, got);
    if got == 0 {
      vol', s' := GiveBack(vol, vol2, d, v, e, s, s2);
      return false, vol', s';
    }
    vol', s' := FillNewBlock(vol, vol2, d, n, v, e, s, s2);
    return true, vol', s';
  }

  lemma FreeRange(geo: Geometry, s: Fs)
    requires Ok(geo, s)
    ensures 0 !in s.free && forall v | v in s.free :: 0 < v < geo.count
  {
  }

  lemma UnchangedDir(vol: Volume, s: Fs, d: nat, e: Entry)
    requires Valid(vol, s) && vol.geo.Ok() && DirOk(vol.geo, s, d) && s.free == {}
    ensures Appended(vol, s, vol, s, d, e, false)
  {
    hide Ok, Rep, DirOk, Edited, Entries;
    EditedRefl(vol.geo, s, d);
  }

  lemma EditedRefl(geo: Geometry, s: Fs, d: nat)
    requires geo.Ok() && DirOk(geo, s, d)
    ensures Edited(geo, s, s, d)
  {
  }

  method GiveBack(vol: Volume, vol2: Volume, d: nat, v: nat, e: Entry, ghost s: Fs, ghost s2: Fs)
    returns (vol': Volume, ghost s': Fs)
    requires vol.geo.Ok() && DirOk(vol.geo, s, d) && SameVolume(vol, vol2) && Valid(vol2, s2) && s2.free == {}
    requires vol2.blay.Covers(v)
    requires d in s.inodes && Kept(s, s2, d, s.inodes[d].size, {v}) && 0 < v < vol.geo.count && forall k: nat ::
        SameFile(vol.geo, s, s2, k)
    ensures Appended(vol, s, vol', s', d, e, false)
  {
    hide Ok, DirOk, SameFile, Kept, Edited, Entries, Represents;
    var gs := Give(vol2.blay, vol2.blocks, v, s2.free);
    vol' := vol2.(blocks := gs);
    s' := s2.(free := s2.free + {v});
    GaveBack(vol, s, s2, s', d, v);
  }

  lemma GaveBack(vol: Volume, s: Fs, s2: Fs, s': Fs, d: nat, v: nat)
    requires vol.geo.Ok() && DirOk(vol.geo, s, d) && Ok(vol.geo, s2) && s2.free == {}
    requires d in s.inodes && Kept(s, s2, d, s.inodes[d].size, {v}) && 0 < v < vol.geo.count && forall k: nat ::
        SameFile(vol.geo, s, s2, k)
    requires s' == s2.(free := s2.free + {v})
    ensures Ok(vol.geo, s') && Edited(vol.geo, s, s', d) && d in s'.inodes
    ensures Entries(vol.geo, s', d) == Entries(vol.geo, s, d)
    ensures v !in s2.free && s'.free == {v}
  {
    hide BlockData, DirOk, Edited, Entries, Ok, Kept;
    GaveBackOk(vol.geo, s, s2, s', d, s.inodes[d].size, v);
    forall k: nat ensures SameFile(vol.geo, s, s', k) {
      assert SameFile(vol.geo, s, s2, k);
      SameDisk(vol.geo, s2, s', k);
    }
    Untouched(vol.geo, s, s', d);
  }

  lemma GaveBackOk(geo: Geometry, s: Fs, s2: Fs, s': Fs, d: nat, size: nat, v: nat)
    requires Ok(geo, s2) && s2.free == {} && Kept(s, s2, d, size, {v}) && 0 < v < geo.count
    requires s' == s2.(free := s2.free + {v})
    ensures Ok(geo, s') && Kept(s, s', d, size, {}) && d in s'.inodes && v !in s2.free && s'.free == {v}
  {
    hide Ok, Kept;
    GaveBackKept(s, s2, s', d, size, v);
    GaveBackTree(geo, s2, s', v);
  }

  lemma GaveBackKept(s: Fs, s2: Fs, s': Fs, d: nat, size: nat, v: nat)
    requires Kept(s, s2, d, size, {v}) && s' == s2.(free := s2.free + {v}) && s2.free == {}
    ensures Kept(s, s', d, size, {}) && d in s'.inodes && v !in s2.home && s'.free == {v}
  {
    Regrouped(s2.free, s2.home.Keys, v);
  }

  lemma Regrouped(free: set<nat>, keys: set<nat>, v: nat)
    ensures free + {v} + keys + {} == free + keys + {v}
  {
  }

  lemma GaveBackTree(geo: Geometry, s2: Fs, s': Fs, v: nat)
    requires Ok(geo, s2) && v !in s2.home && 0 < v < geo.count && s' == s2.(free := s2.free + {v})
    ensures Ok(geo, s')
  {
    hide Planted, RootsOf, Owned, Times;
  }

  lemma SameDisk(geo: Geometry, s: Fs, s': Fs, k: nat)
    requires geo.Ok() && s' == s.(free := s'.free)
    ensures SameFile(geo, s, s', k)
  {
  }

  method FillNewBlock(vol: Volume, vol2: Volume, d: nat, n: nat, v: nat, e: Entry, ghost s: Fs, ghost s2: Fs)
    returns (vol': Volume, ghost s': Fs)
    requires vol.geo.Ok() && DirOk(vol.geo, s, d) && SameVolume(vol, vol2) && Valid(vol2, s2)
    requires n == Blocks(vol.geo, s.inodes, d)
    requires s.inodes[d].size + vol.geo.bs < U32 && |e.name| < 256 && 0 < e.ino < U32 && n < vol.geo.MaxBlocks()
    requires Kept(s, s2, d, s.inodes[d].size, {}) && v == At(s2, Leaf(vol.geo, d, n)) != 0
    requires DataChanged(vol.geo, s, s2, d, n, Zeros(vol.geo.bs))
    ensures Appended(vol, s, vol', s', d, e, true)
    ensures d in s'.inodes && s'.inodes[d].size == s.inodes[d].size + vol.geo.bs
  {
    hide Ok, Rep, DirOk, Edited, Entries, Leaf, Chain, Bag, PutEntry, Put, DataChanged, Represents, Mirror, At;
    var y := PutEntry(Zeros(vol.geo.bs), 0, e, vol.geo.bs);
    WholeWords(vol.geo);
    FreshBlock(vol.geo.bs, e);
    VolumeFields(vol2, s2);
    var size := vol2.inodes[d].size + vol.geo.bs;
    var vol3 := vol2.(inodes := Resized(vol2.inodes, d, size));
    ghost var s3 := s2.(inodes := Resized(s2.inodes, d, size));
    vol' := vol3.(disk := vol3.disk[v := y]);
    s' := Put(s3, v, y);
    FinishBlock(vol.geo, s, s2, s3, s', d, n, v, y, size);
    ResizeRep(vol2, s2, vol3, s3, d, size);
    PutVolume(vol3, s3, vol', s', v, y);
    Extended(vol.geo, s, s', d, y);
  }

  lemma WholeWords(geo: Geometry)
    requires geo.Ok()
    ensures geo.bs % 4 == 0
  {
    assert geo.bs == 4 * (128 * (geo.bs / 512));
  }

  lemma ResizeRep(vol: Volume, s: Fs, vol': Volume, s': Fs, d: nat, size: nat)
    requires Rep(vol, s) && d in s.inodes && vol' == vol.(inodes := Resized(vol.inodes, d, size))
    requires s' == s.(inodes := Resized(s.inodes, d, size))
    ensures Rep(vol', s')
  {
  }

  /** No record of block x has room for a name that needs `needed` bytes. */
  ghost predicate Full(x: Option<seq<byte>>, needed: nat) {
    x.Some? && Chain(x.value, 0) ==> Crowded(x.value, 0, needed)
  }

  /** Some record of directory d has room for `needed` bytes. */
  ghost predicate Roomy(geo: Geometry, s: Fs, d: nat, needed: nat)
    requires geo.Ok() && d in s.inodes
  {
    exists n: nat {:trigger BlockData(geo, s, d, n)} ::
        n < Blocks(geo, s.inodes, d) && !Full(BlockData(geo, s, d, n), needed)
  }

  /** The entry went into block n of the directory, the first one with room, and no other block of any inode
      changed. */
  ghost predicate PutIn(geo: Geometry, s: Fs, s': Fs, d: nat, n: nat, e: Entry, x: seq<byte>, y: seq<byte>)
    requires geo.Ok() && d in s.inodes
  {
    && n < Blocks(geo, s.inodes, d) && BlockData(geo, s, d, n) == Some(x) && DataChanged(geo, s, s', d, n, y)
    && (forall m: nat | m < n :: Full(BlockData(geo, s, d, m), Needed(|e.name|)))
    && (exists pos: nat :: PlacedAt(x, y, pos, e))
    && s'.inodes == s.inodes && s'.free == s.free && s'.home == s.home
  }

  /** dir_append_entry: into the first record with room, or else into a new block. It succeeds exactly
      when a record has room, or the free blocks outnumber the tables missing on the way to a new block. */
  method AppendEntry(vol: Volume, d: nat, ino: nat, name: seq<byte>, kind: byte, group: nat, ghost s: Fs)
    returns (ok: bool, vol': Volume, ghost s': Fs)
    requires Valid(vol, s) && vol.geo.Ok() && DirOk(vol.geo, s, d) && vol.inodes[d].size + vol.geo.bs < U32
    requires 0 < ino < U32
    ensures Appended(vol, s, vol', s', d, Entry(Short(name), ino, kind), ok)
    ensures d in s.inodes
    ensures ok <==> CanAdd(vol.geo, s, d, Needed(|Short(name)|))
    ensures Roomy(vol.geo, s, d, Needed(|Short(name)|)) ==>
              exists n: nat, x, y :: PutIn(vol.geo, s, s', d, n, Entry(Short(name), ino, kind), x, y)
    ensures ok && !Roomy(vol.geo, s, d, Needed(|Short(name)|)) ==>
              d in s'.inodes && s'.inodes[d].size == s.inodes[d].size + vol.geo.bs
  {
    hide PlacedAt;
    hide Rep, Ok, BlockData, BagOf, DirBag, Bag, Chain, Leaf;
    hide At, Short, Edited, Crowded, Needed, Appended, CanGrow, DataChanged;
    var e := Entry(Short(name), ino, kind);
    VolumeFields(vol, s);
    QuoRem(vol.inodes[d].size, vol.geo.bs);
    var count := vol.inodes[d].size / vol.geo.bs;
    for n := 0 to count
      invariant forall m: nat | m < n :: Full(BlockData(vol.geo, s, d, m), Needed(|Short(name)|))
    {
      var b, x := DirBlock(vol, d, n, s);
      if b != 0 {
        var y;
        ok, y := AppendInBlock(x, ino, name, kind);
        if ok {
          vol', s' := WriteDirBlock(vol, d, n, b, y, s);
          PutAppended(vol, s, vol', s', d, e, Bag(x, 0));
          assert PutIn(vol.geo, s, s', d, n, e, x, y);
          return;
        }
      }
    }
    ok, vol', s' := NewBlock(vol, d, e, group, s);
  }

  lemma PutAppended(vol: Volume, s: Fs, vol': Volume, s': Fs, d: nat, e: Entry, x: multiset<Entry>)
    requires vol.geo.Ok() && SameVolume(vol, vol') && Valid(vol', s') && Edited(vol.geo, s, s', d) && d in s.inodes
    requires d in s'.inodes
    requires Entries(vol.geo, s', d) + x == Entries(vol.geo, s, d) + (x + multiset{e})
    ensures Appended(vol, s, vol', s', d, e, true)
  {
    hide Rep, Ok, Edited, Entries;
    Cancel(Entries(vol.geo, s', d), Entries(vol.geo, s, d), x, multiset{e});
  }

  // When a directory can get another block.

  /** The tree of inode d is the same in both states. */
  ghost predicate SameTree(s: Fs, s': Fs, d: nat) {
    forall b: nat | (b in s.home && Owner(s.home[b]) == d) || (b in s'.home && Owner(s'.home[b]) == d) ::
      b in s.home && b in s'.home && s'.home[b] == s.home[b]
  }

  lemma SameTreeAt(geo: Geometry, s: Fs, s': Fs, p: Pos)
    requires Ok(geo, s) && Ok(geo, s') && SameTree(s, s', Owner(p)) && ValidPos(geo.Shape(), p)
    ensures At(s', p) == At(s, p)
  {
    hide SectorsOk, Node, ValidPos, Owner;
    var b, b' := At(s, p), At(s', p);
    if b != 0 { assert s.home[b] == p && s'.home[b] == p; }
    if b' != 0 { assert s'.home[b'] == p && s.home[b'] == p; }
  }

  lemma {:induction false} SameTreeMissing(geo: Geometry, s: Fs, s': Fs, p: Pos)
    requires Ok(geo, s) && Ok(geo, s') && SameTree(s, s', Owner(p)) && ValidPos(geo.Shape(), p)
    ensures Missing(s', p) == Missing(s, p)
  {
    hide Ok, At, SameTree;
    if p.Child? {
      SameTreeMissing(geo, s, s', p.parent);
      SameTreeAt(geo, s, s', p.parent);
    }
  }

  lemma SameTreeGrow(geo: Geometry, s: Fs, s': Fs, d: nat, n: nat)
    requires geo.Ok() && Ok(geo, s) && Ok(geo, s') && SameTree(s, s', d) && n < geo.MaxBlocks()
    ensures Missing(s', Leaf(geo, d, n)) == Missing(s, Leaf(geo, d, n))
  {
    hide Ok, SameTree, Missing;
    LeafPlace(geo, d, n);
    SameTreeMissing(geo, s, s', Leaf(geo, d, n));
  }

  /** There is space for a name that needs `needed` bytes: in a record, or in a new block. */
  ghost predicate CanAdd(geo: Geometry, s: Fs, d: nat, needed: nat)
    requires geo.Ok() && d in s.inodes
  {
    Roomy(geo, s, d, needed) || CanGrow(geo, s, d, Blocks(geo, s.inodes, d))
  }

  /** Space depends only on the blocks and the tree of d and on the number of free blocks. */
  lemma SameSpace(geo: Geometry, s: Fs, s': Fs, d: nat, needed: nat)
    requires geo.Ok() && Ok(geo, s) && Ok(geo, s') && DirOk(geo, s, d) && d in s.inodes && d in s'.inodes
    requires SameFile(geo, s, s', d) && SameTree(s, s', d) && s'.inodes[d].size == s.inodes[d].size
    requires |s'.free| == |s.free|
    ensures CanAdd(geo, s', d, needed) <==> CanAdd(geo, s, d, needed)
  {
    hide Ok, DirOk, BlockData, Full, SameTree, Missing, Leaf, Quo;
    SizeAddressable(geo, s, d);
    SameTreeGrow(geo, s, s', d, Blocks(geo, s.inodes, d));
    forall n: nat | n < Blocks(geo, s.inodes, d) ensures BlockData(geo, s', d, n) == BlockData(geo, s, d, n) {}
    if Roomy(geo, s, d, needed) {
      var n: nat :| n < Blocks(geo, s.inodes, d) && !Full(BlockData(geo, s, d, n), needed);
      assert !Full(BlockData(geo, s', d, n), needed);
    }
    if Roomy(geo, s', d, needed) {
      var n: nat :| n < Blocks(geo, s'.inodes, d) && !Full(BlockData(geo, s', d, n), needed);
      assert !Full(BlockData(geo, s, d, n), needed);
    }
  }

  lemma SizeAddressable(geo: Geometry, s: Fs, d: nat)
    requires geo.Ok() && DirOk(geo, s, d)
    ensures d in s.inodes && Blocks(geo, s.inodes, d) < geo.MaxBlocks()
  {
    hide BlockData, BlockOk;
    OffsetAddressable(geo, s.inodes[d].size);
  }
}
