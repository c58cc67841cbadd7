/** The block tree of an inode: allocating blocks, looking one up and attaching one. */
module Ext2Tree {
  import opened Arith
  import opened Words
  import opened Forest
  import opened Ext2Groups
  import opened Ext2State
  import opened Ext2Layout
  import opened Ext2Grow

  /** tabs is the disk read as pointer tables. */
  ghost predicate Mirror(disk: map<nat, seq<byte>>, tabs: Tables) {
    disk.Keys == tabs.Keys && forall b {:trigger Table(disk[b])} | b in disk :: tabs[b] == Table(disk[b])
  }

  lemma MirrorZero(disk: map<nat, seq<byte>>, tabs: Tables, b: nat, bs: nat)
    requires Mirror(disk, tabs)
    ensures Mirror(disk[b := Zeros(bs)], tabs[b := seq(bs / 4, _ => 0)])
  {
    TableZeros(bs);
  }

  lemma MirrorPut(disk: map<nat, seq<byte>>, tabs: Tables, b: nat, i: nat, v: nat)
    requires Mirror(disk, tabs) && b in disk && i < |disk[b]| / 4 && v < U32
    ensures b in tabs && i < |tabs[b]|
    ensures Mirror(disk[b := PutWord(disk[b], 4 * i, v)], tabs[b := With(tabs[b], i, v)])
  {
    TablePut(disk[b], i, v);
    assert Table(disk[b])[i := v] == With(Table(disk[b]), i, v);
  }

  lemma MirrorData(disk: map<nat, seq<byte>>, tabs: Tables, b: nat, x: seq<byte>)
    requires Mirror(disk, tabs)
    ensures Mirror(disk[b := x], tabs[b := Table(x)])
  {
  }

  /** A mounted volume: geometry, block bitmaps with their counters, block bytes, inodes. */
  datatype Volume = Volume(geo: Geometry, blay: Layout, blocks: Groups, disk: map<nat, seq<byte>>,
      inodes: map<nat, Inode>)

  /** The volume stands for the state s: its bitmaps for the free set, its bytes for the tables. */
  ghost predicate Rep(vol: Volume, s: Fs) {
    && s.disk == vol.disk && s.inodes == vol.inodes
    && Represents(vol.blay, vol.blocks, s.free)
    && Mirror(s.disk, s.tabs)
    && forall b {:trigger vol.blay.Covers(b)} | b in s.home :: vol.blay.Covers(b)
  }

  ghost predicate Valid(vol: Volume, s: Fs) {
    Rep(vol, s) && Ok(vol.geo, s)
  }

  predicate SameVolume(vol: Volume, vol': Volume) {
    vol'.geo == vol.geo && vol'.blay == vol.blay
  }

  method AllocBlock(vol: Volume, group: nat, ghost s: Fs) returns (v: nat, vol': Volume, ghost s': Fs)
    requires Rep(vol, s) && 0 !in s.free
    ensures SameVolume(vol, vol') && Rep(vol', s')
    ensures v == 0 ==> vol' == vol && s' == s && s.free == {}
    ensures v != 0 ==> Taken(vol.geo, s, s', v) && vol'.blocks.total + 1 == vol.blocks.total && vol.blay.Covers(v)
    ensures v != 0 ==> forall y | y in s.free :: NoLater(vol.blay, group, v, y)
  {
    var x, gs := Take(vol.blay, vol.blocks, group, s.free);
    if x.None? { return 0, vol, s; }
    v := x.value;
    MirrorZero(s.disk, s.tabs, v, vol.geo.bs);
    vol' := vol.(blocks := gs, disk := vol.disk[v := Zeros(vol.geo.bs)]);
    s' := s.(disk := vol'.disk, tabs := s.tabs[v := seq(vol.geo.Ppb(), _ => 0)], free := s.free - {v});
  }

  /** Entry i of the table b that hangs at p, read from its bytes; an absent table has no entries. */
  method Follow(vol: Volume, b: nat, i: nat, ghost s: Fs, ghost p: Pos) returns (v: nat)
    requires Rep(vol, s) && TreeOk(vol.geo, s) && b == At(s, p) && ValidPos(vol.geo.Shape(), Child(p, i))
    ensures v == At(s, Child(p, i))
  {
    if b == 0 { return 0; }
    ParentIsTable(vol.geo, s, Child(p, i));
    v := Word(vol.disk[b], 4 * i);
    assert s.tabs[b] == Table(s.disk[b]);
  }

  /** The indices into the two tables of a double-indirect block. */
  method SplitDouble(m: nat, w: nat) returns (i: nat, j: nat)
    requires w > 0
    ensures i == Quo(m, w) && j == Rem(m, w)
  {
    QuoRem(m, w);
    i, j := m / w, m % w;
  }

  /** The indices into the three tables of a triple-indirect block. */
  method SplitTriple(m: nat, w: nat) returns (i: nat, j: nat, k: nat)
    requires w > 0
    ensures i == Quo(Quo(m, w), w) && j == Rem(Quo(m, w), w) && k == Rem(m, w)
  {
    QuoRem(m, w);
    QuoRem(Quo(m, w), w);
    DivDiv(m, w, w);
    i, j, k := m / (w * w), m / w % w, m % w;
  }

  method GetDouble(vol: Volume, ino: nat, m: nat, ghost s: Fs) returns (b: nat)
    requires Valid(vol, s) && ino in vol.inodes && m < Times(vol.geo.Ppb(), vol.geo.Ppb())
    ensures b == At(s, DoubleAt(vol.geo.Ppb(), ino, m))
  {
    var i, j := SplitDouble(m, vol.geo.Ppb());
    DoublePlace(vol.geo, ino, m, vol.geo.Ppb());
    ghost var root := Slot(ino, DIND);
    var ind := Follow(vol, vol.inodes[ino].block[DIND], i, s, root);
    b := Follow(vol, ind, j, s, Child(root, i));
  }

  method GetTriple(vol: Volume, ino: nat, m: nat, ghost s: Fs) returns (b: nat)
    requires Valid(vol, s) && ino in vol.inodes && m < Times(Times(vol.geo.Ppb(), vol.geo.Ppb()), vol.geo.Ppb())
    ensures b == At(s, TripleAt(vol.geo.Ppb(), ino, m))
  {
    var i, j, k := SplitTriple(m, vol.geo.Ppb());
    TriplePlace(vol.geo, ino, m, vol.geo.Ppb());
    ghost var root := Slot(ino, TIND);
    var dind := Follow(vol, vol.inodes[ino].block[TIND], i, s, root);
    var ind := Follow(vol, dind, j, s, Child(root, i));
    b := Follow(vol, ind, k, s, Child(Child(root, i), j));
  }

  /** The root of the path to logical block n. */
  lemma GetFacts(vol: Volume, ino: nat, n: nat, s: Fs)
    requires Valid(vol, s) && ino in vol.inodes && n < vol.geo.MaxBlocks()
    ensures |vol.inodes[ino].block| == NBLOCKS && TreeOk(vol.geo, s) && vol.geo.Ok()
    ensures var w, leaf := vol.geo.Ppb(), Leaf(vol.geo, ino, n);
            && (n < NDIR ==> vol.inodes[ino].block[n] == At(s, leaf))
            && (NDIR <= n < NDIR + w ==>
                  leaf == Child(Slot(ino, IND), n - NDIR) && ValidPos(vol.geo.Shape(), leaf) &&
                  vol.inodes[ino].block[IND] == At(s, Slot(ino, IND)))
            && (NDIR + w <= n < NDIR + w + Times(w, w) ==> leaf == DoubleAt(w, ino, n - NDIR - w))
            && (NDIR + w + Times(w, w) <= n ==>
                  leaf == TripleAt(w, ino, n - NDIR - w - Times(w, w)) &&
                  n - NDIR - w - Times(w, w) < Times(Times(w, w), w))
  {
    hide DoubleAt, TripleAt, Times, Represents, Mirror, SectorsOk;
    if NDIR <= n < NDIR + vol.geo.Ppb() { LeafPlace(vol.geo, ino, n); }
  }

  /** inode_get_block: the pointer of logical block n, or 0 for a hole. */
  method InodeGetBlock(vol: Volume, ino: nat, n: nat, ghost s: Fs) returns (b: nat)
    requires Valid(vol, s) && ino in vol.inodes && n < vol.geo.MaxBlocks()
    ensures b == At(s, Leaf(vol.geo, ino, n))
  {
    hide Rep, Ok, TreeOk, At, Leaf, DoubleAt, TripleAt, ValidPos, Level, Times;
    GetFacts(vol, ino, n, s);
    var w := vol.geo.Ppb();
    if n < NDIR { return vol.inodes[ino].block[n]; }
    var m := n - NDIR;
    if m < w {
      b := Follow(vol, vol.inodes[ino].block[IND], m, s, Slot(ino, IND));
    } else {
      TimesMul(w, w);
      if m - w < w * w {
        b := GetDouble(vol, ino, m - w, s);
      } else {
        b := GetTriple(vol, ino, m - w - w * w, s);
      }
    }
  }

  lemma BalancedRefl(s: Fs, leaf: Pos)
    ensures Balanced(s, s, leaf)
  {
  }

  lemma OkTree(geo: Geometry, s: Fs)
    requires Ok(geo, s)
    ensures TreeOk(geo, s) && 0 !in s.free
  {
  }

  /** The pointer table in root slot `slot`, allocated and attached if the slot is empty. */
  method RootTable(vol: Volume, ino: nat, slot: nat, group: nat, ghost s: Fs, ghost leaf: Pos)
    returns (b: nat, vol': Volume, ghost s': Fs)
    requires Valid(vol, s) && IND <= slot < NBLOCKS && EmptyLeaf(vol.geo, s, ino, leaf)
    requires leaf.Child? && Under(leaf.parent, Slot(ino, slot))
    ensures SameVolume(vol, vol') && Rep(vol', s')
    ensures Grown(vol.geo, s, s', leaf, 0) && EmptyLeaf(vol.geo, s', ino, leaf)
    ensures b == At(s', Slot(ino, slot)) && (b == 0 ==> s'.free == {}) && Balanced(s, s', leaf)
  {
    hide Balanced, Missing, Grown, SectorsOk;
    b, vol', s' := vol.inodes[ino].block[slot], vol, s;
    BalancedRefl(s, leaf);
    GrownRefl(vol.geo, s, leaf);
    if b != 0 { return; }
    ghost var s1;
    b, vol', s1 := AllocBlock(vol, group, s);
    if b == 0 { return; }
    GrowSlot(vol.geo, s, s1, ino, slot, b, leaf);
    var inode := vol'.inodes[ino];
    vol' := vol'.(inodes := vol'.inodes[ino := Charged(inode, vol.geo).(block := With(inode.block, slot, b))]);
    s' := s1.(inodes := vol'.inodes, home := s1.home[b := Slot(ino, slot)]);
  }

  /** The pointer table in entry i of the table x that hangs at p, likewise. */
  method ChildTable(vol: Volume, ino: nat, x: nat, i: nat, group: nat, ghost s: Fs, ghost p: Pos, ghost leaf: Pos)
    returns (b: nat, vol': Volume, ghost s': Fs)
    requires Valid(vol, s) && EmptyLeaf(vol.geo, s, ino, leaf)
    requires x == At(s, p) != 0 && ValidPos(vol.geo.Shape(), Child(p, i)) && Level(vol.geo.Shape(), p) > 1
    requires Owner(p) == ino
    requires leaf.Child? && Under(leaf.parent, Child(p, i))
    ensures SameVolume(vol, vol') && Rep(vol', s')
    ensures Grown(vol.geo, s, s', leaf, 0) && EmptyLeaf(vol.geo, s', ino, leaf)
    ensures b == At(s', Child(p, i)) && (b == 0 ==> s'.free == {}) && Balanced(s, s', leaf)
  {
    hide Balanced, Missing, Grown, SectorsOk, Ok;
    OkTree(vol.geo, s);
    b := Follow(vol, x, i, s, p);
    vol', s' := vol, s;
    BalancedRefl(s, leaf);
    GrownRefl(vol.geo, s, leaf);
    if b != 0 { return; }
    ParentIsTable(vol.geo, s, Child(p, i));
    var buf := vol.disk[x];
    ghost var s1;
    b, vol', s1 := AllocBlock(vol, group, s);
    if b == 0 { return; }
    var raw := PutWord(buf, 4 * i, b);
    GrowChild(vol.geo, s, s1, x, p, i, b, raw, ino, leaf);
    MirrorPut(s1.disk, s1.tabs, x, i, b);
    vol' := vol'.(disk := vol'.disk[x := raw], inodes := vol'.inodes[ino := Charged(vol'.inodes[ino], vol.geo)]);
    s' := s1.(disk := vol'.disk, tabs := s1.tabs[x := With(s1.tabs[x], i, b)], inodes := vol'.inodes,
              home := s1.home[b := Child(p, i)]);
  }

  /** phys can become the data block at the empty place leaf of inode ino. */
  ghost predicate CanSet(vol: Volume, s: Fs, ino: nat, leaf: Pos, phys: nat) {
    EmptyLeaf(vol.geo, s, ino, leaf) && Loose(vol.geo, s, phys) && vol.blay.Covers(phys)
  }

  /** Either the whole path exists now and got == phys hangs at leaf, or an allocation failed because
      nothing was free; then got == 0 and no data pointer changed. It succeeds exactly when there are
      as many free blocks as tables are missing on the path. */
  ghost predicate SetResult(vol: Volume, s: Fs, vol': Volume, s': Fs, leaf: Pos, phys: nat, got: nat) {
    && SameVolume(vol, vol') && Rep(vol', s')
    && Grown(vol.geo, s, s', leaf, got)
    && (got == phys || (got == 0 && s'.free == {}))
    && (got == phys <==> |s.free| >= Missing(s, leaf))
    && (got == phys ==> |s'.free| == |s.free| - Missing(s, leaf))
  }

  /** Write phys into entry i of the table x that hangs at p, and charge its sectors to the inode. */
  method StoreEntry(vol: Volume, ino: nat, x: nat, i: nat, phys: nat, ghost s: Fs, ghost p: Pos)
    returns (vol': Volume, ghost s': Fs)
    requires Valid(vol, s) && CanSet(vol, s, ino, Child(p, i), phys) && x == At(s, p) != 0
    ensures SetResult(vol, s, vol', s', Child(p, i), phys, phys)
  {
    ParentIsTable(vol.geo, s, Child(p, i));
    NoneMissing(s, Child(p, i));
    var raw := PutWord(vol.disk[x], 4 * i, phys);
    LeafChild(vol.geo, s, x, p, i, phys, raw, ino);
    MirrorPut(s.disk, s.tabs, x, i, phys);
    vol' := vol.(disk := vol.disk[x := raw], inodes := vol.inodes[ino := Charged(vol.inodes[ino], vol.geo)]);
    s' := s.(disk := vol'.disk, tabs := s.tabs[x := With(s.tabs[x], i, phys)], inodes := vol'.inodes,
             home := s.home[phys := Child(p, i)]);
  }

  /** After the path has grown, the place can still take phys. */
  lemma SetReady(vol: Volume, s: Fs, vol1: Volume, s1: Fs, ino: nat, leaf: Pos, phys: nat)
    requires CanSet(vol, s, ino, leaf, phys) && Ok(vol.geo, s)
    requires SameVolume(vol, vol1) && Rep(vol1, s1) && Grown(vol.geo, s, s1, leaf, 0)
    ensures CanSet(vol1, s1, ino, leaf, phys) && Valid(vol1, s1)
    ensures 0 !in s.free && 0 !in s1.home && phys !in s.free && phys !in s1.home
  {
  }

  /** The path could not be completed: nothing is free and a table is missing. */
  lemma SetFails(vol: Volume, s: Fs, vol1: Volume, s1: Fs, ino: nat, p: Pos, leaf: Pos, phys: nat)
    requires CanSet(vol, s, ino, leaf, phys) && SameVolume(vol, vol1) && Rep(vol1, s1) && Grown(vol.geo, s, s1, leaf, 0)
    requires Balanced(s, s1, leaf)
    requires s1.free == {} && At(s1, p) == 0 && leaf.Child? && Under(leaf.parent, p)
    ensures SetResult(vol, s, vol1, s1, leaf, phys, 0)
  {
    hide Rep, Grown, At;
    SomeMissing(s1, p, leaf);
  }

  /** Growing the path and then setting. */
  lemma SetAfter(vol: Volume, s: Fs, vol1: Volume, s1: Fs, vol2: Volume, s2: Fs, ino: nat, leaf: Pos, phys: nat,
        got: nat)
    requires CanSet(vol, s, ino, leaf, phys) && SameVolume(vol, vol1) && Grown(vol.geo, s, s1, leaf, 0)
    requires Balanced(s, s1, leaf)
    requires 0 !in s.free && 0 !in s1.home && phys !in s.free && phys !in s1.home
    requires SetResult(vol1, s1, vol2, s2, leaf, phys, got)
    ensures SetResult(vol, s, vol2, s2, leaf, phys, got)
  {
    hide Rep, Grown, At;
    GrownTrans(vol.geo, s, s1, s2, leaf, got);
  }

  method SetSingle(vol: Volume, ino: nat, n: nat, phys: nat, group: nat, ghost s: Fs)
    returns (got: nat, vol': Volume, ghost s': Fs)
    requires Valid(vol, s) && n < vol.geo.Ppb() && CanSet(vol, s, ino, Child(Slot(ino, IND), n), phys)
    ensures SetResult(vol, s, vol', s', Child(Slot(ino, IND), n), phys, got)
  {
    hide Rep, Grown, At, Balanced, SetResult, Ok;
    ghost var leaf := Child(Slot(ino, IND), n);
    var ind, vol1;
    ghost var s1;
    ind, vol1, s1 := RootTable(vol, ino, IND, group, s, leaf);
    if ind == 0 {
      SetFails(vol, s, vol1, s1, ino, leaf.parent, leaf, phys);
      return 0, vol1, s1;
    }
    SetReady(vol, s, vol1, s1, ino, leaf, phys);
    vol', s' := StoreEntry(vol1, ino, ind, n, phys, s1, leaf.parent);
    SetAfter(vol, s, vol1, s1, vol', s', ino, leaf, phys, phys);
    got := phys;
  }

  /** From an existing table x at p with two levels below it: its entry i, then entry j of that. */
  method SetBelow(vol: Volume, ino: nat, x: nat, i: nat, j: nat, phys: nat, group: nat, ghost s: Fs, ghost p: Pos)
    returns (got: nat, vol': Volume, ghost s': Fs)
    requires Valid(vol, s) && CanSet(vol, s, ino, Child(Child(p, i), j), phys) && x == At(s, p) != 0
    requires Level(vol.geo.Shape(), p) == 2 && Owner(p) == ino
    ensures SetResult(vol, s, vol', s', Child(Child(p, i), j), phys, got)
  {
    hide Rep, Grown, At, Balanced, SetResult, Ok;
    ghost var leaf := Child(Child(p, i), j);
    var ind, vol1;
    ghost var s1;
    ind, vol1, s1 := ChildTable(vol, ino, x, i, group, s, p, leaf);
    if ind == 0 {
      SetFails(vol, s, vol1, s1, ino, leaf.parent, leaf, phys);
      return 0, vol1, s1;
    }
    SetReady(vol, s, vol1, s1, ino, leaf, phys);
    vol', s' := StoreEntry(vol1, ino, ind, j, phys, s1, leaf.parent);
    SetAfter(vol, s, vol1, s1, vol', s', ino, leaf, phys, phys);
    got := phys;
  }

  method SetDouble(vol: Volume, ino: nat, m: nat, phys: nat, group: nat, ghost s: Fs)
    returns (got: nat, vol': Volume, ghost s': Fs)
    requires Valid(vol, s) && m < Times(vol.geo.Ppb(), vol.geo.Ppb())
    requires CanSet(vol, s, ino, DoubleAt(vol.geo.Ppb(), ino, m), phys)
    ensures SetResult(vol, s, vol', s', DoubleAt(vol.geo.Ppb(), ino, m), phys, got)
  {
    hide Rep, Grown, At, Balanced, SetResult, Ok, Quo, Rem, Times;
    var i, j := SplitDouble(m, vol.geo.Ppb());
    ghost var leaf := Child(Child(Slot(ino, DIND), i), j);
    UnderBoth(Slot(ino, DIND), i, j);
    var dind, vol1;
    ghost var s1;
    dind, vol1, s1 := RootTable(vol, ino, DIND, group, s, leaf);
    if dind == 0 {
      SetFails(vol, s, vol1, s1, ino, Slot(ino, DIND), leaf, phys);
      return 0, vol1, s1;
    }
    SetReady(vol, s, vol1, s1, ino, leaf, phys);
    got, vol', s' := SetBelow(vol1, ino, dind, i, j, phys, group, s1, Slot(ino, DIND));
    SetAfter(vol, s, vol1, s1, vol', s', ino, leaf, phys, got);
  }

  method SetTriple(vol: Volume, ino: nat, m: nat, phys: nat, group: nat, ghost s: Fs)
    returns (got: nat, vol': Volume, ghost s': Fs)
    requires Valid(vol, s) && m < Times(Times(vol.geo.Ppb(), vol.geo.Ppb()), vol.geo.Ppb())
    requires CanSet(vol, s, ino, TripleAt(vol.geo.Ppb(), ino, m), phys)
    ensures SetResult(vol, s, vol', s', TripleAt(vol.geo.Ppb(), ino, m), phys, got)
  {
    hide Rep, Grown, At, Balanced, SetResult, Ok, Quo, Rem, Times;
    var i, j, k := SplitTriple(m, vol.geo.Ppb());
    ghost var leaf := Child(Child(Child(Slot(ino, TIND), i), j), k);
    assert leaf == TripleAt(vol.geo.Ppb(), ino, m);
    UnderBoth(Slot(ino, TIND), i, j);
    var tind, vol1;
    ghost var s1;
    tind, vol1, s1 := RootTable(vol, ino, TIND, group, s, leaf);
    if tind == 0 {
      SetFails(vol, s, vol1, s1, ino, Slot(ino, TIND), leaf, phys);
      return 0, vol1, s1;
    }
    SetReady(vol, s, vol1, s1, ino, leaf, phys);
    got, vol', s' := SetThird(vol1, ino, tind, i, j, k, phys, group, s1);
    SetAfter(vol, s, vol1, s1, vol', s', ino, leaf, phys, got);
  }

  lemma UnderBoth(p: Pos, i: nat, j: nat)
    ensures Under(Child(p, i), p) && Under(Child(Child(p, i), j), p)
  {
    var q := Child(p, i);
    assert Under(q, p);
  }

  lemma OverBoth(geo: Geometry, p: Pos, j: nat, k: nat)
    requires ValidPos(geo.Shape(), Child(Child(p, j), k))
    ensures ValidPos(geo.Shape(), Child(p, j)) && ValidPos(geo.Shape(), p) && Owner(Child(Child(p, j), k)) == Owner(p)
    ensures Level(geo.Shape(), p) == Level(geo.Shape(), Child(Child(p, j), k)) + 2
  {
    var q := Child(p, j);
    assert ValidPos(geo.Shape(), q) && Owner(Child(q, k)) == Owner(q)
           && Level(geo.Shape(), Child(q, k)) == Level(geo.Shape(), q) - 1;
  }

  method SetThird(vol: Volume, ino: nat, tind: nat, i: nat, j: nat, k: nat, phys: nat, group: nat, ghost s: Fs)
    returns (got: nat, vol': Volume, ghost s': Fs)
    requires Valid(vol, s) && CanSet(vol, s, ino, Child(Child(Child(Slot(ino, TIND), i), j), k), phys)
    requires tind == At(s, Slot(ino, TIND)) != 0
    ensures SetResult(vol, s, vol', s', Child(Child(Child(Slot(ino, TIND), i), j), k), phys, got)
  {
    hide Rep, Grown, At, Balanced, SetResult, Ok;
    ghost var top := Child(Slot(ino, TIND), i);
    ghost var leaf := Child(Child(top, j), k);
    OverBoth(vol.geo, top, j, k);
    UnderBoth(top, j, k);
    var dind, vol1;
    ghost var s1;
    dind, vol1, s1 := ChildTable(vol, ino, tind, i, group, s, Slot(ino, TIND), leaf);
    if dind == 0 {
      SetFails(vol, s, vol1, s1, ino, top, leaf, phys);
      return 0, vol1, s1;
    }
    SetReady(vol, s, vol1, s1, ino, leaf, phys);
    got, vol', s' := SetBelow(vol1, ino, dind, j, k, phys, group, s1, top);
    SetAfter(vol, s, vol1, s1, vol', s', ino, leaf, phys, got);
  }

  method SetDirect(vol: Volume, ino: nat, n: nat, phys: nat, ghost s: Fs) returns (vol': Volume, ghost s': Fs)
    requires Valid(vol, s) && n < NDIR && CanSet(vol, s, ino, Slot(ino, n), phys)
    ensures SetResult(vol, s, vol', s', Slot(ino, n), phys, phys)
  {
    LeafSlot(vol.geo, s, ino, n, phys);
    var inode := vol.inodes[ino];
    vol' := vol.(inodes := vol.inodes[ino := Charged(inode.(block := With(inode.block, n, phys)), vol.geo)]);
    s' := s.(inodes := vol'.inodes, home := s.home[phys := Slot(ino, n)]);
  }

  lemma CanSetInode(vol: Volume, ino: nat, n: nat, phys: nat, s: Fs)
    requires Valid(vol, s) && n < vol.geo.MaxBlocks() && CanSet(vol, s, ino, Leaf(vol.geo, ino, n), phys)
    ensures ino in vol.inodes && vol.geo.Ok()
  {
    hide Represents, Mirror, SectorsOk, Leaf;
  }

  /** inode_set_block together with the i_blocks increment that both of its callers make when it
      succeeds: make phys the block of logical number n, creating the tables on the way. */
  method InodeSetBlock(vol: Volume, ino: nat, n: nat, phys: nat, group: nat, ghost s: Fs)
    returns (got: nat, vol': Volume, ghost s': Fs)
    requires Valid(vol, s) && n < vol.geo.MaxBlocks() && CanSet(vol, s, ino, Leaf(vol.geo, ino, n), phys)
    ensures SetResult(vol, s, vol', s', Leaf(vol.geo, ino, n), phys, got)
  {
    hide Rep, Ok, At, SetResult, CanSet, DoubleAt, TripleAt, Times;
    CanSetInode(vol, ino, n, phys, s);
    GetFacts(vol, ino, n, s);
    var w := vol.geo.Ppb();
    if n < NDIR {
      vol', s' := SetDirect(vol, ino, n, phys, s);
      return phys, vol', s';
    }
    var m := n - NDIR;
    if m < w {
      assert Leaf(vol.geo, ino, n) == Child(Slot(ino, IND), m);
      got, vol', s' := SetSingle(vol, ino, m, phys, group, s);
    } else {
      TimesMul(w, w);
      if m - w < w * w {
        assert Leaf(vol.geo, ino, n) == DoubleAt(w, ino, m - w);
        got, vol', s' := SetDouble(vol, ino, m - w, phys, group, s);
      } else {
        assert Leaf(vol.geo, ino, n) == TripleAt(w, ino, m - w - w * w);
        got, vol', s' := SetTriple(vol, ino, m - w - w * w, phys, group, s);
      }
    }
  }

  /** Setting logical block n of an inode and then getting it gives the block; every other logical block of
      every inode keeps its answer, though tables were allocated on the way. */
  lemma LensLaws(vol: Volume, s: Fs, vol': Volume, s': Fs, ino: nat, n: nat, phys: nat, got: nat, o: nat, k: nat)
    requires vol.geo.Ok() && n < vol.geo.MaxBlocks() && k < vol.geo.MaxBlocks()
    requires SetResult(vol, s, vol', s', Leaf(vol.geo, ino, n), phys, got)
    ensures At(s', Leaf(vol.geo, ino, n)) == got
    ensures (o, k) != (ino, n) ==> At(s', Leaf(vol.geo, o, k)) == At(s, Leaf(vol.geo, o, k))
    ensures got != phys ==> got == 0 && s'.free == {}
  {
    hide Ok, Rep, Leaf, At, SameInodes, SameBlocks, SameData;
    LeafPlace(vol.geo, ino, n);
    LeafPlace(vol.geo, o, k);
    LeafInjective(vol.geo, o, k, ino, n);
  }
}
