/** inode_free_blocks: every block below an inode goes back to the bitmap exactly once. */
module Ext2Free {
  import opened Arith
  import opened Forest
  import opened Ext2Groups
  import opened Ext2State
  import opened Ext2Tree

  /** The bitmaps of vol with gs in their place. Freeing changes nothing else until a root slot is
      cleared, so the tables stay readable while the tree is walked. */
  ghost predicate Walking(vol: Volume, s: Fs, gs: Groups, free: set<nat>) {
    Rep(vol, s) && TreeOk(vol.geo, s) && Represents(vol.blay, gs, free)
  }

  /** Free everything below the table x that hangs at p, with `level` table levels: the nested loops
      of the driver, one call per level. */
  method FreeBelow(vol: Volume, gs: Groups, x: nat, level: nat, ghost s: Fs, ghost p: Pos, ghost free: set<nat>)
    returns (gs': Groups)
    requires Walking(vol, s, gs, free) && ValidPos(vol.geo.Shape(), p) && x == At(s, p) != 0
    requires level == Level(vol.geo.Shape(), p) > 0 && free !! Fan(s.home, p, vol.geo.Ppb())
    ensures Represents(vol.blay, gs', free + Fan(s.home, p, vol.geo.Ppb()))
    decreases level, 0
  {
    gs' := gs;
    var w := vol.geo.Ppb();
    FanTurn(vol, s, p, 0, free);
    hide Represents, Fan, Below, Level, ValidPos, At, TreeOk, Rep;
    for i := 0 to w
      invariant Represents(vol.blay, gs', free + Fan(s.home, p, i))
    {
      FanTurn(vol, s, p, i, free);
      var c := Follow(vol, x, i, s, p);
      if c != 0 {
        gs' := FreeTree(vol, gs', c, level - 1, s, Child(p, i), free + Fan(s.home, p, i));
      }
    }
  }

  /** What one turn of the loop adds to the set of freed blocks. */
  lemma FanTurn(vol: Volume, s: Fs, p: Pos, i: nat, free: set<nat>)
    requires Rep(vol, s) && TreeOk(vol.geo, s) && ValidPos(vol.geo.Shape(), p) && Level(vol.geo.Shape(), p) > 0
    requires i < vol.geo.Ppb()
    requires free !! Fan(s.home, p, vol.geo.Ppb())
    ensures var q := Child(p, i);
            && ValidPos(vol.geo.Shape(), q) && Level(vol.geo.Shape(), q) == Level(vol.geo.Shape(), p) - 1
            && free + Fan(s.home, p, i) + Below(s.home, q) == free + Fan(s.home, p, i + 1)
            && free + Fan(s.home, p, i) !! Below(s.home, q)
            && (At(s, q) == 0 ==> free + Fan(s.home, p, i + 1) == free + Fan(s.home, p, i))
    ensures free + Fan(s.home, p, 0) == free
    ensures vol.geo.Ppb() > 0
  {
    var q := Child(p, i);
    FanAll(vol.geo.Shape(), s.tabs, RootsOf(s.inodes), s.home, p);
    FanStep(vol.geo.Shape(), s.tabs, RootsOf(s.inodes), s.home, p, i);
    FanAll(vol.geo.Shape(), s.tabs, RootsOf(s.inodes), s.home, q);
    FanGrows(s.home, p, i + 1, vol.geo.Ppb());
    hide Fan, Below, TreeOk, Rep;
  }

  /** Free the block c that hangs at q, after everything below it. */
  method FreeTree(vol: Volume, gs: Groups, c: nat, level: nat, ghost s: Fs, ghost q: Pos, ghost free: set<nat>)
    returns (gs': Groups)
    requires Walking(vol, s, gs, free) && ValidPos(vol.geo.Shape(), q) && c == At(s, q) != 0
    requires level == Level(vol.geo.Shape(), q) && free !! Below(s.home, q)
    ensures Represents(vol.blay, gs', free + Below(s.home, q))
    decreases level, 1
  {
    TreeTurn(vol, s, q, free);
    hide Represents, Fan, Below, Level, ValidPos, At, TreeOk, Rep;
    gs' := gs;
    if level > 0 {
      gs' := FreeBelow(vol, gs, c, level, s, q, free);
    }
    gs' := Give(vol.blay, gs', c, free + Fan(s.home, q, vol.geo.Ppb()));
  }

  lemma TreeTurn(vol: Volume, s: Fs, q: Pos, free: set<nat>)
    requires Rep(vol, s) && TreeOk(vol.geo, s) && ValidPos(vol.geo.Shape(), q) && At(s, q) != 0
    requires free !! Below(s.home, q)
    ensures var fan := Fan(s.home, q, vol.geo.Ppb());
            && free !! fan && At(s, q) !in free + fan && vol.blay.Covers(At(s, q))
            && (Level(vol.geo.Shape(), q) == 0 ==> free + fan == free)
            && free + fan + {At(s, q)} == free + Below(s.home, q)
  {
    FanAll(vol.geo.Shape(), s.tabs, RootsOf(s.inodes), s.home, q);
    assert At(s, q) in s.home;
    assert vol.blay.Covers(At(s, q));
    hide Fan, Below, TreeOk, Rep;
  }

  lemma FanGrows(home: map<nat, Pos>, p: Pos, i: nat, j: nat)
    requires i <= j
    ensures Fan(home, p, i) <= Fan(home, p, j)
  {
  }

  /** The state after the subtree below root slot i of inode ino was freed and the slot cleared. */
  ghost function Pruned(s: Fs, ino: nat, i: nat): Fs
    requires ino in s.inodes && i < |s.inodes[ino].block|
  {
    s.(inodes := Cleared(s.inodes, ino, i), free := s.free + Below(s.home, Slot(ino, i)),
       home := s.home - Below(s.home, Slot(ino, i)))
  }

  function Cleared(inodes: map<nat, Inode>, ino: nat, i: nat): map<nat, Inode>
    requires ino in inodes && i < |inodes[ino].block|
  {
    inodes[ino := inodes[ino].(block := With(inodes[ino].block, i, 0))]
  }

  /** Pruning a slot keeps the forest well formed. */
  lemma PrunedTree(geo: Geometry, s: Fs, s': Fs, ino: nat, i: nat)
    requires TreeOk(geo, s) && ino in s.inodes && i < NBLOCKS && s' == Pruned(s, ino, i)
    ensures TreeOk(geo, s')
  {
    assert RootsOf(s'.inodes) == RootsOf(s.inodes)[ino := With(RootsOf(s.inodes)[ino], i, 0)];
    PruneKeeps(geo.Shape(), s.tabs, RootsOf(s.inodes), s.home, ino, i);
  }

  method FreeSlot(vol: Volume, ino: nat, i: nat, ghost s: Fs) returns (vol': Volume, ghost s': Fs)
    requires Rep(vol, s) && TreeOk(vol.geo, s) && ino in vol.inodes && i < NBLOCKS
    ensures i < |s.inodes[ino].block| && s' == Pruned(s, ino, i)
    ensures SameVolume(vol, vol') && Rep(vol', s') && TreeOk(vol.geo, s')
  {
    s' := Pruned(s, ino, i);
    PrunedTree(vol.geo, s, s', ino, i);
    var c := vol.inodes[ino].block[i];
    ghost var q := Slot(ino, i);
    FanAll(vol.geo.Shape(), s.tabs, RootsOf(s.inodes), s.home, q);
    assert s.free !! Below(s.home, q);
    assert Cleared(vol.inodes, ino, i) == s'.inodes;
    if c == 0 {
      assert s.free + Below(s.home, q) == s.free;
      vol' := vol.(inodes := Cleared(vol.inodes, ino, i));
    } else {
      var gs := FreeTree(vol, vol.blocks, c, if i < NDIR then 0 else i + 1 - NDIR, s, q, s.free);
      vol' := vol.(blocks := gs, inodes := Cleared(vol.inodes, ino, i));
    }
  }

  /** The first i slots are freed and cleared; nothing else changed. */
  ghost predicate Partly(s: Fs, s1: Fs, ino: nat, i: nat) {
    && ino in s.inodes && |s.inodes[ino].block| == NBLOCKS && i <= NBLOCKS
    && s1 == s.(inodes := s1.inodes, free := s.free + Upto(s.home, ino, i), home := s.home - Upto(s.home, ino, i))
    && s1.inodes == s.inodes[ino := s.inodes[ino].(block := ZeroFirst(s.inodes[ino].block, i))]
  }

  function ZeroFirst(block: seq<nat>, i: nat): (r: seq<nat>)
    requires i <= |block|
    ensures |r| == |block|
  {
    seq(i, _ => 0) + block[i..]
  }

  lemma PartlyStep(s: Fs, s1: Fs, s2: Fs, ino: nat, i: nat)
    requires Partly(s, s1, ino, i) && i < NBLOCKS && s2 == Pruned(s1, ino, i)
    ensures Partly(s, s2, ino, i + 1)
  {
    var below := Below(s1.home, Slot(ino, i));
    forall b | b in s.home ensures b in Upto(s.home, ino, i + 1) <==> b in Upto(s.home, ino, i) || b in below {
      UnderSlot(s.home[b], ino, i);
    }
    assert Upto(s.home, ino, i + 1) == Upto(s.home, ino, i) + below;
    assert s2.home == s.home - Upto(s.home, ino, i + 1);
    assert s2.free == s.free + Upto(s.home, ino, i + 1);
    assert With(ZeroFirst(s.inodes[ino].block, i), i, 0) == ZeroFirst(s.inodes[ino].block, i + 1);
    assert s2.inodes == s.inodes[ino := s.inodes[ino].(block := ZeroFirst(s.inodes[ino].block, i + 1))];
  }

  /** The inode owns nothing any more. */
  function Bare(inode: Inode): Inode {
    inode.(block := seq(NBLOCKS, _ => 0), sectors := 0)
  }

  /** The state after inode_free_blocks. */
  ghost function Emptied(s: Fs, ino: nat): Fs
    requires ino in s.inodes
  {
    s.(inodes := s.inodes[ino := Bare(s.inodes[ino])], free := s.free + Owned(s.home, ino),
        home := s.home - Owned(s.home, ino))
  }

  lemma EmptiedEq(geo: Geometry, s: Fs, s1: Fs, s2: Fs, ino: nat)
    requires TreeOk(geo, s) && Partly(s, s1, ino, NBLOCKS)
    requires s2 == s1.(inodes := s1.inodes[ino := Bare(s1.inodes[ino])])
    ensures s2 == Emptied(s, ino)
  {
    forall b | b in s.home ensures SlotOf(s.home[b]) < NBLOCKS { SlotBound(geo.Shape(), s.home[b]); }
    hide TreeOk;
    assert Upto(s.home, ino, NBLOCKS) == Owned(s.home, ino);
    assert Bare(s1.inodes[ino]) == Bare(s.inodes[ino]);
    assert s2.inodes == s.inodes[ino := Bare(s.inodes[ino])];
  }

  lemma EmptiedTree(geo: Geometry, s: Fs, s1: Fs, s2: Fs, ino: nat)
    requires TreeOk(geo, s1) && Partly(s, s1, ino, NBLOCKS)
    requires s2 == s1.(inodes := s1.inodes[ino := Bare(s1.inodes[ino])])
    ensures TreeOk(geo, s2)
  {
    assert s1.inodes[ino].block == seq(NBLOCKS, _ => 0);
    assert RootsOf(s2.inodes) == RootsOf(s1.inodes);
  }

  lemma EmptiedSectors(geo: Geometry, s: Fs, ino: nat)
    requires SectorsOk(geo, s) && ino in s.inodes
    ensures SectorsOk(geo, Emptied(s, ino))
  {
    forall o | o in s.inodes
      ensures Emptied(s, ino).inodes[o].sectors == Times(|Owned(Emptied(s, ino).home, o)|, geo.bs / 512)
    {
      EmptiedOwned(s.home, ino, o);
    }
  }

  lemma EmptiedOwned(home: map<nat, Pos>, ino: nat, o: nat)
    ensures Owned(home - Owned(home, ino), o) == if o == ino then {} else Owned(home, o)
  {
  }

  /** inode_free_blocks: the free set grows by exactly the blocks below the inode, each of which was
      in use and is returned once; the free count rises by their number. */
  method InodeFreeBlocks(vol: Volume, ino: nat, ghost s: Fs) returns (vol': Volume, ghost s': Fs)
    requires Valid(vol, s) && ino in vol.inodes
    ensures ino in s.inodes && s' == Emptied(s, ino) && SameVolume(vol, vol') && Valid(vol', s')
    ensures s'.inodes[ino] == s.inodes[ino].(block := s'.inodes[ino].block, sectors := 0)
    ensures forall b | b in s'.inodes[ino].block :: b == 0
    ensures vol'.blocks.total == vol.blocks.total + |Owned(s.home, ino)|
    ensures vol.inodes[ino].sectors == Times(vol'.blocks.total - vol.blocks.total, vol.geo.bs / 512)
  {
    vol', s' := vol, s;
    PartlyRefl(s, ino);
    for i := 0 to NBLOCKS
      invariant SameVolume(vol, vol') && Rep(vol', s') && TreeOk(vol.geo, s') && Partly(s, s', ino, i)
      invariant ino in vol'.inodes
    {
      hide TreeOk, Partly, Pruned;
      ghost var s1 := s';
      vol', s' := FreeSlot(vol', ino, i, s1);
      PartlyStep(s, s1, s', ino, i);
      PartlyIno(s, s', ino, i + 1);
    }
    ghost var s1 := s';
    vol' := vol'.(inodes := vol'.inodes[ino := Bare(vol'.inodes[ino])]);
    s' := s1.(inodes := s1.inodes[ino := Bare(s1.inodes[ino])]);
    EmptiedTree(vol.geo, s, s1, s', ino);
    EmptiedEq(vol.geo, s, s1, s', ino);
    hide TreeOk, Partly, Emptied, Owned;
    EmptiedSectors(vol.geo, s, ino);
    EmptiedTotal(vol, s, vol', s', ino);
  }

  lemma PartlyRefl(s: Fs, ino: nat)
    requires ino in s.inodes && |s.inodes[ino].block| == NBLOCKS
    ensures Partly(s, s, ino, 0)
  {
    assert Upto(s.home, ino, 0) == {};
    assert ZeroFirst(s.inodes[ino].block, 0) == s.inodes[ino].block;
    assert s.home - {} == s.home;
    assert s.free + {} == s.free;
    assert s.inodes == s.inodes[ino := s.inodes[ino].(block := ZeroFirst(s.inodes[ino].block, 0))];
  }

  lemma PartlyIno(s: Fs, s1: Fs, ino: nat, i: nat)
    requires Partly(s, s1, ino, i)
    ensures ino in s1.inodes
  {
  }

  lemma EmptiedTotal(vol: Volume, s: Fs, vol': Volume, s': Fs, ino: nat)
    requires Valid(vol, s) && ino in s.inodes && s' == Emptied(s, ino) && Rep(vol', s')
    ensures vol'.blocks.total == vol.blocks.total + |Owned(s.home, ino)|
  {
    TotalIsCardinality(vol.blay, vol.blocks, s.free);
    TotalIsCardinality(vol'.blay, vol'.blocks, s'.free);
    assert s.free !! Owned(s.home, ino);
  }
}
