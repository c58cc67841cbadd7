/** The data blocks of inodes as values: what each change of the volume does to them. */
module Ext2Data {
  import opened Words
  import opened Forest
  import opened Options
  import opened Ext2State
  import opened Ext2Layout
  import opened Ext2Grow
  import opened Ext2File
  import opened Ext2Free

  /** The bytes of logical block n of inode o, or None for a hole. */
  ghost function DataOf(s: Fs, p: Pos): Option<seq<byte>> {
    if At(s, p) != 0 && At(s, p) in s.disk then Some(s.disk[At(s, p)]) else None
  }

  ghost function BlockData(geo: Geometry, s: Fs, o: nat, n: nat): Option<seq<byte>>
    requires geo.Ok()
  {
    DataOf(s, Leaf(geo, o, n))
  }

  /** Inode o has the same data blocks in both states. */
  ghost predicate SameFile(geo: Geometry, s: Fs, s': Fs, o: nat)
    requires geo.Ok()
  {
    forall n: nat {:trigger BlockData(geo, s', o, n)} | n < geo.MaxBlocks() ::
        BlockData(geo, s', o, n) == BlockData(geo, s, o, n)
  }

  /** Logical block m of inode d became x, and no other data block of any inode changed. */
  ghost predicate DataChanged(geo: Geometry, s: Fs, s': Fs, d: nat, m: nat, x: seq<byte>)
    requires geo.Ok()
  {
    forall o: nat, n: nat {:trigger BlockData(geo, s', o, n)} | n < geo.MaxBlocks() ::
      BlockData(geo, s', o, n) == if o == d && n == m then Some(x) else BlockData(geo, s, o, n)
  }

  /** Rewriting the data block at logical block m of inode d. */
  lemma PutBlockData(geo: Geometry, s: Fs, s': Fs, d: nat, m: nat, b: nat, x: seq<byte>)
    requires Ok(geo, s) && m < geo.MaxBlocks() && b == At(s, Leaf(geo, d, m)) != 0 && |x| == geo.bs
    requires s' == Put(s, b, x)
    ensures Ok(geo, s') && DataChanged(geo, s, s', d, m, x) && b in s.home && b < geo.count
  {
    LeafPlace(geo, d, m);
    PutBlock(geo, s, b, x, Table(x));
    forall o: nat, n: nat | n < geo.MaxBlocks()
      ensures BlockData(geo, s', o, n) == if o == d && n == m then Some(x) else BlockData(geo, s, o, n)
    {
      LeafPlace(geo, o, n);
      PutDataAt(geo, s, s', Leaf(geo, d, m), b, x, Leaf(geo, o, n));
    }
  }

  lemma PutDataAt(geo: Geometry, s: Fs, s': Fs, p: Pos, b: nat, x: seq<byte>, q: Pos)
    requires TreeOk(geo, s) && b == At(s, p) != 0 && s' == Put(s, b, x) && At(s', q) == At(s, q)
    requires ValidPos(geo.Shape(), p) && ValidPos(geo.Shape(), q)
    ensures DataOf(s', q) == if q == p then Some(x) else DataOf(s, q)
  {
    if At(s, q) == b { NoSharing(geo.Shape(), s.tabs, RootsOf(s.inodes), s.home, p, q); }
  }

  /** Growing the tree of an inode by the block v at logical block m. */
  lemma GrownData(geo: Geometry, s: Fs, s': Fs, d: nat, m: nat, v: nat)
    requires Ok(geo, s) && m < geo.MaxBlocks() && Grown(geo, s, s', Leaf(geo, d, m), v) && At(s, Leaf(geo, d, m)) == 0
    requires v != 0 ==> Loose(geo, s, v)
    ensures v != 0 ==> DataChanged(geo, s, s', d, m, s.disk[v])
    ensures v == 0 ==> forall o: nat :: SameFile(geo, s, s', o)
  {
    LeafPlace(geo, d, m);
    forall o: nat, n: nat | n < geo.MaxBlocks()
      ensures BlockData(geo, s', o, n) == if v != 0 && o == d && n == m then Some(s.disk[v])
            else BlockData(geo, s, o, n)
    {
      LeafPlace(geo, o, n);
      GrownDataAt(geo, s, s', Leaf(geo, d, m), v, Leaf(geo, o, n));
    }
  }

  lemma GrownDataAt(geo: Geometry, s: Fs, s': Fs, leaf: Pos, v: nat, q: Pos)
    requires Ok(geo, s) && Grown(geo, s, s', leaf, v) && At(s, leaf) == 0
    requires v != 0 ==> Loose(geo, s, v)
    requires ValidPos(geo.Shape(), q) && Level(geo.Shape(), q) == 0
    ensures DataOf(s', q) == if v != 0 && q == leaf then Some(s.disk[v]) else DataOf(s, q)
  {
    var b := At(s', q);
    if b != 0 { assert s'.disk[b] == s.disk[b]; }
  }

  lemma TakenData(geo: Geometry, s: Fs, s': Fs, v: nat, o: nat)
    requires Ok(geo, s) && Taken(geo, s, s', v)
    ensures SameFile(geo, s, s', o)
  {
    TakenKeeps(geo, s, s', v);
    forall n: nat | n < geo.MaxBlocks() ensures BlockData(geo, s', o, n) == BlockData(geo, s, o, n) {
      LeafPlace(geo, o, n);
    }
  }

  /** Freeing the blocks of one inode leaves the data of every other inode in place. */
  lemma EmptiedData(geo: Geometry, s: Fs, ino: nat, o: nat)
    requires geo.Ok() && ino in s.inodes && o != ino
    ensures SameFile(geo, s, Emptied(s, ino), o)
  {
    forall n: nat | n < geo.MaxBlocks() ensures BlockData(geo, Emptied(s, ino), o, n) == BlockData(geo, s, o, n) {
      LeafPlace(geo, o, n);
      RootsElsewhere(s.tabs, RootsOf(s.inodes), RootsOf(Emptied(s, ino).inodes), Leaf(geo, o, n));
    }
  }

  lemma {:induction false} RootsElsewhere(t: Tables, r: Roots, r': Roots, p: Pos)
    requires Owner(p) in r <==> Owner(p) in r'
    requires Owner(p) in r ==> r'[Owner(p)] == r[Owner(p)]
    ensures Node(t, r', p) == Node(t, r, p)
  {
    if p.Child? { RootsElsewhere(t, r, r', p.parent); }
  }

  /** Changing an inode's bookkeeping fields, adding an empty inode or dropping one moves no data. */
  lemma InodesData(geo: Geometry, s: Fs, s': Fs, o: nat)
    requires geo.Ok() && s' == s.(inodes := s'.inodes)
    requires (o in s.inodes <==> o in s'.inodes) && (o in s.inodes ==> s'.inodes[o].block == s.inodes[o].block)
    ensures SameFile(geo, s, s', o)
  {
    forall n: nat | n < geo.MaxBlocks() ensures BlockData(geo, s', o, n) == BlockData(geo, s, o, n) {
      LeafPlace(geo, o, n);
      RootsElsewhere(s.tabs, RootsOf(s.inodes), RootsOf(s'.inodes), Leaf(geo, o, n));
    }
  }
}
