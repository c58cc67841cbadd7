/** The state of an ext2 volume as a value, and what attaching a block to an inode does to it. */
module Ext2State {
  import opened Arith
  import opened Words
  import opened Forest

  const NDIR := 12
  const IND := 12
  const DIND := 13
  const TIND := 14
  const NBLOCKS := 15

  /** bs: block size in bytes; count: number of blocks of the volume. */
  datatype Geometry = Geometry(bs: nat, count: nat) {
    predicate Ok() {
      1024 <= bs < U16 && bs % 512 == 0 && count < U32 / 1024
    }

    /** Pointers per block. */
    function Ppb(): nat { bs / 4 }

    function Shape(): Forest.Shape {
      Forest.Shape(NBLOCKS, NDIR, 0, Ppb())
    }

    /** Logical blocks that the direct, single, double and triple slots can address. */
    function MaxBlocks(): nat { NDIR + Ppb() + Times(Ppb(), Ppb()) + Times(Times(Ppb(), Ppb()), Ppb()) }
  }

  datatype Kind = File | Dir
  datatype Inode = Inode(kind: Kind, block: seq<nat>, size: nat, sectors: nat, links: nat)

  /** disk: the bytes of every block; tabs: the same blocks read as pointer tables; inodes: the inode
      of every node in use; free: the blocks whose bit is clear; home: where each block hangs. */
  datatype Fs = Fs(disk: map<nat, seq<byte>>, tabs: Tables, inodes: map<nat, Inode>, free: set<nat>,
      home: map<nat, Pos>)

  function RootsOf(inodes: map<nat, Inode>): Roots {
    map o | o in inodes :: inodes[o].block
  }

  /** The pointer at place p. */
  ghost function At(s: Fs, p: Pos): nat {
    Node(s.tabs, RootsOf(s.inodes), p)
  }

  /** No block hangs at two places, no free block hangs anywhere, and block 0 is never free. */
  ghost predicate TreeOk(geo: Geometry, s: Fs) {
    && geo.Ok()
    && (forall b | b in s.free :: 0 < b < geo.count)
    && (forall b: nat | b < geo.count ::
          b in s.disk && b in s.tabs && |s.disk[b]| == geo.bs && |s.tabs[b]| == geo.Ppb())
    && Planted(geo.Shape(), s.tabs, RootsOf(s.inodes), s.home)
    && (forall b | b in s.home :: b < geo.count && b !in s.free && Owner(s.home[b]) in s.inodes)
    && (forall o | o in s.inodes :: |s.inodes[o].block| == NBLOCKS)
  }

  /** i_blocks counts the 512-byte sectors of everything that hangs below the inode. */
  ghost predicate SectorsOk(geo: Geometry, s: Fs) {
    forall o | o in s.inodes :: s.inodes[o].sectors == Times(|Owned(s.home, o)|, geo.bs / 512)
  }

  ghost predicate Ok(geo: Geometry, s: Fs) {
    TreeOk(geo, s) && SectorsOk(geo, s)
  }

  /** v is an allocated block that hangs nowhere and p an empty place that can take it; a table place
      takes a block of absent pointers. */
  ghost predicate CanHook(geo: Geometry, s: Fs, p: Pos, v: nat) {
    && TreeOk(geo, s) && ValidPos(geo.Shape(), p) && At(s, p) == 0 && Owner(p) in s.inodes
    && 0 < v < geo.count && v !in s.free && v !in s.home
    && (p.Child? ==> At(s, p.parent) != 0)
    && (Level(geo.Shape(), p) > 0 ==> forall i | 0 <= i < geo.Ppb() :: s.tabs[v][i] == 0)
  }

  lemma ParentIsTable(geo: Geometry, s: Fs, p: Pos)
    requires TreeOk(geo, s) && ValidPos(geo.Shape(), p) && p.Child? && At(s, p.parent) != 0
    ensures At(s, p.parent) in s.home && s.home[At(s, p.parent)] == p.parent
    ensures Level(geo.Shape(), p.parent) > 0
    ensures At(s, p.parent) < geo.count && At(s, p.parent) in s.tabs && p.index < |s.tabs[At(s, p.parent)]|
  {
  }

  /** The inode with one more block on its sector count. */
  function Charged(inode: Inode, geo: Geometry): Inode {
    inode.(sectors := inode.sectors + geo.bs / 512)
  }

  /** The root slot or the table that holds place p exists. */
  ghost predicate Hookable(s: Fs, p: Pos) {
    && Owner(p) in s.inodes
    && (p.Slot? ==> p.index < |s.inodes[p.owner].block|)
    && (p.Child? ==> At(s, p.parent) in s.tabs && p.index < |s.tabs[At(s, p.parent)]|)
  }

  /** Stores v at p; `raw` is the new content of the table block when p is an entry of one. The
      inode is charged the sectors of the block. */
  ghost function Hook(geo: Geometry, s: Fs, p: Pos, v: nat, raw: seq<byte>): (r: Fs)
    requires Hookable(s, p)
  {
    var o := Owner(p);
    var inode := Charged(s.inodes[o], geo);
    match p
    case Slot(_, i) =>
      s.(inodes := s.inodes[o := inode.(block := With(inode.block, i, v))], home := s.home[v := p])
    case Child(q, i) =>
      var x := At(s, q);
      s.(disk := s.disk[x := raw], tabs := s.tabs[x := With(s.tabs[x], i, v)],
         inodes := s.inodes[o := inode], home := s.home[v := p])
  }

  lemma CanHookPlace(geo: Geometry, s: Fs, p: Pos, v: nat)
    requires CanHook(geo, s, p, v)
    ensures Hookable(s, p)
  {
    if p.Child? { ParentIsTable(geo, s, p); }
  }

  lemma HookRoots(geo: Geometry, s: Fs, p: Pos, v: nat, raw: seq<byte>)
    requires Hookable(s, p)
    ensures var h := Hook(geo, s, p, v, raw);
            (h.tabs, RootsOf(h.inodes)) == Hang(s.tabs, RootsOf(s.inodes), p, v)
  {
    var h := Hook(geo, s, p, v, raw);
    assert RootsOf(h.inodes) == Hang(s.tabs, RootsOf(s.inodes), p, v).1;
  }

  /** Only the pointer at p changes, and no sharing arises. */
  lemma HookAt(geo: Geometry, s: Fs, p: Pos, v: nat, raw: seq<byte>)
    requires CanHook(geo, s, p, v)
    ensures Hookable(s, p) &&
            var h := Hook(geo, s, p, v, raw);
            && Planted(geo.Shape(), h.tabs, RootsOf(h.inodes), h.home)
            && forall q | ValidPos(geo.Shape(), q) :: At(h, q) == if q == p then v else At(s, q)
  {
    CanHookPlace(geo, s, p, v);
    HookRoots(geo, s, p, v, raw);
    HangKeeps(geo.Shape(), s.tabs, RootsOf(s.inodes), s.home, p, v);
  }

  lemma HookOwned(home: map<nat, Pos>, p: Pos, v: nat, o: nat)
    requires v !in home
    ensures |Owned(home[v := p], o)| == |Owned(home, o)| + if o == Owner(p) then 1 else 0
  {
    assert Owned(home[v := p], o) == if o == Owner(p) then Owned(home, o) + {v} else Owned(home, o);
  }

  lemma HookTree(geo: Geometry, s: Fs, p: Pos, v: nat, raw: seq<byte>)
    requires CanHook(geo, s, p, v) && |raw| == geo.bs
    ensures Hookable(s, p) && TreeOk(geo, Hook(geo, s, p, v, raw))
  {
    CanHookPlace(geo, s, p, v);
    HookAt(geo, s, p, v, raw);
  }

  lemma HookSectors(geo: Geometry, s: Fs, p: Pos, v: nat, raw: seq<byte>)
    requires CanHook(geo, s, p, v) && SectorsOk(geo, s)
    ensures Hookable(s, p) && SectorsOk(geo, Hook(geo, s, p, v, raw))
  {
    CanHookPlace(geo, s, p, v);
    hide TreeOk, ValidPos, Level, At;
    var h := Hook(geo, s, p, v, raw);
    forall o | o in s.inodes ensures h.inodes[o].sectors == Times(|Owned(h.home, o)|, geo.bs / 512) {
      HookOwned(s.home, p, v, o);
    }
  }

  /** Attaching a block keeps the volume well formed, with the sector count exact. */
  lemma HookOk(geo: Geometry, s: Fs, p: Pos, v: nat, raw: seq<byte>)
    requires CanHook(geo, s, p, v) && |raw| == geo.bs && SectorsOk(geo, s)
    ensures Hookable(s, p) && Ok(geo, Hook(geo, s, p, v, raw))
  {
    HookTree(geo, s, p, v, raw);
    HookSectors(geo, s, p, v, raw);
  }
}
