/** Two small volumes. On one without a free block, with a directory of three names, renaming the short one to
    a long one fails after the old name has been removed. On one with a single free block, a write behind an
    absent table loses that block. */
module Ext2Full {
  import opened Arith
  import opened Bits
  import opened Words
  import opened Forest
  import opened Options
  import opened Ext2Groups
  import opened Ext2State
  import opened Ext2Layout
  import opened Ext2Grow
  import opened Ext2Need
  import opened Ext2Tree
  import opened Ext2Bytes
  import opened Ext2File
  import opened Ext2Dirent
  import opened Ext2Data
  import opened Ext2Directory
  import opened Ext2Names
  import opened Ext2Unlink

  const LONGEST := 255
  const SHORT_NAME: Name := [97]

  /** A name of 255 times the same letter. */
  function Long(letter: byte): (r: Name)
    ensures |r| == LONGEST && r[0] == letter
  {
    seq(LONGEST, _ => letter)
  }

  function First(): Entry { Entry(Long(65), 3, REGULAR) }
  function Middle(): Entry { Entry(SHORT_NAME, 3, REGULAR) }
  function Final(): Entry { Entry(Long(66), 3, REGULAR) }

  /** Long, short and long name, in records of 512, 12 and 500 bytes. */
  function Crammed(): (r: seq<byte>)
    ensures |r| == 1024
  {
    PutEntry(PutEntry(PutEntry(Zeros(1024), 0, First(), 512), 512, Middle(), 12), 524, Final(), 500)
  }

  /** A record that is written is read back, and writing behind it leaves it alone. */
  lemma PutRecord(b: seq<byte>, pos: nat, e: Entry, rec: nat)
    requires |e.name| < 256 && 0 < e.ino < U32 && rec < U16 && rec % 4 == 0 && Needed(|e.name|) <= rec
    requires pos + rec <= |b|
    ensures var r := PutEntry(b, pos, e, rec);
            Record(r, pos) && RecLen(r, pos) == rec && NameLen(r, pos) == |e.name| && EntryAt(r, pos) == e &&
                Ino(r, pos) == e.ino
            && Agree(b, r, 0, pos)
  {
    hide PutEntry, Needed, Ino, RecLen, NameLen;
    NeededRoom(|e.name|);
    PutEntryReads(b, pos, e, rec);
  }

  lemma CrammedRecords()
    ensures var b := Crammed();
            && Record(b, 0) && RecLen(b, 0) == 512 && EntryAt(b, 0) == First()
            && Record(b, 512) && RecLen(b, 512) == 12 && EntryAt(b, 512) == Middle()
            && Record(b, 524) && RecLen(b, 524) == 500 && EntryAt(b, 524) == Final()
  {
    hide PutEntry, Ino, RecLen, NameLen, Long, Record, EntryAt;
    var b0 := PutEntry(Zeros(1024), 0, First(), 512);
    var b1 := PutEntry(b0, 512, Middle(), 12);
    var b := PutEntry(b1, 524, Final(), 500);
    PutRecord(Zeros(1024), 0, First(), 512);
    PutRecord(b0, 512, Middle(), 12);
    PutRecord(b1, 524, Final(), 500);
    RecordFrame(b0, b1, 0, 512);
    RecordFrame(b1, b, 0, 512);
    RecordFrame(b1, b, 512, 524);
  }

  lemma RecordFields(b: seq<byte>, pos: nat)
    requires Record(b, pos)
    ensures NameLen(b, pos) == |EntryAt(b, pos).name| && Ino(b, pos) == EntryAt(b, pos).ino &&
          Here(b, pos) == if EntryAt(b, pos).ino != 0 then multiset{EntryAt(b, pos)} else multiset{}
  {
  }

  lemma CrammedChain()
    ensures Chain(Crammed(), 0) && Chain(Crammed(), 512) && Chain(Crammed(), 524) && Leads(Crammed(), 0, 0)
    ensures Bag(Crammed(), 0) == multiset{First(), Middle(), Final()}
  {
    hide Crammed, Record, EntryAt, RecLen, Ino, Bag, Chain, First, Middle, Final, Here, NameLen;
    var b := Crammed();
    CrammedRecords();
    BlockEnd(b);
    BagHere(b, 524);
    BagHere(b, 512);
    BagHere(b, 0);
    RecordFields(b, 0);
    RecordFields(b, 512);
    RecordFields(b, 524);
    Inos();
  }

  lemma Inos()
    ensures First().ino == Middle().ino == Final().ino == 3
    ensures |First().name| == |Final().name| == LONGEST && Middle().name == SHORT_NAME
    ensures First().name[0] == 65 && Final().name[0] == 66
  {
  }

  lemma BlockEnd(b: seq<byte>)
    ensures Chain(b, |b|) && Bag(b, |b|) == multiset{}
  {
  }

  /** Removing the short name merges its 12 bytes into the record before it: 524 bytes, of which 264
      are used. The 260 left do not hold a name of 255 bytes, nor do the 236 of the last record. */
  lemma CrammedCut()
    ensures Chain(Crammed(), 0)
    ensures var r := Cut(Crammed(), SHORT_NAME);
            Chain(r, 0) && Crowded(r, 0, Needed(LONGEST)) && !NameIn(Bag(r, 0), Long(67))
  {
    hide Crammed, Record, EntryAt, RecLen, Ino, Bag, Chain, First, Middle;
    hide Final, NameLen, Matches, CutFrom, SetRec, PutWord, Crowded, NameIn, Agree;
    var b, n := Crammed(), Needed(LONGEST);
    CrammedRecords();
    CrammedChain();
    Inos();
    CrammedMatches();
    CutStep(b, 0, 0, SHORT_NAME);
    CutStep(b, 0, 512, SHORT_NAME);
    var r := SetRec(b, 0, 524);
    RecordFields(b, 0);
    RecordFields(b, 512);
    RecordFields(b, 524);
    MergeEffect(b, 0, 512, r);
    SetRecReads(b, 0, 524);
    AgreeShrink(b, r, 6, 524, 1024);
    RecordFrame(b, r, 524, 1024);
    CrowdStep(r, 0, n);
    CrowdStep(r, 524, n);
    CrowdStep(r, 1024, n);
    NoSuchName(Bag(r, 0), Bag(b, 0));
  }

  lemma CrammedMatches()
    ensures Record(Crammed(), 0) && !Matches(Crammed(), 0, SHORT_NAME)
    ensures Record(Crammed(), 512) && Matches(Crammed(), 512, SHORT_NAME)
  {
    hide Crammed, RecLen, Ino, First, Middle, Final;
    CrammedRecords();
    Inos();
    RecordFields(Crammed(), 0);
    RecordFields(Crammed(), 512);
  }

  lemma NoSuchName(after: multiset<Entry>, before: multiset<Entry>)
    requires before == multiset{First(), Middle(), Final()} && before == after + multiset{Middle()}
    ensures !NameIn(after, Long(67))
  {
    hide First, Middle, Final;
    Inos();
    forall e | e in after ensures e.name != Long(67) { assert before[e] > 0; }
  }

  // The volume: two blocks, both in use, and three inodes.

  const GEO := Geometry(1024, 2)

  function Roots(): map<nat, Inode> {
    map[2 := Inode(Dir, [1] + seq(NBLOCKS - 1, _ => 0), 1024, 2, 2), 3 := Inode(File, seq(NBLOCKS, _ => 0), 0, 0, 3)]
  }

  function Disk(): map<nat, seq<byte>> {
    map[0 := Zeros(1024), 1 := Crammed()]
  }

  /** A bitmap of n bits, all set. */
  function AllUsed(n: nat): Groups {
    Groups([seq(n, _ => true)], [0], 0)
  }

  function FullMount(): Mount {
    Mount(Volume(GEO, Layout(1, 1, [1]), AllUsed(1), Disk(), Roots()), Layout(1, 3, [3]), AllUsed(3))
  }

  ghost function FullState(): Fs {
    Fs(Disk(), map[0 := Table(Zeros(1024)), 1 := Table(Crammed())], Roots(), {}, map[1 := Slot(2, 0)])
  }

  ghost function FullNames(): NameMap {
    map[Long(65) := (3, REGULAR), SHORT_NAME := (3, REGULAR), Long(66) := (3, REGULAR)]
  }

  lemma AllUsedFree(lay: Layout, n: nat)
    requires lay == Layout(1, n, [n]) && n > 0
    ensures Represents(lay, AllUsed(n), {}) && forall x: nat | 0 < x <= n :: lay.Covers(x)
  {
    var gs := AllUsed(n);
    assert gs.bitmaps[0] == seq(n, _ => true);
    forall x: nat | lay.first <= x ensures !IsFree(lay, gs, x) {
      assert lay.IndexOf(x) < n;
    }
    assert Clear(gs.bitmaps[0], n) == {};
    assert Sum([0]) == 0;
  }

  /** Only the first slot of the directory holds a pointer. */
  lemma {:induction false} OnlyPointer(p: Pos)
    requires ValidPos(GEO.Shape(), p)
    ensures At(FullState(), p) == if p == Slot(2, 0) then 1 else 0
  {
    if p.Child? { OnlyPointer(p.parent); }
  }

  lemma FullOk()
    ensures GEO.Ok() && Ok(GEO, FullState())
  {
    hide Crammed, Table, Zeros, SectorsOk, ValidPos, Node;
    var s := FullState();
    forall p: Pos | ValidPos(GEO.Shape(), p) ensures At(s, p) == if p == Slot(2, 0) then 1 else 0 { OnlyPointer(p); }
    FirstSlot();
    FullSectors();
  }

  lemma FirstSlot()
    ensures ValidPos(GEO.Shape(), Slot(2, 0))
  {
  }

  lemma FullSectors()
    ensures SectorsOk(GEO, FullState())
  {
    hide Crammed, Table, Zeros;
    var s := FullState();
    assert Owned(s.home, 2) == {1} && Owned(s.home, 3) == {};
    assert Times(1, 2) == 2 && Times(0, 2) == 0;
  }

  lemma FullMountOk()
    ensures MountOk(FullMount(), FullState(), {})
  {
    hide Crammed, Ok, Represents, Roots;
    AllUsedFree(Layout(1, 1, [1]), 1);
    AllUsedFree(Layout(1, 3, [3]), 3);
    FullOk();
    FullRoots();
  }

  lemma FullRoots()
    ensures Roots().Keys == {2, 3} && Roots()[2].size == 1024
  {
  }

  lemma FullBlock(n: nat)
    requires n < GEO.MaxBlocks()
    ensures GEO.Ok() && BlockData(GEO, FullState(), 2, n) == if n == 0 then Some(Crammed()) else None
  {
    hide FullState, Crammed, Leaf, ValidPos, At;
    FirstLeaf(n);
    OnlyPointer(Leaf(GEO, 2, n));
    FullDisk();
  }

  lemma FirstLeaf(n: nat)
    requires n < GEO.MaxBlocks()
    ensures GEO.Ok() && ValidPos(GEO.Shape(), Leaf(GEO, 2, n)) && (Leaf(GEO, 2, n) == Slot(2, 0) <==> n == 0)
  {
    LeafPlace(GEO, 2, n);
  }

  lemma FullDisk()
    ensures 1 in FullState().disk && FullState().disk[1] == Crammed()
  {
    hide Crammed;
  }

  lemma FullDirOk()
    ensures GEO.Ok() && DirOk(GEO, FullState(), 2) && 2 in FullState().inodes && Blocks(GEO, FullState().inodes, 2) == 1
  {
    hide FullState, Crammed, Chain, BlockData, Roots, Quo, Rem, Times, FullNames, Bag;
    var s := FullState();
    CrammedChain();
    FullFree();
    FullRoots();
    WholeBlock();
    assert GEO.Ok();
    forall n: nat | n < GEO.MaxBlocks()
      ensures BlockData(GEO, s, 2, n) == if n == 0 then Some(Crammed()) else None
    {
      FullBlock(n);
    }
  }

  lemma FullIsDir()
    ensures GEO.Ok() && IsDir(GEO, FullState(), 2, FullNames()) && 2 in FullState().inodes
    ensures Blocks(GEO, FullState().inodes, 2) == 1
  {
    hide FullState, FullNames, Crammed, Chain, Bag, BlockData, DirBag, Names, First, Middle, Final, Quo, DirOk, Times;
    CrammedChain();
    FullDirOk();
    WholeBlock();
    FullBlock(0);
    OneBlockBag(FullState(), 2);
    ThreeNames();
  }

  lemma WholeBlock()
    ensures Quo(1024, 1024) == 1 && Rem(1024, 1024) == 0 && 1 <= GEO.MaxBlocks()
  {
  }

  lemma OneBlockBag(s: Fs, d: nat)
    requires GEO.Ok()
    ensures DirBag(GEO, s, d, 1) == BagOf(BlockData(GEO, s, d, 0))
  {
    hide BagOf, BlockData;
    assert DirBag(GEO, s, d, 1) == DirBag(GEO, s, d, 0) + BagOf(BlockData(GEO, s, d, 0));
  }

  lemma ThreeNames()
    ensures Names(multiset{First(), Middle(), Final()}, FullNames())
  {
  }

  /** Renaming the short name to a third long one is not possible here. */
  lemma NoSpace()
    ensures GEO.Ok() && 2 in FullState().inodes && !CanRename(GEO, FullState(), 2, FullNames(), SHORT_NAME, Long(67))
  {
    hide FullState, FullNames, Crammed, BlockData, Cut, Crowded, Chain, Bag, NameIn, IsDir, Long, Quo, Missing, Needed;
    FullIsDir();
    FullFree();
    FullBlock(0);
    CrammedCut();
    CutElse(Cut(Crammed(), SHORT_NAME), Long(67));
  }

  lemma FullFree()
    ensures FullState().free == {} && FullState().inodes == Roots() && Long(67) !in FullNames()
    ensures SHORT_NAME in FullNames()
  {
    hide Crammed;
    assert Long(67)[0] == 67;
  }

  /** ext2_rename on this volume: it reports failure, and of the three names only two are left. */
  method LostName() returns (ok: bool, mt: Mount, mt': Mount, ghost s: Fs, ghost s': Fs)
    ensures mt == FullMount() && s == FullState() && MountOk(mt, s, {}) && GEO.Ok() && IsDir(GEO, s, 2, FullNames())
    ensures !ok && MountOk(mt', s', {}) && mt'.vol.geo == GEO
    ensures IsDir(GEO, s', 2, FullNames() - {SHORT_NAME})
  {
    hide FullState, FullNames, MountOk, IsDir, CanRename, Long, Elsewhere, LinkGone, DirOk, SameTotal, Disk, Roots;
    FullMountOk();
    FullIsDir();
    FullFree();
    FullRoots();
    NoSpace();
    ghost var ifree;
    mt, s := FullMount(), FullState();
    ok, mt', s', ifree := Rename(mt, 2, SHORT_NAME, Long(67), 0, s, {}, FullNames());
    assert FullNames() - {SHORT_NAME, Long(67)} == FullNames() - {SHORT_NAME};
  }

  // The other volume: one free block and one empty file.

  function Bare(): Volume {
    Volume(GEO, Layout(1, 1, [1]), Groups([[false]], [1], 1), map[0 := Zeros(1024), 1 := Zeros(1024)],
        map[3 := Blank()])
  }

  ghost function BareState(): Fs {
    Fs(Bare().disk, map[0 := Table(Zeros(1024)), 1 := Table(Zeros(1024))], Bare().inodes, {1}, map[])
  }

  lemma BareFree()
    ensures Represents(Layout(1, 1, [1]), Groups([[false]], [1], 1), {1})
  {
    var lay, gs := Layout(1, 1, [1]), Groups([[false]], [1], 1);
    forall x: nat ensures x in {1} <==> IsFree(lay, gs, x) {
      if x >= 1 { assert lay.IndexOf(x) == 0 && lay.GroupOf(x) == x - 1; }
    }
    assert Clear(gs.bitmaps[0], 1) == {0};
    assert Sum([1]) == 1;
  }

  lemma {:induction false} BarePointer(p: Pos)
    ensures At(BareState(), p) == 0
  {
    if p.Child? { BarePointer(p.parent); }
  }

  lemma BareOk()
    ensures GEO.Ok() && Ext2Tree.Valid(Bare(), BareState())
  {
    hide Table, Zeros, Node, Represents;
    var s := BareState();
    forall p: Pos ensures Node(s.tabs, RootsOf(s.inodes), p) == 0 { BarePointer(p); }
    assert |s.inodes[3].block| == NBLOCKS;
    assert Owned(s.home, 3) == {};
    assert Times(0, 2) == 0;
    BareFree();
  }

  /** The first byte behind the direct blocks needs a data block and the indirect table. */
  lemma TwoNeeded()
    ensures GEO.Ok() && |NeedBytes(GEO, BareState(), 3, 12288, 1)| == 2
    ensures |NeedBytes(GEO, BareState(), 3, 12288, 0)| == 0
  {
    hide BareState;
    var s, table := BareState(), Slot(3, IND);
    QuoOf12();
    assert Need(GEO, s, 3, 12, 13) == Need(GEO, s, 3, 12, 12) + Empties(s, Leaf(GEO, 3, 12));
    assert Leaf(GEO, 3, 12) == Child(table, 0);
    BarePointer(table);
    BarePointer(Child(table, 0));
    EmptiesCount(s, Child(table, 0));
    assert Missing(s, Child(table, 0)) == Missing(s, table) + 1;
  }

  lemma QuoOf12()
    ensures Quo(12288, 1024) == 12
  {
    QuoRem(12288, 1024);
  }

  /** ext2_write of one byte there: nothing is written, and the one free block is neither free nor in use. */
  method LostBlock() returns (n: nat, vol: Volume, vol': Volume, ghost s: Fs, ghost s': Fs, ghost lost: set<nat>)
    ensures vol == Bare() && s == BareState() && Ext2Tree.Valid(vol, s) && Ext2Tree.Valid(vol', s')
    ensures n == 0 && lost == {1} && s'.free == {} && 1 !in s'.home
  {
    hide Table, Zeros, Ext2Tree.Valid, NeedBytes, Filling, Covering;
    BareOk();
    TwoNeeded();
    vol, s := Bare(), BareState();
    n, vol', s', lost := Write(vol, 3, 12288, [7], 0, s);
    OneLost(vol, s, vol', s', [7][..n], NewSize(0, 12288, n, [7]), lost);
  }

  lemma OneLost(vol: Volume, s: Fs, vol': Volume, s': Fs, d: seq<byte>, size: nat, lost: set<nat>)
    requires Written(vol, s, vol', s', 3, 12288, d, size, lost) && lost != {} && s.free == {1}
    ensures lost == {1} && 1 !in s'.home && Ext2Tree.Valid(vol', s')
  {
    hide Ext2Tree.Valid, Patched;
    var b :| b in lost;
    assert lost == {1};
  }
}
