/** The mounted file system: reads, writes and directory operations in any order. */
module Ext2 {
  import opened Arith
  import opened Options
  import opened Words
  import opened Forest
  import opened Ext2Groups
  import opened Ext2State
  import opened Ext2Layout
  import opened Ext2Tree
  import opened Ext2Bytes
  import opened Ext2File
  import opened Ext2Need
  import opened Ext2Spend
  import opened Ext2Contents
  import opened Ext2Dirent
  import opened Ext2Data
  import opened Ext2Directory
  import opened Ext2Names
  import opened Ext2Unlink
  import opened Ext2Links

  // Bytes and data blocks.

  lemma ByteOfData(s: Fs, p: Pos, r: nat)
    ensures ByteOf(s, p, r) == if DataOf(s, p).Some? && r < |DataOf(s, p).value| then DataOf(s, p).value[r] else 0
  {
    hide At;
  }

  lemma ByteAtData(geo: Geometry, s: Fs, k: nat, i: nat)
    requires geo.Ok() && i < U32
    ensures Quo(i, geo.bs) < geo.MaxBlocks()
    ensures var x := BlockData(geo, s, k, Quo(i, geo.bs));
            && ByteAt(geo, s, k, i) == if x.Some? && Rem(i, geo.bs) < |x.value| then x.value[Rem(i, geo.bs)] else 0
  {
    hide Leaf, DataOf, ByteOf;
    OffsetAddressable(geo, i);
    ByteOfData(s, Leaf(geo, k, Quo(i, geo.bs)), Rem(i, geo.bs));
  }

  /** A file whose size and data blocks did not change has the same contents. */
  lemma SameContents(geo: Geometry, s: Fs, s': Fs, k: nat)
    requires geo.Ok() && k in s.inodes && k in s'.inodes && s'.inodes[k].size == s.inodes[k].size
    requires SameFile(geo, s, s', k) && TailZero(geo, s, k)
    ensures Contents(geo, s', k) == Contents(geo, s, k) && TailZero(geo, s', k)
  {
    hide BlockData, ByteAt;
    forall i: nat | i < U32 ensures ByteAt(geo, s', k, i) == ByteAt(geo, s, k, i) {
      ByteAtData(geo, s, k, i);
      ByteAtData(geo, s', k, i);
    }
  }

  /** A directory holds nothing past its end. */
  lemma DirTail(geo: Geometry, s: Fs, d: nat)
    requires geo.Ok() && DirOk(geo, s, d)
    ensures TailZero(geo, s, d)
  {
    hide BlockData, ByteAt, BlockOk;
    var size := s.inodes[d].size;
    forall i: nat | size <= i < U32 ensures ByteAt(geo, s, d, i) == 0 {
      ByteAtData(geo, s, d, i);
      QuoGrows(size, i, geo.bs);
    }
  }

  lemma QuoGrows(x: nat, y: nat, n: nat)
    requires n > 0 && x <= y && Rem(x, n) == 0
    ensures Quo(x, n) <= Quo(y, n)
  {
    QuoRem(x, n);
    QuoRem(y, n);
    if Quo(y, n) < Quo(x, n) { TimesLess(Quo(y, n), Quo(x, n), n); }
  }

  /** A blank inode owns nothing, so it has no data. */
  lemma BlankTail(geo: Geometry, s: Fs, ino: nat)
    requires geo.Ok() && Ok(geo, s) && ino in s.inodes && s.inodes[ino] == Blank()
    ensures TailZero(geo, s, ino) && Contents(geo, s, ino) == []
  {
    hide ByteAt, BlockData, Leaf, Quo, Rem;
    NoBlocks(geo, s, ino);
    forall i: nat | i < U32 ensures ByteAt(geo, s, ino, i) == 0 {
      ByteAtData(geo, s, ino, i);
      OffsetAddressable(geo, i);
      LeafPlace(geo, ino, Quo(i, geo.bs));
      NoData(geo, s, ino, Quo(i, geo.bs));
    }
  }

  lemma NoBlocks(geo: Geometry, s: Fs, ino: nat)
    requires geo.Ok() && Ok(geo, s) && ino in s.inodes && s.inodes[ino].sectors == 0
    ensures Owned(s.home, ino) == {}
  {
    hide TreeOk;
    var n := |Owned(s.home, ino)|;
    assert s.inodes[ino].sectors == Times(n, geo.bs / 512);
    TimesPositive(n, geo.bs / 512);
  }

  lemma TimesPositive(n: nat, k: nat)
    ensures n > 0 && k > 0 ==> Times(n, k) > 0
  {
  }

  lemma NoData(geo: Geometry, s: Fs, ino: nat, n: nat)
    requires geo.Ok() && Ok(geo, s) && Owned(s.home, ino) == {} && n < geo.MaxBlocks()
    ensures BlockData(geo, s, ino, n).None?
  {
    hide Leaf, At;
    LeafPlace(geo, ino, n);
    OwnedHere(geo, s, Leaf(geo, ino, n));
  }

  lemma OwnedHere(geo: Geometry, s: Fs, p: Pos)
    requires Ok(geo, s) && ValidPos(geo.Shape(), p)
    ensures At(s, p) != 0 ==> At(s, p) in Owned(s.home, Owner(p))
  {
    hide Ok, At, ValidPos;
    if At(s, p) != 0 { Attached(geo, s, p); }
  }

  // Writes and directories.

  lemma KeptTree(s: Fs, s': Fs, ino: nat, size: nat, lost: set<nat>, k: nat)
    requires Kept(s, s', ino, size, lost) && k != ino
    ensures SameTree(s, s', k)
  {
  }

  /** Writing to one file leaves the data blocks of another alone. */
  lemma WrittenBlock(vol: Volume, s: Fs, vol': Volume, s': Fs, ino: nat, c: nat, d: seq<byte>, size: nat,
        lost: set<nat>, k: nat, n: nat)
    requires Valid(vol, s) && vol.geo.Ok() && Written(vol, s, vol', s', ino, c, d, size, lost) && k != ino
    requires n < vol.geo.MaxBlocks()
    ensures BlockData(vol.geo, s, k, n).None? <==> BlockData(vol.geo, s', k, n).None?
    ensures Times(n, vol.geo.bs) + vol.geo.bs < U32 ==> BlockData(vol.geo, s', k, n) == BlockData(vol.geo, s, k, n)
  {
    hide Rep, Ok, At, Leaf, Patched, Kept;
    var geo := vol.geo;
    LeafPlace(geo, k, n);
    KeptTree(s, s', ino, size, lost, k);
    SameTreeAt(geo, s, s', Leaf(geo, k, n));
    BlockLength(geo, s, Leaf(geo, k, n));
    BlockLength(geo, s', Leaf(geo, k, n));
    if BlockData(geo, s, k, n).Some? && Times(n, geo.bs) + geo.bs < U32 {
      var x, x' := BlockData(geo, s, k, n).value, BlockData(geo, s', k, n).value;
      forall r: nat | r < geo.bs ensures x'[r] == x[r] {
        ByteOfBlock(geo, s, k, n, r);
        ByteOfBlock(geo, s', k, n, r);
        PatchedElse(geo, s, s', ino, c, d, k, Times(n, geo.bs) + r);
      }
      assert x' == x;
    }
  }

  lemma PatchedElse(geo: Geometry, s: Fs, s': Fs, o: nat, c: nat, d: seq<byte>, k: nat, i: nat)
    requires geo.Ok() && Patched(geo, s, s', o, c, d) && k != o && i < U32
    ensures ByteAt(geo, s', k, i) == ByteAt(geo, s, k, i)
  {
    hide ByteAt;
  }

  lemma BlockLength(geo: Geometry, s: Fs, p: Pos)
    requires Ok(geo, s) && ValidPos(geo.Shape(), p)
    ensures At(s, p) != 0 ==> At(s, p) in s.disk && |s.disk[At(s, p)]| == geo.bs
  {
    hide SectorsOk, Node, ValidPos;
    if At(s, p) != 0 { Attached(geo, s, p); }
  }

  lemma ByteOfBlock(geo: Geometry, s: Fs, k: nat, n: nat, r: nat)
    requires geo.Ok() && n < geo.MaxBlocks() && r < geo.bs && Times(n, geo.bs) + r < U32
    requires BlockData(geo, s, k, n).Some? && r < |BlockData(geo, s, k, n).value|
    ensures ByteAt(geo, s, k, Times(n, geo.bs) + r) == BlockData(geo, s, k, n).value[r]
  {
    hide BlockData, ByteAt;
    ByteAtData(geo, s, k, Times(n, geo.bs) + r);
    QuoOfTimes(n, geo.bs, r);
  }

  lemma QuoOfTimes(n: nat, w: nat, r: nat)
    requires r < w
    ensures Quo(Times(n, w) + r, w) == n && Rem(Times(n, w) + r, w) == r
  {
    QuoRem(Times(n, w) + r, w);
    TimesMul(n, w);
    DivModUnique(Times(n, w) + r, w, n, r);
  }

  /** A directory is untouched by a write to a file. */
  lemma WrittenDir(vol: Volume, s: Fs, vol': Volume, s': Fs, ino: nat, c: nat, d: seq<byte>, size: nat, lost: set<nat>,
        dir: nat)
    requires Valid(vol, s) && vol.geo.Ok() && Written(vol, s, vol', s', ino, c, d, size, lost) && dir != ino
    requires DirOk(vol.geo, s, dir)
    ensures DirOk(vol.geo, s', dir) && dir in s.inodes && dir in s'.inodes
    ensures Entries(vol.geo, s', dir) == Entries(vol.geo, s, dir)
  {
    hide Rep, Ok, BlockData, Patched, BagOf, DirBag, Chain;
    var geo := vol.geo;
    var n := Blocks(geo, s.inodes, dir);
    QuoRem(s.inodes[dir].size, geo.bs);
    forall m: nat | m < geo.MaxBlocks()
      ensures BlockData(geo, s, dir, m).None? <==> BlockData(geo, s', dir, m).None?
      ensures m < n ==> BlockData(geo, s', dir, m) == BlockData(geo, s, dir, m)
    {
      WrittenBlock(vol, s, vol', s', ino, c, d, size, lost, dir, m);
      if m < n { TimesLess(m, n, geo.bs); }
    }
    OffsetAddressable(geo, s.inodes[dir].size);
    DirBagSame(geo, s, s', dir, n);
  }

  // Files that an operation does not name.

  /** Every file outside X has its old contents. */
  ghost predicate FilesKept(geo: Geometry, s: Fs, s': Fs, X: set<nat>)
    requires geo.Ok()
  {
    forall k | k in s.inodes && k !in X :: k in s'.inodes && Contents(geo, s', k) == Contents(geo, s, k)
  }

  lemma ElsewhereFiles(geo: Geometry, s: Fs, s': Fs, X: set<nat>)
    requires geo.Ok() && FilesOk(geo, s) && Elsewhere(geo, s, s', X)
    requires forall k | k in X && k in s'.inodes :: TailZero(geo, s', k)
    ensures FilesOk(geo, s') && FilesKept(geo, s, s', X)
  {
    hide SameFile, TailZero, Contents;
    forall k: nat | k in s'.inodes && k !in X
      ensures k in s.inodes && TailZero(geo, s', k) && Contents(geo, s', k) == Contents(geo, s, k)
    {
      assert SameFile(geo, s, s', k);
      SameContents(geo, s, s', k);
    }
    forall k: nat | k in s.inodes && k !in X ensures k in s'.inodes { assert SameFile(geo, s, s', k); }
  }

  lemma CreatedFiles(geo: Geometry, s: Fs, ifree: set<nat>, s': Fs, ifree': set<nat>, d: nat, m: NameMap, name: Name,
        ino: nat, ok: bool)
    requires geo.Ok() && Ok(geo, s') && FilesOk(geo, s) && Created(geo, s, ifree, s', ifree', d, m, name, ino, ok)
    ensures FilesOk(geo, s') && FilesKept(geo, s, s', if ok then {d, ino} else {d})
    ensures ok ==> ino in s'.inodes && Contents(geo, s', ino) == []
  {
    hide Ok, FilesOk, FilesKept, TailZero, DirOk, Names, Entries, Elsewhere, Blank, Contents;
    DirTail(geo, s', d);
    if ok { BlankTail(geo, s', ino); }
    ElsewhereFiles(geo, s, s', if ok then {d, ino} else {d});
  }

  lemma LostLinkTail(geo: Geometry, s: Fs, ifree: set<nat>, s': Fs, ifree': set<nat>, t: nat)
    requires geo.Ok() && FilesOk(geo, s) && LinkGone(geo, s, ifree, s', ifree', t)
    ensures t in s.inodes && (t in s'.inodes ==> TailZero(geo, s', t) && Contents(geo, s', t) == Contents(geo, s, t))
  {
    hide SameFile;
    if t in s'.inodes { SameContents(geo, s, s', t); }
  }

  lemma UnlinkedFiles(geo: Geometry, s: Fs, ifree: set<nat>, s': Fs, ifree': set<nat>, d: nat, m: NameMap, name: Name,
        ok: bool)
    requires geo.Ok() && FilesOk(geo, s) && Unlinked(geo, s, ifree, s', ifree', d, m, name, ok)
    ensures FilesOk(geo, s') && (ok ==> Short(name) in m && FilesKept(geo, s, s', {d, m[Short(name)].0}))
  {
    hide FilesOk, FilesKept, TailZero, DirOk, Names, Entries, Elsewhere, LinkGone, Returned, Short, Contents;
    if ok {
      var t := m[Short(name)].0;
      DirTail(geo, s', d);
      LostLinkTail(geo, s, ifree, s', ifree', t);
      ElsewhereFiles(geo, s, s', {d, t});
    }
  }

  lemma RenamedFiles(geo: Geometry, s: Fs, ifree: set<nat>, s': Fs, ifree': set<nat>, d: nat, m: NameMap, was: Name,
        name: Name, ok: bool)
    requires geo.Ok() && FilesOk(geo, s) && Renamed(geo, s, ifree, s', ifree', d, m, was, name, ok)
    ensures FilesOk(geo, s')
    ensures was in m ==> FilesKept(geo, s, s', if name in m && name != was then {d, m[name].0} else {d})
  {
    hide FilesOk, FilesKept, TailZero, DirOk, IsDir, Names, Entries, Elsewhere, LinkGone, Short, Contents;
    if was in m {
      DirTail(geo, s', d);
      if name in m && name != was { LostLinkTail(geo, s, ifree, s', ifree', m[name].0); }
      ElsewhereFiles(geo, s, s', if name in m && name != was then {d, m[name].0} else {d});
    }
  }

  // Directories that an operation does not name.

  /** Every inode of dirs is a directory, and its entries are its map. */
  ghost predicate DirsOk(geo: Geometry, s: Fs, dirs: Dirs)
    requires geo.Ok()
  {
    forall k | k in dirs :: k in s.inodes && s.inodes[k].kind == Dir && IsDir(geo, s, k, dirs[k])
  }

  /** A directory keeps its names as long as its size and data do not change. */
  lemma SameDir(geo: Geometry, s: Fs, s': Fs, d: nat, m: NameMap)
    requires geo.Ok() && IsDir(geo, s, d, m) && d in s.inodes && d in s'.inodes && s'.inodes[d].size == s.inodes[d].size
    requires SameFile(geo, s, s', d)
    ensures IsDir(geo, s', d, m)
  {
    hide BlockData, Chain, BagOf, Names;
    var n := Blocks(geo, s.inodes, d);
    OffsetAddressable(geo, s.inodes[d].size);
    forall k: nat | k < geo.MaxBlocks() ensures BlockData(geo, s', d, k) == BlockData(geo, s, d, k) {}
    DirBagSame(geo, s, s', d, n);
  }

  lemma DirsElsewhere(geo: Geometry, s: Fs, s': Fs, X: set<nat>, dirs: Dirs)
    requires geo.Ok() && DirsOk(geo, s, dirs) && Elsewhere(geo, s, s', X)
    ensures DirsOk(geo, s', dirs - X)
  {
    hide IsDir, SameFile;
    forall k | k in dirs && k !in X ensures k in s'.inodes && s'.inodes[k].kind == Dir && IsDir(geo, s', k, dirs[k]) {
      assert SameFile(geo, s, s', k);
      SameDir(geo, s, s', k, dirs[k]);
    }
  }

  /** Inode t lost a link: a directory among dirs is gone, or as it was. */
  lemma LinkGoneDirs(geo: Geometry, s: Fs, ifree: set<nat>, s': Fs, ifree': set<nat>, t: nat, dirs: Dirs)
    requires geo.Ok() && DirsOk(geo, s, dirs) && LinkGone(geo, s, ifree, s', ifree', t)
    ensures t in dirs && s.inodes[t].links > 1 ==>
        t in s'.inodes && s'.inodes[t].kind == Dir && IsDir(geo, s', t, dirs[t])
  {
    hide IsDir, SameFile;
    if t in dirs && s.inodes[t].links > 1 { SameDir(geo, s, s', t, dirs[t]); }
  }

  /** The directories after d became m, and the target t of a removed name lost a link. */
  ghost function Relinked(s: Fs, dirs: Dirs, d: nat, m: NameMap, t: nat): Dirs
    requires t in s.inodes
  {
    dirs[d := m] - if s.inodes[t].links <= 1 then {t} else {}
  }

  lemma RelinkedDirs(geo: Geometry, s: Fs, ifree: set<nat>, s': Fs, ifree': set<nat>, d: nat, m: NameMap, t: nat,
        dirs: Dirs)
    requires geo.Ok() && DirsOk(geo, s, dirs) && t != d && LinkGone(geo, s, ifree, s', ifree', t)
    requires Elsewhere(geo, s, s', {d, t})
    requires d in s'.inodes && s'.inodes[d].kind == Dir && IsDir(geo, s', d, m)
    ensures t in s.inodes && DirsOk(geo, s', Relinked(s, dirs, d, m, t))
  {
    hide IsDir, Elsewhere, SameFile;
    DirsElsewhere(geo, s, s', {d, t}, dirs);
    LinkGoneDirs(geo, s, ifree, s', ifree', t, dirs);
  }

  lemma OneDir(geo: Geometry, s: Fs, s': Fs, d: nat, m: NameMap, X: set<nat>, dirs: Dirs)
    requires geo.Ok() && DirsOk(geo, s, dirs) && Elsewhere(geo, s, s', X) && d in X && X !! (dirs.Keys - {d})
    requires d in s'.inodes && s'.inodes[d].kind == Dir
    ensures IsDir(geo, s', d, m) ==> DirsOk(geo, s', dirs[d := m])
    ensures DirsOk(geo, s', dirs - {d})
  {
    hide IsDir, Elsewhere;
    DirsElsewhere(geo, s, s', X, dirs);
    assert forall k | k in dirs && k != d :: k in dirs - X;
  }

  // What each operation does to the directories.

  /** A new name, unless its stored form was there already: then d is no map any more. */
  ghost function CreatedDirs(dirs: Dirs, d: nat, name: Name, ino: nat, ok: bool): Dirs
    requires d in dirs
  {
    if !ok then dirs
    else if Short(name) in dirs[d] then dirs - {d}
    else dirs[d := dirs[d][Short(name) := (ino, REGULAR)]]
  }

  lemma CreatedDirsOk(geo: Geometry, s: Fs, ifree: set<nat>, s': Fs, ifree': set<nat>, d: nat, name: Name, ino: nat,
        ok: bool, dirs: Dirs)
    requires geo.Ok() && DirsOk(geo, s, dirs) && d in dirs && (forall i | i in ifree :: i !in s.inodes)
    requires Created(geo, s, ifree, s', ifree', d, dirs[d], name, ino, ok)
    ensures DirsOk(geo, s', CreatedDirs(dirs, d, name, ino, ok))
  {
    hide IsDir, Elsewhere, DirOk, Entries, CanAdd, Short, Needed, Blank;
    var m := dirs[d];
    if !ok {
      OneDir(geo, s, s', d, m, {d}, dirs);
      assert dirs[d := m] == dirs;
    } else {
      OneDir(geo, s, s', d, m[Short(name) := (ino, REGULAR)], {d, ino}, dirs);
    }
  }

  ghost function RemovedDirs(s: Fs, dirs: Dirs, d: nat, name: Name, ok: bool): Dirs
    requires d in dirs && Target(s, d, dirs[d], Short(name))
  {
    var m := dirs[d];
    if !ok || Short(name) !in m then dirs else Relinked(s, dirs, d, m - {Short(name)}, m[Short(name)].0)
  }

  lemma RemovedDirsOk(geo: Geometry, s: Fs, ifree: set<nat>, s': Fs, ifree': set<nat>, d: nat, name: Name, ok: bool,
        dirs: Dirs)
    requires geo.Ok() && DirsOk(geo, s, dirs) && d in dirs && Target(s, d, dirs[d], Short(name))
    requires Unlinked(geo, s, ifree, s', ifree', d, dirs[d], name, ok)
    ensures DirsOk(geo, s', RemovedDirs(s, dirs, d, name, ok))
  {
    hide IsDir, Elsewhere, LinkGone, Short, Relinked, Returned;
    var m := dirs[d];
    if ok { RelinkedDirs(geo, s, ifree, s', ifree', d, m - {Short(name)}, m[Short(name)].0, dirs); }
  }

  /** The names of d after a rename: both are gone, and on success the new one maps to the old target. */
  function RenamedMap(m: NameMap, was: Name, name: Name, ok: bool): NameMap
    requires was in m
  {
    var m' := m - {was, name};
    if ok then m'[Short(name) := m[was]] else m'
  }

  ghost function RenamedDirs(s: Fs, dirs: Dirs, d: nat, was: Name, name: Name, ok: bool): Dirs
    requires d in dirs && Target(s, d, dirs[d], name)
  {
    var m := dirs[d];
    if was !in m then dirs
    else
      var after := if name in m && name != was then Relinked(s, dirs, d, RenamedMap(m, was, name, ok), m[name].0)
                   else dirs[d := RenamedMap(m, was, name, ok)];
      if ok && Short(name) in m - {was, name} then after - {d} else after
  }

  lemma RenamedDirsOk(geo: Geometry, s: Fs, ifree: set<nat>, s': Fs, ifree': set<nat>, d: nat, was: Name, name: Name,
        ok: bool, dirs: Dirs)
    requires geo.Ok() && DirsOk(geo, s, dirs) && d in dirs && Target(s, d, dirs[d], name)
    requires Renamed(geo, s, ifree, s', ifree', d, dirs[d], was, name, ok)
    ensures DirsOk(geo, s', RenamedDirs(s, dirs, d, was, name, ok))
  {
    hide IsDir, Elsewhere, LinkGone, Short, DirOk, CanRename, SameTotal;
    var m := dirs[d];
    if was in m {
      if name in m && name != was {
        DirsElsewhere(geo, s, s', {d, m[name].0}, dirs);
        LinkGoneDirs(geo, s, ifree, s', ifree', m[name].0, dirs);
        GoneTarget(geo, s, ifree, s', ifree', m[name].0);
      } else {
        OneDir(geo, s, s', d, RenamedMap(m, was, name, ok), {d}, dirs);
      }
    }
  }

  lemma GoneTarget(geo: Geometry, s: Fs, ifree: set<nat>, s': Fs, ifree': set<nat>, t: nat)
    requires geo.Ok() && LinkGone(geo, s, ifree, s', ifree', t)
    ensures t in s.inodes
  {
  }

  lemma WrittenDirs(vol: Volume, s: Fs, vol': Volume, s': Fs, ino: nat, c: nat, d: seq<byte>, size: nat, lost: set<nat>,
        dirs: Dirs)
    requires Ext2Tree.Valid(vol, s) && vol.geo.Ok() && Written(vol, s, vol', s', ino, c, d, size, lost)
    requires ino in s.inodes && s.inodes[ino].kind == File && DirsOk(vol.geo, s, dirs)
    ensures DirsOk(vol.geo, s', dirs)
  {
    hide Ext2Tree.Valid, Written, DirOk, Entries, Names;
    forall k | k in dirs ensures k in s'.inodes && s'.inodes[k].kind == Dir && IsDir(vol.geo, s', k, dirs[k]) {
      WrittenDir(vol, s, vol', s', ino, c, d, size, lost, k);
      WrittenElse(vol, s, vol', s', ino, c, d, size, lost, k);
    }
  }

  lemma WrittenElse(vol: Volume, s: Fs, vol': Volume, s': Fs, ino: nat, c: nat, d: seq<byte>, size: nat, lost: set<nat>,
        k: nat)
    requires Written(vol, s, vol', s', ino, c, d, size, lost) && k in s.inodes && k != ino
    ensures k in s'.inodes && s'.inodes[k] == s.inodes[k]
  {
    hide Ext2Tree.Valid, Patched;
  }

  // What each operation does to the link counts.

  lemma ElsewhereLinks(geo: Geometry, s: Fs, s': Fs, X: set<nat>, k: nat)
    requires geo.Ok() && Elsewhere(geo, s, s', X) && k !in X
    ensures k in LinksOf(s) <==> k in LinksOf(s')
    ensures k in LinksOf(s) ==> LinksOf(s')[k] == LinksOf(s)[k]
  {
    hide SameFile;
    assert SameFile(geo, s, s', k);
  }

  /** A directory that was edited in place, and nothing else. */
  lemma SameLinks(geo: Geometry, s: Fs, s': Fs, d: nat)
    requires geo.Ok() && Elsewhere(geo, s, s', {d}) && d in s.inodes && d in s'.inodes
    requires s'.inodes[d].links == s.inodes[d].links
    ensures LinksOf(s') == LinksOf(s)
  {
    hide Elsewhere, LinksOf;
    forall k | k != d
      ensures k in LinksOf(s) <==> k in LinksOf(s')
      ensures k in LinksOf(s) ==> LinksOf(s')[k] == LinksOf(s)[k]
    {
      ElsewhereLinks(geo, s, s', {d}, k);
    }
    LinksAt(s, d);
    LinksAt(s', d);
  }

  lemma LinksAt(s: Fs, k: nat)
    ensures k in LinksOf(s) <==> k in s.inodes
    ensures k in s.inodes ==> LinksOf(s)[k] == s.inodes[k].links
  {
  }

  lemma NewLinks(geo: Geometry, s: Fs, s': Fs, d: nat, i: nat)
    requires geo.Ok() && Elsewhere(geo, s, s', {d, i}) && d in s.inodes && d in s'.inodes && i !in s.inodes
    requires s'.inodes[d].links == s.inodes[d].links && i in s'.inodes && s'.inodes[i] == Blank()
    ensures LinksOf(s') == LinksOf(s)[i := 1]
  {
    hide Elsewhere, LinksOf;
    forall k | k != d && k != i
      ensures k in LinksOf(s) <==> k in LinksOf(s')
      ensures k in LinksOf(s) ==> LinksOf(s')[k] == LinksOf(s)[k]
    {
      ElsewhereLinks(geo, s, s', {d, i}, k);
    }
    LinksAt(s, d);
    LinksAt(s', d);
    LinksAt(s', i);
  }

  lemma LessLinks(geo: Geometry, s: Fs, ifree: set<nat>, s': Fs, ifree': set<nat>, d: nat, t: nat)
    requires geo.Ok() && Elsewhere(geo, s, s', {d, t}) && LinkGone(geo, s, ifree, s', ifree', t) && d != t
    requires d in s.inodes && d in s'.inodes && s'.inodes[d].links == s.inodes[d].links
    ensures t in LinksOf(s) && LinksOf(s') == Less(LinksOf(s), t)
  {
    hide Elsewhere, LinksOf, SameFile;
    forall k | k != d && k != t
      ensures k in LinksOf(s) <==> k in LinksOf(s')
      ensures k in LinksOf(s) ==> LinksOf(s')[k] == LinksOf(s)[k]
    {
      ElsewhereLinks(geo, s, s', {d, t}, k);
    }
    LinksAt(s, d);
    LinksAt(s', d);
    LinksAt(s, t);
    LinksAt(s', t);
  }

  /** Every name leads to an inode in use. */
  lemma LinkedTarget(s: Fs, dirs: Dirs, d: nat, name: Name)
    requires Linked(s, dirs) && d in dirs && name in dirs[d]
    ensures dirs[d][name].0 in s.inodes && s.inodes[dirs[d][name].0].links > 0
  {
    hide Enough, Refs;
    var t := dirs[d][name].0;
    LinksAt(s, t);
    assert |Refs(dirs, t)| > 0 by { RefsDropped(dirs, d, name, t); }
    assert Enough(LinksOf(s), dirs, None);
    EnoughAt(LinksOf(s), dirs, t);
  }

  lemma CreatedLinked(geo: Geometry, s: Fs, ifree: set<nat>, s': Fs, ifree': set<nat>, d: nat, name: Name, ino: nat,
        ok: bool, dirs: Dirs)
    requires geo.Ok() && Linked(s, dirs) && d in dirs && (forall i | i in ifree :: i !in s.inodes)
    requires Created(geo, s, ifree, s', ifree', d, dirs[d], name, ino, ok)
    ensures Linked(s', CreatedDirs(dirs, d, name, ino, ok))
  {
    hide IsDir, Elsewhere, DirOk, Entries, CanAdd, Short, Needed, Blank, LinksOf, Covered;
    var c := LinksOf(s);
    if !ok {
      SameLinks(geo, s, s', d);
    } else {
      NewLinks(geo, s, s', d, ino);
      LinksAt(s, ino);
      if Short(name) in dirs[d] {
        FewerNames(c, dirs, c[ino := 1], dirs - {d});
      } else {
        InodeAdded(c, dirs, ino);
        NameAdded(c[ino := 1], dirs, d, Short(name), (ino, REGULAR));
      }
    }
  }

  lemma RemovedLinked(geo: Geometry, s: Fs, ifree: set<nat>, s': Fs, ifree': set<nat>, d: nat, name: Name, ok: bool,
        dirs: Dirs)
    requires geo.Ok() && Linked(s, dirs) && d in dirs && Target(s, d, dirs[d], Short(name))
    requires Unlinked(geo, s, ifree, s', ifree', d, dirs[d], name, ok)
    ensures Linked(s', RemovedDirs(s, dirs, d, name, ok))
  {
    hide IsDir, Elsewhere, LinkGone, Short, Returned, LinksOf, Covered, Less;
    if ok {
      var t := dirs[d][Short(name)].0;
      LinksAt(s, t);
      LessLinks(geo, s, ifree, s', ifree', d, t);
      NameDropped(LinksOf(s), dirs, d, Short(name), None);
      assert WithoutName(LinksOf(s), dirs, d, Short(name)) == RemovedDirs(s, dirs, d, name, ok);
    }
  }

  /** The names of d without the old and the new one, and the victim of the new one. */
  ghost function Moving(s: Fs, dirs: Dirs, d: nat, was: Name, name: Name): Dirs
    requires d in dirs && was in dirs[d] && Target(s, d, dirs[d], name)
  {
    var m := dirs[d] - {was};
    if name in m then Relinked(s, dirs, d, m - {name}, m[name].0) else dirs[d := m]
  }

  lemma MovingLinked(geo: Geometry, s: Fs, ifree: set<nat>, s': Fs, ifree': set<nat>, d: nat, was: Name, name: Name,
        ok: bool, dirs: Dirs)
    requires geo.Ok() && Linked(s, dirs) && d in dirs && was in dirs[d] && Target(s, d, dirs[d], name)
    requires Renamed(geo, s, ifree, s', ifree', d, dirs[d], was, name, ok)
    ensures Covered(LinksOf(s'), Moving(s, dirs, d, was, name), Some(dirs[d][was].0))
  {
    hide IsDir, Elsewhere, LinkGone, Short, DirOk, CanRename, SameTotal, LinksOf, Covered, Less;
    var c, m := LinksOf(s), dirs[d];
    NameHeld(c, dirs, d, was);
    if name in m && name != was {
      var t := m[name].0;
      LinksAt(s, t);
      LessLinks(geo, s, ifree, s', ifree', d, t);
      var held := dirs[d := m - {was}];
      NameDropped(c, held, d, name, Some(m[was].0));
      assert WithoutName(c, held, d, name) == Moving(s, dirs, d, was, name);
    } else {
      SameLinks(geo, s, s', d);
    }
  }

  /** A moved name takes its link along. When the new name already led to the same inode, that had two links,
      so the victim's lost link does not free it. */
  lemma RenamedLinked(geo: Geometry, s: Fs, ifree: set<nat>, s': Fs, ifree': set<nat>, d: nat, was: Name, name: Name,
        ok: bool, dirs: Dirs)
    requires geo.Ok() && Linked(s, dirs) && d in dirs && Target(s, d, dirs[d], name)
    requires Renamed(geo, s, ifree, s', ifree', d, dirs[d], was, name, ok)
    ensures Linked(s', RenamedDirs(s, dirs, d, was, name, ok))
  {
    hide Renamed, Short, LinksOf, Covered;
    if was !in dirs[d] {
      RenamedNothing(geo, s, ifree, s', ifree', d, dirs[d], was, name, ok);
    } else {
      var m := dirs[d];
      var mid := Moving(s, dirs, d, was, name);
      MovingLinked(geo, s, ifree, s', ifree', d, was, name, ok, dirs);
      assert mid[d] == m - {was, name};
      if ok && Short(name) !in m - {was, name} {
        NameAdded(LinksOf(s'), mid, d, Short(name), m[was]);
        assert mid[d := mid[d][Short(name) := m[was]]] == RenamedDirs(s, dirs, d, was, name, ok);
      } else {
        Released(LinksOf(s'), mid, RenamedDirs(s, dirs, d, was, name, ok), m[was].0);
      }
    }
  }

  lemma RenamedNothing(geo: Geometry, s: Fs, ifree: set<nat>, s': Fs, ifree': set<nat>, d: nat, m: NameMap, was: Name,
        name: Name, ok: bool)
    requires geo.Ok() && Renamed(geo, s, ifree, s', ifree', d, m, was, name, ok) && was !in m
    ensures s' == s
  {
  }

  lemma WrittenLinked(vol: Volume, s: Fs, vol': Volume, s': Fs, ino: nat, c: nat, d: seq<byte>, size: nat,
        lost: set<nat>, dirs: Dirs)
    requires Written(vol, s, vol', s', ino, c, d, size, lost) && Linked(s, dirs)
    ensures Linked(s', dirs)
  {
    hide Ext2Tree.Valid, Patched, Covered;
    assert LinksOf(s') == LinksOf(s);
  }

  /** Lost blocks are neither free nor in use. */
  ghost predicate Apart(s: Fs, lost: set<nat>) {
    lost !! s.free && lost !! s.home.Keys
  }

  ghost function Everything(s: Fs, lost: set<nat>): set<nat> {
    s.free + s.home.Keys + lost
  }

  // The file system as an object.

  /** Every run of reads, writes, creations, removals and renames keeps the volume consistent: no block
      is shared or both free and in use, the counters are exact, every file is its byte sequence,
      every known directory is its finite map, every name leads to an inode in use, and no inode has more names
      than links. A block leaves the volume only in a write cut short. */
  class FileSystem {
    var mount: Mount
    ghost var fs: Fs
    ghost var ifree: set<nat>
    ghost var dirs: Dirs
    ghost var lost: set<nat>

    ghost predicate Valid()
      reads this
    {
      && MountOk(mount, fs, ifree) && mount.vol.geo.Ok() && FilesOk(mount.vol.geo, fs)
      && DirsOk(mount.vol.geo, fs, dirs) && Linked(fs, dirs)
      && Apart(fs, lost)
    }

    /** All blocks that were ever free or in use. */
    ghost function Total(): set<nat>
      reads this
    {
      Everything(fs, lost)
    }

    /** A volume as it is mounted: consistent, and with zeros past the end of every file. */
    constructor (mt: Mount, ghost s: Fs, ghost free: set<nat>, ghost ds: Dirs)
      requires MountOk(mt, s, free) && mt.vol.geo.Ok() && FilesOk(mt.vol.geo, s) && DirsOk(mt.vol.geo, s, ds)
      requires Linked(s, ds)
      ensures Valid() && mount == mt && fs == s && ifree == free && dirs == ds && lost == {}
    {
      mount, fs, ifree, dirs, lost := mt, s, free, ds, {};
    }

    method ReadFile(ino: nat, offset: nat, size: nat) returns (r: seq<byte>)
      requires Valid() && ino in fs.inodes && offset < U32 && size < U32 &&
          (offset + size < U32 || Fitting(mount.vol.geo.bs))
      ensures ReadBytes(mount.vol.geo, fs, ino, offset, size, r)
      ensures offset + size < U32 ==> r == Slice(Contents(mount.vol.geo, fs, ino), offset, size)
    {
      hide Rep, Ok, Contents, TailZero, DirsOk, Linked;
      ReadReady(mount, fs, ifree, ino);
      r := Read(mount.vol, ino, offset, size, fs);
    }

    method WriteFile(ino: nat, offset: nat, data: seq<byte>, group: nat) returns (n: nat)
      requires Valid() && ino in fs.inodes && offset + |data| < U32
      modifies this
      ensures Valid() && mount.vol.geo == old(mount.vol.geo) && ifree == old(ifree) && dirs == old(dirs) && n <= |data|
      ensures FileWritten(mount.vol.geo, old(fs), fs, WriteOp(ino, offset, data), n, lost - old(lost))
      ensures Total() == old(Total()) && old(lost) <= lost && |lost - old(lost)| <= 1
      ensures n == |data| ==> lost == old(lost)
    {
      hide MountOk, FilesOk, DirsOk, FileWritten, Apart, Everything, Linked;
      var mt;
      ghost var s, more;
      n, mt, s, more := WriteVolume(mount, ino, offset, data, group, fs, ifree, dirs, lost);
      mount, fs, lost := mt, s, more;
    }

    method CreateFile(d: nat, name: Name, group: nat) returns (ok: bool, ino: nat)
      requires Valid() && d in dirs && mount.vol.inodes[d].size + mount.vol.geo.bs < U32
      modifies this
      ensures Valid() && mount.vol.geo == old(mount.vol.geo)
      ensures Created(mount.vol.geo, old(fs), old(ifree), fs, ifree, d, old(dirs[d]), name, ino, ok)
      ensures dirs == CreatedDirs(old(dirs), d, name, ino, ok)
      ensures FilesKept(mount.vol.geo, old(fs), fs, if ok then {d, ino} else {d})
      ensures ok ==> ino in fs.inodes && Contents(mount.vol.geo, fs, ino) == []
      ensures Total() == old(Total()) && lost == old(lost)
    {
      hide Rep, Ok, Contents, TailZero, FilesOk, Created, FilesKept, IsDir, Represents, CreatedDirs, Linked;
      var mt;
      ghost var s, free;
      ok, ino, mt, s, free := Create(mount, d, name, group, fs, ifree, dirs[d]);
      CreatedFiles(mount.vol.geo, fs, ifree, s, free, d, dirs[d], name, ino, ok);
      CreatedDirsOk(mount.vol.geo, fs, ifree, s, free, d, name, ino, ok, dirs);
      CreatedLinked(mount.vol.geo, fs, ifree, s, free, d, name, ino, ok, dirs);
      CreatedTotal(mount.vol.geo, fs, ifree, s, free, d, dirs[d], name, ino, ok);
      mount, fs, ifree, dirs := mt, s, free, CreatedDirs(dirs, d, name, ino, ok);
    }

    method RemoveFile(d: nat, name: Name) returns (ok: bool)
      requires Valid() && d in dirs && (Short(name) in dirs[d] ==> dirs[d][Short(name)].0 != d)
      modifies this
      ensures Valid() && mount.vol.geo == old(mount.vol.geo)
      ensures Unlinked(mount.vol.geo, old(fs), old(ifree), fs, ifree, d, old(dirs[d]), name, ok)
      ensures dirs == RemovedDirs(old(fs), old(dirs), d, name, ok)
      ensures ok ==>
          Short(name) in old(dirs[d]) && FilesKept(mount.vol.geo, old(fs), fs, {d, old(dirs[d])[Short(name)].0})
      ensures Total() == old(Total()) && lost == old(lost)
    {
      hide Rep, Ok, Contents, TailZero, FilesOk, Unlinked, FilesKept, IsDir, Represents, Short, RemovedDirs, Linked;
      var mt;
      ghost var s, free;
      if Short(name) in dirs[d] { LinkedTarget(fs, dirs, d, Short(name)); }
      ok, mt, s, free := Unlink(mount, d, name, fs, ifree, dirs[d]);
      UnlinkedFiles(mount.vol.geo, fs, ifree, s, free, d, dirs[d], name, ok);
      RemovedDirsOk(mount.vol.geo, fs, ifree, s, free, d, name, ok, dirs);
      RemovedLinked(mount.vol.geo, fs, ifree, s, free, d, name, ok, dirs);
      UnlinkedTotal(mount.vol.geo, fs, ifree, s, free, d, dirs[d], name, ok);
      mount, fs, ifree, dirs := mt, s, free, RemovedDirs(fs, dirs, d, name, ok);
    }

    method RenameFile(d: nat, was: Name, name: Name, group: nat) returns (ok: bool)
      requires Valid() && d in dirs && (name in dirs[d] ==> dirs[d][name].0 != d)
      requires mount.vol.inodes[d].size + mount.vol.geo.bs < U32
      modifies this
      ensures Valid() && mount.vol.geo == old(mount.vol.geo)
      ensures Renamed(mount.vol.geo, old(fs), old(ifree), fs, ifree, d, old(dirs[d]), was, name, ok)
      ensures dirs == RenamedDirs(old(fs), old(dirs), d, was, name, ok)
      ensures was in old(dirs[d]) ==>
                FilesKept(mount.vol.geo, old(fs), fs,
                    if name in old(dirs[d]) && name != was then {d, old(dirs[d])[name].0} else {d})
      ensures Total() == old(Total()) && lost == old(lost)
    {
      hide Rep, Ok, Contents, TailZero, FilesOk, Renamed, FilesKept, IsDir, Represents, Short, DirOk, RenamedDirs;
      hide Linked;
      var mt;
      ghost var s, free;
      if name in dirs[d] { LinkedTarget(fs, dirs, d, name); }
      ok, mt, s, free := Rename(mount, d, was, name, group, fs, ifree, dirs[d]);
      RenamedFiles(mount.vol.geo, fs, ifree, s, free, d, dirs[d], was, name, ok);
      RenamedDirsOk(mount.vol.geo, fs, ifree, s, free, d, was, name, ok, dirs);
      RenamedLinked(mount.vol.geo, fs, ifree, s, free, d, was, name, ok, dirs);
      RenamedTotal(mount.vol.geo, fs, ifree, s, free, d, dirs[d], was, name, ok);
      mount, fs, ifree, dirs := mt, s, free, RenamedDirs(fs, dirs, d, was, name, ok);
    }
  }

  lemma CreatedTotal(geo: Geometry, s: Fs, ifree: set<nat>, s': Fs, ifree': set<nat>, d: nat, m: NameMap, name: Name,
        ino: nat, ok: bool)
    requires geo.Ok() && Created(geo, s, ifree, s', ifree', d, m, name, ino, ok)
    ensures s'.free + s'.home.Keys == s.free + s.home.Keys
  {
    hide DirOk, Names, Entries, Elsewhere, Blank, CanAdd, Short;
  }

  lemma UnlinkedTotal(geo: Geometry, s: Fs, ifree: set<nat>, s': Fs, ifree': set<nat>, d: nat, m: NameMap, name: Name,
        ok: bool)
    requires geo.Ok() && Unlinked(geo, s, ifree, s', ifree', d, m, name, ok)
    ensures s'.free + s'.home.Keys == s.free + s.home.Keys
  {
    hide DirOk, Names, Entries, Elsewhere, LinkGone, Returned, Short;
  }

  lemma RenamedTotal(geo: Geometry, s: Fs, ifree: set<nat>, s': Fs, ifree': set<nat>, d: nat, m: NameMap, was: Name,
        name: Name, ok: bool)
    requires geo.Ok() && Renamed(geo, s, ifree, s', ifree', d, m, was, name, ok)
    ensures s'.free + s'.home.Keys == s.free + s.home.Keys
  {
    hide DirOk, IsDir, Elsewhere, LinkGone, Short, CanRename;
  }

  lemma WrittenLost(vol: Volume, s: Fs, vol': Volume, s': Fs, ino: nat, c: nat, d: seq<byte>, size: nat, gone: set<nat>,
        lost: set<nat>)
    requires Written(vol, s, vol', s', ino, c, d, size, gone) && Apart(s, lost)
    ensures LostMore(s, s', lost, lost + gone) && lost + gone - lost == gone
  {
    hide Written;
    WrittenSets(vol, s, vol', s', ino, c, d, size, gone);
    LostSets(s.free + s.home.Keys, s'.free, s'.home.Keys, gone, lost);
  }

  lemma WrittenSets(vol: Volume, s: Fs, vol': Volume, s': Fs, ino: nat, c: nat, d: seq<byte>, size: nat, gone: set<nat>)
    requires Written(vol, s, vol', s', ino, c, d, size, gone)
    ensures s'.free + s'.home.Keys + gone == s.free + s.home.Keys && gone !! s'.free && gone !! s'.home.Keys
    ensures |gone| <= 1
  {
    hide Ext2Tree.Valid, Patched;
  }

  lemma LostSets(all: set<nat>, free: set<nat>, used: set<nat>, gone: set<nat>, lost: set<nat>)
    requires free + used + gone == all && gone !! free && gone !! used && |gone| <= 1 && lost !! all
    ensures lost + gone !! free && lost + gone !! used && lost + gone - lost == gone
    ensures free + used + (lost + gone) == all + lost
  {
    assert free <= all && used <= all && gone <= all;
    assert lost + gone - lost == gone;
  }

  lemma ReadReady(mt: Mount, s: Fs, ifree: set<nat>, ino: nat)
    requires MountOk(mt, s, ifree) && mt.vol.geo.Ok() && FilesOk(mt.vol.geo, s) && ino in s.inodes
    ensures ino in mt.vol.inodes && mt.vol.inodes[ino].size < U32 && Ext2Tree.Valid(mt.vol, s)
  {
    hide Ok, Represents, Mirror;
    assert TailZero(mt.vol.geo, s, ino);
  }

  lemma WriteReady(mt: Mount, s: Fs, ifree: set<nat>, ino: nat)
    requires MountOk(mt, s, ifree) && ino in s.inodes
    ensures Ext2Tree.Valid(mt.vol, s) && mt.vol.inodes == s.inodes
  {
    hide Ok, Represents, Mirror;
  }

  /** What ext2_write leaves of every file: nothing is written to anything but a regular file, all of the data
      if and only if the blocks that it needs are free, and otherwise as far as they reach. */
  ghost predicate FileWritten(geo: Geometry, s: Fs, s': Fs, op: WriteOp, n: nat, gone: set<nat>)
    requires geo.Ok() && op.ino in s.inodes && n <= |op.data|
  {
    if s.inodes[op.ino].kind != File then n == 0 && s' == s && gone == {}
    else
      && Spent(geo, s, s', op.ino, op.offset, n, |op.data|, gone)
      && (n == |op.data| <==> |NeedBytes(geo, s, op.ino, op.offset, |op.data|)| <= |s.free|)
      && Files(geo, s') == if op.data == [] then Files(geo, s)
           else Files(geo, s)[op.ino := Splice(Contents(geo, s, op.ino), op.offset, op.data[..n])]
  }

  /** Lost blocks stay lost, and a write loses at most one more. */
  ghost predicate LostMore(s: Fs, s': Fs, lost: set<nat>, lost': set<nat>) {
    Apart(s', lost') && lost <= lost' && |lost' - lost| <= 1 && Everything(s', lost') == Everything(s, lost)
  }

  method WriteVolume(mt: Mount, ino: nat, offset: nat, data: seq<byte>, group: nat,
      ghost s: Fs, ghost ifree: set<nat>, ghost dirs: Dirs, ghost lost: set<nat>)
    returns (n: nat, mt': Mount, ghost s': Fs, ghost lost': set<nat>)
    requires MountOk(mt, s, ifree) && mt.vol.geo.Ok() && FilesOk(mt.vol.geo, s) && DirsOk(mt.vol.geo, s, dirs)
    requires Apart(s, lost) && Linked(s, dirs) && ino in s.inodes && offset + |data| < U32
    ensures MountOk(mt', s', ifree) && mt'.vol.geo == mt.vol.geo && FilesOk(mt.vol.geo, s')
    ensures DirsOk(mt.vol.geo, s', dirs) && Linked(s', dirs)
    ensures n <= |data| && FileWritten(mt.vol.geo, s, s', WriteOp(ino, offset, data), n, lost' - lost)
    ensures LostMore(s, s', lost, lost') && (n == |data| ==> lost' == lost)
  {
    hide MountOk, FilesOk, DirsOk, Written, Spent, NewSize, Ext2Tree.Valid, FileWritten, LostMore, Apart, Linked;
    WriteReady(mt, s, ifree, ino);
    var vol;
    ghost var gone;
    n, vol, s', gone := Write(mt.vol, ino, offset, data, group, s);
    mt', lost' := mt.(vol := vol), lost + gone;
    if mt.vol.inodes[ino].kind == File {
      WroteFile(mt, s, ifree, dirs, lost, vol, s', WriteOp(ino, offset, data), n, gone);
    } else {
      WroteNothing(mt.vol.geo, s, WriteOp(ino, offset, data), lost);
    }
  }

  lemma WroteNothing(geo: Geometry, s: Fs, op: WriteOp, lost: set<nat>)
    requires geo.Ok() && op.ino in s.inodes && s.inodes[op.ino].kind != File && Apart(s, lost)
    ensures FileWritten(geo, s, s, op, 0, lost + {} - lost) && LostMore(s, s, lost, lost + {})
  {
    hide Files, Contents, Splice, Spent, NeedBytes;
    assert lost + {} == lost;
  }

  /** A write to a regular file, on everything the object keeps. */
  lemma WroteFile(mt: Mount, s: Fs, ifree: set<nat>, dirs: Dirs, lost: set<nat>, vol': Volume, s': Fs, op: WriteOp,
        n: nat, gone: set<nat>)
    requires MountOk(mt, s, ifree) && mt.vol.geo.Ok() && FilesOk(mt.vol.geo, s) && DirsOk(mt.vol.geo, s, dirs)
    requires Apart(s, lost) && Linked(s, dirs)
    requires op.ino in s.inodes && s.inodes[op.ino].kind == File && op.offset + |op.data| < U32 && n <= |op.data|
    requires Written(mt.vol, s, vol', s', op.ino, op.offset, op.data[..n],
        NewSize(s.inodes[op.ino].size, op.offset, n, op.data), gone)
    requires Spent(mt.vol.geo, s, s', op.ino, op.offset, n, |op.data|, gone)
    ensures MountOk(mt.(vol := vol'), s', ifree) && vol'.geo == mt.vol.geo && FilesOk(mt.vol.geo, s')
    ensures DirsOk(mt.vol.geo, s', dirs) && Linked(s', dirs)
    ensures FileWritten(mt.vol.geo, s, s', op, n, lost + gone - lost) && LostMore(s, s', lost, lost + gone)
    ensures n == |op.data| ==> gone == {}
  {
    hide MountOk, FilesOk, DirsOk, Files, Contents, Splice, Written, NewSize, Ext2Tree.Valid, RanOne;
    hide NeedBytes, Filling, Covering, Apart, Everything, Linked;
    WriteReady(mt, s, ifree, op.ino);
    var size := NewSize(s.inodes[op.ino].size, op.offset, n, op.data);
    RanWrite(mt.vol, s, vol', s', op, n, gone);
    RanMount(mt, s, ifree, vol', s', op, op.(data := op.data[..n]), gone);
    LongestPrefix(mt.vol.geo, s, s', op.ino, op.offset, n, |op.data|, gone, |op.data|);
    WrittenDirs(mt.vol, s, vol', s', op.ino, op.offset, op.data[..n], size, gone, dirs);
    WrittenLinked(mt.vol, s, vol', s', op.ino, op.offset, op.data[..n], size, gone, dirs);
    WrittenLost(mt.vol, s, vol', s', op.ino, op.offset, op.data[..n], size, gone, lost);
  }

  lemma RanMount(mt: Mount, s: Fs, ifree: set<nat>, vol': Volume, s': Fs, op: WriteOp, done: WriteOp, gone: set<nat>)
    requires MountOk(mt, s, ifree) && mt.vol.geo.Ok() && op.ino in s.inodes && s.inodes[op.ino].kind == File
    requires RanOne(mt.vol, s, vol', s', op, done, gone)
    ensures MountOk(mt.(vol := vol'), s', ifree) && vol'.geo == mt.vol.geo && FilesOk(mt.vol.geo, s')
    ensures Files(mt.vol.geo, s') == if op.data == [] then Files(mt.vol.geo, s)
            else Files(mt.vol.geo, s)[op.ino := Splice(Contents(mt.vol.geo, s, op.ino), op.offset, done.data)]
  {
    hide Ok, Contents, TailZero, FilesOk, Files, Splice, Represents, Mirror, OpSpent, Covering, Conserved;
    assert s'.inodes.Keys == s.inodes.Keys by { assert s'.inodes == vol'.inodes && s.inodes == mt.vol.inodes; }
    MountVolume(mt, s, ifree, mt.(vol := vol'), vol', s');
    FilesAt(mt.vol.geo, s, op.ino);
  }

  lemma NewFile(mt: Mount, s: Fs, ifree: set<nat>, s': Fs, ifree': set<nat>, d: nat, m: NameMap, name: Name, ino: nat)
    requires MountOk(mt, s, ifree) && mt.vol.geo.Ok()
    requires Created(mt.vol.geo, s, ifree, s', ifree', d, m, name, ino, true)
    ensures ino !in s.inodes && ino in s'.inodes && s'.inodes[ino].kind == File
  {
    hide Ext2Tree.Valid, Represents, DirOk, Names, Entries, Elsewhere, CanAdd, Short;
  }

  lemma WroteNew(geo: Geometry, s: Fs, s': Fs, ino: nat, data: seq<byte>, n: nat, gone: set<nat>)
    requires geo.Ok() && ino in s.inodes && s.inodes[ino].kind == File && Contents(geo, s, ino) == [] && n <= |data|
    requires FileWritten(geo, s, s', WriteOp(ino, 0, data), n, gone)
    ensures ino in s'.inodes && Slice(Contents(geo, s', ino), 0, |data|) == data[..n]
    ensures n == |data| <==> |NeedBytes(geo, s, ino, 0, |data|)| <= |s.free|
  {
    hide Contents, Spent, NeedBytes;
    FilesAt(geo, s, ino);
    assert ino in Files(geo, s');
    FilesAt(geo, s', ino);
    assert data != [] ==> Splice([], 0, data[..n]) == data[..n];
  }

  /** Creating a file, writing to it and reading it back gives what was written, and the directory maps
      the new name to it. made is the state after the creation: all of the data is written if and only if
      the blocks that it needs are free there. */
  method CreateWriteRead(f: FileSystem, d: nat, name: Name, data: seq<byte>, group: nat)
    returns (ok: bool, ino: nat, n: nat, r: seq<byte>, ghost made: Fs)
    requires f.Valid() && d in f.dirs && f.mount.vol.inodes[d].size + f.mount.vol.geo.bs < U32
    requires Short(name) !in f.dirs[d] && |data| < U32
    modifies f
    ensures f.Valid() && n <= |data|
    ensures Created(f.mount.vol.geo, old(f.fs), old(f.ifree), made, f.ifree, d, old(f.dirs[d]), name, ino, ok)
    ensures ok ==> r == data[..n] && (n == |data| <==>
        |NeedBytes(f.mount.vol.geo, made, ino, 0, |data|)| <= |made.free|)
    ensures ok ==> ino !in old(f.fs).inodes && f.dirs == old(f.dirs)[d := old(f.dirs[d])[Short(name) := (ino, REGULAR)]]
    ensures !ok ==> n == 0 && f.dirs == old(f.dirs) && f.fs == made
  {
    ok, ino := f.CreateFile(d, name, group);
    made := f.fs;
    if !ok { return false, ino, 0, [], made; }
    hide DirsOk, FilesOk, MountOk, Contents, FilesKept, Short, Created, Slice, FileWritten, ReadBytes, Apart;
    hide Everything;
    hide NeedBytes, Linked;
    ghost var geo, lost := f.mount.vol.geo, f.lost;
    NewFile(old(f.mount), old(f.fs), old(f.ifree), made, f.ifree, d, old(f.dirs[d]), name, ino);
    n := f.WriteFile(ino, 0, data, group);
    WroteNew(geo, made, f.fs, ino, data, n, f.lost - lost);
    r := f.ReadFile(ino, 0, |data|);
  }
}
