/** Removing and renaming directory entries, with the inode they may free. */
module Ext2Unlink {
  import opened Arith
  import opened Words
  import opened Forest
  import opened Ext2Groups
  import opened Ext2State
  import opened Ext2Layout
  import opened Ext2Grow
  import opened Ext2Tree
  import opened Ext2Free
  import opened Ext2Dirent
  import opened Ext2Data
  import opened Ext2Directory
  import opened Ext2Names
  import opened Ext2Space

  // What a stored entry looks like.

  lemma {:induction false} BagStored(b: seq<byte>, pos: nat, e: Entry)
    requires Chain(b, pos) && e in Bag(b, pos)
    ensures |e.name| < 256 && 0 < e.ino < U32
    decreases |b| - pos
  {
    if e in Bag(b, pos + RecLen(b, pos)) { BagStored(b, pos + RecLen(b, pos), e); }
  }

  lemma {:induction false} DirBagStored(geo: Geometry, s: Fs, d: nat, n: nat, e: Entry)
    requires geo.Ok() && e in DirBag(geo, s, d, n)
    ensures |e.name| < 256 && 0 < e.ino < U32
  {
    hide BlockData, Chain, Bag;
    if e in DirBag(geo, s, d, n - 1) {
      DirBagStored(geo, s, d, n - 1, e);
    } else {
      BagStored(BlockData(geo, s, d, n - 1).value, 0, e);
    }
  }

  lemma Stored(geo: Geometry, s: Fs, d: nat, m: NameMap, name: Name)
    requires geo.Ok() && IsDir(geo, s, d, m) && name in m
    ensures |name| < 256 && Short(name) == name && 0 < m[name].0 < U32
  {
    hide DirBag;
    var e := Entry(name, m[name].0, m[name].1);
    assert Entries(geo, s, d)[e] == 1;
    DirBagStored(geo, s, d, Blocks(geo, s.inodes, d), e);
  }

  // Losing a link.

  /** Inode t lost a link: with its last one it is gone and its number is free, otherwise its count is
      one less and its data as before. */
  ghost predicate LinkGone(geo: Geometry, s: Fs, ifree: set<nat>, s': Fs, ifree': set<nat>, t: nat)
    requires geo.Ok()
  {
    && t in s.inodes
    && (s.inodes[t].links <= 1 ==> t !in s'.inodes && ifree' == ifree + {t})
    && (s.inodes[t].links > 1 ==>
          && t in s'.inodes && s'.inodes[t] == s.inodes[t].(links := s.inodes[t].links - 1)
          && SameFile(geo, s, s', t) && ifree' == ifree)
  }

  /** The blocks that losing a link of t gives back: all of t's with the last link, else none. */
  ghost function Returned(s: Fs, t: nat): set<nat>
    requires t in s.inodes
  {
    if s.inodes[t].links <= 1 then Owned(s.home, t) else {}
  }

  ghost predicate Dropped(geo: Geometry, s: Fs, ifree: set<nat>, s': Fs, ifree': set<nat>, t: nat)
    requires geo.Ok()
  {
    && LinkGone(geo, s, ifree, s', ifree', t) && Elsewhere(geo, s, s', {t})
    && s'.free == s.free + Returned(s, t) && SameTotal(s, s') && s'.home == s.home - Returned(s, t)
  }

  /** The part that unlink and rename share: one link fewer, and with the last one the blocks and the inode
      are freed. */
  method DropLink(mt: Mount, t: nat, ghost s: Fs, ghost ifree: set<nat>)
    returns (mt': Mount, ghost s': Fs, ghost ifree': set<nat>)
    requires MountOk(mt, s, ifree) && t in s.inodes
    ensures mt.vol.geo.Ok() && MountOk(mt', s', ifree') && mt'.vol.geo == mt.vol.geo
    ensures Dropped(mt.vol.geo, s, ifree, s', ifree', t)
  {
    hide Represents, Rep, Ok, Elsewhere, Owned, LinkGone, Dropped, Emptied;
    VolumeFields(mt.vol, s);
    var node := mt.vol.inodes[t];
    var inodes := mt.vol.inodes[t := node.(links := if node.links > 0 then node.links - 1 else 0)];
    var vol1 := PutInodes(mt.vol, inodes);
    ghost var s1 := s.(inodes := inodes);
    SetLinks(mt.vol.geo, s, s1, t, s1.inodes[t].links);
    PutInodesRep(mt.vol, s, vol1, s1, inodes);
    mt', s', ifree' := mt.(vol := vol1), s1, ifree;
    MountVolume(mt, s, ifree, mt', vol1, s1);
    if inodes[t].links == 0 {
      var vol2;
      ghost var s2;
      vol2, s2 := InodeFreeBlocks(vol1, t, s1);
      EmptiedMount(mt', s1, ifree, vol2, s2, t);
      mt', s', ifree' := FreeInode(mt'.(vol := vol2), t, s2, ifree);
      LastLink(mt.vol.geo, s, s1, s2, s', ifree, ifree', t);
    } else {
      OneLinkLess(mt.vol.geo, s, s1, ifree, t);
    }
  }

  lemma SetLinks(geo: Geometry, s: Fs, s1: Fs, t: nat, n: nat)
    requires geo.Ok() && Ok(geo, s) && t in s.inodes && s1 == s.(inodes := s.inodes[t := s.inodes[t].(links := n)])
    ensures Ok(geo, s1) && Elsewhere(geo, s, s1, {t}) && SameFile(geo, s, s1, t)
  {
    hide SameFile, Node, Owned;
    assert RootsOf(s1.inodes) == RootsOf(s.inodes);
    forall k: nat ensures SameFile(geo, s, s1, k) { InodesData(geo, s, s1, k); }
  }

  lemma EmptiedMount(mt: Mount, s: Fs, ifree: set<nat>, vol2: Volume, s2: Fs, t: nat)
    requires MountOk(mt, s, ifree) && t in s.inodes && s2 == Emptied(s, t) && SameVolume(mt.vol, vol2)
    requires Valid(vol2, s2)
    ensures MountOk(mt.(vol := vol2), s2, ifree) && vol2.geo == mt.vol.geo && t in s2.inodes && Owned(s2.home, t) == {}
    ensures mt.vol.geo.Ok() && Elsewhere(mt.vol.geo, s, s2, {t}) && s2.free == s.free + Owned(s.home, t)
    ensures SameTotal(s, s2)
    ensures s2.home == s.home - Owned(s.home, t)
  {
    hide Valid, SameFile, Bare;
    assert s2.inodes.Keys == s.inodes.Keys;
    MountVolume(mt, s, ifree, mt.(vol := vol2), vol2, s2);
    forall k: nat | k != t ensures SameFile(mt.vol.geo, s, s2, k) { EmptiedData(mt.vol.geo, s, t, k); }
  }

  lemma LastLink(geo: Geometry, s: Fs, s1: Fs, s2: Fs, s3: Fs, ifree: set<nat>, ifree3: set<nat>, t: nat)
    requires geo.Ok() && t in s.inodes && s.inodes[t].links <= 1
    requires Elsewhere(geo, s, s1, {t}) && Elsewhere(geo, s1, s2, {t}) && Elsewhere(geo, s2, s3, {t})
    requires s1 == s.(inodes := s1.inodes) && s2.free == s1.free + Owned(s1.home, t) && SameTotal(s1, s2)
    requires s2.home == s1.home - Owned(s1.home, t)
    requires s3 == s2.(inodes := s2.inodes - {t}) && ifree3 == ifree + {t}
    ensures Dropped(geo, s, ifree, s3, ifree3, t)
  {
    hide Elsewhere, Owned;
    ElsewhereTrans(geo, s, s1, s2, {t}, {t}, {t});
    ElsewhereTrans(geo, s, s2, s3, {t}, {t}, {t});
  }

  lemma OneLinkLess(geo: Geometry, s: Fs, s1: Fs, ifree: set<nat>, t: nat)
    requires geo.Ok() && t in s.inodes && s.inodes[t].links > 1
    requires s1 == s.(inodes := s.inodes[t := s.inodes[t].(links := s.inodes[t].links - 1)])
    requires Elsewhere(geo, s, s1, {t}) && SameFile(geo, s, s1, t)
    ensures Dropped(geo, s, ifree, s1, ifree, t)
  {
    hide Elsewhere, SameFile;
  }

  /** How many blocks removing the name gives back. */
  ghost function Gain(s: Fs, m: NameMap, name: Name): nat {
    if name in m && m[name].0 in s.inodes then |Returned(s, m[name].0)| else 0
  }

  /** Dropping a link of another inode leaves the tree of d alone and adds exactly the returned blocks. */
  lemma DroppedTree(geo: Geometry, s: Fs, ifree: set<nat>, s': Fs, ifree': set<nat>, t: nat, d: nat)
    requires Ok(geo, s) && geo.Ok() && Dropped(geo, s, ifree, s', ifree', t) && t != d
    ensures SameTree(s, s', d) && |s'.free| == |s.free| + |Returned(s, t)| && SameFile(geo, s, s', d)
  {
    hide Ok, SameFile, Elsewhere, Returned, SameTree;
    ReturnedTaken(geo, s, t);
    MinusTree(s, s', t, d);
    DropElsewhere(geo, s, s', t, d);
  }

  lemma ReturnedTaken(geo: Geometry, s: Fs, t: nat)
    requires Ok(geo, s) && t in s.inodes
    ensures s.free !! Returned(s, t)
  {
    hide Planted, SectorsOk;
  }

  lemma MinusTree(s: Fs, s': Fs, t: nat, d: nat)
    requires t in s.inodes && s'.home == s.home - Returned(s, t) && t != d
    ensures SameTree(s, s', d)
  {
  }

  lemma DropElsewhere(geo: Geometry, s: Fs, s': Fs, t: nat, d: nat)
    requires geo.Ok() && Elsewhere(geo, s, s', {t}) && d != t
    ensures SameFile(geo, s, s', d)
  {
    hide SameFile;
    assert d !in {t};
  }

  // Unlink.

  /** After ext2_unlink: without the name nothing happens; with it the map loses exactly that name, the
      target loses a link, and exactly its blocks return when that was the last one. */
  ghost predicate Unlinked(geo: Geometry, s: Fs, ifree: set<nat>, s': Fs, ifree': set<nat>, d: nat, m: NameMap,
        name: Name, ok: bool)
    requires geo.Ok()
  {
    && (ok <==> Short(name) in m)
    && (!ok ==> s' == s && ifree' == ifree)
    && (ok ==>
          var t := m[Short(name)].0;
          && IsDir(geo, s', d, m - {Short(name)}) && d in s.inodes && d in s'.inodes && s'.inodes[d] == s.inodes[d]
          && Elsewhere(geo, s, s', {d, t}) && LinkGone(geo, s, ifree, s', ifree', t)
          && s'.free == s.free + Returned(s, t) && SameTotal(s, s'))
  }

  /** The target of the name is an inode of this volume other than the directory itself. */
  ghost predicate Target(s: Fs, d: nat, m: NameMap, name: Name) {
    name in m ==> m[name].0 in s.inodes && m[name].0 != d
  }

  method Unlink(mt: Mount, d: nat, name: Name, ghost s: Fs, ghost ifree: set<nat>, ghost m: NameMap)
    returns (ok: bool, mt': Mount, ghost s': Fs, ghost ifree': set<nat>)
    requires MountOk(mt, s, ifree) && mt.vol.geo.Ok() && IsDir(mt.vol.geo, s, d, m) && Target(s, d, m, Short(name))
    ensures MountOk(mt', s', ifree') && mt'.vol.geo == mt.vol.geo
    ensures Unlinked(mt.vol.geo, s, ifree, s', ifree', d, m, name, ok)
  {
    hide Rep, Ok, DirOk, Names, Entries, Elsewhere, NameIn, Represents, Short, Edited, LinkGone, Dropped, Returned;
    IsDirNames(mt.vol.geo, s, d, m, Short(name));
    var vol1, t;
    ghost var s1, e;
    ok, t, vol1, s1, e := RemoveEntry(mt.vol, d, name, s);
    if !ok { return false, mt, s, ifree; }
    var mt1 := mt.(vol := vol1);
    EntryRemoved(mt, s, ifree, mt1, s1, d, m, e);
    mt', s', ifree' := DropLink(mt1, t, s1, ifree);
    LinkDropped(mt.vol.geo, s, s1, s', ifree, ifree', d, t, m - {e.name});
  }

  /** Removing an entry removes its name from the map and leaves every inode and block where it was. */
  lemma EntryRemoved(mt: Mount, s: Fs, ifree: set<nat>, mt1: Mount, s1: Fs, d: nat, m: NameMap, e: Entry)
    requires MountOk(mt, s, ifree) && mt.vol.geo.Ok() && IsDir(mt.vol.geo, s, d, m) && d in s.inodes && d in s1.inodes
    requires mt1 == mt.(vol := mt1.vol) && SameVolume(mt.vol, mt1.vol) && Valid(mt1.vol, s1)
    requires Edited(mt.vol.geo, s, s1, d)
    requires s1.inodes == s.inodes && s1.free == s.free && s1.home == s.home
    requires Entries(mt.vol.geo, s, d) == Entries(mt.vol.geo, s1, d) + multiset{e}
    ensures MountOk(mt1, s1, ifree) && mt1.vol.geo == mt.vol.geo && IsDir(mt.vol.geo, s1, d, m - {e.name})
    ensures e.name in m && m[e.name] == (e.ino, e.kind) && Elsewhere(mt.vol.geo, s, s1, {d}) && SameTotal(s, s1)
  {
    hide Valid, DirOk, Entries, Names, SameFile;
    MountVolume(mt, s, ifree, mt1, mt1.vol, s1);
    EditedElsewhere(mt.vol.geo, s, s1, d);
    NamesDrop(Entries(mt.vol.geo, s, d), m, e, Entries(mt.vol.geo, s1, d));
  }

  /** Then dropping the link leaves the directory alone. */
  lemma LinkDropped(geo: Geometry, s: Fs, s1: Fs, s2: Fs, ifree: set<nat>, ifree2: set<nat>, d: nat, t: nat,
        m1: NameMap)
    requires geo.Ok() && Elsewhere(geo, s, s1, {d}) && s1.inodes == s.inodes && s1.home == s.home && s1.free == s.free
    requires IsDir(geo, s1, d, m1) && t != d && Dropped(geo, s1, ifree, s2, ifree2, t)
    ensures IsDir(geo, s2, d, m1) && Elsewhere(geo, s, s2, {d, t}) && LinkGone(geo, s, ifree, s2, ifree2, t)
    ensures s2.free == s.free + Returned(s, t) && SameTotal(s, s2) && d in s1.inodes && d in s2.inodes
    ensures s2.inodes[d] == s1.inodes[d]
  {
    hide DirOk, Entries, Names, SameFile, Owned;
    DirElsewhere(geo, s1, s2, {t}, d);
    ElsewhereTrans(geo, s, s1, s2, {d}, {t}, {d, t});
    assert SameFile(geo, s, s1, t) by { assert t !in {d}; }
    if s.inodes[t].links > 1 { SameFileTrans(geo, s, s1, s2, t); }
  }

  lemma SameFileTrans(geo: Geometry, s: Fs, s1: Fs, s2: Fs, k: nat)
    requires geo.Ok() && SameFile(geo, s, s1, k) && SameFile(geo, s1, s2, k)
    ensures SameFile(geo, s, s2, k)
  {
    hide BlockData;
  }

  // Rename.

  /** Once the old name and the victim's are out of the way a record has room for the new one, or the
      free blocks, with those the victim gives back, outnumber the tables missing for a new block. */
  ghost predicate CanRename(geo: Geometry, s: Fs, d: nat, m: NameMap, was: Name, name: Name)
    requires geo.Ok() && d in s.inodes
  {
    || RoomWithout(geo, s, d, was, name, Needed(|Short(name)|))
    || |s.free| + Gain(s, m - {was}, name) > Missing(s, Leaf(geo, d, Blocks(geo, s.inodes, d)))
  }

  /** A new name that needs no more record space than the old one can always be stored. */
  lemma ShorterFits(geo: Geometry, s: Fs, d: nat, m: NameMap, was: Name, name: Name)
    requires geo.Ok() && Ok(geo, s) && IsDir(geo, s, d, m) && was in m && Needed(|Short(name)|) <= Needed(|was|)
    ensures d in s.inodes && CanRename(geo, s, d, m, was, name)
  {
    hide IsDir, Ok, RoomWithout, Short, Needed, Missing, Leaf, Gain;
    RoomForShorter(geo, s, d, m, was, name, Needed(|Short(name)|));
  }

  /** What ext2_rename leaves: the old name is gone, the victim of the new name has lost a link, and on
      success the new name maps to the old target (exactly when its stored form is new). On failure
      neither name is left. */
  ghost predicate Renamed(geo: Geometry, s: Fs, ifree: set<nat>, s': Fs, ifree': set<nat>, d: nat, m: NameMap,
        was: Name, name: Name, ok: bool)
    requires geo.Ok()
  {
    && (was !in m ==> !ok && s' == s && ifree' == ifree)
    && (was in m ==>
          var m' := m - {was, name};
          && SameTotal(s, s') && DirOk(geo, s', d) && d in s.inodes && d in s'.inodes
          && s'.inodes[d].kind == s.inodes[d].kind && s'.inodes[d].links == s.inodes[d].links
          && (ok <==> CanRename(geo, s, d, m, was, name))
          && (!ok ==> IsDir(geo, s', d, m') && |s'.free| <= 1)
          && (ok ==> (IsDir(geo, s', d, m'[Short(name) := m[was]]) <==> Short(name) !in m'))
          && (name in m && name != was ==>
                LinkGone(geo, s, ifree, s', ifree', m[name].0) && Elsewhere(geo, s, s', {d, m[name].0}))
          && (name !in m || name == was ==> ifree' == ifree && Elsewhere(geo, s, s', {d})))
  }

  method Rename(mt: Mount, d: nat, was: Name, name: Name, group: nat, ghost s: Fs, ghost ifree: set<nat>,
        ghost m: NameMap)
    returns (ok: bool, mt': Mount, ghost s': Fs, ghost ifree': set<nat>)
    requires MountOk(mt, s, ifree) && mt.vol.geo.Ok() && IsDir(mt.vol.geo, s, d, m) && Target(s, d, m, name)
    requires mt.vol.inodes[d].size + mt.vol.geo.bs < U32
    ensures MountOk(mt', s', ifree') && mt'.vol.geo == mt.vol.geo
    ensures Renamed(mt.vol.geo, s, ifree, s', ifree', d, m, was, name, ok)
  {
    hide Rep, Ok, DirOk, Names, Entries, Elsewhere, NameIn, Represents, Short, Edited, LinkGone;
    hide Dropped, Returned, IsDir, Appended, Renamed, SameTotal, CutOnce, Cleared, CanRename, CanAdd, Needed;
    IsDirNames(mt.vol.geo, s, d, m, was);
    IsDirOk(mt.vol.geo, s, d, m);
    var found, ino, kind := Find(mt.vol, d, was, s);
    if !found {
      RenameNothing(mt.vol.geo, s, ifree, d, m, was, name);
      return false, mt, s, ifree;
    }
    Stored(mt.vol.geo, s, d, m, was);
    ok, mt', s', ifree' := MoveEntry(mt, d, was, name, ino, kind, group, s, ifree, m);
  }

  lemma RenameNothing(geo: Geometry, s: Fs, ifree: set<nat>, d: nat, m: NameMap, was: Name, name: Name)
    requires geo.Ok() && was !in m
    ensures Renamed(geo, s, ifree, s, ifree, d, m, was, name, false)
  {
  }

  lemma IsDirOk(geo: Geometry, s: Fs, d: nat, m: NameMap)
    requires geo.Ok() && IsDir(geo, s, d, m)
    ensures DirOk(geo, s, d) && d in s.inodes
  {
    hide Entries, Names;
  }

  method MoveEntry(mt: Mount, d: nat, was: Name, name: Name, ino: nat, kind: byte, group: nat, ghost s: Fs,
        ghost ifree: set<nat>, ghost m: NameMap)
    returns (ok: bool, mt': Mount, ghost s': Fs, ghost ifree': set<nat>)
    requires MountOk(mt, s, ifree) && mt.vol.geo.Ok() && IsDir(mt.vol.geo, s, d, m) && Target(s, d, m, name)
    requires mt.vol.inodes[d].size + mt.vol.geo.bs < U32
    requires was in m && m[was] == (ino, kind) && Short(was) == was && 0 < ino < U32
    ensures MountOk(mt', s', ifree') && mt'.vol.geo == mt.vol.geo
    ensures Renamed(mt.vol.geo, s, ifree, s', ifree', d, m, was, name, ok)
  {
    hide Rep, Ok, DirOk, Names, Entries, Elsewhere, NameIn, Represents, Short, Edited, LinkGone;
    hide Dropped, Returned, IsDir, Appended, Renamed, SameTotal, CutOnce, Cleared, CanRename, CanAdd, Needed;
    IsDirOk(mt.vol.geo, s, d, m);
    IsDirNames(mt.vol.geo, s, d, m, was);
    var gone, t, vol1, vol3;
    ghost var s1, s2, s3, e, m1;
    gone, t, vol1, s1, e := RemoveEntry(mt.vol, d, was, s);
    var mt1 := mt.(vol := vol1);
    EntryRemoved(mt, s, ifree, mt1, s1, d, m, e);
    m1 := m - {was};
    VolumeFields(mt.vol, s);
    VolumeFields(vol1, s1);
    mt', s2, ifree' := ClearName(mt1, d, name, s1, ifree, m1);
    MoveReady(mt1, s1, ifree, mt', s2, ifree', d, m1, name);
    MoveSpace(mt.vol.geo, s, s1, s2, ifree, ifree', d, m, was, name);
    ok, vol3, s3 := AppendEntry(mt'.vol, d, ino, name, kind, group, s2);
    CreateAppended(mt.vol.geo, mt', s2, ifree', vol3, s3, d, Entry(Short(name), ino, kind), ok);
    AppendedScarce(mt'.vol, s2, vol3, s3, d, Entry(Short(name), ino, kind), ok);
    mt', s' := mt'.(vol := vol3), s3;
    MoveDone(mt.vol.geo, s, s1, s2, s3, ifree, ifree', d, m, was, name, ok);
  }

  /** After the new name was cleared out of the way. */
  ghost predicate Cleared(geo: Geometry, s: Fs, ifree: set<nat>, s': Fs, ifree': set<nat>, d: nat, m: NameMap,
        name: Name)
    requires geo.Ok()
  {
    && IsDir(geo, s', d, m - {name}) && SameTotal(s, s') && d in s.inodes && d in s'.inodes
    && s'.inodes[d] == s.inodes[d]
    && AllCut(geo, s, s', d, name) && SameTree(s, s', d) && |s'.free| == |s.free| + Gain(s, m, name)
    && (name in m ==> LinkGone(geo, s, ifree, s', ifree', m[name].0) && Elsewhere(geo, s, s', {d, m[name].0}))
    && (name !in m ==> s' == s && ifree' == ifree)
  }

  method ClearName(mt: Mount, d: nat, name: Name, ghost s: Fs, ghost ifree: set<nat>, ghost m: NameMap)
    returns (mt': Mount, ghost s': Fs, ghost ifree': set<nat>)
    requires MountOk(mt, s, ifree) && mt.vol.geo.Ok() && IsDir(mt.vol.geo, s, d, m) && Target(s, d, m, name)
    ensures MountOk(mt', s', ifree') && mt'.vol.geo == mt.vol.geo
    ensures Cleared(mt.vol.geo, s, ifree, s', ifree', d, m, name)
  {
    hide Rep, Ok, DirOk, Names, Entries, Elsewhere, NameIn, Represents;
    hide Short, Edited, LinkGone, Dropped, Returned, IsDir, CutOnce, Cleared;
    IsDirOk(mt.vol.geo, s, d, m);
    IsDirNames(mt.vol.geo, s, d, m, name);
    var found, victim, kind := Find(mt.vol, d, name, s);
    if !found {
      assert m - {name} == m;
      ClearedNothing(mt.vol.geo, s, ifree, d, m, name);
      return mt, s, ifree;
    }
    Stored(mt.vol.geo, s, d, m, name);
    var gone, t, vol1;
    ghost var s1, e;
    gone, t, vol1, s1, e := RemoveEntry(mt.vol, d, name, s);
    var mt1 := mt.(vol := vol1);
    EntryRemoved(mt, s, ifree, mt1, s1, d, m, e);
    mt', s', ifree' := DropLink(mt1, victim, s1, ifree);
    LinkDropped(mt.vol.geo, s, s1, s', ifree, ifree', d, victim, m - {name});
    ClearedName(mt.vol.geo, s, s1, s', ifree, ifree', d, m, name);
  }

  lemma ClearedNothing(geo: Geometry, s: Fs, ifree: set<nat>, d: nat, m: NameMap, name: Name)
    requires geo.Ok() && IsDir(geo, s, d, m) && d in s.inodes && name !in m && m - {name} == m
    ensures Cleared(geo, s, ifree, s, ifree, d, m, name)
  {
    hide IsDir, AllCut;
    CutNothing(geo, s, d, m, name);
  }

  lemma ClearedName(geo: Geometry, s: Fs, s1: Fs, s2: Fs, ifree: set<nat>, ifree2: set<nat>, d: nat, m: NameMap,
        name: Name)
    requires geo.Ok() && IsDir(geo, s, d, m) && DirOk(geo, s, d) && d in s.inodes && d in s1.inodes && d in s2.inodes
    requires name in m && m[name].0 in s.inodes && m[name].0 != d
    requires CutOnce(geo, s, s1, d, name) && s1.inodes == s.inodes && s1.free == s.free && s1.home == s.home
    requires Ok(geo, s1) && Dropped(geo, s1, ifree, s2, ifree2, m[name].0) && s2.inodes[d] == s1.inodes[d]
    requires IsDir(geo, s2, d, m - {name}) && SameTotal(s, s2)
    requires LinkGone(geo, s, ifree, s2, ifree2, m[name].0) && Elsewhere(geo, s, s2, {d, m[name].0})
    ensures Cleared(geo, s, ifree, s2, ifree2, d, m, name)
  {
    hide IsDir, AllCut, CutOnce, DirOk, Dropped, LinkGone, Elsewhere, Ok, SameFile, Owned;
    CutEverywhere(geo, s, s1, d, m, name);
    DroppedTree(geo, s1, ifree, s2, ifree2, m[name].0, d);
    CutKept(geo, s, s1, s2, d, name);
  }

  lemma MoveReady(mt1: Mount, s1: Fs, ifree: set<nat>, mt2: Mount, s2: Fs, ifree2: set<nat>, d: nat, m1: NameMap,
        name: Name)
    requires mt1.vol.geo.Ok() && Rep(mt1.vol, s1) && Rep(mt2.vol, s2) && mt2.vol.geo == mt1.vol.geo
    requires Cleared(mt1.vol.geo, s1, ifree, s2, ifree2, d, m1, name)
    ensures d in mt1.vol.inodes && d in mt2.vol.inodes && mt2.vol.inodes[d] == mt1.vol.inodes[d] && d in s2.inodes
    ensures DirOk(mt2.vol.geo, s2, d)
  {
    hide DirOk, Names, Entries, Elsewhere, LinkGone, AllCut, SameTree, Gain;
  }

  /** The space there is when the new name is stored, in terms of the state before the call. */
  lemma MoveSpace(geo: Geometry, s: Fs, s1: Fs, s2: Fs, ifree: set<nat>, ifree2: set<nat>, d: nat, m: NameMap,
        was: Name, name: Name)
    requires geo.Ok() && Ok(geo, s) && Ok(geo, s1) && Ok(geo, s2) && IsDir(geo, s, d, m) && DirOk(geo, s, d)
    requires d in s.inodes
    requires s1.inodes == s.inodes && s1.home == s.home && s1.free == s.free && CutOnce(geo, s, s1, d, was)
    requires Cleared(geo, s1, ifree, s2, ifree2, d, m - {was}, name)
    ensures d in s2.inodes
    ensures CanRename(geo, s, d, m, was, name) <==> CanAdd(geo, s2, d, Needed(|Short(name)|))
  {
    hide IsDir, AllCut, CutOnce, DirOk, LinkGone, Elsewhere, Ok, Owned;
    hide Roomy, RoomWithout, SameTree, Missing, Needed, Short, Leaf, Quo;
    CutEverywhere(geo, s, s1, d, m, was);
    RoomAfterCuts(geo, s, s1, s2, d, was, name, Needed(|Short(name)|));
    SizeAddressable(geo, s, d);
    SameHome(s, s1, d);
    SameTreeGrow(geo, s, s1, d, Blocks(geo, s.inodes, d));
    SameTreeGrow(geo, s1, s2, d, Blocks(geo, s.inodes, d));
  }

  lemma SameHome(s: Fs, s1: Fs, d: nat)
    requires s1.home == s.home
    ensures SameTree(s, s1, d)
  {
  }

  lemma AppendedScarce(vol: Volume, s: Fs, vol': Volume, s': Fs, d: nat, e: Entry, ok: bool)
    requires vol.geo.Ok() && Appended(vol, s, vol', s', d, e, ok)
    ensures !ok ==> |s'.free| <= 1
    ensures forall k | k in s.inodes && k != d :: k in s'.inodes && s'.inodes[k] == s.inodes[k]
  {
    hide Valid, DirOk, Entries, SameFile;
  }

  lemma MoveDone(geo: Geometry, s: Fs, s1: Fs, s2: Fs, s3: Fs, ifree: set<nat>, ifree2: set<nat>, d: nat, m: NameMap,
        was: Name, name: Name, ok: bool)
    requires geo.Ok() && was in m && Target(s, d, m, name)
    requires Elsewhere(geo, s, s1, {d}) && SameTotal(s, s1) && s1.inodes == s.inodes
    requires Cleared(geo, s1, ifree, s2, ifree2, d, m - {was}, name)
    requires Elsewhere(geo, s2, s3, {d}) && SameTotal(s2, s3) && DirOk(geo, s3, d) && d in s3.inodes && d in s2.inodes
    requires s3.inodes[d].kind == s2.inodes[d].kind && s3.inodes[d].links == s2.inodes[d].links
    requires Entries(geo, s3, d) == Entries(geo, s2, d) + if ok then multiset{Entry(Short(name), m[was].0, m[was].1)}
        else multiset{}
    requires !ok ==> |s3.free| <= 1
    requires d in s.inodes && (ok <==> CanRename(geo, s, d, m, was, name))
    ensures Renamed(geo, s, ifree, s3, ifree2, d, m, was, name, ok)
  {
    hide SameFile, Names, Entries, DirOk, LinkGone, Short, CanRename, AllCut, SameTree, Gain;
    var m' := m - {was, name};
    assert m - {was} - {name} == m';
    if ok {
      NamesAdd(Entries(geo, s2, d), m', Entry(Short(name), m[was].0, m[was].1), Entries(geo, s3, d));
    } else {
      assert Entries(geo, s3, d) == Entries(geo, s2, d);
    }
    MoveElsewhere(geo, s, s1, s2, s3, ifree, ifree2, d, m, was, name);
  }

  lemma MoveElsewhere(geo: Geometry, s: Fs, s1: Fs, s2: Fs, s3: Fs, ifree: set<nat>, ifree2: set<nat>, d: nat,
        m: NameMap, was: Name, name: Name)
    requires geo.Ok() && was in m && Target(s, d, m, name)
    requires Elsewhere(geo, s, s1, {d}) && s1.inodes == s.inodes && Elsewhere(geo, s2, s3, {d})
    requires Cleared(geo, s1, ifree, s2, ifree2, d, m - {was}, name)
    ensures name in m && name != was ==>
        LinkGone(geo, s, ifree, s3, ifree2, m[name].0) && Elsewhere(geo, s, s3, {d, m[name].0})
    ensures name !in m || name == was ==> ifree2 == ifree && Elsewhere(geo, s, s3, {d})
  {
    hide SameFile, Names, Entries, DirOk, AllCut, SameTree, Gain;
    if name in m && name != was {
      var v := m[name].0;
      assert v !in {d};
      assert SameFile(geo, s, s1, v) && SameFile(geo, s2, s3, v);
      ElsewhereTrans(geo, s, s1, s2, {d}, {d, v}, {d, v});
      ElsewhereTrans(geo, s, s2, s3, {d, v}, {d}, {d, v});
      if s.inodes[v].links > 1 {
        SameFileTrans(geo, s, s1, s2, v);
        SameFileTrans(geo, s, s2, s3, v);
      }
    } else {
      ElsewhereTrans(geo, s, s1, s3, {d}, {d}, {d});
    }
  }
}
