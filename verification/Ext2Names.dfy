/** Names: a directory as a finite map, and the operations that create, unlink and rename files. */
module Ext2Names {
  import opened Words
  import opened Forest
  import opened Ext2Groups
  import opened Ext2State
  import opened Ext2Layout
  import opened Ext2Tree
  import opened Ext2Dirent
  import opened Ext2Data
  import opened Ext2Directory

  type Name = seq<byte>
  type NameMap = map<Name, (nat, byte)>

  const REGULAR: byte := 1

  /** The entries of a directory are those of a finite map: one per name. */
  ghost predicate Names(bag: multiset<Entry>, m: NameMap) {
    forall e: Entry {:trigger bag[e]} :: bag[e] == if e.name in m && m[e.name] == (e.ino, e.kind) then 1 else 0
  }

  lemma NamesIn(bag: multiset<Entry>, m: NameMap, name: Name)
    requires Names(bag, m)
    ensures NameIn(bag, name) <==> name in m
    ensures forall e: Entry | e in bag :: e.name in m && m[e.name] == (e.ino, e.kind)
  {
    if name in m {
      var e := Entry(name, m[name].0, m[name].1);
      assert bag[e] == 1;
    }
    forall e: Entry | e in bag ensures e.name in m && m[e.name] == (e.ino, e.kind) {
      assert bag[e] > 0;
    }
  }

  /** Adding an entry refines adding a key exactly when the key is new. */
  lemma NamesAdd(bag: multiset<Entry>, m: NameMap, e: Entry, bag': multiset<Entry>)
    requires Names(bag, m) && bag' == bag + multiset{e}
    ensures Names(bag', m[e.name := (e.ino, e.kind)]) <==> e.name !in m
  {
    var m' := m[e.name := (e.ino, e.kind)];
    if e.name in m {
      var f := Entry(e.name, m[e.name].0, m[e.name].1);
      assert bag[f] == 1;
      assert bag'[f] == bag[f] + if f == e then 1 else 0;
    } else {
      forall f: Entry ensures bag'[f] == if f.name in m' && m'[f.name] == (f.ino, f.kind) then 1 else 0 {
        assert bag'[f] == bag[f] + if f == e then 1 else 0;
      }
    }
  }

  /** Dropping an entry refines dropping its key. */
  lemma NamesDrop(bag: multiset<Entry>, m: NameMap, e: Entry, bag': multiset<Entry>)
    requires Names(bag, m) && bag == bag' + multiset{e}
    ensures e.name in m && m[e.name] == (e.ino, e.kind) && Names(bag', m - {e.name})
  {
    var m' := m - {e.name};
    assert bag[e] == bag'[e] + 1;
    forall f: Entry ensures bag'[f] == if f.name in m' && m'[f.name] == (f.ino, f.kind) then 1 else 0 {
      assert bag[f] == bag'[f] + if f == e then 1 else 0;
    }
  }

  /** Two entries with one name are the entries of no map. */
  lemma NoMap(bag: multiset<Entry>, m: NameMap, e: Entry, bag': multiset<Entry>, m2: NameMap)
    requires Names(bag, m) && bag' == bag + multiset{e} && e.name in m
    ensures !Names(bag', m2)
  {
    var f := Entry(e.name, m[e.name].0, m[e.name].1);
    assert bag[f] == 1;
    assert bag'[f] == bag[f] + if f == e then 1 else 0;
    assert bag'[e] > 0;
  }

  // The volume with its inode allocator.

  datatype Mount = Mount(vol: Volume, ilay: Layout, inums: Groups)

  /** Inode numbers are free or in use, never both. */
  ghost predicate MountOk(mt: Mount, s: Fs, ifree: set<nat>) {
    && Valid(mt.vol, s) && mt.vol.geo.Ok()
    && Represents(mt.ilay, mt.inums, ifree)
    && (forall i | i in ifree :: 0 < i < U32 && i !in s.inodes)
    && (forall i {:trigger mt.ilay.Covers(i)} | i in s.inodes :: mt.ilay.Covers(i))
    && (forall i | i in s.inodes :: 0 < i < U32)
  }

  /** The mount after a change of its volume that keeps the set of inodes. */
  lemma MountVolume(mt: Mount, s: Fs, ifree: set<nat>, mt': Mount, vol': Volume, s': Fs)
    requires MountOk(mt, s, ifree) && mt' == mt.(vol := vol') && SameVolume(mt.vol, vol') && Valid(vol', s')
    requires s'.inodes.Keys == s.inodes.Keys
    ensures MountOk(mt', s', ifree) && mt'.vol.geo == mt.vol.geo
  {
    hide Valid;
    forall i | i in s'.inodes ensures mt'.ilay.Covers(i) { assert i in s.inodes; assert mt.ilay.Covers(i); }
  }

  /** Inodes outside X are as before, with the same data. */
  ghost predicate Elsewhere(geo: Geometry, s: Fs, s': Fs, X: set<nat>)
    requires geo.Ok()
  {
    forall k: nat {:trigger SameFile(geo, s, s', k)} | k !in X ::
      && SameFile(geo, s, s', k)
      && (k in s.inodes <==> k in s'.inodes)
      && (k in s.inodes ==> s'.inodes[k] == s.inodes[k])
  }

  lemma ElsewhereTrans(geo: Geometry, s0: Fs, s1: Fs, s2: Fs, X: set<nat>, Y: set<nat>, Z: set<nat>)
    requires geo.Ok() && Elsewhere(geo, s0, s1, X) && Elsewhere(geo, s1, s2, Y) && X <= Z && Y <= Z
    ensures Elsewhere(geo, s0, s2, Z)
  {
    hide BlockData;
    forall k: nat | k !in Z
      ensures SameFile(geo, s0, s2, k) && (k in s0.inodes <==> k in s2.inodes)
      ensures k in s0.inodes ==> s2.inodes[k] == s0.inodes[k]
    {
      assert SameFile(geo, s0, s1, k) && SameFile(geo, s1, s2, k);
    }
  }

  lemma EditedElsewhere(geo: Geometry, s: Fs, s': Fs, d: nat)
    requires geo.Ok() && Edited(geo, s, s', d)
    ensures Elsewhere(geo, s, s', {d}) && s'.inodes.Keys == s.inodes.Keys && DirOk(geo, s', d)
  {
    hide SameFile, DirOk;
  }

  /** A directory that nothing touched is still a well-formed directory with the same entries. */
  lemma DirElsewhere(geo: Geometry, s: Fs, s': Fs, X: set<nat>, d: nat)
    requires geo.Ok() && Elsewhere(geo, s, s', X) && d !in X && DirOk(geo, s, d)
    ensures DirOk(geo, s', d) && d in s'.inodes && d in s.inodes && s'.inodes[d] == s.inodes[d]
    ensures Entries(geo, s', d) == Entries(geo, s, d)
  {
    hide BlockData, Chain, BagOf;
    assert SameFile(geo, s, s', d);
    var n := Blocks(geo, s.inodes, d);
    OffsetAddressable(geo, s.inodes[d].size);
    forall m: nat | m < geo.MaxBlocks() ensures BlockData(geo, s', d, m) == BlockData(geo, s, d, m) {}
    DirBagSame(geo, s, s', d, n);
  }

  // Inodes.

  function Blank(): Inode {
    Inode(File, seq(NBLOCKS, _ => 0), 0, 0, 1)
  }

  lemma AddInode(geo: Geometry, s: Fs, s': Fs, ino: nat)
    requires geo.Ok() && Ok(geo, s) && ino !in s.inodes && s' == s.(inodes := s.inodes[ino := Blank()])
    ensures Ok(geo, s') && Elsewhere(geo, s, s', {ino})
  {
    hide SameFile;
    AddInodeOk(geo, s, s', ino);
    forall k: nat | k != ino ensures SameFile(geo, s, s', k) { InodesData(geo, s, s', k); }
  }

  lemma AddInodeOk(geo: Geometry, s: Fs, s': Fs, ino: nat)
    requires Ok(geo, s) && ino !in s.inodes && s' == s.(inodes := s.inodes[ino := Blank()])
    ensures Ok(geo, s')
  {
    var r, r' := RootsOf(s.inodes), RootsOf(s'.inodes);
    assert r' == r[ino := seq(NBLOCKS, _ => 0)];
    forall p: Pos ensures Node(s.tabs, r', p) == Node(s.tabs, r, p) { NewRoot(s.tabs, r, r', ino, p); }
    assert Planted(geo.Shape(), s.tabs, r', s.home);
    assert Owned(s.home, ino) == {};
  }

  lemma {:induction false} NewRoot(t: Tables, r: Roots, r': Roots, ino: nat, p: Pos)
    requires ino !in r && r' == r[ino := seq(NBLOCKS, _ => 0)]
    ensures Node(t, r', p) == Node(t, r, p)
  {
    if p.Child? { NewRoot(t, r, r', ino, p.parent); }
  }

  lemma DropInode(geo: Geometry, s: Fs, s': Fs, ino: nat)
    requires geo.Ok() && Ok(geo, s) && ino in s.inodes && Owned(s.home, ino) == {}
    requires s' == s.(inodes := s.inodes - {ino})
    ensures Ok(geo, s') && Elsewhere(geo, s, s', {ino})
  {
    hide SameFile;
    DropInodeOk(geo, s, s', ino);
    forall k: nat | k != ino ensures SameFile(geo, s, s', k) { InodesData(geo, s, s', k); }
  }

  lemma DropInodeOk(geo: Geometry, s: Fs, s': Fs, ino: nat)
    requires Ok(geo, s) && ino in s.inodes && Owned(s.home, ino) == {} && s' == s.(inodes := s.inodes - {ino})
    ensures Ok(geo, s')
  {
    forall b | b in s.home ensures Owner(s.home[b]) != ino { assert b !in Owned(s.home, ino); }
    var r, r' := RootsOf(s.inodes), RootsOf(s'.inodes);
    assert r' == r - {ino};
    forall p: Pos
      ensures Node(s.tabs, r', p) == if Owner(p) == ino then 0 else Node(s.tabs, r, p)
    {
      LostRoot(s.tabs, r, r', ino, p);
    }
    assert Planted(geo.Shape(), s.tabs, r', s.home);
  }

  lemma {:induction false} LostRoot(t: Tables, r: Roots, r': Roots, ino: nat, p: Pos)
    requires r' == r - {ino}
    ensures Node(t, r', p) == if Owner(p) == ino then 0 else Node(t, r, p)
  {
    if p.Child? { LostRoot(t, r, r', ino, p.parent); }
  }

  function PutInodes(vol: Volume, inodes: map<nat, Inode>): Volume {
    vol.(inodes := inodes)
  }

  lemma PutInodesRep(vol: Volume, s: Fs, vol': Volume, s': Fs, inodes: map<nat, Inode>)
    requires Rep(vol, s) && vol' == PutInodes(vol, inodes) && s' == s.(inodes := inodes)
    ensures Rep(vol', s') && SameVolume(vol, vol')
  {
  }

  /** alloc_inode, and the inode that ext2_create then writes. */
  method AllocInode(mt: Mount, ghost s: Fs, ghost ifree: set<nat>)
    returns (ino: nat, mt': Mount, ghost s': Fs, ghost ifree': set<nat>)
    requires MountOk(mt, s, ifree)
    ensures ino == 0 ==> mt' == mt && s' == s && ifree' == ifree == {}
    ensures ino != 0 ==>
        ino in ifree && ino !in s.inodes && ino < U32 && ifree' == ifree - {ino} &&
        s' == s.(inodes := s.inodes[ino := Blank()])
    ensures mt.vol.geo.Ok() && MountOk(mt', s', ifree') && mt'.vol.geo == mt.vol.geo
    ensures ino != 0 ==> Elsewhere(mt.vol.geo, s, s', {ino}) && forall y | y in ifree :: ino <= y
  {
    hide Represents, Rep, Ok, Elsewhere, Blank, NoLater;
    var x, gs := Take(mt.ilay, mt.inums, 0, ifree);
    if x.None? { return 0, mt, s, ifree; }
    ino := x.value;
    forall y | y in ifree ensures ino <= y {
      FreeCovered(mt.ilay, mt.inums, ifree, y);
      ScanFromZero(mt.ilay, ino, y);
    }
    VolumeFields(mt.vol, s);
    mt' := Mount(PutInodes(mt.vol, mt.vol.inodes[ino := Blank()]), mt.ilay, gs);
    s' := s.(inodes := s.inodes[ino := Blank()]);
    ifree' := ifree - {ino};
    PutInodesRep(mt.vol, s, mt'.vol, s', mt.vol.inodes[ino := Blank()]);
    AddInode(mt.vol.geo, s, s', ino);
    assert mt.ilay.Covers(ino);
  }

  /** free_inode for a regular file whose blocks are gone. */
  method FreeInode(mt: Mount, ino: nat, ghost s: Fs, ghost ifree: set<nat>)
    returns (mt': Mount, ghost s': Fs, ghost ifree': set<nat>)
    requires MountOk(mt, s, ifree) && ino in s.inodes && Owned(s.home, ino) == {}
    ensures ifree' == ifree + {ino} && s' == s.(inodes := s.inodes - {ino})
    ensures mt.vol.geo.Ok() && MountOk(mt', s', ifree') && mt'.vol.geo == mt.vol.geo
    ensures Elsewhere(mt.vol.geo, s, s', {ino})
  {
    hide Represents, Rep, Ok, Elsewhere, Owned;
    VolumeFields(mt.vol, s);
    assert mt.ilay.Covers(ino);
    var gs := Give(mt.ilay, mt.inums, ino, ifree);
    mt' := Mount(PutInodes(mt.vol, mt.vol.inodes - {ino}), mt.ilay, gs);
    s' := s.(inodes := s.inodes - {ino});
    ifree' := ifree + {ino};
    PutInodesRep(mt.vol, s, mt'.vol, s', mt.vol.inodes - {ino});
    DropInode(mt.vol.geo, s, s', ino);
    forall i | i in s'.inodes ensures mt'.ilay.Covers(i) { assert mt.ilay.Covers(i); }
  }

  // The directory operations.

  /** Directory d is well formed and its entries are the map m. */
  ghost predicate IsDir(geo: Geometry, s: Fs, d: nat, m: NameMap)
    requires geo.Ok()
  {
    DirOk(geo, s, d) && Names(Entries(geo, s, d), m)
  }

  lemma IsDirNames(geo: Geometry, s: Fs, d: nat, m: NameMap, name: Name)
    requires geo.Ok() && IsDir(geo, s, d, m)
    ensures d in s.inodes && (NameIn(Entries(geo, s, d), name) <==> name in m)
    ensures forall e: Entry | e in Entries(geo, s, d) :: e.name in m && m[e.name] == (e.ino, e.kind)
  {
    hide Names, Entries;
    NamesIn(Entries(geo, s, d), m, name);
  }

  /** The volume grew or shrank nowhere: blocks only moved between the free set and the trees. */
  ghost predicate SameTotal(s: Fs, s': Fs) {
    s'.free + s'.home.Keys == s.free + s.home.Keys
  }

  /** After ext2_create: on success the new inode is empty and d has one more entry, which refines
      adding a name exactly when the stored name is new; on failure d has the same entries. */
  ghost predicate Created(geo: Geometry, s: Fs, ifree: set<nat>, s': Fs, ifree': set<nat>, d: nat, m: NameMap,
        name: Name, ino: nat, ok: bool)
    requires geo.Ok()
  {
    && DirOk(geo, s, d) && DirOk(geo, s', d) && SameTotal(s, s') && d in s.inodes && d in s'.inodes
    && s'.inodes[d].kind == s.inodes[d].kind && s'.inodes[d].links == s.inodes[d].links
    && (ok <==> name !in m && ifree != {} && CanAdd(geo, s, d, Needed(|Short(name)|)))
    && (!ok ==> ifree' == ifree && Elsewhere(geo, s, s', {d}) && IsDir(geo, s', d, m))
    && (ok ==>
          && ino in ifree && (forall y | y in ifree :: ino <= y) && ifree' == ifree - {ino}
          && ino in s'.inodes && s'.inodes[ino] == Blank()
          && s'.inodes[ino].kind == File && s'.inodes[ino].size == 0 && s'.inodes[ino].links == 1
          && name !in m
          && Elsewhere(geo, s, s', {d, ino})
          && Entries(geo, s', d) == Entries(geo, s, d) + multiset{Entry(Short(name), ino, REGULAR)}
          && (IsDir(geo, s', d, m[Short(name) := (ino, REGULAR)]) <==> Short(name) !in m))
  }

  method Create(mt: Mount, d: nat, name: Name, group: nat, ghost s: Fs, ghost ifree: set<nat>, ghost m: NameMap)
    returns (ok: bool, ino: nat, mt': Mount, ghost s': Fs, ghost ifree': set<nat>)
    requires MountOk(mt, s, ifree) && mt.vol.geo.Ok() && IsDir(mt.vol.geo, s, d, m)
    requires mt.vol.inodes[d].size + mt.vol.geo.bs < U32
    ensures MountOk(mt', s', ifree') && mt'.vol.geo == mt.vol.geo
    ensures Created(mt.vol.geo, s, ifree, s', ifree', d, m, name, ino, ok)
  {
    hide Rep, Ok, DirOk, Names, Entries, Elsewhere, Created, NameIn, Represents, Blank, Short, Appended, CanAdd, Needed;
    IsDirNames(mt.vol.geo, s, d, m, name);
    var found, was, kind := Find(mt.vol, d, name, s);
    if found {
      CreateNothing(mt.vol.geo, s, ifree, d, m, name);
      return false, 0, mt, s, ifree;
    }
    var mt1;
    ghost var s1, ifree1;
    ino, mt1, s1, ifree1 := AllocInode(mt, s, ifree);
    if ino == 0 {
      CreateNothing(mt.vol.geo, s, ifree, d, m, name);
      return false, 0, mt, s, ifree;
    }
    CreateReady(mt, s, mt1, s1, ifree1, d, ino);
    CreateSpace(mt.vol.geo, s, s1, d, ino, Needed(|Short(name)|));
    var vol2;
    ghost var s2;
    ok, vol2, s2 := AppendEntry(mt1.vol, d, ino, name, REGULAR, group, s1);
    CreateAppended(mt.vol.geo, mt1, s1, ifree1, vol2, s2, d, Entry(Short(name), ino, REGULAR), ok);
    mt' := mt1.(vol := vol2);
    s', ifree' := s2, ifree1;
    if ok {
      CreateDone(mt.vol.geo, s, ifree, s1, s2, ifree1, d, m, name, ino);
    } else {
      BlankOwnsNothing(mt.vol.geo, s, s1, s2, d, ino);
      mt', s', ifree' := FreeInode(mt', ino, s2, ifree1);
      CreateFailed(mt.vol.geo, s, ifree, s1, s2, s', ifree', d, m, name, ino);
    }
  }

  lemma CreateNothing(geo: Geometry, s: Fs, ifree: set<nat>, d: nat, m: NameMap, name: Name)
    requires geo.Ok() && IsDir(geo, s, d, m) && (name in m || ifree == {})
    ensures Created(geo, s, ifree, s, ifree, d, m, name, 0, false)
  {
    hide SameFile, Names, Entries, CanAdd, Needed, Short;
    forall k: nat ensures SameFile(geo, s, s, k) { SameFileRefl(geo, s, k); }
  }

  lemma SameFileRefl(geo: Geometry, s: Fs, k: nat)
    requires geo.Ok()
    ensures SameFile(geo, s, s, k)
  {
  }

  lemma CreateReady(mt: Mount, s: Fs, mt1: Mount, s1: Fs, ifree1: set<nat>, d: nat, ino: nat)
    requires MountOk(mt1, s1, ifree1) && mt.vol.geo.Ok() && mt1.vol.geo == mt.vol.geo && Rep(mt.vol, s)
    requires DirOk(mt.vol.geo, s, d) && ino !in s.inodes && Elsewhere(mt.vol.geo, s, s1, {ino})
    ensures DirOk(mt.vol.geo, s1, d) && d in s.inodes && d in s1.inodes && d in mt1.vol.inodes && d in mt.vol.inodes
    ensures mt1.vol.inodes[d] == mt.vol.inodes[d] && Entries(mt.vol.geo, s1, d) == Entries(mt.vol.geo, s, d)
  {
    hide Ok, Entries, SameFile;
    DirElsewhere(mt.vol.geo, s, s1, {ino}, d);
  }

  /** A blank inode takes up no space. */
  lemma CreateSpace(geo: Geometry, s: Fs, s1: Fs, d: nat, ino: nat, needed: nat)
    requires geo.Ok() && Ok(geo, s) && Ok(geo, s1) && DirOk(geo, s, d) && d in s.inodes && ino !in s.inodes
    requires s1 == s.(inodes := s.inodes[ino := Blank()]) && Elsewhere(geo, s, s1, {ino})
    ensures d in s1.inodes && (CanAdd(geo, s1, d, needed) <==> CanAdd(geo, s, d, needed))
  {
    hide Ok, DirOk, SameFile, CanAdd;
    assert d !in {ino};
    SameSpace(geo, s, s1, d, needed);
  }

  lemma CreateAppended(geo: Geometry, mt1: Mount, s1: Fs, ifree1: set<nat>, vol2: Volume, s2: Fs, d: nat, e: Entry,
        ok: bool)
    requires geo.Ok() && mt1.vol.geo == geo && MountOk(mt1, s1, ifree1) && Appended(mt1.vol, s1, vol2, s2, d, e, ok)
    ensures vol2.geo == geo && MountOk(mt1.(vol := vol2), s2, ifree1) && Elsewhere(geo, s1, s2, {d})
    ensures s2.inodes.Keys == s1.inodes.Keys
    ensures DirOk(geo, s2, d) && SameTotal(s1, s2) && d in s1.inodes && d in s2.inodes
    ensures s2.inodes[d].kind == s1.inodes[d].kind && s2.inodes[d].links == s1.inodes[d].links
    ensures Entries(geo, s2, d) == Entries(geo, s1, d) + (if ok then multiset{e} else multiset{})
    ensures forall b | b in s2.home && b !in s1.home :: Owner(s2.home[b]) == d
    ensures forall b | b in s1.home && b in s2.home :: s2.home[b] == s1.home[b]
  {
    hide Valid, DirOk, Entries, SameFile;
    MountVolume(mt1, s1, ifree1, mt1.(vol := vol2), vol2, s2);
  }

  lemma CreateDone(geo: Geometry, s: Fs, ifree: set<nat>, s1: Fs, s2: Fs, ifree1: set<nat>, d: nat, m: NameMap,
        name: Name, ino: nat)
    requires geo.Ok() && IsDir(geo, s, d, m) && name !in m && ino in ifree && ifree1 == ifree - {ino}
    requires ino !in s.inodes && d in s.inodes && forall y | y in ifree :: ino <= y
    requires s1 == s.(inodes := s.inodes[ino := Blank()]) && Elsewhere(geo, s, s1, {ino}) && d in s1.inodes
    requires Entries(geo, s1, d) == Entries(geo, s, d)
    requires Elsewhere(geo, s1, s2, {d}) && DirOk(geo, s2, d) && SameTotal(s1, s2) && d in s2.inodes
    requires s2.inodes[d].kind == s1.inodes[d].kind && s2.inodes[d].links == s1.inodes[d].links
    requires Entries(geo, s2, d) == Entries(geo, s1, d) + multiset{Entry(Short(name), ino, REGULAR)}
    requires CanAdd(geo, s, d, Needed(|Short(name)|))
    ensures Created(geo, s, ifree, s2, ifree1, d, m, name, ino, true)
  {
    hide SameFile, Names, Entries, Short, DirOk, CanAdd, Needed;
    assert SameFile(geo, s1, s2, ino) by { assert ino !in {d}; }
    ElsewhereTrans(geo, s, s1, s2, {ino}, {d}, {d, ino});
    NamesAdd(Entries(geo, s, d), m, Entry(Short(name), ino, REGULAR), Entries(geo, s2, d));
  }

  lemma BlankOwnsNothing(geo: Geometry, s: Fs, s1: Fs, s2: Fs, d: nat, ino: nat)
    requires Ok(geo, s) && ino !in s.inodes && s1 == s.(inodes := s.inodes[ino := Blank()]) && d != ino
    requires forall b | b in s2.home && b !in s1.home :: Owner(s2.home[b]) == d
    requires forall b | b in s1.home && b in s2.home :: s2.home[b] == s1.home[b]
    ensures Owned(s2.home, ino) == {}
  {
  }

  lemma CreateFailed(geo: Geometry, s: Fs, ifree: set<nat>, s1: Fs, s2: Fs, s3: Fs, ifree3: set<nat>, d: nat,
        m: NameMap, name: Name, ino: nat)
    requires geo.Ok() && IsDir(geo, s, d, m) && ino in ifree && ifree3 == ifree - {ino} + {ino} && ino !in s.inodes
    requires d in s.inodes
    requires s1 == s.(inodes := s.inodes[ino := Blank()]) && Elsewhere(geo, s, s1, {ino}) && d in s1.inodes
    requires Entries(geo, s1, d) == Entries(geo, s, d)
    requires Elsewhere(geo, s1, s2, {d}) && DirOk(geo, s2, d) && SameTotal(s1, s2) && d in s2.inodes
    requires s2.inodes[d].kind == s1.inodes[d].kind && s2.inodes[d].links == s1.inodes[d].links
    requires Entries(geo, s2, d) == Entries(geo, s1, d) + multiset{}
    requires s3 == s2.(inodes := s2.inodes - {ino}) && Elsewhere(geo, s2, s3, {ino})
    requires !CanAdd(geo, s, d, Needed(|Short(name)|))
    ensures Created(geo, s, ifree, s3, ifree3, d, m, name, ino, false)
  {
    hide SameFile, Names, Entries, DirOk, CanAdd, Needed, Short;
    assert ifree3 == ifree;
    assert Entries(geo, s2, d) == Entries(geo, s, d);
    ElsewhereTrans(geo, s, s1, s2, {ino}, {d}, {d, ino});
    ElsewhereTrans(geo, s, s2, s3, {d, ino}, {ino}, {d, ino});
    DirElsewhere(geo, s2, s3, {ino}, d);
    BlankGone(geo, s, s1, s2, s3, d, ino);
    forall k: nat | k !in {d}
      ensures SameFile(geo, s, s3, k) && (k in s.inodes <==> k in s3.inodes)
      ensures k in s.inodes ==> s3.inodes[k] == s.inodes[k]
    {
      if k != ino { assert k !in {d, ino}; assert SameFile(geo, s, s3, k); }
    }
  }

  /** Adding and dropping an inode number leaves its (absent) data absent. */
  lemma BlankGone(geo: Geometry, s: Fs, s1: Fs, s2: Fs, s3: Fs, d: nat, ino: nat)
    requires geo.Ok() && ino !in s.inodes && s3 == s2.(inodes := s2.inodes - {ino})
    ensures SameFile(geo, s, s3, ino)
  {
    forall n: nat | n < geo.MaxBlocks() ensures BlockData(geo, s3, ino, n) == BlockData(geo, s, ino, n) {
      LeafPlace(geo, ino, n);
      NoRoot(s.tabs, RootsOf(s.inodes), Leaf(geo, ino, n));
      NoRoot(s3.tabs, RootsOf(s3.inodes), Leaf(geo, ino, n));
    }
  }

  /** A created file leaves a directory that is a map if and only if its stored name was new. Names are
      stored with an 8-bit length: one of 257 bytes is looked up whole and stored as its first byte. */
  lemma LongNameCollides(geo: Geometry, s: Fs, ifree: set<nat>, s': Fs, ifree': set<nat>, d: nat, m: NameMap,
        name: Name, ino: nat)
    requires geo.Ok() && IsDir(geo, s, d, m) && Created(geo, s, ifree, s', ifree', d, m, name, ino, true)
    ensures (exists m2 :: IsDir(geo, s', d, m2)) <==> Short(name) !in m
    ensures |name| == 257 && name[..1] in m ==> forall m2 :: !IsDir(geo, s', d, m2)
  {
    hide DirOk, Names, Entries, Elsewhere, CanAdd, Needed, SameTotal;
    if Short(name) in m {
      forall m2: NameMap ensures !IsDir(geo, s', d, m2) {
        NoMap(Entries(geo, s, d), m, Entry(Short(name), ino, REGULAR), Entries(geo, s', d), m2);
      }
    } else {
      assert IsDir(geo, s', d, m[Short(name) := (ino, REGULAR)]);
    }
  }
}
