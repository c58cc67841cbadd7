/** How the block tree of an inode grows while one data pointer is set. */
module Ext2Grow {
  import opened Words
  import opened Forest
  import opened Ext2State

  /** s' is s after alloc_block handed out v: v leaves the free set and is zeroed. */
  ghost predicate Taken(geo: Geometry, s: Fs, s': Fs, v: nat) {
    && v in s.free
    && s' == s.(disk := s.disk[v := Zeros(geo.bs)], tabs := s.tabs[v := seq(geo.Ppb(), _ => 0)], free := s.free - {v})
  }

  /** Rewriting a data block, or one that hangs nowhere, moves no pointer. */
  lemma PutBlock(geo: Geometry, s: Fs, b: nat, x: seq<byte>, t: seq<nat>)
    requires Ok(geo, s) && |x| == geo.bs && |t| == geo.Ppb()
    requires b in s.home ==> Level(geo.Shape(), s.home[b]) == 0
    ensures Ok(geo, s.(disk := s.disk[b := x], tabs := s.tabs[b := t]))
    ensures forall p | ValidPos(geo.Shape(), p) :: At(s.(disk := s.disk[b := x], tabs := s.tabs[b := t]), p) == At(s, p)
  {
    PutDataKeeps(geo.Shape(), s.tabs, RootsOf(s.inodes), s.home, b, t);
  }

  lemma TakenKeeps(geo: Geometry, s: Fs, s': Fs, v: nat)
    requires Ok(geo, s) && Taken(geo, s, s', v)
    ensures Ok(geo, s') && v !in s.home && 0 < v < geo.count
    ensures forall p | ValidPos(geo.Shape(), p) :: At(s', p) == At(s, p)
  {
    PutBlock(geo, s, v, Zeros(geo.bs), seq(geo.Ppb(), _ => 0));
  }

  /** Inode o keeps everything but its pointers and its sector count; other inodes keep everything. */
  ghost predicate SameInodes(s: Fs, s': Fs, o: nat) {
    && s'.inodes.Keys == s.inodes.Keys && o in s.inodes
    && (forall k | k in s.inodes && k != o :: s'.inodes[k] == s.inodes[k])
    && s'.inodes[o].(block := s.inodes[o].block, sectors := s.inodes[o].sectors) == s.inodes[o]
  }

  /** Every data pointer but the one at `leaf` keeps its value and that one becomes v; every pointer
      that was present stays. */
  ghost predicate SamePointers(geo: Geometry, s: Fs, s': Fs, leaf: Pos, v: nat) {
    forall p {:trigger At(s', p)} | ValidPos(geo.Shape(), p) && (Level(geo.Shape(), p) == 0 || At(s, p) != 0) ::
      At(s', p) == if p == leaf then v else At(s, p)
  }

  /** Pointers that are new lie at `leaf` or above it. */
  ghost predicate OnPath(geo: Geometry, s: Fs, s': Fs, leaf: Pos) {
    forall p {:trigger At(s', p)} | ValidPos(geo.Shape(), p) && At(s, p) == 0 && At(s', p) != 0 :: Under(leaf, p)
  }

  /** The blocks attached on the way were free before, and the free set loses exactly those. */
  ghost predicate SameBlocks(s: Fs, s': Fs, o: nat, v: nat) {
    && (forall b | b in s.home :: b in s'.home && s'.home[b] == s.home[b])
    && (forall b | b in s'.home && b !in s.home :: (b in s.free || b == v) && Owner(s'.home[b]) == o)
    && s'.free == s.free - s'.home.Keys
    && (v != 0 ==> v in s'.home)
  }

  /** Blocks in use that are not pointer tables keep their bytes. */
  ghost predicate SameData(geo: Geometry, s: Fs, s': Fs) {
    && (forall b: nat | b < geo.count :: b in s.disk && b in s'.disk)
    && forall b: nat {:trigger s'.disk[b]} | b < geo.count && b !in s.free && (b in s.home ==>
        Level(geo.Shape(), s.home[b]) == 0) ::
      s'.disk[b] == s.disk[b]
  }

  /** s' arises from s by hanging pointer tables taken from the free set below the owner of `leaf`,
      and then, unless v is 0, hanging the data block v at `leaf`. */
  ghost predicate Grown(geo: Geometry, s: Fs, s': Fs, leaf: Pos, v: nat) {
    match s'
    case Fs(_, _, _, _, _) =>
      && Ok(geo, s')
      && SameInodes(s, s', Owner(leaf))
      && SamePointers(geo, s, s', leaf, v) && OnPath(geo, s, s', leaf)
      && SameBlocks(s, s', Owner(leaf), v)
      && SameData(geo, s, s')
  }

  lemma GrownRefl(geo: Geometry, s: Fs, leaf: Pos)
    requires Ok(geo, s) && Owner(leaf) in s.inodes && At(s, leaf) == 0
    ensures Grown(geo, s, s, leaf, 0)
  {
    assert s.free == s.free - s.home.Keys;
  }

  lemma SameBlocksTrans(s0: Fs, s1: Fs, s2: Fs, o: nat, v: nat)
    requires SameBlocks(s0, s1, o, 0) && SameBlocks(s1, s2, o, v) && 0 !in s1.home && v !in s0.free && v !in s1.home
    ensures SameBlocks(s0, s2, o, v)
  {
    forall b | b in s2.home && b !in s0.home ensures (b in s0.free || b == v) && Owner(s2.home[b]) == o {
      if b in s1.home { assert b in s0.free || b == 0; }
    }
    assert s2.free == s0.free - s2.home.Keys;
  }

  lemma SameDataTrans(geo: Geometry, s0: Fs, s1: Fs, s2: Fs, o: nat)
    requires SameBlocks(s0, s1, o, 0) && SameData(geo, s0, s1) && SameData(geo, s1, s2) && 0 !in s1.home
    ensures SameData(geo, s0, s2)
  {
    forall b: nat | b < geo.count && b !in s0.free && (b in s0.home ==> Level(geo.Shape(), s0.home[b]) == 0)
      ensures s2.disk[b] == s0.disk[b]
    {
      assert b !in s1.free;
      assert b in s1.home ==> b in s0.home;
      assert s1.disk[b] == s0.disk[b] && s2.disk[b] == s1.disk[b];
    }
  }

  lemma GrownTrans(geo: Geometry, s0: Fs, s1: Fs, s2: Fs, leaf: Pos, v: nat)
    requires ValidPos(geo.Shape(), leaf) && Level(geo.Shape(), leaf) == 0 && At(s0, leaf) == 0
    requires Grown(geo, s0, s1, leaf, 0) && Grown(geo, s1, s2, leaf, v) && v !in s0.free && v !in s1.home
    ensures Grown(geo, s0, s2, leaf, v)
  {
    SameBlocksTrans(s0, s1, s2, Owner(leaf), v);
    SameDataTrans(geo, s0, s1, s2, Owner(leaf));
  }

  // How many tables a path still needs.

  /** The number of tables missing above place p. */
  ghost function Missing(s: Fs, p: Pos): nat {
    match p
    case Slot(_, _) => 0
    case Child(q, _) => Missing(s, q) + if At(s, q) == 0 then 1 else 0
  }

  /** Free blocks and missing tables went down together. */
  ghost predicate Balanced(s: Fs, s': Fs, leaf: Pos) {
    |s'.free| - Missing(s', leaf) == |s.free| - Missing(s, leaf)
  }

  lemma {:induction false} MissingSame(geo: Geometry, s: Fs, s': Fs, p: Pos)
    requires ValidPos(geo.Shape(), p) && forall q | ValidPos(geo.Shape(), q) :: At(s', q) == At(s, q)
    ensures Missing(s', p) == Missing(s, p)
  {
    hide At;
    if p.Child? { MissingSame(geo, s, s', p.parent); }
  }

  /** No table is missing above an entry of an existing table. */
  lemma {:induction false} NoneMissing(s: Fs, p: Pos)
    requires p.Child? && At(s, p.parent) != 0
    ensures Missing(s, p) == 0
  {
    if p.parent.Child? { NoneMissing(s, p.parent); }
  }

  /** A missing table is missed by every place below it. */
  lemma {:induction false} SomeMissing(s: Fs, p: Pos, leaf: Pos)
    requires leaf.Child? && Under(leaf.parent, p) && At(s, p) == 0
    ensures Missing(s, leaf) > 0
  {
    hide At;
    if leaf.parent != p { SomeMissing(s, p, leaf.parent); }
  }

  lemma {:induction false} MissingElse(geo: Geometry, s: Fs, h: Fs, p: Pos, v: nat, q: Pos)
    requires ValidPos(geo.Shape(), q) && forall r | ValidPos(geo.Shape(), r) ::
        At(h, r) == if r == p then v else At(s, r)
    requires !(q.Child? && Under(q.parent, p))
    ensures Missing(h, q) == Missing(s, q)
  {
    hide At;
    if q.Child? { MissingElse(geo, s, h, p, v, q.parent); }
  }

  /** Hanging a table above a place leaves one table fewer missing. */
  lemma {:induction false} MissingHook(geo: Geometry, s: Fs, h: Fs, p: Pos, v: nat, leaf: Pos)
    requires ValidPos(geo.Shape(), leaf) && forall r | ValidPos(geo.Shape(), r) ::
        At(h, r) == if r == p then v else At(s, r)
    requires At(s, p) == 0 && v != 0 && leaf.Child? && Under(leaf.parent, p)
    ensures Missing(h, leaf) + 1 == Missing(s, leaf)
  {
    hide At;
    var q := leaf.parent;
    if q == p {
      if p.Child? { NotUnderChild(p.parent, p); }
      MissingElse(geo, s, h, p, v, q);
    } else {
      MissingHook(geo, s, h, p, v, q);
    }
  }

  lemma HookBalanced(geo: Geometry, s: Fs, s1: Fs, p: Pos, v: nat, h: Fs, leaf: Pos)
    requires Taken(geo, s, s1, v) && v != 0 && ValidPos(geo.Shape(), leaf) && ValidPos(geo.Shape(), p) && At(s, p) == 0
    requires leaf.Child? && Under(leaf.parent, p)
    requires forall r | ValidPos(geo.Shape(), r) :: At(s1, r) == At(s, r)
    requires (forall r | ValidPos(geo.Shape(), r) :: At(h, r) == if r == p then v else At(s1, r)) && h.free == s1.free
    ensures Balanced(s, h, leaf)
  {
    hide At;
    MissingSame(geo, s, s1, leaf);
    MissingHook(geo, s1, h, p, v, leaf);
    assert s.free == s1.free + {v};
  }

  // Hanging blocks.

  lemma HookFrame(geo: Geometry, s: Fs, p: Pos, v: nat, raw: seq<byte>)
    requires CanHook(geo, s, p, v)
    ensures Hookable(s, p) && SameInodes(s, Hook(geo, s, p, v, raw), Owner(p))
    ensures SameBlocks(s, Hook(geo, s, p, v, raw), Owner(p), v)
  {
    CanHookPlace(geo, s, p, v);
    var h := Hook(geo, s, p, v, raw);
    assert h.free == s.free - h.home.Keys;
  }

  lemma HookData(geo: Geometry, s: Fs, p: Pos, v: nat, raw: seq<byte>)
    requires CanHook(geo, s, p, v)
    ensures Hookable(s, p) && SameData(geo, s, Hook(geo, s, p, v, raw))
  {
    CanHookPlace(geo, s, p, v);
    if p.Child? { ParentIsTable(geo, s, p); }
  }

  /** Hanging an allocated data block at its leaf. */
  lemma GrowLeaf(geo: Geometry, s: Fs, leaf: Pos, v: nat, raw: seq<byte>)
    requires Ok(geo, s) && CanHook(geo, s, leaf, v) && |raw| == geo.bs && Level(geo.Shape(), leaf) == 0
    ensures Hookable(s, leaf) && Grown(geo, s, Hook(geo, s, leaf, v, raw), leaf, v)
  {
    HookOk(geo, s, leaf, v, raw);
    HookAt(geo, s, leaf, v, raw);
    HookFrame(geo, s, leaf, v, raw);
    HookData(geo, s, leaf, v, raw);
  }

  lemma TakenHook(geo: Geometry, s: Fs, s1: Fs, p: Pos, v: nat, h: Fs, o: nat)
    requires Taken(geo, s, s1, v) && v != 0 && v !in s.home && SameBlocks(s1, h, o, v) && SameData(geo, s1, h)
    requires forall b: nat | b < geo.count :: b in s.disk
    ensures SameBlocks(s, h, o, 0) && SameData(geo, s, h)
  {
    assert h.free == s.free - h.home.Keys;
  }

  /** Hanging a block just taken from the free set as a pointer table at an empty place. */
  lemma GrowTable(geo: Geometry, s: Fs, s1: Fs, p: Pos, v: nat, raw: seq<byte>, leaf: Pos)
    requires Ok(geo, s) && Taken(geo, s, s1, v) && |raw| == geo.bs
    requires ValidPos(geo.Shape(), p) && Level(geo.Shape(), p) > 0 && At(s, p) == 0 && Owner(p) in s.inodes
    requires p.Child? ==> At(s, p.parent) != 0
    requires Level(geo.Shape(), leaf) == 0 && At(s, leaf) == 0 && Owner(leaf) == Owner(p)
    requires ValidPos(geo.Shape(), leaf) && leaf.Child? && Under(leaf.parent, p)
    ensures CanHook(geo, s1, p, v) && Hookable(s1, p) && Ok(geo, s1)
    ensures Grown(geo, s, Hook(geo, s1, p, v, raw), leaf, 0) && At(Hook(geo, s1, p, v, raw), p) == v
    ensures Balanced(s, Hook(geo, s1, p, v, raw), leaf)
  {
    TakenKeeps(geo, s, s1, v);
    HookOk(geo, s1, p, v, raw);
    HookAt(geo, s1, p, v, raw);
    HookFrame(geo, s1, p, v, raw);
    HookData(geo, s1, p, v, raw);
    TakenHook(geo, s, s1, p, v, Hook(geo, s1, p, v, raw), Owner(leaf));
    HookBalanced(geo, s, s1, p, v, Hook(geo, s1, p, v, raw), leaf);
  }

  /** leaf is an empty data place of inode ino. */
  ghost predicate EmptyLeaf(geo: Geometry, s: Fs, ino: nat, leaf: Pos) {
    && ValidPos(geo.Shape(), leaf) && Level(geo.Shape(), leaf) == 0 && Owner(leaf) == ino && ino in s.inodes
    && At(s, leaf) == 0
  }

  /** The same growth with the new state spelled out, for a table in a root slot. */
  lemma GrowSlot(geo: Geometry, s: Fs, s1: Fs, ino: nat, slot: nat, v: nat, leaf: Pos)
    requires Ok(geo, s) && Taken(geo, s, s1, v) && EmptyLeaf(geo, s, ino, leaf)
    requires IND <= slot < NBLOCKS && At(s, Slot(ino, slot)) == 0 && leaf.Child? && Under(leaf.parent, Slot(ino, slot))
    ensures ino in s1.inodes && slot < |s1.inodes[ino].block|
    ensures var inode := Charged(s1.inodes[ino], geo).(block := With(s1.inodes[ino].block, slot, v));
            var h := s1.(inodes := s1.inodes[ino := inode],
                         home := s1.home[v := Slot(ino, slot)]);
            Grown(geo, s, h, leaf, 0) && EmptyLeaf(geo, h, ino, leaf) && At(h, Slot(ino, slot)) == v &&
                Balanced(s, h, leaf)
  {
    GrowTable(geo, s, s1, Slot(ino, slot), v, Zeros(geo.bs), leaf);
    assert Hook(geo, s1, Slot(ino, slot), v, Zeros(geo.bs)) ==
           s1.(inodes := s1.inodes[ino := Charged(s1.inodes[ino], geo).(block := With(s1.inodes[ino].block, slot, v))],
               home := s1.home[v := Slot(ino, slot)]);
  }

  /** The same for a table in entry i of the table x that hangs at p. */
  lemma GrowChild(geo: Geometry, s: Fs, s1: Fs, x: nat, p: Pos, i: nat, v: nat, raw: seq<byte>, ino: nat, leaf: Pos)
    requires Ok(geo, s) && Taken(geo, s, s1, v) && EmptyLeaf(geo, s, ino, leaf) && |raw| == geo.bs
    requires x == At(s, p) != 0 && ValidPos(geo.Shape(), Child(p, i)) && Level(geo.Shape(), p) > 1 && Owner(p) == ino
    requires At(s, Child(p, i)) == 0 && leaf.Child? && Under(leaf.parent, Child(p, i))
    ensures x in s1.tabs && i < |s1.tabs[x]| && ino in s1.inodes && x != v
    ensures var h := s1.(disk := s1.disk[x := raw], tabs := s1.tabs[x := With(s1.tabs[x], i, v)],
                         inodes := s1.inodes[ino := Charged(s1.inodes[ino], geo)], home := s1.home[v := Child(p, i)]);
            Grown(geo, s, h, leaf, 0) && EmptyLeaf(geo, h, ino, leaf) && At(h, Child(p, i)) == v && Balanced(s, h, leaf)
  {
    assert At(s1, p) == x && x in s.home by { TakenKeeps(geo, s, s1, v); }
    var q := Child(p, i);
    GrowTable(geo, s, s1, q, v, raw, leaf);
    var h := s1.(disk := s1.disk[x := raw], tabs := s1.tabs[x := With(s1.tabs[x], i, v)],
                 inodes := s1.inodes[ino := Charged(s1.inodes[ino], geo)], home := s1.home[v := q]);
    assert Hook(geo, s1, q, v, raw) == h;
  }

  /** v is an allocated block that hangs nowhere. */
  ghost predicate Loose(geo: Geometry, s: Fs, v: nat) {
    0 < v < geo.count && v !in s.free && v !in s.home
  }

  lemma LeafSlotReady(geo: Geometry, s: Fs, ino: nat, slot: nat, v: nat)
    requires Ok(geo, s) && Loose(geo, s, v) && slot < NDIR && EmptyLeaf(geo, s, ino, Slot(ino, slot))
    ensures CanHook(geo, s, Slot(ino, slot), v) && slot < |s.inodes[ino].block|
  {
    hide SectorsOk;
  }

  /** Attaching a data block directly below the inode. */
  lemma LeafSlot(geo: Geometry, s: Fs, ino: nat, slot: nat, v: nat)
    requires Ok(geo, s) && Loose(geo, s, v) && slot < NDIR && EmptyLeaf(geo, s, ino, Slot(ino, slot))
    ensures slot < |s.inodes[ino].block|
    ensures var inode := Charged(s.inodes[ino].(block := With(s.inodes[ino].block, slot, v)), geo);
            var h := s.(inodes := s.inodes[ino := inode],
                        home := s.home[v := Slot(ino, slot)]);
            Grown(geo, s, h, Slot(ino, slot), v)
  {
    hide Grown, Ok, At, Zeros, CanHook;
    LeafSlotReady(geo, s, ino, slot, v);
    GrowLeaf(geo, s, Slot(ino, slot), v, Zeros(geo.bs));
    var inode := s.inodes[ino];
    var block := With(inode.block, slot, v);
    assert Charged(inode.(block := block), geo) == Charged(inode, geo).(block := block);
  }

  /** Attaching a data block in entry i of the table x that hangs at p. */
  lemma LeafChild(geo: Geometry, s: Fs, x: nat, p: Pos, i: nat, v: nat, raw: seq<byte>, ino: nat)
    requires Ok(geo, s) && Loose(geo, s, v) && EmptyLeaf(geo, s, ino, Child(p, i)) && x == At(s, p) != 0
    requires |raw| == geo.bs
    ensures x in s.tabs && i < |s.tabs[x]| && x < geo.count
    ensures var h := s.(disk := s.disk[x := raw], tabs := s.tabs[x := With(s.tabs[x], i, v)],
                        inodes := s.inodes[ino := Charged(s.inodes[ino], geo)], home := s.home[v := Child(p, i)]);
            Grown(geo, s, h, Child(p, i), v)
  {
    ParentIsTable(geo, s, Child(p, i));
    GrowLeaf(geo, s, Child(p, i), v, raw);
  }
}
