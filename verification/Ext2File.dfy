/** ext2_read and ext2_write: a file is a byte sequence. */
module Ext2File {
  import opened Arith
  import opened Words
  import opened Forest
  import opened Ext2Groups
  import opened Ext2State
  import opened Ext2Layout
  import opened Ext2Grow
  import opened Ext2Need
  import opened Ext2Tree
  import opened Ext2Bytes

  /** Inode o, now of the given size, keeps its kind and link count, and other inodes keep everything.
      Blocks move from the free set to the tree of o, except for at most one block in `lost`, which
      ends up in neither. */
  ghost predicate Kept(s: Fs, s': Fs, o: nat, size: nat, lost: set<nat>) {
    && s'.inodes.Keys == s.inodes.Keys && o in s.inodes
    && (forall k | k in s.inodes && k != o :: s'.inodes[k] == s.inodes[k])
    && s'.inodes[o].kind == s.inodes[o].kind && s'.inodes[o].links == s.inodes[o].links && s'.inodes[o].size == size
    && (forall b | b in s.home :: b in s'.home && s'.home[b] == s.home[b])
    && (forall b | b in s'.home && b !in s.home :: Owner(s'.home[b]) == o)
    && s'.free + s'.home.Keys + lost == s.free + s.home.Keys
    && lost !! s'.free && lost !! s'.home.Keys
    && s'.free <= s.free && lost <= s.free && |lost| <= 1
  }

  lemma KeptTrans(s0: Fs, s1: Fs, s2: Fs, o: nat, n1: nat, n2: nat, lost: set<nat>)
    requires Kept(s0, s1, o, n1, {}) && Kept(s1, s2, o, n2, lost)
    ensures Kept(s0, s2, o, n2, lost)
  {
  }

  function Max(a: nat, b: nat): nat { if a < b then b else a }

  function Resized(inodes: map<nat, Inode>, o: nat, size: nat): map<nat, Inode>
    requires o in inodes
  {
    inodes[o := inodes[o].(size := size)]
  }

  /** Setting the size of an inode moves no pointer and no byte. */
  lemma Resize(geo: Geometry, s: Fs, s': Fs, o: nat, size: nat)
    requires Ok(geo, s) && o in s.inodes && s' == s.(inodes := Resized(s.inodes, o, size))
    ensures Ok(geo, s') && SameBytes(geo, s, s')
  {
    assert RootsOf(s'.inodes) == RootsOf(s.inodes);
  }

  /** There are enough free blocks for a data block at logical block n and for the tables missing above it. */
  ghost predicate CanGrow(geo: Geometry, s: Fs, o: nat, n: nat)
    requires geo.Ok()
  {
    |s.free| > Missing(s, Leaf(geo, o, n))
  }

  /** What filling a hole amounts to: block b hangs at logical block n exactly when there were enough free
      blocks; otherwise all of them are used up, and the data block is lost if there was one. */
  ghost predicate Filled(vol: Volume, s: Fs, vol': Volume, s': Fs, o: nat, n: nat, b: nat, lost: set<nat>)
    requires vol.geo.Ok()
  {
    && o in s.inodes
    && SameVolume(vol, vol') && Valid(vol', s') && Kept(s, s', o, s.inodes[o].size, lost) && SameBytes(vol.geo, s, s')
    && b == At(s', Leaf(vol.geo, o, n))
    && (b != 0 <==> CanGrow(vol.geo, s, o, n))
    && (b == 0 ==> s'.free == {})
    && (lost != {} <==> b == 0 && s.free != {})
    && o in vol'.inodes
    && (b != 0 ==> Covering(vol.geo, s, s', Empties(s, Leaf(vol.geo, o, n))))
    && (b == 0 ==> Filling(vol.geo, s, s', {}))
  }

  lemma ValidGeo(vol: Volume, s: Fs)
    requires Valid(vol, s)
    ensures vol.geo.Ok()
  {
  }

  lemma TakenKept(geo: Geometry, s: Fs, s1: Fs, v: nat, s2: Fs, o: nat, got: nat)
    requires Taken(geo, s, s1, v) && v !in s.home && v != 0 && s.free !! s.home.Keys
    requires SameInodes(s1, s2, o) && SameBlocks(s1, s2, o, got) && (got == v || (got == 0 && 0 !in s2.home))
    requires got == 0 ==> v !in s2.home
    ensures o in s.inodes && Kept(s, s2, o, s.inodes[o].size, if got == 0 then {v} else {})
  {
    hide SameBlocks;
    TakenBlocks(s, s1, v, s2, o, got);
  }

  lemma TakenBlocks(s: Fs, s1: Fs, v: nat, s2: Fs, o: nat, got: nat)
    requires v in s.free && s1.home == s.home && s1.free == s.free - {v} && v !in s.home && v != 0
    requires s.free !! s.home.Keys
    requires SameBlocks(s1, s2, o, got) && (got == v || (got == 0 && 0 !in s2.home)) && (got == 0 ==> v !in s2.home)
    ensures var lost := if got == 0 then {v} else {};
            && s2.free + s2.home.Keys + lost == s.free + s.home.Keys && lost !! s2.free && lost !! s2.home.Keys
            && s2.free <= s.free && lost <= s.free && |lost| <= 1
    ensures forall b | b in s.home :: b in s2.home && s2.home[b] == s.home[b]
    ensures forall b | b in s2.home && b !in s.home :: Owner(s2.home[b]) == o
  {
    var lost := if got == 0 then {v} else {};
    forall b ensures b in s2.free + s2.home.Keys + lost <==> b in s.free + s.home.Keys {
      if b in s2.home && b !in s.home { assert b in s1.free || b == got; }
    }
  }

  lemma FillReady(vol: Volume, s: Fs, vol1: Volume, s1: Fs, v: nat, ino: nat, n: nat)
    requires Valid(vol, s) && SameVolume(vol, vol1) && Rep(vol1, s1) && Taken(vol.geo, s, s1, v) && vol.blay.Covers(v)
    requires ino in s.inodes && n < vol.geo.MaxBlocks() && At(s, Leaf(vol.geo, ino, n)) == 0
    ensures Valid(vol1, s1) && CanSet(vol1, s1, ino, Leaf(vol.geo, ino, n), v)
  {
    LeafPlace(vol.geo, ino, n);
    TakenKeeps(vol.geo, s, s1, v);
  }

  lemma FillEffect(geo: Geometry, s: Fs, s1: Fs, v: nat, s2: Fs, o: nat, n: nat, got: nat)
    requires Ok(geo, s) && Taken(geo, s, s1, v) && n < geo.MaxBlocks() && At(s, Leaf(geo, o, n)) == 0
    requires Grown(geo, s1, s2, Leaf(geo, o, n), got) && (got == v || got == 0)
    requires got == v <==> |s1.free| >= Missing(s1, Leaf(geo, o, n))
    ensures SameBytes(geo, s, s2) && At(s2, Leaf(geo, o, n)) == got
    ensures got != 0 <==> CanGrow(geo, s, o, n)
    ensures o in s.inodes && Kept(s, s2, o, s.inodes[o].size, if got == 0 then {v} else {})
  {
    hide Ok, At, Leaf, SameBytes, Kept, Missing, SameData;
    OkGeo(geo, s);
    LeafPlace(geo, o, n);
    TakenKeeps(geo, s, s1, v);
    TakenBytes(geo, s, s1, v);
    GrownBytes(geo, s1, s2, o, n, got);
    SameBytesTrans(geo, s, s1, s2);
    MissingSame(geo, s, s1, Leaf(geo, o, n));
    FillCount(geo, s, s1, v, s2, o, n, got);
    TakenKept(geo, s, s1, v, s2, o, got);
  }

  lemma SameBytesTrans(geo: Geometry, s: Fs, s1: Fs, s2: Fs)
    requires geo.Ok() && SameBytes(geo, s, s1) && SameBytes(geo, s1, s2)
    ensures SameBytes(geo, s, s2)
  {
    hide ByteAt;
  }

  /** The block taken for the data counts as one, and is nowhere in the tree when the path failed. */
  lemma FillCount(geo: Geometry, s: Fs, s1: Fs, v: nat, s2: Fs, o: nat, n: nat, got: nat)
    requires Ok(geo, s) && Ok(geo, s2) && Taken(geo, s, s1, v) && v !in s.home && SameBlocks(s1, s2, o, got)
    ensures |s.free| == |s1.free| + 1 && 0 !in s2.home && s.free !! s.home.Keys && v != 0
    ensures got == 0 ==> v !in s2.home
  {
    hide SectorsOk, Node;
    assert s.free == s1.free + {v};
  }

  /** Fill the hole at logical block n with a zeroed block. When the path to it cannot be allocated,
      the block already taken is lost. */
  method FillHole(vol: Volume, ino: nat, n: nat, group: nat, ghost s: Fs)
    returns (b: nat, vol': Volume, ghost s': Fs, ghost lost: set<nat>)
    requires Valid(vol, s) && ino in vol.inodes && n < vol.geo.MaxBlocks() && At(s, Leaf(vol.geo, ino, n)) == 0
    ensures Filled(vol, s, vol', s', ino, n, b, lost)
    ensures b != 0 ==> forall y | y in s.free :: NoLater(vol.blay, group, b, y)
  {
    hide NoLater;
    hide Valid, At, Leaf, Rep, Taken, SetResult, CanSet, Filled;
    FillStart(vol, s, ino, n);
    var v, vol1;
    ghost var s1;
    v, vol1, s1 := AllocBlock(vol, group, s);
    if v == 0 { return 0, vol, s, {}; }
    FillReady(vol, s, vol1, s1, v, ino, n);
    b, vol', s' := InodeSetBlock(vol1, ino, n, v, group, s1);
    lost := if b == 0 then {v} else {};
    FillDone(vol, s, vol1, s1, v, vol', s', ino, n, b);
  }

  /** With nothing free nothing is filled. */
  lemma FillStart(vol: Volume, s: Fs, ino: nat, n: nat)
    requires Valid(vol, s) && ino in vol.inodes && n < vol.geo.MaxBlocks() && At(s, Leaf(vol.geo, ino, n)) == 0
    ensures Rep(vol, s) && 0 !in s.free && ino in s.inodes && vol.geo.Ok()
    ensures s.free == {} ==> Filled(vol, s, vol, s, ino, n, 0, {})
  {
    hide Mirror, Planted, SectorsOk, Leaf, Missing, Kept, SameBytes, Filling, At, Covering, Empties;
    KeptSame(s, ino);
    SameCovers(vol.geo, s, s);
    CoverFills(vol.geo, s, s, {});
    SameBytesSame(vol.geo, s);
  }

  lemma KeptSame(s: Fs, o: nat)
    ensures o in s.inodes && s.free !! s.home.Keys ==> Kept(s, s, o, s.inodes[o].size, {})
  {
  }

  lemma SameBytesSame(geo: Geometry, s: Fs)
    ensures geo.Ok() ==> SameBytes(geo, s, s)
  {
    hide ByteAt;
  }

  lemma FillDone(vol: Volume, s: Fs, vol1: Volume, s1: Fs, v: nat, vol2: Volume, s2: Fs, ino: nat, n: nat, b: nat)
    requires Valid(vol, s) && SameVolume(vol, vol1) && Taken(vol.geo, s, s1, v) && v != 0 && n < vol.geo.MaxBlocks()
    requires At(s, Leaf(vol.geo, ino, n)) == 0 && SetResult(vol1, s1, vol2, s2, Leaf(vol.geo, ino, n), v, b)
    ensures vol.geo.Ok() && Filled(vol, s, vol2, s2, ino, n, b, if b == 0 then {v} else {}) && (b == 0 || b == v)
  {
    hide Rep, At, Leaf, Missing, Kept, SameBytes, Covering, Filling, Empties, CanGrow;
    hide SameInodes, SamePointers, OnPath, SameBlocks, SameData;
    ValidGeo(vol, s);
    FillEffect(vol.geo, s, s1, v, s2, ino, n, b);
    FillCovers(vol.geo, s, s1, v, s2, ino, n, b);
    RepInodes(vol2, s2);
    KeptOwner(s, s2, ino, s.inodes[ino].size, if b == 0 then {v} else {});
  }

  lemma RepInodes(vol: Volume, s: Fs)
    requires Rep(vol, s)
    ensures vol.inodes == s.inodes
  {
  }

  lemma KeptOwner(s: Fs, s': Fs, o: nat, size: nat, lost: set<nat>)
    requires Kept(s, s', o, size, lost)
    ensures o in s'.inodes
  {
  }

  /** The places that a filled hole takes up are those that were empty on the way to it. */
  lemma FillCovers(geo: Geometry, s: Fs, s1: Fs, v: nat, s2: Fs, o: nat, n: nat, got: nat)
    requires Ok(geo, s) && Taken(geo, s, s1, v) && n < geo.MaxBlocks() && At(s, Leaf(geo, o, n)) == 0
    requires Grown(geo, s1, s2, Leaf(geo, o, n), got) && (got == v || got == 0)
    requires got == v ==> |s2.free| == |s1.free| - Missing(s1, Leaf(geo, o, n))
    ensures geo.Ok()
    ensures got != 0 ==> Covering(geo, s, s2, Empties(s, Leaf(geo, o, n)))
    ensures got == 0 ==> Filling(geo, s, s2, {})
  {
    hide Ok, At, Leaf, Missing, Grown, Empties, ValidPos;
    OkGeo(geo, s);
    var leaf := Leaf(geo, o, n);
    LeafPlace(geo, o, n);
    TakenKeeps(geo, s, s1, v);
    assert s.free == s1.free + {v};
    if got != 0 {
      GrownCovers(geo, s1, s2, leaf, got);
      EmptiesSame(geo, s, s1, leaf);
    } else {
      GrownFills(geo, s1, s2, leaf);
    }
  }

  /** From s to s', the bytes d were written at offset c into file ino, whose size is not yet updated. */
  ghost predicate Wrote(vol: Volume, s: Fs, vol': Volume, s': Fs, ino: nat, c: nat, d: seq<byte>, lost: set<nat>) {
    && SameVolume(vol, vol') && Valid(vol', s') && ino in s.inodes
    && Kept(s, s', ino, s.inodes[ino].size, lost)
    && Patched(vol'.geo, s, s', ino, c, d)
  }

  /** The state after the bytes at offset c of file o were written into their data block b. */
  ghost function Put(s: Fs, b: nat, x: seq<byte>): Fs {
    s.(disk := s.disk[b := x], tabs := s.tabs[b := Table(x)])
  }

  lemma PutKeeps(geo: Geometry, s: Fs, o: nat, c: nat, d: seq<byte>, b: nat)
    requires Ok(geo, s) && c < U32 && b == At(s, Leaf(geo, o, Quo(c, geo.bs))) != 0
    requires Rem(c, geo.bs) + |d| <= geo.bs && o in s.inodes
    ensures b in s.disk && |s.disk[b]| == geo.bs
    ensures var s' := Put(s, b, Overlay(s.disk[b], Rem(c, geo.bs), d));
            Ok(geo, s') && Patched(geo, s, s', o, c, d)
  {
    OffsetAddressable(geo, c);
    LeafPlace(geo, o, Quo(c, geo.bs));
    assert s.home[b] == Leaf(geo, o, Quo(c, geo.bs));
    var x := Overlay(s.disk[b], Rem(c, geo.bs), d);
    PutBlock(geo, s, b, x, Table(x));
    OverlayBytes(geo, s, Put(s, b, x), o, c, d, b);
  }

  /** Write chunk into the data block b that holds byte c of the file: a partial block is read,
      patched and written back, a whole block is written directly. */
  method PutChunk(vol: Volume, ino: nat, c: nat, b: nat, chunk: seq<byte>, ghost s: Fs)
    returns (vol': Volume, ghost s': Fs)
    requires Valid(vol, s) && c < U32 && b == At(s, Leaf(vol.geo, ino, Quo(c, vol.geo.bs))) != 0
    requires Rem(c, vol.geo.bs) + |chunk| <= vol.geo.bs && ino in vol.inodes
    ensures Wrote(vol, s, vol', s', ino, c, chunk, {}) && s'.home == s.home && s'.free == s.free
  {
    hide Wrote, Put, Leaf;
    PutKeeps(vol.geo, s, ino, c, chunk, b);
    var k := Rem(c, vol.geo.bs);
    var tmp := chunk;
    if k != 0 || |chunk| != vol.geo.bs {
      tmp := Overlay(vol.disk[b], k, chunk);
    }
    assert k == 0 && |chunk| == vol.geo.bs ==> Overlay(s.disk[b], k, chunk) == chunk;
    vol' := vol.(disk := vol.disk[b := tmp]);
    s' := Put(s, b, tmp);
    PutWrote(vol, s, vol', s', ino, c, chunk, b, tmp);
  }

  lemma PutWrote(vol: Volume, s: Fs, vol': Volume, s': Fs, ino: nat, c: nat, d: seq<byte>, b: nat, x: seq<byte>)
    requires Rep(vol, s) && Ok(vol.geo, s') && Patched(vol.geo, s, s', ino, c, d) && Ok(vol.geo, s)
    requires s' == Put(s, b, x) && vol' == vol.(disk := vol.disk[b := x]) && ino in s.inodes
    ensures Wrote(vol, s, vol', s', ino, c, d, {}) && s'.home == s.home && s'.free == s.free
  {
    MirrorData(s.disk, s.tabs, b, x);
    assert s.free !! s.home.Keys;
  }

  /** What a write of size bytes at offset c uses up, told from the state before it. The n bytes that it
      writes need no more blocks than are free, and one byte more would need more than that. The data block
      of that byte is lost exactly when a block was left for it, so that only the tables above it could not
      be had. */
  ghost predicate Spent(geo: Geometry, s: Fs, s': Fs, ino: nat, c: nat, n: nat, size: nat, lost: set<nat>)
    requires geo.Ok()
  {
    && n <= size && |NeedBytes(geo, s, ino, c, n)| <= |s.free|
    && (n < size ==> |s.free| < |NeedBytes(geo, s, ino, c, n + 1)| && s'.free == {})
    && (lost != {} <==> n < size && |NeedBytes(geo, s, ino, c, n)| < |s.free|)
    && Filling(geo, s, s', NeedBytes(geo, s, ino, c, n))
    && (n == size ==> Covering(geo, s, s', NeedBytes(geo, s, ino, c, n)))
  }

  /** So a write gets exactly as far as the free blocks reach. */
  lemma LongestPrefix(geo: Geometry, s: Fs, s': Fs, ino: nat, c: nat, n: nat, size: nat, lost: set<nat>, m: nat)
    requires geo.Ok() && Spent(geo, s, s', ino, c, n, size, lost) && m <= size
    ensures m <= n <==> |NeedBytes(geo, s, ino, c, m)| <= |s.free|
  {
    hide NeedBytes, Covering, Filling;
    if m <= n { BytesMono(geo, s, ino, c, m, n); } else { BytesMono(geo, s, ino, c, n + 1, m); }
  }

  /** One turn of ext2_write's loop: the part of data that falls into the block of byte c. len is 0
      when that block is a hole and cannot be filled. */
  method WriteStep(vol: Volume, ino: nat, c: nat, data: seq<byte>, group: nat, ghost s: Fs)
    returns (len: nat, vol': Volume, ghost s': Fs, ghost lost: set<nat>)
    requires Valid(vol, s) && ino in vol.inodes && 0 < |data| && c + |data| < U32
    ensures len <= |data| && Wrote(vol, s, vol', s', ino, c, data[..len], lost)
    ensures vol.geo.Ok()
    ensures len == 0 ==> s'.free == {} && (lost != {} <==> s.free != {}) && Filling(vol.geo, s, s', {})
    ensures len == 0 ==> |s.free| < |Empties(s, Leaf(vol.geo, ino, Quo(c, vol.geo.bs)))|
    ensures len > 0 ==> lost == {} && Rem(c, vol.geo.bs) + len <= vol.geo.bs
    ensures len > 0 ==> Covering(vol.geo, s, s', Empties(s, Leaf(vol.geo, ino, Quo(c, vol.geo.bs))))
  {
    hide Kept, Patched, SameBytes, Leaf, At, Valid, Covering, Filling, Empties;
    ValidGeo(vol, s);
    var bs := vol.geo.bs;
    var block, k := c / bs, c % bs;
    QuoRem(c, bs);
    OffsetAddressable(vol.geo, c);
    len := if bs - k > |data| then |data| else bs - k;
    var b := InodeGetBlock(vol, ino, block, s);
    var vol1 := vol;
    ghost var s1 := s;
    lost := {};
    ghost var leaf := Leaf(vol.geo, ino, block);
    WroteRefl(vol, s, ino, c, []);
    EmptiesCount(s, leaf);
    if b == 0 {
      b, vol1, s1, lost := FillHole(vol, ino, block, group, s);
      FilledWrote(vol, s, vol1, s1, ino, block, b, c, lost);
      if b == 0 { return 0, vol1, s1, lost; }
    } else {
      NoEmpties(s, leaf);
      SameCovers(vol.geo, s, s);
    }
    WroteValid(vol, s, vol1, s1, ino, c, [], {});
    vol', s' := PutChunk(vol1, ino, c, b, data[..len], s1);
    WroteAppend(vol, s, vol1, s1, vol', s', ino, c, data[..len], {});
    PutCovers(vol, s, vol1, s1, vol', s', Empties(s, leaf));
  }

  /** Writing into a block that is there takes nothing more. */
  lemma PutCovers(vol: Volume, s: Fs, vol1: Volume, s1: Fs, vol2: Volume, s2: Fs, N: set<Pos>)
    requires Valid(vol1, s1) && Valid(vol2, s2) && vol2.geo == vol1.geo == vol.geo && s2.home == s1.home
    requires s2.free == s1.free
    requires Covering(vol.geo, s, s1, N)
    ensures Covering(vol.geo, s, s2, N)
  {
    hide Rep, Ok, At, ValidPos;
    forall p | ValidPos(vol.geo.Shape(), p) ensures At(s2, p) == At(s1, p) { SameHomeAt(vol.geo, s1, s2, p); }
    CoverSame(vol.geo, s, s1, s2, N);
  }

  lemma CoverSame(geo: Geometry, s: Fs, s1: Fs, s2: Fs, N: set<Pos>)
    requires Covering(geo, s, s1, N) && (forall p | ValidPos(geo.Shape(), p) :: At(s2, p) == At(s1, p)) &&
        s2.free == s1.free
    ensures Covering(geo, s, s2, N)
  {
    hide At, ValidPos;
    forall p | ValidPos(geo.Shape(), p) ensures At(s2, p) == 0 <==> At(s, p) == 0 && p !in N {
      assert At(s2, p) == At(s1, p);
    }
  }

  lemma FillSame(geo: Geometry, s: Fs, s1: Fs, s2: Fs, N: set<Pos>)
    requires Filling(geo, s, s1, N) && (forall p | ValidPos(geo.Shape(), p) :: At(s2, p) == At(s1, p))
    ensures Filling(geo, s, s2, N)
  {
    hide At, ValidPos, Level;
    forall p | ValidPos(geo.Shape(), p) && Level(geo.Shape(), p) == 0
      ensures At(s2, p) == 0 <==> At(s, p) == 0 && p !in N
    {
      assert At(s2, p) == At(s1, p);
    }
  }

  lemma FilledWrote(vol: Volume, s: Fs, vol1: Volume, s1: Fs, ino: nat, n: nat, b: nat, c: nat, lost: set<nat>)
    requires vol.geo.Ok() && Filled(vol, s, vol1, s1, ino, n, b, lost)
    ensures Wrote(vol, s, vol1, s1, ino, c, [], lost)
  {
  }

  lemma WroteAppend(vol: Volume, s: Fs, vol1: Volume, s1: Fs, vol2: Volume, s2: Fs, ino: nat, c: nat, d: seq<byte>,
        lost: set<nat>)
    requires Wrote(vol, s, vol1, s1, ino, c, [], {}) && Wrote(vol1, s1, vol2, s2, ino, c, d, lost)
    ensures Wrote(vol, s, vol2, s2, ino, c, d, lost)
  {
    KeptTrans(s, s1, s2, ino, s.inodes[ino].size, s.inodes[ino].size, lost);
    PatchedTrans(vol2.geo, s, s1, s2, ino, c, [], c, d, d);
  }

  lemma WroteTrans(vol: Volume, s: Fs, vol1: Volume, s1: Fs, vol2: Volume, s2: Fs, ino: nat, c: nat, d: seq<byte>,
        n: nat, len: nat, lost: set<nat>)
    requires n + len <= |d| && Wrote(vol, s, vol1, s1, ino, c, d[..n], {})
    requires Wrote(vol1, s1, vol2, s2, ino, c + n, d[n..][..len], lost)
    ensures Wrote(vol, s, vol2, s2, ino, c, d[..n + len], lost)
  {
    KeptTrans(s, s1, s2, ino, s.inodes[ino].size, s.inodes[ino].size, lost);
    PatchedSlices(vol2.geo, s, s1, s2, ino, c, d, n, len);
  }

  lemma WroteRefl(vol: Volume, s: Fs, ino: nat, c: nat, d: seq<byte>)
    requires Valid(vol, s) && ino in vol.inodes && d == []
    ensures Wrote(vol, s, vol, s, ino, c, d, {})
  {
  }

  lemma WroteValid(vol: Volume, s: Fs, vol1: Volume, s1: Fs, ino: nat, c: nat, d: seq<byte>, lost: set<nat>)
    requires Wrote(vol, s, vol1, s1, ino, c, d, lost)
    ensures Valid(vol1, s1) && ino in vol1.inodes && vol1.geo == vol.geo
  {
  }

  lemma PatchedSlices(geo: Geometry, s: Fs, s1: Fs, s2: Fs, ino: nat, c: nat, d: seq<byte>, n: nat, len: nat)
    requires geo.Ok() && n + len <= |d| && Patched(geo, s, s1, ino, c, d[..n])
    requires Patched(geo, s1, s2, ino, c + n, d[n..][..len])
    ensures Patched(geo, s, s2, ino, c, d[..n + len])
  {
    assert d[..n + len] == d[..n] + d[n..][..len];
    PatchedTrans(geo, s, s1, s2, ino, c, d[..n], c + n, d[n..][..len], d[..n + len]);
  }

  /** The loop of ext2_write. */
  method WriteBytes(vol: Volume, ino: nat, offset: nat, data: seq<byte>, group: nat, ghost s: Fs)
    returns (n: nat, vol': Volume, ghost s': Fs, ghost lost: set<nat>)
    requires Valid(vol, s) && ino in vol.inodes && offset + |data| < U32
    ensures n <= |data| && Wrote(vol, s, vol', s', ino, offset, data[..n], lost)
    ensures vol.geo.Ok() && Spent(vol.geo, s, s', ino, offset, n, |data|, lost)
  {
    hide *;
    ValidGeo(vol, s);
    n, vol', s', lost := 0, vol, s, {};
    WroteRefl(vol, s, ino, offset, data[..0]);
    NothingSpent(vol.geo, s, ino, offset);
    while n < |data|
      invariant n <= |data| && lost == {}
      invariant Wrote(vol, s, vol', s', ino, offset, data[..n], {})
      invariant Covering(vol.geo, s, s', NeedBytes(vol.geo, s, ino, offset, n))
    {
      var len, vol1;
      ghost var s1;
      WroteValid(vol, s, vol', s', ino, offset, data[..n], {});
      len, vol1, s1, lost := WriteStep(vol', ino, offset + n, data[n..], group, s');
      WroteTrans(vol, s, vol', s', vol1, s1, ino, offset, data, n, len, lost);
      if len == 0 {
        SpentShort(vol.geo, s, s', s1, ino, offset, n, |data|, lost);
        return n, vol1, s1, lost;
      }
      SpentMore(vol.geo, s, s', s1, ino, offset, n, len);
      n, vol', s' := n + len, vol1, s1;
    }
    SpentWhole(vol.geo, s, s', ino, offset, n);
  }

  lemma NothingSpent(geo: Geometry, s: Fs, ino: nat, c: nat)
    requires geo.Ok()
    ensures Covering(geo, s, s, NeedBytes(geo, s, ino, c, 0))
  {
    SameCovers(geo, s, s);
  }

  lemma SpentMore(geo: Geometry, s: Fs, s1: Fs, s2: Fs, ino: nat, c: nat, n: nat, len: nat)
    requires geo.Ok() && 0 < len && Rem(c + n, geo.bs) + len <= geo.bs && c + n < U32
    requires Covering(geo, s, s1, NeedBytes(geo, s, ino, c, n))
    requires Covering(geo, s1, s2, Empties(s1, Leaf(geo, ino, Quo(c + n, geo.bs))))
    ensures Covering(geo, s, s2, NeedBytes(geo, s, ino, c, n + len))
  {
    hide Covering, NeedBytes, Empties, Leaf, Quo, Rem, ValidPos;
    var N, leaf := NeedBytes(geo, s, ino, c, n), Leaf(geo, ino, Quo(c + n, geo.bs));
    OffsetAddressable(geo, c + n);
    LeafPlace(geo, ino, Quo(c + n, geo.bs));
    EmptiesAfter(geo, s, s1, N, leaf);
    CoverMore(geo, s, s1, s2, N, Empties(s, leaf));
    NeedStep(geo, s, ino, c, n, len);
  }

  lemma SpentShort(geo: Geometry, s: Fs, s1: Fs, s2: Fs, ino: nat, c: nat, n: nat, size: nat, lost: set<nat>)
    requires geo.Ok() && n < size && c + n < U32 && Covering(geo, s, s1, NeedBytes(geo, s, ino, c, n))
    requires |s1.free| < |Empties(s1, Leaf(geo, ino, Quo(c + n, geo.bs)))| && Filling(geo, s1, s2, {})
    requires s2.free == {} && (lost != {} <==> s1.free != {})
    ensures Spent(geo, s, s2, ino, c, n, size, lost)
  {
    hide NeedBytes, Empties, Leaf, Quo, Rem, ValidPos, Filling;
    var N, leaf := NeedBytes(geo, s, ino, c, n), Leaf(geo, ino, Quo(c + n, geo.bs));
    OffsetAddressable(geo, c + n);
    LeafPlace(geo, ino, Quo(c + n, geo.bs));
    EmptiesAfter(geo, s, s1, N, leaf);
    RemLess(c + n, geo.bs);
    NeedStep(geo, s, ino, c, n, 1);
    UnionSize(N, Empties(s, leaf));
    CoverFills(geo, s, s1, N);
    FillMore(geo, s, s1, s2, N, {});
    assert N + {} == N;
  }

  lemma RemLess(x: nat, n: nat)
    requires n > 0
    ensures Rem(x, n) < n
  {
  }

  lemma UnionSize(N: set<Pos>, E: set<Pos>)
    ensures |N + E| == |N| + |E - N|
  {
    assert N + E == N + (E - N);
  }

  lemma SpentWhole(geo: Geometry, s: Fs, s': Fs, ino: nat, c: nat, n: nat)
    requires geo.Ok() && Covering(geo, s, s', NeedBytes(geo, s, ino, c, n))
    ensures Spent(geo, s, s', ino, c, n, n, {})
  {
    hide NeedBytes, Filling;
    CoverFills(geo, s, s', NeedBytes(geo, s, ino, c, n));
  }

  /** The final state of a write: the bytes are in place and the size is set. */
  ghost predicate Written(vol: Volume, s: Fs, vol': Volume, s': Fs, ino: nat, c: nat, d: seq<byte>, size: nat,
        lost: set<nat>) {
    && SameVolume(vol, vol') && Valid(vol', s')
    && Kept(s, s', ino, size, lost)
    && Patched(vol'.geo, s, s', ino, c, d)
  }

  lemma ResizeWritten(vol: Volume, s: Fs, vol1: Volume, s1: Fs, vol2: Volume, s2: Fs, ino: nat, c: nat, d: seq<byte>,
        size: nat, lost: set<nat>)
    requires Wrote(vol, s, vol1, s1, ino, c, d, lost)
    requires vol2 == vol1.(inodes := Resized(vol1.inodes, ino, size))
    requires s2 == s1.(inodes := Resized(s1.inodes, ino, size))
    ensures Written(vol, s, vol2, s2, ino, c, d, size, lost)
  {
    Resize(vol1.geo, s1, s2, ino, size);
    PatchedThenSame(vol1.geo, s, s1, s2, ino, c, d);
    ResizeKept(s, s1, s2, ino, s.inodes[ino].size, size, lost);
  }

  lemma UnchangedSize(vol: Volume, s: Fs, vol1: Volume, s1: Fs, ino: nat, c: nat, d: seq<byte>, lost: set<nat>)
    requires Wrote(vol, s, vol1, s1, ino, c, d, lost)
    ensures ino in s.inodes && ino in vol1.inodes && vol1.inodes[ino].size == s.inodes[ino].size
    ensures Written(vol, s, vol1, s1, ino, c, d, s.inodes[ino].size, lost)
  {
  }

  lemma ResizeKept(s: Fs, s1: Fs, s2: Fs, o: nat, size1: nat, size: nat, lost: set<nat>)
    requires Kept(s, s1, o, size1, lost) && s2 == s1.(inodes := Resized(s1.inodes, o, size))
    ensures Kept(s, s2, o, size, lost)
  {
  }

  /** The size after n bytes of data were written at offset into a file of the given size. */
  function NewSize(size: nat, offset: nat, n: nat, data: seq<byte>): nat {
    if data == [] then size else Max(size, offset + n)
  }

  /** ext2_write: an inode that is no file is refused. Otherwise every byte of data[..n] lands at its offset,
      and nothing else changes in any file. All of data is written if and only if the blocks that its range
      needs are free; otherwise n is as far as they reach, no free block is left, and a block is lost as told
      by Spent. The size grows to the end of the write, even when no byte could be written. */
  method Write(vol: Volume, ino: nat, offset: nat, data: seq<byte>, group: nat, ghost s: Fs)
    returns (n: nat, vol': Volume, ghost s': Fs, ghost lost: set<nat>)
    requires Valid(vol, s) && ino in vol.inodes && offset + |data| < U32
    ensures n <= |data| && ino in s.inodes
    ensures s.inodes[ino].kind != File ==> n == 0 && vol' == vol && s' == s && lost == {}
    ensures s.inodes[ino].kind == File ==>
        Written(vol, s, vol', s', ino, offset, data[..n], NewSize(s.inodes[ino].size, offset, n, data), lost)
    ensures vol.geo.Ok()
    ensures s.inodes[ino].kind == File ==> Spent(vol.geo, s, s', ino, offset, n, |data|, lost)
    ensures s.inodes[ino].kind == File ==>
        (n == |data| <==> |NeedBytes(vol.geo, s, ino, offset, |data|)| <= |s.free|)
  {
    hide Wrote, Written, Spent, NeedBytes, Valid;
    ValidGeo(vol, s);
    ValidInode(vol, s, ino);
    if vol.inodes[ino].kind != File { return 0, vol, s, {}; }
    n, vol', s', lost := WriteBytes(vol, ino, offset, data, group, s);
    LongestPrefix(vol.geo, s, s', ino, offset, n, |data|, lost, |data|);
    WroteValid(vol, s, vol', s', ino, offset, data[..n], lost);
    UnchangedSize(vol, s, vol', s', ino, offset, data[..n], lost);
    ValidInode(vol', s', ino);
    if data != [] && offset + n > vol'.inodes[ino].size {
      ghost var s1 := s';
      var vol1 := vol';
      vol' := vol1.(inodes := Resized(vol1.inodes, ino, offset + n));
      s' := s1.(inodes := Resized(s1.inodes, ino, offset + n));
      ResizeWritten(vol, s, vol1, s1, vol', s', ino, offset, data[..n], offset + n, lost);
      ResizeSpent(vol.geo, s, s1, s', ino, offset, n, |data|, lost, offset + n);
    }
  }

  lemma ResizeSpent(geo: Geometry, s: Fs, s1: Fs, s2: Fs, ino: nat, c: nat, n: nat, total: nat, lost: set<nat>,
        size: nat)
    requires geo.Ok() && Spent(geo, s, s1, ino, c, n, total, lost)
    requires ino in s1.inodes && s2 == s1.(inodes := Resized(s1.inodes, ino, size))
    ensures Spent(geo, s, s2, ino, c, n, total, lost)
  {
    hide NeedBytes, Filling, Covering, ValidPos;
    assert RootsOf(s2.inodes) == RootsOf(s1.inodes);
    FillSame(geo, s, s1, s2, NeedBytes(geo, s, ino, c, n));
    if n == total { CoverSame(geo, s, s1, s2, NeedBytes(geo, s, ino, c, n)); }
  }

  lemma ValidInode(vol: Volume, s: Fs, ino: nat)
    requires Valid(vol, s) && ino in vol.inodes
    ensures ino in s.inodes && s.inodes[ino] == vol.inodes[ino]
  {
    hide Ok;
    InodeHere(vol, s, ino);
  }

  lemma InodeHere(vol: Volume, s: Fs, ino: nat)
    requires Rep(vol, s) && ino in vol.inodes
    ensures ino in s.inodes && s.inodes[ino] == vol.inodes[ino]
  {
  }
}
