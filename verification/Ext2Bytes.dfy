/** A file as an array of bytes: what a byte offset means, and what attaching and writing blocks do. */
module Ext2Bytes {
  import opened Arith
  import opened Words
  import opened Forest
  import opened Ext2State
  import opened Ext2Layout
  import opened Ext2Grow

  /** Byte k of the block that hangs at p; a hole reads as zero. */
  ghost function ByteOf(s: Fs, p: Pos, k: nat): byte {
    var b := At(s, p);
    if b != 0 && b in s.disk && k < |s.disk[b]| then s.disk[b][k] else 0
  }

  /** Byte i of the file of inode o. */
  ghost function ByteAt(geo: Geometry, s: Fs, o: nat, i: nat): byte
    requires geo.Ok()
  {
    ByteOf(s, Leaf(geo, o, Quo(i, geo.bs)), Rem(i, geo.bs))
  }

  /** From s to s', file o got the bytes d at offset c, and nothing else changed in any file. */
  ghost predicate Patched(geo: Geometry, s: Fs, s': Fs, o: nat, c: nat, d: seq<byte>)
    requires geo.Ok()
  {
    forall k: nat, i: nat {:trigger ByteAt(geo, s', k, i)} | i < U32 ::
      ByteAt(geo, s', k, i) == if k == o && c <= i < c + |d| then d[i - c] else ByteAt(geo, s, k, i)
  }

  /** No byte of any file changed. */
  ghost predicate SameBytes(geo: Geometry, s: Fs, s': Fs)
    requires geo.Ok()
  {
    forall k: nat, i: nat {:trigger ByteAt(geo, s', k, i)} | i < U32 :: ByteAt(geo, s', k, i) == ByteAt(geo, s, k, i)
  }

  lemma PatchedTrans(geo: Geometry, s0: Fs, s1: Fs, s2: Fs, o: nat, c: nat, d: seq<byte>, c1: nat, e: seq<byte>,
        de: seq<byte>)
    requires geo.Ok() && Patched(geo, s0, s1, o, c, d) && Patched(geo, s1, s2, o, c1, e) && c1 == c + |d| && de == d + e
    ensures Patched(geo, s0, s2, o, c, de)
  {
  }

  lemma PatchedThenSame(geo: Geometry, s0: Fs, s1: Fs, s2: Fs, o: nat, c: nat, d: seq<byte>)
    requires geo.Ok() && Patched(geo, s0, s1, o, c, d) && SameBytes(geo, s1, s2)
    ensures Patched(geo, s0, s2, o, c, d)
  {
  }

  /** A freshly zeroed block in place of a hole reads the same. */
  lemma GrownBytes(geo: Geometry, s: Fs, s': Fs, o: nat, n: nat, v: nat)
    requires Ok(geo, s) && n < geo.MaxBlocks() && Grown(geo, s, s', Leaf(geo, o, n), v) && At(s, Leaf(geo, o, n)) == 0
    requires v != 0 ==> Loose(geo, s, v) && s.disk[v] == Zeros(geo.bs)
    ensures SameBytes(geo, s, s')
  {
    forall k: nat, i: nat | i < U32 ensures ByteAt(geo, s', k, i) == ByteAt(geo, s, k, i) {
      OffsetAddressable(geo, i);
      LeafPlace(geo, k, Quo(i, geo.bs));
      GrownByte(geo, s, s', Leaf(geo, o, n), v, Leaf(geo, k, Quo(i, geo.bs)), Rem(i, geo.bs));
    }
  }

  lemma GrownByte(geo: Geometry, s: Fs, s': Fs, leaf: Pos, v: nat, p: Pos, k: nat)
    requires Ok(geo, s) && Grown(geo, s, s', leaf, v) && At(s, leaf) == 0
    requires v != 0 ==> Loose(geo, s, v) && s.disk[v] == Zeros(geo.bs)
    requires ValidPos(geo.Shape(), p) && Level(geo.Shape(), p) == 0
    ensures ByteOf(s', p, k) == ByteOf(s, p, k)
  {
    hide Ok, At, SameInodes, SameBlocks, ValidPos, Level, Zeros;
    if At(s, p) != 0 { Attached(geo, s, p); }
    ZeroBytes(geo.bs);
    var b := At(s', p);
    if b != 0 { assert s'.disk[b] == s.disk[b]; }
  }

  lemma Attached(geo: Geometry, s: Fs, p: Pos)
    requires Ok(geo, s) && ValidPos(geo.Shape(), p) && At(s, p) != 0
    ensures At(s, p) < geo.count && At(s, p) !in s.free && At(s, p) in s.home && s.home[At(s, p)] == p
  {
    hide SectorsOk, Node;
  }

  lemma ZeroBytes(n: nat)
    ensures forall k | 0 <= k < |Zeros(n)| :: Zeros(n)[k] == 0
  {
  }

  /** Taking a block from the free set changes no file. */
  lemma TakenBytes(geo: Geometry, s: Fs, s': Fs, v: nat)
    requires Ok(geo, s) && Taken(geo, s, s', v)
    ensures SameBytes(geo, s, s')
  {
    TakenKeeps(geo, s, s', v);
    forall k: nat, i: nat | i < U32 ensures ByteAt(geo, s', k, i) == ByteAt(geo, s, k, i) {
      OffsetAddressable(geo, i);
      LeafPlace(geo, k, Quo(i, geo.bs));
    }
  }

  function Overlay(x: seq<byte>, k: nat, d: seq<byte>): (r: seq<byte>)
    requires k + |d| <= |x|
    ensures |r| == |x|
    ensures forall i | 0 <= i < |x| :: r[i] == if k <= i < k + |d| then d[i - k] else x[i]
  {
    x[..k] + d + x[k + |d|..]
  }

  lemma OkGeo(geo: Geometry, s: Fs)
    requires Ok(geo, s)
    ensures geo.Ok()
  {
    hide SectorsOk;
  }

  /** Writing d into the data block that holds byte c of file o patches exactly those bytes. */
  lemma OverlayBytes(geo: Geometry, s: Fs, s': Fs, o: nat, c: nat, d: seq<byte>, b: nat)
    requires Ok(geo, s) && c < U32 && b == At(s, Leaf(geo, o, Quo(c, geo.bs))) != 0
    requires Rem(c, geo.bs) + |d| <= geo.bs
    requires b in s.disk && |s.disk[b]| == geo.bs
    requires s'.disk == s.disk[b := Overlay(s.disk[b], Rem(c, geo.bs), d)]
    requires forall p | ValidPos(geo.Shape(), p) :: At(s', p) == At(s, p)
    ensures Patched(geo, s, s', o, c, d)
  {
    hide Ok, At, Leaf, Overlay, ByteOf;
    OkGeo(geo, s);
    OffsetAddressable(geo, c);
    LeafPlace(geo, o, Quo(c, geo.bs));
    forall k: nat, i: nat | i < U32
      ensures ByteAt(geo, s', k, i) == if k == o && c <= i < c + |d| then d[i - c] else ByteAt(geo, s, k, i)
    {
      OffsetAddressable(geo, i);
      LeafPlace(geo, k, Quo(i, geo.bs));
      OverlayOf(geo, s, s', Leaf(geo, o, Quo(c, geo.bs)), b, Rem(c, geo.bs), d, Leaf(geo, k, Quo(i, geo.bs)),
          Rem(i, geo.bs));
      SameQuo(geo.bs, c, i);
    }
  }

  /** Byte k of the block at q changes only if q is the place written and k is in the written range. */
  lemma OverlayOf(geo: Geometry, s: Fs, s': Fs, p: Pos, b: nat, at: nat, d: seq<byte>, q: Pos, k: nat)
    requires Ok(geo, s) && b == At(s, p) != 0 && b in s.disk && at + |d| <= |s.disk[b]| && k < |s.disk[b]|
    requires s'.disk == s.disk[b := Overlay(s.disk[b], at, d)] && At(s', q) == At(s, q)
    requires ValidPos(geo.Shape(), p) && ValidPos(geo.Shape(), q)
    ensures ByteOf(s', q, k) == if q == p && at <= k < at + |d| then d[k - at] else ByteOf(s, q, k)
  {
    hide Ok, At, ValidPos, Overlay;
    if At(s, q) == b {
      Attached(geo, s, p);
      Attached(geo, s, q);
    }
  }
}
