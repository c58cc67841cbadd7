/** Whole-volume view: every inode denotes a byte sequence; writes splice, reads slice. */
module Ext2Contents {
  import opened Arith
  import opened Words
  import opened Forest
  import opened Ext2State
  import opened Ext2Layout
  import opened Ext2Tree
  import opened Ext2Bytes
  import opened Ext2File
  import opened Ext2Need
  import opened Ext2Spend

  /** The bytes of file o up to its size. */
  ghost function Contents(geo: Geometry, s: Fs, o: nat): (r: seq<byte>)
    requires geo.Ok() && o in s.inodes
    ensures |r| == s.inodes[o].size
  {
    seq(s.inodes[o].size, i requires 0 <= i => ByteAt(geo, s, o, i))
  }

  /** Bytes past the end of a file read as zero, so growing it exposes no old data. */
  ghost predicate TailZero(geo: Geometry, s: Fs, o: nat)
    requires geo.Ok() && o in s.inodes
  {
    s.inodes[o].size < U32 && forall i: nat {:trigger ByteAt(geo, s, o, i)} | s.inodes[o].size <= i < U32 ::
        ByteAt(geo, s, o, i) == 0
  }

  ghost predicate FilesOk(geo: Geometry, s: Fs)
    requires geo.Ok()
  {
    forall o | o in s.inodes :: TailZero(geo, s, o)
  }

  /** All files of the volume. */
  ghost function Files(geo: Geometry, s: Fs): map<nat, seq<byte>>
    requires geo.Ok()
  {
    map o | o in s.inodes :: Contents(geo, s, o)
  }

  /** c with d written at offset off; a gap past the end is filled with zeros. */
  function Splice(c: seq<byte>, off: nat, d: seq<byte>): (r: seq<byte>)
    ensures |r| == Max(|c|, off + |d|)
    ensures forall i | 0 <= i < |r| :: r[i] == if off <= i < off + |d| then d[i - off] else if i < |c| then c[i] else 0
  {
    seq(Max(|c|, off + |d|), i requires 0 <= i => if off <= i < off + |d| then d[i - off]
        else if i < |c| then c[i] else 0)
  }

  /** What a read of n bytes at offset off may return: the part of c that exists. */
  function Slice(c: seq<byte>, off: nat, n: nat): seq<byte> {
    if off >= |c| then [] else c[off..if off + n > |c| then |c| else off + n]
  }

  lemma WrittenFile(vol: Volume, s: Fs, vol': Volume, s': Fs, ino: nat, c: nat, d: seq<byte>, size: nat, lost: set<nat>)
    requires vol.geo.Ok() && ino in s.inodes && TailZero(vol.geo, s, ino) && c + |d| < U32
    requires Written(vol, s, vol', s', ino, c, d, size, lost) && size == Max(s.inodes[ino].size, c + |d|)
    ensures ino in s'.inodes && Contents(vol.geo, s', ino) == Splice(Contents(vol.geo, s, ino), c, d)
    ensures TailZero(vol.geo, s', ino)
  {
    hide Written, Patched, ByteAt, Splice;
    WrittenParts(vol, s, vol', s', ino, c, d, size, lost, ino);
    var x, y := Contents(vol.geo, s', ino), Splice(Contents(vol.geo, s, ino), c, d);
    forall i: nat | i < U32
      ensures ByteAt(vol.geo, s', ino, i) == if c <= i < c + |d| then d[i - c] else ByteAt(vol.geo, s, ino, i)
    {
      PatchedByte(vol.geo, s, s', ino, c, d, ino, i);
    }
    forall i | 0 <= i < |x| ensures x[i] == y[i] {
      assert x[i] == ByteAt(vol.geo, s', ino, i);
    }
  }

  lemma PatchedByte(geo: Geometry, s: Fs, s': Fs, o: nat, c: nat, d: seq<byte>, k: nat, i: nat)
    requires geo.Ok() && Patched(geo, s, s', o, c, d) && i < U32
    ensures ByteAt(geo, s', k, i) == if k == o && c <= i < c + |d| then d[i - c] else ByteAt(geo, s, k, i)
  {
    hide ByteAt;
  }

  lemma WrittenParts(vol: Volume, s: Fs, vol': Volume, s': Fs, ino: nat, c: nat, d: seq<byte>, size: nat,
        lost: set<nat>, k: nat)
    requires vol.geo.Ok() && k in s.inodes && Written(vol, s, vol', s', ino, c, d, size, lost)
    ensures k in s'.inodes && s'.inodes[k].size == (if k == ino then size else s.inodes[k].size)
    ensures Patched(vol.geo, s, s', ino, c, d)
  {
    hide Valid, Patched;
  }

  lemma OtherFile(vol: Volume, s: Fs, vol': Volume, s': Fs, ino: nat, c: nat, d: seq<byte>, size: nat, lost: set<nat>,
        k: nat)
    requires vol.geo.Ok() && k in s.inodes && TailZero(vol.geo, s, k)
    requires k != ino || (d == [] && size == s.inodes[ino].size)
    requires Written(vol, s, vol', s', ino, c, d, size, lost)
    ensures k in s'.inodes && Contents(vol.geo, s', k) == Contents(vol.geo, s, k) && TailZero(vol.geo, s', k)
  {
    hide Written, Patched, ByteAt;
    WrittenParts(vol, s, vol', s', ino, c, d, size, lost, k);
    var x, y := Contents(vol.geo, s', k), Contents(vol.geo, s, k);
    forall i: nat | i < U32 ensures ByteAt(vol.geo, s', k, i) == ByteAt(vol.geo, s, k, i) {
      PatchedByte(vol.geo, s, s', ino, c, d, k, i);
    }
    forall i | 0 <= i < |x| ensures x[i] == y[i] {
      assert x[i] == ByteAt(vol.geo, s', k, i);
    }
  }

  lemma WrittenKeys(vol: Volume, s: Fs, vol': Volume, s': Fs, ino: nat, c: nat, d: seq<byte>, size: nat, lost: set<nat>)
    requires vol.geo.Ok() && ino in s.inodes && Written(vol, s, vol', s', ino, c, d, size, lost)
    ensures s'.inodes.Keys == s.inodes.Keys
  {
    hide Valid, Patched;
  }

  /** A write splices its bytes into one file and leaves every other file of the volume alone. */
  lemma WrittenFiles(vol: Volume, s: Fs, vol': Volume, s': Fs, ino: nat, c: nat, d: seq<byte>, size: nat,
        lost: set<nat>)
    requires vol.geo.Ok() && ino in s.inodes && FilesOk(vol.geo, s) && c + |d| < U32
    requires Written(vol, s, vol', s', ino, c, d, size, lost) && size == Max(s.inodes[ino].size, c + |d|)
    ensures FilesOk(vol.geo, s')
    ensures Files(vol.geo, s') == Files(vol.geo, s)[ino := Splice(Contents(vol.geo, s, ino), c, d)]
  {
    hide Written, TailZero, Contents, Splice;
    WrittenFile(vol, s, vol', s', ino, c, d, size, lost);
    WrittenKeys(vol, s, vol', s', ino, c, d, size, lost);
    forall k | k in s.inodes && k != ino
      ensures Contents(vol.geo, s', k) == Contents(vol.geo, s, k) && TailZero(vol.geo, s', k)
    {
      OtherFile(vol, s, vol', s', ino, c, d, size, lost, k);
    }
  }

  /** An empty write changes no file. */
  lemma UnwrittenFiles(vol: Volume, s: Fs, vol': Volume, s': Fs, ino: nat, c: nat, lost: set<nat>)
    requires vol.geo.Ok() && ino in s.inodes && FilesOk(vol.geo, s)
    requires Written(vol, s, vol', s', ino, c, [], s.inodes[ino].size, lost)
    ensures FilesOk(vol.geo, s') && Files(vol.geo, s') == Files(vol.geo, s)
  {
    hide Written, TailZero, Contents;
    WrittenKeys(vol, s, vol', s', ino, c, [], s.inodes[ino].size, lost);
    forall k | k in s.inodes ensures Contents(vol.geo, s', k) == Contents(vol.geo, s, k) && TailZero(vol.geo, s', k) {
      OtherFile(vol, s, vol', s', ino, c, [], s.inodes[ino].size, lost, k);
    }
  }

  // Reading.

  /** The bytes of the block of byte c, at most n of them. */
  method ReadStep(vol: Volume, ino: nat, c: nat, n: nat, ghost s: Fs) returns (piece: seq<byte>)
    requires Valid(vol, s) && ino in vol.inodes && 0 < n && c < U32 && (c + n < U32 || Fitting(vol.geo.bs))
    ensures 0 < |piece| <= n && c + |piece| <= U32
    ensures forall i | 0 <= i < |piece| :: piece[i] == ByteAt(vol.geo, s, ino, c + i)
  {
    hide Leaf, Valid, Fitting;
    ValidGeo(vol, s);
    var bs := vol.geo.bs;
    var block, k := c / bs, c % bs;
    QuoRem(c, bs);
    OffsetAddressable(vol.geo, c);
    var len := if bs - k > n then n else bs - k;
    if c + n >= U32 { BlockInside(c, bs); }
    var b := InodeGetBlock(vol, ino, block, s);
    if b == 0 {
      piece := Zeros(len);
    } else {
      DataBlock(vol, s, ino, block, b);
      piece := vol.disk[b][k..k + len];
    }
    forall i | 0 <= i < len ensures piece[i] == ByteAt(vol.geo, s, ino, c + i) {
      SameQuo(bs, c, c + i);
    }
  }

  /** Blocks of this size do not straddle the end of the 32-bit offsets; that is so for 1024 << k. */
  predicate Fitting(bs: nat) {
    bs > 0 && U32 % bs == 0
  }

  lemma BlockInside(c: nat, bs: nat)
    requires c < U32 && Fitting(bs)
    ensures c + (bs - c % bs) <= U32
  {
    DivMod(c, bs);
    DivMod(U32, bs);
    var q, e := c / bs, U32 / bs;
    assert c == q * bs + c % bs && U32 == e * bs;
    if q >= e { MulMono(e, q, bs); }
    MulMono(q + 1, e, bs);
    assert (q + 1) * bs == q * bs + bs;
  }

  lemma DataBlock(vol: Volume, s: Fs, ino: nat, n: nat, b: nat)
    requires Valid(vol, s) && n < vol.geo.MaxBlocks() && b == At(s, Leaf(vol.geo, ino, n)) != 0
    ensures b in vol.disk && |vol.disk[b]| == vol.geo.bs && vol.disk == s.disk
  {
    LeafPlace(vol.geo, ino, n);
  }

  /** The size of a read after clipping at the end of the file, in 32-bit arithmetic. */
  function Clipped(offset: nat, size: nat, fileSize: nat): int {
    if (offset + size) % U32 > fileSize then fileSize - offset else size
  }

  /** The clipping is right exactly when offset + size does not wrap around. */
  lemma ClippedExact(offset: nat, size: nat, fileSize: nat)
    requires offset < fileSize < U32 && size < U32
    ensures Clipped(offset, size, fileSize) == (if size < fileSize - offset then size else fileSize - offset) <==>
        offset + size < U32
  {
    if offset + size >= U32 {
      assert (offset + size) % U32 == offset + size - U32;
    }
  }

  lemma WrapAdd(x: nat, k: nat)
    requires x % U32 + k < U32
    ensures x % U32 + k == (x + k) % U32
  {
  }

  /** What ext2_read returns, for every offset and size: the offsets of the bytes wrap around at 2^32. */
  ghost predicate ReadBytes(geo: Geometry, s: Fs, o: nat, offset: nat, size: nat, r: seq<byte>)
    requires geo.Ok() && o in s.inodes
  {
    if offset >= s.inodes[o].size then r == []
    else
      && |r| == (if (offset + size) % U32 > s.inodes[o].size then s.inodes[o].size - offset else size)
      && forall i: nat | i < |r| :: r[i] == ByteAt(geo, s, o, (offset + i) % U32)
  }

  /** ext2_read: exactly the slice of the file's contents when offset + size does not wrap around. */
  method Read(vol: Volume, ino: nat, offset: nat, size: nat, ghost s: Fs) returns (r: seq<byte>)
    requires Valid(vol, s) && ino in vol.inodes && vol.inodes[ino].size < U32 && offset < U32 && size < U32
    requires offset + size < U32 || Fitting(vol.geo.bs)
    ensures vol.geo.Ok() && ino in s.inodes && ReadBytes(vol.geo, s, ino, offset, size, r)
    ensures offset + size < U32 ==> r == Slice(Contents(vol.geo, s, ino), offset, size)
  {
    hide ByteAt, Leaf, Fitting, Valid;
    ValidGeo(vol, s);
    ValidInode(vol, s, ino);
    var fileSize := vol.inodes[ino].size;
    r := [];
    if offset >= fileSize { return; }
    ClippedExact(offset, size, fileSize);
    var n := Clipped(offset, size, fileSize);
    assert offset + n < U32 || Fitting(vol.geo.bs);
    while |r| < n
      invariant |r| <= n
      invariant forall i: nat | i < |r| :: r[i] == ByteAt(vol.geo, s, ino, (offset + i) % U32)
    {
      hide *;
      var done := |r|;
      var c := (offset + done) % U32;
      var piece := ReadStep(vol, ino, c, n - done, s);
      r := r + piece;
      forall i: nat | done <= i < |r| ensures r[i] == ByteAt(vol.geo, s, ino, (offset + i) % U32) {
        assert r[i] == piece[i - done];
        WrapAdd(offset + done, i - done);
      }
    }
    if offset + size < U32 { SliceOf(vol.geo, s, ino, offset, size, r); }
  }

  lemma SliceOf(geo: Geometry, s: Fs, o: nat, offset: nat, size: nat, r: seq<byte>)
    requires geo.Ok() && o in s.inodes && offset < s.inodes[o].size
    requires |r| == (if size < s.inodes[o].size - offset then size else s.inodes[o].size - offset)
    requires offset + size < U32
    requires forall i: nat | i < |r| :: r[i] == ByteAt(geo, s, o, (offset + i) % U32)
    ensures r == Slice(Contents(geo, s, o), offset, size)
  {
    hide ByteAt;
    var c := Slice(Contents(geo, s, o), offset, size);
    forall i | 0 <= i < |r| ensures r[i] == c[i] {
      assert Contents(geo, s, o)[offset + i] == ByteAt(geo, s, o, offset + i);
    }
  }

  // Any run of writes.

  function Apply(files: map<nat, seq<byte>>, op: WriteOp): map<nat, seq<byte>> {
    if op.ino in files then files[op.ino := Splice(files[op.ino], op.offset, op.data)] else files
  }

  /** The files after the writes of log, in order. */
  function Replay(files: map<nat, seq<byte>>, log: seq<WriteOp>): (r: map<nat, seq<byte>>)
    ensures r.Keys == files.Keys
  {
    if log == [] then files else Apply(Replay(files, log[..|log| - 1]), log[|log| - 1])
  }

  /** The inodes that hold regular files. */
  ghost function Regular(s: Fs): set<nat> {
    set o | o in s.inodes && s.inodes[o].kind == File
  }

  /** Writes without effect: empty ones, and those to anything but a regular file. */
  predicate Ignored(regular: set<nat>, op: WriteOp) {
    op.data == [] || op.ino !in regular
  }

  /** The writes that have an effect, in order. */
  function Effective(regular: set<nat>, ops: seq<WriteOp>): seq<WriteOp> {
    if ops == [] then []
    else if Ignored(regular, ops[|ops| - 1]) then Effective(regular, ops[..|ops| - 1])
    else Effective(regular, ops[..|ops| - 1]) + [ops[|ops| - 1]]
  }

  /** log performs the writes of ops, each possibly cut short. */
  predicate Shortened(log: seq<WriteOp>, ops: seq<WriteOp>) {
    |log| == |ops| && forall i | 0 <= i < |log| ::
      log[i].ino == ops[i].ino && log[i].offset == ops[i].offset && log[i].data <= ops[i].data
  }

  ghost predicate CanRun(vol: Volume, s: Fs, ops: seq<WriteOp>) {
    && Valid(vol, s) && FilesOk(vol.geo, s)
    && forall op | op in ops :: op.ino in vol.inodes && op.offset + |op.data| < U32
  }

  /** A write keeps the volume valid, the set of inodes, and an exhausted free set. */
  lemma WrittenFrame(vol: Volume, s: Fs, vol': Volume, s': Fs, ino: nat, c: nat, d: seq<byte>, size: nat,
        lost: set<nat>)
    requires Rep(vol, s) && Written(vol, s, vol', s', ino, c, d, size, lost)
    ensures SameVolume(vol, vol') && Valid(vol', s') && s'.inodes.Keys == s.inodes.Keys
    ensures vol'.inodes.Keys == vol.inodes.Keys
    ensures s.free == {} ==> s'.free == {}
    ensures Regular(s') == Regular(s)
  {
    hide Ok, Patched, Mirror;
    KeptRegular(s, s', ino, size, lost);
  }

  lemma KeptRegular(s: Fs, s': Fs, ino: nat, size: nat, lost: set<nat>)
    requires Kept(s, s', ino, size, lost)
    ensures s'.inodes.Keys == s.inodes.Keys && Regular(s') == Regular(s) && s'.free <= s.free
  {
    forall o | o in s.inodes ensures s'.inodes[o].kind == s.inodes[o].kind {}
  }

  lemma FilesAt(geo: Geometry, s: Fs, o: nat)
    requires geo.Ok() && o in s.inodes
    ensures o in Files(geo, s) && Files(geo, s)[o] == Contents(geo, s, o)
  {
  }

  ghost predicate RanOne(vol: Volume, s: Fs, vol': Volume, s': Fs, op: WriteOp, done: WriteOp, lost: set<nat>)
    requires vol.geo.Ok()
  {
    && SameVolume(vol, vol') && Valid(vol', s') && FilesOk(vol.geo, s') && vol'.inodes.Keys == vol.inodes.Keys
    && Regular(s') == Regular(s)
    && Part(op, done)
    && Files(vol.geo, s') == (if Ignored(Regular(s), op) then Files(vol.geo, s) else Apply(Files(vol.geo, s), done))
    && (if Ignored(Regular(s), op) then Covering(vol.geo, s, s', {}) && Conserved(s, s', {}) && lost == {}
        else OpSpent(vol.geo, s, s', op, done, lost))
  }

  lemma RanWrite(vol: Volume, s: Fs, vol': Volume, s': Fs, op: WriteOp, n: nat, lost: set<nat>)
    requires Valid(vol, s) && FilesOk(vol.geo, s) && op.ino in s.inodes && op.offset + |op.data| < U32 && n <= |op.data|
    requires s.inodes[op.ino].kind == File
    requires Written(vol, s, vol', s', op.ino, op.offset, op.data[..n],
        NewSize(s.inodes[op.ino].size, op.offset, n, op.data), lost)
    requires vol.geo.Ok() && Spent(vol.geo, s, s', op.ino, op.offset, n, |op.data|, lost)
    ensures RanOne(vol, s, vol', s', op, op.(data := op.data[..n]), lost)
  {
    hide Written, Contents, FilesOk, Splice, Files, Rep, Ok, Max, Covering, Filling, NeedBytes, Conserved, Spent;
    RunReady(vol, s, op);
    FilesAt(vol.geo, s, op.ino);
    WrittenConserved(vol, s, vol', s', op.ino, op.offset, op.data[..n],
        NewSize(s.inodes[op.ino].size, op.offset, n, op.data), lost);
    SpentNothing(vol.geo, s, s', op.ino, op.offset, n, |op.data|, lost);
    if op.data == [] {
      assert op.data[..n] == [];
      UnwrittenFiles(vol, s, vol', s', op.ino, op.offset, lost);
      WrittenFrame(vol, s, vol', s', op.ino, op.offset, [], s.inodes[op.ino].size, lost);
    } else {
      var size := Max(s.inodes[op.ino].size, op.offset + n);
      WrittenFiles(vol, s, vol', s', op.ino, op.offset, op.data[..n], size, lost);
      WrittenFrame(vol, s, vol', s', op.ino, op.offset, op.data[..n], size, lost);
    }
  }

  lemma WrittenConserved(vol: Volume, s: Fs, vol': Volume, s': Fs, ino: nat, c: nat, d: seq<byte>, size: nat,
        lost: set<nat>)
    requires Written(vol, s, vol', s', ino, c, d, size, lost)
    ensures Conserved(s, s', lost)
  {
    hide Valid, Patched;
    KeptConserved(s, s', ino, size, lost);
  }

  lemma SpentNothing(geo: Geometry, s: Fs, s': Fs, ino: nat, c: nat, n: nat, size: nat, lost: set<nat>)
    requires geo.Ok() && Spent(geo, s, s', ino, c, n, size, lost)
    ensures size == 0 ==> Covering(geo, s, s', {}) && lost == {}
  {
    hide Covering, Filling;
    assert NeedBytes(geo, s, ino, c, 0) == {};
  }

  lemma RunReady(vol: Volume, s: Fs, op: WriteOp)
    requires Valid(vol, s)
    ensures vol.geo.Ok() && (op.ino in s.inodes <==> op.ino in vol.inodes)
  {
    hide Mirror, SectorsOk;
  }

  /** One write of a run, on the whole volume. */
  method RunOne(vol: Volume, op: WriteOp, group: nat, ghost s: Fs)
    returns (done: WriteOp, vol': Volume, ghost s': Fs, ghost lost: set<nat>)
    requires CanRun(vol, s, [op])
    ensures RanOne(vol, s, vol', s', op, done, lost)
  {
    hide FilesOk, Files, Written, RanOne, Rep, Ok, Max, NewSize, Spent, NeedBytes;
    assert op in [op];
    RunReady(vol, s, op);
    var n;
    n, vol', s', lost := Write(vol, op.ino, op.offset, op.data, group, s);
    done := op.(data := op.data[..n]);
    if s.inodes[op.ino].kind == File {
      RanWrite(vol, s, vol', s', op, n, lost);
    } else {
      RanRefused(vol, s, op);
    }
  }

  lemma RanRefused(vol: Volume, s: Fs, op: WriteOp)
    requires Valid(vol, s) && FilesOk(vol.geo, s) && op.ino in s.inodes && s.inodes[op.ino].kind != File
    ensures vol.geo.Ok() && RanOne(vol, s, vol, s, op, op.(data := op.data[..0]), {})
  {
    hide Rep, Files, FilesOk, Covering, Conserved;
    SameCovers(vol.geo, s, s);
    ConservedRefl(vol.geo, s);
  }

  lemma ConservedRefl(geo: Geometry, s: Fs)
    requires Ok(geo, s)
    ensures Conserved(s, s, {}) && s.free !! s.home.Keys
  {
    hide Planted, SectorsOk;
  }

  /** What a run of writes amounts to: the files are those that replaying log gives, and log is all of the
      requested writes if and only if the blocks that they need are free (RunSpent). */
  ghost predicate Ran(vol: Volume, s: Fs, vol': Volume, s': Fs, ops: seq<WriteOp>, log: seq<WriteOp>, lost: set<nat>)
    requires vol.geo.Ok()
  {
    && SameVolume(vol, vol') && Valid(vol', s') && FilesOk(vol.geo, s') && vol'.inodes.Keys == vol.inodes.Keys
    && Regular(s') == Regular(s)
    && Shortened(log, Effective(Regular(s), ops))
    && Files(vol.geo, s') == Replay(Files(vol.geo, s), log)
    && RunSpent(vol.geo, s, s', Effective(Regular(s), ops), log, lost)
  }

  lemma RanStep(vol: Volume, s: Fs, vol1: Volume, s1: Fs, vol2: Volume, s2: Fs, ops: seq<WriteOp>, log: seq<WriteOp>,
        lost: set<nat>, op: WriteOp, done: WriteOp, more: set<nat>)
    requires vol.geo.Ok() && vol1.geo == vol.geo && Ran(vol, s, vol1, s1, ops, log, lost)
    requires RanOne(vol1, s1, vol2, s2, op, done, more) && op.offset + |op.data| < U32
    ensures Ran(vol, s, vol2, s2, ops + [op], if Ignored(Regular(s), op) then log else log + [done], lost + more)
  {
    hide Valid, FilesOk, Files, Apply, Effective, Replay, Regular, Ignored, RunSpent, OpSpent, Covering, Conserved;
    hide Part;
    EffectiveStep(Regular(s), ops, op);
    var todo := Effective(Regular(s), ops);
    if Ignored(Regular(s), op) {
      RunSpentSame(vol.geo, s, s1, s2, todo, log, lost);
      assert lost + more == lost;
    } else {
      ShortenedStep(log, todo, done, op);
      ReplaySnoc(Files(vol.geo, s), log, done);
      RunSpentStep(vol.geo, s, s1, s2, todo, log, op, done, lost, more);
    }
  }

  lemma EffectiveStep(regular: set<nat>, ops: seq<WriteOp>, op: WriteOp)
    ensures Effective(regular, ops + [op]) ==
            if Ignored(regular, op) then Effective(regular, ops) else Effective(regular, ops) + [op]
  {
    assert (ops + [op])[..|ops|] == ops;
  }

  lemma ShortenedStep(log: seq<WriteOp>, ops: seq<WriteOp>, done: WriteOp, op: WriteOp)
    requires Shortened(log, ops) && Part(op, done)
    ensures Shortened(log + [done], ops + [op])
  {
  }

  lemma ReplaySnoc(files: map<nat, seq<byte>>, log: seq<WriteOp>, done: WriteOp)
    ensures Replay(files, log + [done]) == Apply(Replay(files, log), done)
  {
    hide Apply;
    assert (log + [done])[..|log|] == log;
  }

  /** Any run of ext2_write calls, the i-th starting its search for blocks at groups[i]. */
  method RunWrites(vol: Volume, ops: seq<WriteOp>, groups: seq<nat>, ghost s: Fs)
    returns (log: seq<WriteOp>, vol': Volume, ghost s': Fs, ghost lost: set<nat>)
    requires CanRun(vol, s, ops) && |groups| == |ops|
    ensures vol.geo.Ok() && Ran(vol, s, vol', s', ops, log, lost)
  {
    hide Ran, RanOne, FilesOk, Valid;
    log, vol', s', lost := [], vol, s, {};
    RanNothing(vol, s, ops);
    for i := 0 to |ops|
      invariant SameVolume(vol, vol') && CanRun(vol', s', ops) && vol.geo.Ok()
      invariant Ran(vol, s, vol', s', ops[..i], log, lost)
    {
      var op := ops[i];
      assert op in ops;
      assert ops[..i + 1] == ops[..i] + [op];
      var done, vol1;
      ghost var s1, more;
      var ignored := op.data == [] || vol'.inodes[op.ino].kind != File;
      IgnoredHere(vol, s, vol', s', ops[..i], log, lost, op);
      done, vol1, s1, more := RunOne(vol', op, groups[i], s');
      RanStep(vol, s, vol', s', vol1, s1, ops[..i], log, lost, op, done, more);
      RanKeeps(vol', s', vol1, s1, op, done, more);
      log := if ignored then log else log + [done];
      vol', s', lost := vol1, s1, lost + more;
    }
    assert ops[..|ops|] == ops;
  }

  lemma RanNothing(vol: Volume, s: Fs, ops: seq<WriteOp>)
    requires CanRun(vol, s, ops)
    ensures vol.geo.Ok() && Ran(vol, s, vol, s, ops[..0], [], {})
  {
    hide FilesOk, Files, Rep, RunSpent;
    ConservedRefl(vol.geo, s);
    RunSpentNothing(vol.geo, s);
  }

  lemma IgnoredHere(vol: Volume, s: Fs, vol1: Volume, s1: Fs, ops: seq<WriteOp>, log: seq<WriteOp>, lost: set<nat>,
        op: WriteOp)
    requires vol.geo.Ok() && Ran(vol, s, vol1, s1, ops, log, lost) && op.ino in vol1.inodes
    ensures Ignored(Regular(s), op) <==> op.data == [] || vol1.inodes[op.ino].kind != File
  {
    hide FilesOk, Files, Shortened, Effective, Replay, Ok, RunSpent;
  }

  lemma RanKeeps(vol: Volume, s: Fs, vol1: Volume, s1: Fs, op: WriteOp, done: WriteOp, lost: set<nat>)
    requires vol.geo.Ok() && RanOne(vol, s, vol1, s1, op, done, lost)
    ensures SameVolume(vol, vol1) && Valid(vol1, s1) && FilesOk(vol.geo, s1) && vol1.inodes.Keys == vol.inodes.Keys
  {
  }

  // What replaying a log means, byte by byte.

  /** The last entry of log that covers byte i of file o, or -1. */
  function LastWriter(log: seq<WriteOp>, o: nat, i: nat): (k: int)
    ensures -1 <= k < |log|
    ensures k >= 0 ==> log[k].ino == o && log[k].offset <= i < log[k].offset + |log[k].data|
    ensures forall j | k < j < |log| :: log[j].ino == o ==> !(log[j].offset <= i < log[j].offset + |log[j].data|)
  {
    if log == [] then -1
    else
      var last := log[|log| - 1];
      if last.ino == o && last.offset <= i < last.offset + |last.data| then |log| - 1
      else LastWriter(log[..|log| - 1], o, i)
  }

  /** The furthest end of any write to file o. */
  function MaxEnd(log: seq<WriteOp>, o: nat): nat {
    if log == [] then 0
    else
      var last := log[|log| - 1];
      var m := MaxEnd(log[..|log| - 1], o);
      if last.ino == o then Max(m, last.offset + |last.data|) else m
  }

  lemma {:induction false} EndBounds(log: seq<WriteOp>, o: nat, i: nat)
    requires i >= MaxEnd(log, o)
    ensures LastWriter(log, o, i) == -1
  {
    if log != [] { EndBounds(log[..|log| - 1], o, i); }
  }

  /** Byte i of file o as its last writer left it: 0 where nobody wrote. */
  function Latest(log: seq<WriteOp>, o: nat, i: nat): byte {
    var k := LastWriter(log, o, i);
    if k >= 0 then log[k].data[i - log[k].offset] else 0
  }

  /** One more write: each byte comes from it, or from the last writer before it. */
  lemma ReplayByte(files: map<nat, seq<byte>>, log: seq<WriteOp>, o: nat, i: nat)
    requires o in files && log != [] && i < MaxEnd(log, o)
    requires var pre := log[..|log| - 1];
             && |Replay(files, pre)[o]| == MaxEnd(pre, o)
             && (i < MaxEnd(pre, o) ==> Replay(files, pre)[o][i] == Latest(pre, o, i))
    ensures |Replay(files, log)[o]| == MaxEnd(log, o) && Replay(files, log)[o][i] == Latest(log, o, i)
  {
    hide Replay, Latest, MaxEnd;
    var pre := log[..|log| - 1];
    ReplayStep(files, log, o);
    LatestStep(log, o, i);
    if i >= MaxEnd(pre, o) { LatestPast(pre, o, i); }
  }

  lemma LatestPast(log: seq<WriteOp>, o: nat, i: nat)
    requires i >= MaxEnd(log, o)
    ensures Latest(log, o, i) == 0
  {
    EndBounds(log, o, i);
  }

  lemma LatestStep(log: seq<WriteOp>, o: nat, i: nat)
    requires log != []
    ensures var pre, last := log[..|log| - 1], log[|log| - 1];
            Latest(log, o, i) == if last.ino == o && last.offset <= i < last.offset + |last.data|
                then last.data[i - last.offset] else Latest(pre, o, i)
  {
    hide LastWriter;
    WriterStep(log, o, i);
  }

  lemma ReplayStep(files: map<nat, seq<byte>>, log: seq<WriteOp>, o: nat)
    requires o in files && log != []
    ensures var pre, last := log[..|log| - 1], log[|log| - 1];
            && Replay(files, log)[o] == (if last.ino == o then Splice(Replay(files, pre)[o], last.offset, last.data)
                else Replay(files, pre)[o])
            && MaxEnd(log, o) == if last.ino == o then Max(MaxEnd(pre, o), last.offset + |last.data|)
                else MaxEnd(pre, o)
  {
    hide Splice;
  }

  lemma WriterStep(log: seq<WriteOp>, o: nat, i: nat)
    requires log != []
    ensures var pre, last := log[..|log| - 1], log[|log| - 1];
            LastWriter(log, o, i) == if last.ino == o && last.offset <= i < last.offset + |last.data|
                then |log| - 1 else LastWriter(pre, o, i)
  {
  }

  /** Replaying onto an empty file: its length is the furthest end reached, each byte is the one that
      the last covering write put there, and bytes never written are zero. */
  lemma {:induction false} ReplayMeaning(files: map<nat, seq<byte>>, log: seq<WriteOp>, o: nat)
    requires o in files && files[o] == []
    ensures |Replay(files, log)[o]| == MaxEnd(log, o)
    ensures forall i | 0 <= i < MaxEnd(log, o) :: Replay(files, log)[o][i] == Latest(log, o, i)
  {
    hide Latest;
    if log != [] {
      ReplayMeaning(files, log[..|log| - 1], o);
      ReplayStep(files, log, o);
      forall i | 0 <= i < MaxEnd(log, o)
        ensures Replay(files, log)[o][i] == Latest(log, o, i)
      {
        ReplayByte(files, log, o, i);
      }
    }
  }

  /** Any run of writes, then a read of a file that was empty before it: each byte read is the one that
      the last write covering it put there, and reading stops at the furthest byte written. */
  method WriteThenRead(vol: Volume, ops: seq<WriteOp>, groups: seq<nat>, ino: nat, offset: nat, size: nat, ghost s: Fs)
    returns (r: seq<byte>, log: seq<WriteOp>, vol': Volume, ghost s': Fs, ghost lost: set<nat>)
    requires CanRun(vol, s, ops) && |groups| == |ops| && offset + size < U32
    requires ino in vol.inodes && vol.inodes[ino].size == 0
    ensures vol.geo.Ok() && Ran(vol, s, vol', s', ops, log, lost)
    ensures |r| == if MaxEnd(log, ino) <= offset then 0
          else if offset + size > MaxEnd(log, ino) then MaxEnd(log, ino) - offset else size
    ensures forall i | 0 <= i < |r| :: r[i] == Latest(log, ino, offset + i)
  {
    hide Ran, Contents, FilesOk, Files, Replay, Latest, MaxEnd, Rep;
    RunReady(vol, s, WriteOp(ino, 0, []));
    log, vol', s', lost := RunWrites(vol, ops, groups, s);
    RanFile(vol, s, vol', s', ops, log, lost, ino);
    r := Read(vol', ino, offset, size, s');
  }

  lemma RanFile(vol: Volume, s: Fs, vol': Volume, s': Fs, ops: seq<WriteOp>, log: seq<WriteOp>, lost: set<nat>,
        ino: nat)
    requires Valid(vol, s) && vol.geo.Ok() && ino in vol.inodes && vol.inodes[ino].size == 0
    requires Ran(vol, s, vol', s', ops, log, lost)
    ensures SameVolume(vol, vol') && Valid(vol', s') && ino in s'.inodes && ino in vol'.inodes
    ensures vol'.inodes[ino].size < U32
    ensures |Contents(vol.geo, s', ino)| == MaxEnd(log, ino)
    ensures forall i | 0 <= i < MaxEnd(log, ino) :: Contents(vol.geo, s', ino)[i] == Latest(log, ino, i)
  {
    hide Shortened, Effective, SectorsOk, Latest, MaxEnd, Replay, RunSpent;
    assert ino in s.inodes && s.inodes[ino].size == 0;
    FilesAt(vol.geo, s, ino);
    FilesAt(vol.geo, s', ino);
    ReplayMeaning(Files(vol.geo, s), log, ino);
    assert TailZero(vol.geo, s', ino);
  }
}
