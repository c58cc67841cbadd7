/** What a run of writes uses up, told from the state before it. */
module Ext2Spend {
  import opened Arith
  import opened Words
  import opened Forest
  import opened Sets
  import opened Ext2State
  import opened Ext2Layout
  import opened Ext2Need
  import opened Ext2File

  datatype WriteOp = WriteOp(ino: nat, offset: nat, data: seq<byte>)

  ghost function OpNeed(geo: Geometry, s: Fs, op: WriteOp): set<Pos>
    requires geo.Ok()
  {
    NeedBytes(geo, s, op.ino, op.offset, |op.data|)
  }

  /** The places that the bytes of all these writes need in state s, each counted once. */
  ghost function RunNeed(geo: Geometry, s: Fs, log: seq<WriteOp>): set<Pos>
    requires geo.Ok()
  {
    if log == [] then {} else RunNeed(geo, s, log[..|log| - 1]) + OpNeed(geo, s, log[|log| - 1])
  }

  lemma RunNeedSnoc(geo: Geometry, s: Fs, log: seq<WriteOp>, op: WriteOp)
    requires geo.Ok()
    ensures RunNeed(geo, s, log + [op]) == RunNeed(geo, s, log) + OpNeed(geo, s, op)
  {
    hide OpNeed;
    assert (log + [op])[..|log|] == log;
  }

  /** With an empty place it needs the empty places above it. */
  lemma {:induction false} RunNeedClosed(geo: Geometry, s: Fs, log: seq<WriteOp>, p: Pos)
    requires geo.Ok() && p in RunNeed(geo, s, log)
    ensures Empties(s, p) <= RunNeed(geo, s, log)
  {
    hide Empties, Leaf, Need, Quo, Past;
    var op := log[|log| - 1];
    if p in OpNeed(geo, s, op) {
      var lo, hi := Quo(op.offset, geo.bs), Past(geo, op.offset, |op.data|);
      var k := NeedFrom(geo, s, op.ino, lo, hi, p);
      EmptiesClosed(s, Leaf(geo, op.ino, k), p);
      NeedHas(geo, s, op.ino, lo, hi, k);
    } else {
      RunNeedClosed(geo, s, log[..|log| - 1], p);
    }
  }

  /** done is the beginning of the write op. */
  predicate Part(op: WriteOp, done: WriteOp) {
    |done.data| <= |op.data| && done == op.(data := op.data[..|done.data|])
  }

  // One write.

  /** Blocks are free, in use, or among the lost ones. */
  ghost predicate Conserved(s: Fs, s': Fs, lost: set<nat>) {
    && s'.free + s'.home.Keys + lost == s.free + s.home.Keys
    && lost !! s'.free && lost !! s'.home.Keys && |lost| <= 1
  }

  lemma KeptConserved(s: Fs, s': Fs, o: nat, size: nat, lost: set<nat>)
    requires Kept(s, s', o, size, lost)
    ensures Conserved(s, s', lost)
  {
  }

  /** Of the write op the part done was performed. */
  ghost predicate OpSpent(geo: Geometry, s: Fs, s': Fs, op: WriteOp, done: WriteOp, lost: set<nat>)
    requires geo.Ok()
  {
    Spent(geo, s, s', op.ino, op.offset, |done.data|, |op.data|, lost) && Conserved(s, s', lost)
  }

  lemma OpNeedAfter(geo: Geometry, s: Fs, s1: Fs, N: set<Pos>, op: WriteOp, n: nat)
    requires geo.Ok() && Covering(geo, s, s1, N) && op.offset + n <= U32 && op.offset < U32
    ensures NeedBytes(geo, s1, op.ino, op.offset, n) == NeedBytes(geo, s, op.ino, op.offset, n) - N
    ensures |N + NeedBytes(geo, s, op.ino, op.offset, n)| == |N| + |NeedBytes(geo, s1, op.ino, op.offset, n)|
    ensures N + NeedBytes(geo, s1, op.ino, op.offset, n) == N + NeedBytes(geo, s, op.ino, op.offset, n)
  {
    hide Need, Covering, Quo;
    OffsetAddressable(geo, op.offset);
    if n > 0 { OffsetAddressable(geo, op.offset + n - 1); }
    NeedAfter(geo, s, s1, N, op.ino, Quo(op.offset, geo.bs), Past(geo, op.offset, n));
    UnionSize(N, NeedBytes(geo, s, op.ino, op.offset, n));
  }

  // A run.

  /** Of the writes todo the parts in log were performed: all of them if and only if the blocks that they need
      are free. Otherwise nothing is free any more, and one block is lost exactly when the performed parts
      need fewer blocks than were free. */
  ghost predicate RunSpent(geo: Geometry, s: Fs, s': Fs, todo: seq<WriteOp>, log: seq<WriteOp>, lost: set<nat>)
    requires geo.Ok()
  {
    && |RunNeed(geo, s, log)| <= |s.free|
    && (log == todo <==> |RunNeed(geo, s, todo)| <= |s.free|)
    && (log != todo ==> s'.free == {})
    && (lost != {} <==> log != todo && |RunNeed(geo, s, log)| < |s.free|)
    && Filling(geo, s, s', RunNeed(geo, s, log))
    && (log == todo ==> Covering(geo, s, s', RunNeed(geo, s, log)))
    && Conserved(s, s', lost)
  }

  lemma RunSpentNothing(geo: Geometry, s: Fs)
    requires geo.Ok() && s.free !! s.home.Keys
    ensures RunSpent(geo, s, s, [], [], {})
  {
    SameCovers(geo, s, s);
    CoverFills(geo, s, s, {});
  }

  /** A write that changes no place. */
  lemma RunSpentSame(geo: Geometry, s: Fs, s1: Fs, s2: Fs, todo: seq<WriteOp>, log: seq<WriteOp>, lost: set<nat>)
    requires geo.Ok() && RunSpent(geo, s, s1, todo, log, lost) && Covering(geo, s1, s2, {}) && Conserved(s1, s2, {})
    ensures RunSpent(geo, s, s2, todo, log, lost)
  {
    hide RunNeed, Covering, Filling;
    var N := RunNeed(geo, s, log);
    assert N + {} == N && {} - N == {};
    CoverFills(geo, s1, s2, {});
    FillMore(geo, s, s1, s2, N, {});
    if log == todo { CoverMore(geo, s, s1, s2, N, {}); }
    EmptyAfter(geo, s1, s2);
    ConservedTrans(s, s1, s2, lost, {});
  }

  lemma EmptyAfter(geo: Geometry, s1: Fs, s2: Fs)
    requires Covering(geo, s1, s2, {})
    ensures s1.free == {} ==> s2.free == {}
  {
    hide At, ValidPos;
    assert s1.free == {} ==> |s2.free| == 0;
  }

  lemma ConservedTrans(s: Fs, s1: Fs, s2: Fs, lost: set<nat>, more: set<nat>)
    requires Conserved(s, s1, lost) && Conserved(s1, s2, more) && (lost == {} || more == {})
    ensures Conserved(s, s2, lost + more)
  {
    hide *;
    ConservedSets(s, s1, lost);
    ConservedSets(s1, s2, more);
    SetTrans(s.free + s.home.Keys, s1.free + s1.home.Keys, s2.free + s2.home.Keys, lost, more);
    SetsConserved(s, s2, lost + more);
  }

  lemma ConservedSets(s: Fs, s': Fs, lost: set<nat>)
    requires Conserved(s, s', lost)
    ensures s'.free + s'.home.Keys + lost == s.free + s.home.Keys && lost !! s'.free + s'.home.Keys && |lost| <= 1
  {
  }

  lemma SetsConserved(s: Fs, s': Fs, lost: set<nat>)
    requires s'.free + s'.home.Keys + lost == s.free + s.home.Keys && lost !! s'.free + s'.home.Keys && |lost| <= 1
    ensures Conserved(s, s', lost)
  {
  }

  lemma SetTrans(a: set<nat>, b: set<nat>, c: set<nat>, lost: set<nat>, more: set<nat>)
    requires b + lost == a && lost !! b && c + more == b && more !! c && |lost| <= 1 && |more| <= 1
    requires lost == {} || more == {}
    ensures c + (lost + more) == a && lost + more !! c && |lost + more| <= 1
  {
    assert lost + more == if lost == {} then more else lost;
  }

  /** The next write, while all before it were performed. */
  lemma StepSpentWhole(geo: Geometry, s: Fs, s1: Fs, s2: Fs, log: seq<WriteOp>, op: WriteOp, done: WriteOp,
        lost: set<nat>)
    requires geo.Ok() && RunSpent(geo, s, s1, log, log, {}) && OpSpent(geo, s1, s2, op, done, lost)
    requires Part(op, done) && op.offset + |op.data| < U32
    ensures RunSpent(geo, s, s2, log + [op], log + [done], lost)
  {
    hide RunNeed, Covering, Filling, Conserved, NeedBytes, OpNeed;
    var N := RunNeed(geo, s, log);
    CoverSize(geo, s, s1, N);
    WholeNumbers(geo, s, s1, s2, log, op, done, lost);
    WholePlaces(geo, s, s1, s2, log, op, done, lost);
    LastDiffers(log, op, done);
    ConservedTrans(s, s1, s2, {}, lost);
    assert {} + lost == lost;
  }

  lemma WholeNumbers(geo: Geometry, s: Fs, s1: Fs, s2: Fs, log: seq<WriteOp>, op: WriteOp, done: WriteOp,
        lost: set<nat>)
    requires geo.Ok() && Covering(geo, s, s1, RunNeed(geo, s, log)) && OpSpent(geo, s1, s2, op, done, lost)
    requires Part(op, done) && op.offset + |op.data| < U32
    ensures |RunNeed(geo, s, log + [done])| <= |s.free|
    ensures |done.data| == |op.data| <==> |RunNeed(geo, s, log + [op])| <= |s.free|
    ensures |done.data| < |op.data| ==> s2.free == {}
    ensures lost != {} <==> |done.data| < |op.data| && |RunNeed(geo, s, log + [done])| < |s.free|
  {
    hide RunNeed, Covering, Filling, Conserved, NeedBytes;
    var N, n := RunNeed(geo, s, log), |done.data|;
    RunNeedSnoc(geo, s, log, op);
    RunNeedSnoc(geo, s, log, done);
    CoverSize(geo, s, s1, N);
    OpNeedAfter(geo, s, s1, N, op, n);
    OpNeedAfter(geo, s, s1, N, op, |op.data|);
    LongestPrefix(geo, s1, s2, op.ino, op.offset, n, |op.data|, lost, |op.data|);
  }

  lemma WholePlaces(geo: Geometry, s: Fs, s1: Fs, s2: Fs, log: seq<WriteOp>, op: WriteOp, done: WriteOp, lost: set<nat>)
    requires geo.Ok() && Covering(geo, s, s1, RunNeed(geo, s, log)) && OpSpent(geo, s1, s2, op, done, lost)
    requires Part(op, done) && op.offset + |op.data| < U32
    ensures Filling(geo, s, s2, RunNeed(geo, s, log + [done]))
    ensures |done.data| == |op.data| ==> Covering(geo, s, s2, RunNeed(geo, s, log + [done]))
  {
    hide RunNeed, Covering, Filling, Conserved, NeedBytes;
    var N, n := RunNeed(geo, s, log), |done.data|;
    RunNeedSnoc(geo, s, log, done);
    OpNeedAfter(geo, s, s1, N, op, n);
    CoverFills(geo, s, s1, N);
    FillMore(geo, s, s1, s2, N, NeedBytes(geo, s1, op.ino, op.offset, n));
    if n == |op.data| { CoverMore(geo, s, s1, s2, N, NeedBytes(geo, s, op.ino, op.offset, n)); }
  }

  lemma CoverSize(geo: Geometry, s: Fs, s': Fs, N: set<Pos>)
    requires Covering(geo, s, s', N)
    ensures |s'.free| + |N| == |s.free|
  {
    hide At, ValidPos;
  }

  lemma LastDiffers(log: seq<WriteOp>, op: WriteOp, done: WriteOp)
    requires Part(op, done)
    ensures log + [done] == log + [op] <==> |done.data| == |op.data|
  {
    if |done.data| == |op.data| {
      assert done == op;
    } else {
      assert (log + [done])[|log|] != (log + [op])[|log|];
    }
  }

  /** The next write, after one was cut short: it reaches as far as blocks are there. */
  lemma StepSpentShort(geo: Geometry, s: Fs, s1: Fs, s2: Fs, todo: seq<WriteOp>, log: seq<WriteOp>, op: WriteOp,
        done: WriteOp, lost: set<nat>, more: set<nat>)
    requires geo.Ok() && RunSpent(geo, s, s1, todo, log, lost) && log != todo && |log| == |todo|
    requires OpSpent(geo, s1, s2, op, done, more) && op.offset + |op.data| < U32
    requires Part(op, done)
    ensures RunSpent(geo, s, s2, todo + [op], log + [done], lost + more)
  {
    hide RunNeed, Covering, Filling, Conserved, OpNeed, NeedBytes;
    PrefixDiffers(todo, log, op, done);
    MoreNeeded(geo, s, todo, op);
    ShortPlaces(geo, s, s1, s2, log, op, done, more);
    ConservedTrans(s, s1, s2, lost, more);
    assert lost + more == lost;
  }

  lemma MoreNeeded(geo: Geometry, s: Fs, todo: seq<WriteOp>, op: WriteOp)
    requires geo.Ok()
    ensures |RunNeed(geo, s, todo)| <= |RunNeed(geo, s, todo + [op])|
  {
    hide RunNeed, OpNeed;
    RunNeedSnoc(geo, s, todo, op);
    Fewer(RunNeed(geo, s, todo), RunNeed(geo, s, todo + [op]));
  }

  lemma ShortPlaces(geo: Geometry, s: Fs, s1: Fs, s2: Fs, log: seq<WriteOp>, op: WriteOp, done: WriteOp, more: set<nat>)
    requires geo.Ok() && Filling(geo, s, s1, RunNeed(geo, s, log)) && OpSpent(geo, s1, s2, op, done, more)
    requires s1.free == {}
    requires Part(op, done) && op.offset + |op.data| < U32
    ensures RunNeed(geo, s, log + [done]) == RunNeed(geo, s, log) && more == {} && s2.free == {}
    ensures Filling(geo, s, s2, RunNeed(geo, s, log))
  {
    hide RunNeed, Covering, Filling, OpNeed, NeedBytes;
    var N := RunNeed(geo, s, log);
    RunNeedSnoc(geo, s, log, done);
    assert NeedBytes(geo, s1, op.ino, op.offset, |done.data|) == {};
    NothingNew(geo, s, s1, log, done);
    FillMore(geo, s, s1, s2, N, {});
    assert N + {} == N;
    NoneAgain(geo, s1, s2, op, done, more);
  }

  lemma NoneAgain(geo: Geometry, s1: Fs, s2: Fs, op: WriteOp, done: WriteOp, more: set<nat>)
    requires geo.Ok() && OpSpent(geo, s1, s2, op, done, more) && s1.free == {} && |done.data| <= |op.data|
    ensures s2.free == {}
  {
    hide Filling, NeedBytes;
    if |done.data| == |op.data| { CoverSize(geo, s1, s2, NeedBytes(geo, s1, op.ino, op.offset, |done.data|)); }
  }

  lemma PrefixDiffers(todo: seq<WriteOp>, log: seq<WriteOp>, op: WriteOp, done: WriteOp)
    requires log != todo && |log| == |todo|
    ensures log + [done] != todo + [op]
  {
    assert (log + [done])[..|log|] == log && (todo + [op])[..|todo|] == todo;
  }

  /** Bytes that lie in blocks which are there by now need nothing that the run did not need already. */
  lemma NothingNew(geo: Geometry, s: Fs, s1: Fs, log: seq<WriteOp>, done: WriteOp)
    requires geo.Ok() && Filling(geo, s, s1, RunNeed(geo, s, log)) && done.offset + |done.data| < U32
    requires NeedBytes(geo, s1, done.ino, done.offset, |done.data|) == {}
    ensures OpNeed(geo, s, done) <= RunNeed(geo, s, log)
  {
    hide Filling, Need, Empties, Leaf, Quo, RunNeed, ValidPos, Level, At;
    var lo, hi, N := Quo(done.offset, geo.bs), Past(geo, done.offset, |done.data|), RunNeed(geo, s, log);
    OffsetAddressable(geo, done.offset);
    if |done.data| > 0 { OffsetAddressable(geo, done.offset + |done.data| - 1); }
    forall q | q in OpNeed(geo, s, done) ensures q in N {
      var k := NeedFrom(geo, s, done.ino, lo, hi, q);
      var leaf := Leaf(geo, done.ino, k);
      NeedHas(geo, s1, done.ino, lo, hi, k);
      LeafPlace(geo, done.ino, k);
      LeafThere(geo, s, s1, N, leaf);
      if At(s, leaf) != 0 { NoEmpties(s, leaf); } else { RunNeedClosed(geo, s, log, leaf); }
    }
  }

  lemma LeafThere(geo: Geometry, s: Fs, s1: Fs, N: set<Pos>, leaf: Pos)
    requires Filling(geo, s, s1, N) && Empties(s1, leaf) == {} && ValidPos(geo.Shape(), leaf)
    requires Level(geo.Shape(), leaf) == 0
    ensures At(s, leaf) != 0 || leaf in N
  {
    hide At, ValidPos, Level, Empties;
    InEmpties(s1, leaf, leaf);
  }

  /** One write more. */
  lemma RunSpentStep(geo: Geometry, s: Fs, s1: Fs, s2: Fs, todo: seq<WriteOp>, log: seq<WriteOp>, op: WriteOp,
        done: WriteOp, lost: set<nat>, more: set<nat>)
    requires geo.Ok() && RunSpent(geo, s, s1, todo, log, lost) && |log| == |todo|
    requires OpSpent(geo, s1, s2, op, done, more)
    requires Part(op, done) && op.offset + |op.data| < U32
    ensures RunSpent(geo, s, s2, todo + [op], log + [done], lost + more)
  {
    hide OpSpent, Part, RunNeed, Covering, Filling, Conserved;
    if log == todo {
      assert lost == {} && {} + more == more;
      StepSpentWhole(geo, s, s1, s2, log, op, done, more);
    } else {
      StepSpentShort(geo, s, s1, s2, todo, log, op, done, lost, more);
    }
  }
}
