/** The physical page allocator: one bit per page, a rotating scan for contiguous runs, and counters. */
module Pmm {
  import opened Options
  import opened Bits

  /** A set bit marks a page in use. The used counter is an integer: giving back pages that were never
      handed out (the reserved ones) takes it below zero. */
  datatype Pages = Pages(bits: seq<bool>, free: nat, used: int, cursor: nat, ready: bool)

  function FreeSet(p: Pages): set<nat> {
    Clear(p.bits, |p.bits|)
  }

  ghost predicate Valid(p: Pages) {
    && p.free == |FreeSet(p)|
    && (p.cursor < |p.bits| || p.cursor == 0)
  }

  function Run(s: nat, n: nat): set<nat> {
    if n == 0 then {} else Run(s, n - 1) + {s + n - 1}
  }

  ghost predicate FreeRun(bits: seq<bool>, s: nat, n: nat) {
    s + n <= |bits| && forall i | s <= i < s + n :: !bits[i]
  }

  /** A run that the scan can see whole: it does not cross the cursor. */
  predicate OneSide(cursor: nat, s: nat, n: nat) {
    cursor <= s || s + n <= cursor
  }

  /** Run s comes before run t in the order of the scan, which starts at the cursor and wraps round. */
  predicate Sooner(cursor: nat, s: nat, t: nat) {
    if cursor <= t then cursor <= s < t else s < t || cursor <= s
  }

  /** What pmm_alloc does: the first free run in scan order is taken; it fails exactly when every free run
      of that length straddles the cursor. */
  ghost predicate Allocated(p: Pages, p': Pages, count: nat, r: Option<nat>) {
    && (r.None? ==> p' == p)
    && (r.None? <==>
          !p.ready || count == 0 || forall s: nat {:trigger FreeRun(p.bits, s, count)} | FreeRun(p.bits, s, count) ::
            !OneSide(p.cursor, s, count))
    && (r.Some? ==>
          && FreeRun(p.bits, r.value, count) && OneSide(p.cursor, r.value, count) && r.value < |p.bits|
          && (forall s: nat {:trigger FreeRun(p.bits, s, count)}
                | FreeRun(p.bits, s, count) && OneSide(p.cursor, s, count) :: !Sooner(p.cursor, s, r.value))
          && |p'.bits| == |p.bits| && FreeSet(p') == FreeSet(p) - Run(r.value, count)
          && p'.free + p'.used == p.free + p.used && p'.free == p.free - count && p'.ready == p.ready
          && p'.cursor == (r.value + count) % |p.bits|)
  }

  // The scan.

  /** No free run of that length lies inside [lo, hi). */
  ghost predicate NoRun(bits: seq<bool>, lo: nat, hi: nat, count: nat) {
    forall s: nat {:trigger FreeRun(bits, s, count)} | lo <= s && s + count <= hi :: !FreeRun(bits, s, count)
  }

  /** The current streak: the last `streak` bits before hi are clear, the bit before them is set or outside. */
  ghost predicate Streak(bits: seq<bool>, lo: nat, hi: nat, streak: nat) {
    && lo + streak <= hi <= |bits| && FreeRun(bits, hi - streak, streak)
    && (hi - streak == lo || bits[hi - streak - 1])
  }

  lemma NoRunStep(bits: seq<bool>, lo: nat, hi: nat, streak: nat, count: nat)
    requires NoRun(bits, lo, hi, count) && Streak(bits, lo, hi, streak) && hi < |bits| && count > 0
    requires bits[hi] || streak + 1 < count
    ensures NoRun(bits, lo, hi + 1, count)
  {
    forall s: nat | lo <= s && s + count <= hi + 1 ensures !FreeRun(bits, s, count) {
      if s + count == hi + 1 {
        var w := if bits[hi] then hi else hi - streak - 1;
        assert s <= w < s + count && bits[w];
      }
    }
  }

  lemma Wrap(c: nat, i: nat, total: nat)
    requires c < total && i < total
    ensures (c + i) % total == if c + i < total then c + i else c + i - total
  {
    if c + i >= total { assert (c + i) % total == (c + i - total) % total; }
  }

  method Alloc(p: Pages, count: nat) returns (r: Option<nat>, p': Pages)
    requires Valid(p)
    ensures Valid(p') && Allocated(p, p', count, r)
  {
    hide Allocated, FreeRun, NoRun, Streak, Valid, Clear;
    if !p.ready || count == 0 {
      Refused(p, count);
      return None, p;
    }
    CursorIn(p);
    var total := |p.bits|;
    var streak, start := 0, 0;
    ghost var wrapped, lo, hi := false, p.cursor, p.cursor;
    StreakOff(p.bits, p.cursor, p.cursor, count);
    var i := 0;
    while i < total
      invariant i <= total && 0 <= streak < count && 0 <= start
      invariant lo == (if wrapped then 0 else p.cursor) && 0 <= hi == p.cursor + i - (if wrapped then total else 0)
      invariant wrapped ==> NoRun(p.bits, p.cursor, total, count)
      invariant streak > 0 ==> start == hi - streak
      invariant lo <= hi <= total && Streak(p.bits, lo, hi, streak) && NoRun(p.bits, lo, hi, count)
    {
      Wrap(p.cursor, i, total);
      var bit := (p.cursor + i) % total;
      if bit == 0 && streak > 0 { streak := 0; }
      if bit == 0 && i > 0 {
        wrapped, lo, hi := true, 0, 0;
        StreakOff(p.bits, 0, 0, count);
      } else if bit == 0 {
        StreakOff(p.bits, 0, 0, count);
      }
      if !p.bits[bit] {
        if streak == 0 { start := bit; }
        streak := streak + 1;
        StreakOn(p.bits, lo, hi, streak - 1);
        if streak == count {
          p' := Take(p, start, count);
          r := Some(start);
          Found(p, p', count, start, hi, wrapped);
          return;
        }
        NoRunStep(p.bits, lo, hi, streak - 1, count);
      } else {
        NoRunStep(p.bits, lo, hi, streak, count);
        streak := 0;
        StreakCut(p.bits, lo, hi);
      }
      hi := hi + 1;
      i := i + 1;
    }
    NotFound(p, count, wrapped);
    return None, p;
  }

  lemma Refused(p: Pages, count: nat)
    requires !p.ready || count == 0
    ensures Allocated(p, p, count, None)
  {
  }

  lemma CursorIn(p: Pages)
    requires Valid(p)
    ensures p.cursor <= |p.bits| && (|p.bits| > 0 ==> p.cursor < |p.bits|)
  {
  }

  lemma StreakOff(bits: seq<bool>, lo: nat, hi: nat, count: nat)
    requires lo == hi <= |bits| && count > 0
    ensures Streak(bits, lo, hi, 0) && NoRun(bits, lo, hi, count)
  {
  }

  lemma StreakOn(bits: seq<bool>, lo: nat, hi: nat, streak: nat)
    requires Streak(bits, lo, hi, streak) && hi < |bits| && !bits[hi]
    ensures Streak(bits, lo, hi + 1, streak + 1) && FreeRun(bits, hi - streak, streak + 1)
  {
  }

  lemma StreakCut(bits: seq<bool>, lo: nat, hi: nat)
    requires lo <= hi < |bits| && bits[hi]
    ensures Streak(bits, lo, hi + 1, 0)
  {
  }

  /** Mark the run used, move the cursor behind it, and keep the counters. */
  method Take(p: Pages, start: nat, count: nat) returns (p': Pages)
    requires Valid(p) && count > 0 && FreeRun(p.bits, start, count)
    ensures Valid(p') && |p'.bits| == |p.bits| && FreeSet(p') == FreeSet(p) - Run(start, count)
    ensures p'.free + p'.used == p.free + p.used && p'.free == p.free - count && p'.ready == p.ready
    ensures p'.cursor == (start + count) % |p.bits|
  {
    hide Run, Clear, Valid, FreeSet, Less;
    LessStep(FreeSet(p), start, 0);
    CursorMoves(p, start, count);
    p' := p.(cursor := (start + count) % |p.bits|);
    for j := 0 to count
      invariant Valid(p') && |p'.bits| == |p.bits| && p'.free + p'.used == p.free + p.used && p'.free == p.free - j
      invariant forall i | start + j <= i < start + count :: !p'.bits[i]
      invariant p'.ready == p.ready && p'.cursor == (start + count) % |p.bits|
      invariant FreeSet(p') == Less(FreeSet(p), start, j)
    {
      LessStep(FreeSet(p), start, j);
      TakeOne(p', start + j);
      p' := Pages(p'.bits[start + j := true], p'.free - 1, p'.used + 1, p'.cursor, p'.ready);
    }
    LessRun(FreeSet(p), start, count);
  }

  lemma CursorMoves(p: Pages, start: nat, count: nat)
    requires Valid(p) && count > 0 && FreeRun(p.bits, start, count)
    ensures |p.bits| > 0 && Valid(p.(cursor := (start + count) % |p.bits|))
    ensures FreeSet(p.(cursor := (start + count) % |p.bits|)) == FreeSet(p)
  {
  }

  lemma TakeOne(p: Pages, bit: nat)
    requires Valid(p) && bit < |p.bits| && !p.bits[bit]
    ensures p.free > 0
    ensures var p' := Pages(p.bits[bit := true], p.free - 1, p.used + 1, p.cursor, p.ready);
            && Valid(p') && FreeSet(p') == FreeSet(p) - {bit}
  {
    ClearUpdate(p.bits, |p.bits|, bit);
  }

  /** A set without the first n pages from s on, one page at a time; and with them. */
  ghost function Less(f: set<nat>, s: nat, n: nat): set<nat> {
    if n == 0 then f else Less(f, s, n - 1) - {s + n - 1}
  }

  ghost function More(f: set<nat>, s: nat, n: nat): set<nat> {
    if n == 0 then f else More(f, s, n - 1) + {s + n - 1}
  }

  lemma LessStep(f: set<nat>, s: nat, n: nat)
    ensures Less(f, s, 0) == f && Less(f, s, n + 1) == Less(f, s, n) - {s + n}
  {
  }

  lemma MoreStep(f: set<nat>, s: nat, n: nat)
    ensures More(f, s, 0) == f && More(f, s, n + 1) == More(f, s, n) + {s + n}
  {
  }

  lemma {:induction false} LessRun(f: set<nat>, s: nat, n: nat)
    ensures Less(f, s, n) == f - Run(s, n)
  {
    if n > 0 { LessRun(f, s, n - 1); }
  }

  lemma {:induction false} MoreRun(f: set<nat>, s: nat, n: nat)
    ensures More(f, s, n) == f + Run(s, n)
  {
    if n > 0 { MoreRun(f, s, n - 1); }
  }

  lemma RunGrows(s: nat, n: nat)
    ensures Run(s, n + 1) == Run(s, n) + {s + n} && Run(s, 0) == {}
  {
  }

  lemma Found(p: Pages, p': Pages, count: nat, start: nat, hi: nat, wrapped: bool)
    requires p.ready && count > 0 && FreeRun(p.bits, start, count) && start + count == hi + 1
    requires NoRun(p.bits, if wrapped then 0 else p.cursor, hi, count)
    requires wrapped ==> NoRun(p.bits, p.cursor, |p.bits|, count) && hi < p.cursor
    requires !wrapped ==> p.cursor <= start
    requires |p'.bits| == |p.bits| && FreeSet(p') == FreeSet(p) - Run(start, count)
    requires p'.free + p'.used == p.free + p.used && p'.free == p.free - count && p'.ready == p.ready
    requires |p.bits| > 0 && p'.cursor == (start + count) % |p.bits|
    ensures Allocated(p, p', count, Some(start))
  {
    hide Clear, NoRun;
    forall s: nat | FreeRun(p.bits, s, count) && OneSide(p.cursor, s, count) ensures !Sooner(p.cursor, s, start) {
      if Sooner(p.cursor, s, start) { SoonerSeen(p, count, start, hi, wrapped, s); }
    }
  }

  lemma SoonerSeen(p: Pages, count: nat, start: nat, hi: nat, wrapped: bool, s: nat)
    requires start + count == hi + 1 && s + count <= |p.bits| && Sooner(p.cursor, s, start)
    requires NoRun(p.bits, if wrapped then 0 else p.cursor, hi, count)
    requires wrapped ==> NoRun(p.bits, p.cursor, |p.bits|, count) && hi < p.cursor
    requires !wrapped ==> p.cursor <= start
    ensures !FreeRun(p.bits, s, count)
  {
  }

  lemma NotFound(p: Pages, count: nat, wrapped: bool)
    requires p.ready && count > 0
    requires wrapped ==> NoRun(p.bits, 0, p.cursor, count) && NoRun(p.bits, p.cursor, |p.bits|, count)
    requires !wrapped ==> p.cursor == 0 && NoRun(p.bits, 0, |p.bits|, count)
    ensures Allocated(p, p, count, None)
  {
  }

  // Giving pages back.

  /** pmm_free of count pages from page `start`; page 0 is the null pointer and is never given back. */
  method Free(p: Pages, start: nat, count: nat) returns (p': Pages)
    requires Valid(p) && (start > 0 ==> start + count <= |p.bits|)
    ensures Valid(p') && |p'.bits| == |p.bits| && p'.free + p'.used == p.free + p.used
    ensures p'.ready == p.ready && p'.cursor == p.cursor
    ensures FreeSet(p') == if p.ready && start > 0 then FreeSet(p) + Run(start, count) else FreeSet(p)
  {
    hide Valid, FreeSet, Run, More;
    MoreRun(FreeSet(p), start, count);
    if !p.ready || start == 0 || count == 0 {
      RunGrows(start, 0);
      return p;
    }
    p' := p;
    MoreStep(FreeSet(p), start, 0);
    for i := 0 to count
      invariant Valid(p') && |p'.bits| == |p.bits| && p'.free + p'.used == p.free + p.used
      invariant p'.ready == p.ready && p'.cursor == p.cursor && FreeSet(p') == More(FreeSet(p), start, i)
    {
      MoreStep(FreeSet(p), start, i);
      p' := FreeOne(p', start + i);
    }
  }

  method FreeOne(p: Pages, bit: nat) returns (p': Pages)
    requires Valid(p) && bit < |p.bits|
    ensures Valid(p') && |p'.bits| == |p.bits| && p'.free + p'.used == p.free + p.used
    ensures p'.ready == p.ready && p'.cursor == p.cursor && FreeSet(p') == FreeSet(p) + {bit}
  {
    ClearUpdate(p.bits, |p.bits|, bit);
    if p.bits[bit] {
      p' := Pages(p.bits[bit := false], p.free + 1, p.used - 1, p.cursor, p.ready);
    } else {
      p' := p;
    }
  }

  /** The allocator as an object: over every run, free and used pages add up to the same number. */
  class PageAllocator {
    var pages: Pages
    ghost const usable: int

    ghost predicate Consistent()
      reads this
    {
      Valid(pages) && pages.free + pages.used == usable
    }

    /** After pmm_init: the bitmap marks the free pages, and none is handed out yet. */
    constructor (bits: seq<bool>)
      ensures Consistent() && pages.bits == bits && pages.used == 0 && usable == |Clear(bits, |bits|)|
      ensures pages.cursor == 0 && pages.ready
    {
      var n := 0;
      assert Clear(bits, 0) == {};
      for i := 0 to |bits|
        invariant n == |Clear(bits, i)|
      {
        ClearNext(bits, i);
        if !bits[i] { n := n + 1; }
      }
      pages := Pages(bits, n, 0, 0, true);
      usable := |Clear(bits, |bits|)|;
    }

    method Take(count: nat) returns (r: Option<nat>)
      requires Consistent()
      modifies this
      ensures Consistent() && Allocated(old(pages), pages, count, r)
    {
      hide Valid, Allocated;
      var p;
      r, p := Alloc(pages, count);
      TotalKept(pages, p, count, r);
      pages := p;
    }

    method Give(start: nat, count: nat)
      requires Consistent() && (start > 0 ==> start + count <= |pages.bits|)
      modifies this
      ensures Consistent() && |pages.bits| == |old(pages.bits)| && pages.cursor == old(pages.cursor)
      ensures pages.ready == old(pages.ready)
      ensures FreeSet(pages) == if old(pages.ready) && start > 0 then old(FreeSet(pages)) + Run(start, count)
            else old(FreeSet(pages))
    {
      hide Valid;
      pages := Free(pages, start, count);
    }
  }

  lemma TotalKept(p: Pages, p': Pages, count: nat, r: Option<nat>)
    requires Allocated(p, p', count, r)
    ensures p'.free + p'.used == p.free + p.used
  {
  }

  lemma ClearNext(bits: seq<bool>, i: nat)
    requires i < |bits|
    ensures |Clear(bits, i + 1)| == |Clear(bits, i)| + if bits[i] then 0 else 1
  {
    assert Clear(bits, i + 1) == Clear(bits, i) + if bits[i] then {} else {i};
  }

  /** A run of free pages that crosses the cursor is not found. Of three pages the first is in use; one
      page is taken and given back, which leaves the cursor between the two free pages: a request for
      two pages then fails. */
  method Straddled() returns (first: Option<nat>, both: Option<nat>, pages: Pages)
    ensures first == Some(1) && both.None? && FreeRun(pages.bits, 1, 2) && |pages.bits| == 3 && pages.cursor == 2
  {
    hide Valid, Allocated, FreeSet, Run, FreeRun;
    var a := new PageAllocator([true, false, false]);
    ghost var start := a.pages;
    first := a.Take(1);
    MiddleTaken(start, a.pages, first);
    RunGrows(1, 0);
    a.Give(1, 1);
    ghost var given := a.pages;
    both := a.Take(2);
    NoneFits(given, a.pages, both);
    pages := a.pages;
  }

  lemma MiddleTaken(p: Pages, p': Pages, r: Option<nat>)
    requires p.bits == [true, false, false] && p.cursor == 0 && p.ready && Allocated(p, p', 1, r)
    ensures r == Some(1) && p'.cursor == 2 && p'.ready && |p'.bits| == 3 && FreeSet(p') == {2}
  {
    assert FreeRun(p.bits, 1, 1) && OneSide(p.cursor, 1, 1);
    assert !p.bits[r.value];
    RunGrows(1, 0);
    assert FreeSet(p) == {1, 2};
  }

  lemma NoneFits(p: Pages, p': Pages, r: Option<nat>)
    requires |p.bits| == 3 && p.cursor == 2 && FreeSet(p) == {1, 2} && Allocated(p, p', 2, r)
    ensures r.None? && p' == p && FreeRun(p.bits, 1, 2)
  {
    assert 0 !in FreeSet(p) && 1 in FreeSet(p) && 2 in FreeSet(p);
  }
}
