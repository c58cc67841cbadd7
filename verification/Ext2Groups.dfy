/** The bitmap allocators of ext2: one bitmap and one free counter per block group, and a
    superblock counter over all groups. Blocks and inodes use the same scheme. */
module Ext2Groups {
  import opened Options
  import opened Arith
  import opened Bits


  datatype Groups = Groups(bitmaps: seq<seq<bool>>, free: seq<nat>, total: nat)

  function Sum(s: seq<nat>): nat {
    if s == [] then 0 else s[0] + Sum(s[1..])
  }

  lemma {:induction false} SumUpdate(s: seq<nat>, i: nat, v: nat)
    requires i < |s|
    ensures Sum(s[..i] + [v] + s[i + 1..]) + s[i] == Sum(s) + v
    ensures s[i] <= Sum(s)
  {
    var s' := s[..i] + [v] + s[i + 1..];
    if i == 0 {
      assert s'[1..] == s[1..];
    } else {
      SumUpdate(s[1..], i - 1, v);
      assert s'[1..] == s[1..][..i - 1] + [v] + s[1..][i..];
    }
  }

  /** limits[g] is how many items group g covers. Each group counter is the number of clear bits of
      its bitmap and the superblock counter is their sum. */
  ghost predicate Consistent(gs: Groups, limits: seq<nat>) {
    && |gs.bitmaps| == |gs.free| == |limits|
    && (forall g | 0 <= g < |limits| :: limits[g] <= |gs.bitmaps[g]|)
    && (forall g | 0 <= g < |limits| :: gs.free[g] == |Clear(gs.bitmaps[g], limits[g])|)
    && gs.total == Sum(gs.free)
  }

  predicate IsClear(gs: Groups, limits: seq<nat>, g: nat, i: nat) {
    g < |limits| && g < |gs.bitmaps| && i < limits[g] && i < |gs.bitmaps[g]| && !gs.bitmaps[g][i]
  }

  function Mark(gs: Groups, g: nat, i: nat, used: bool, free: nat, total: nat): (r: Groups)
    requires g < |gs.bitmaps| && g < |gs.free| && i < |gs.bitmaps[g]|
  {
    Groups(gs.bitmaps[g := gs.bitmaps[g][i := used]], gs.free[..g] + [free] + gs.free[g + 1..], total)
  }

  /** Taking a clear item, or giving one back that is in use, keeps both levels of counters exact. */
  lemma MarkConsistent(gs: Groups, limits: seq<nat>, g: nat, i: nat)
    requires Consistent(gs, limits) && g < |limits| && i < limits[g]
    ensures !gs.bitmaps[g][i] ==> gs.free[g] > 0 && gs.total > 0 &&
                                  Consistent(Mark(gs, g, i, true, gs.free[g] - 1, gs.total - 1), limits)
    ensures gs.bitmaps[g][i] ==> gs.free[g] < limits[g]
    ensures Consistent(Mark(gs, g, i, false, gs.free[g] + 1, gs.total + 1), limits) <==> gs.bitmaps[g][i]
  {
    hide Clear, Sum, Mark;
    if !gs.bitmaps[g][i] {
      MarkUsed(gs, limits, g, i);
      NotUsed(gs, limits, g, i);
    } else {
      MarkFree(gs, limits, g, i);
    }
  }

  lemma MarkUsed(gs: Groups, limits: seq<nat>, g: nat, i: nat)
    requires Consistent(gs, limits) && g < |limits| && i < limits[g] && !gs.bitmaps[g][i]
    ensures gs.free[g] > 0 && gs.total > 0 && Consistent(Mark(gs, g, i, true, gs.free[g] - 1, gs.total - 1), limits)
  {
    hide Clear, Sum;
    ClearUpdate(gs.bitmaps[g], limits[g], i);
    ClearHas(gs.bitmaps[g], limits[g], i);
    SumUpdate(gs.free, g, gs.free[g] - 1);
    var m := Mark(gs, g, i, true, gs.free[g] - 1, gs.total - 1);
    assert forall k | 0 <= k < |limits| && k != g :: m.bitmaps[k] == gs.bitmaps[k] && m.free[k] == gs.free[k];
  }

  lemma ClearHas(bm: seq<bool>, n: nat, i: nat)
    requires i < n <= |bm| && !bm[i]
    ensures |Clear(bm, n)| > 0 && Clear(bm, n) + {i} == Clear(bm, n)
  {
    assert i in Clear(bm, n);
  }

  lemma NotUsed(gs: Groups, limits: seq<nat>, g: nat, i: nat)
    requires Consistent(gs, limits) && g < |limits| && i < limits[g] && !gs.bitmaps[g][i]
    ensures !Consistent(Mark(gs, g, i, false, gs.free[g] + 1, gs.total + 1), limits)
  {
    hide Clear, Sum;
    ClearUpdate(gs.bitmaps[g], limits[g], i);
    ClearHas(gs.bitmaps[g], limits[g], i);
    var m := Mark(gs, g, i, false, gs.free[g] + 1, gs.total + 1);
    assert m.free[g] == gs.free[g] + 1 && m.bitmaps[g] == gs.bitmaps[g][i := false];
  }

  lemma MarkFree(gs: Groups, limits: seq<nat>, g: nat, i: nat)
    requires Consistent(gs, limits) && g < |limits| && i < limits[g] && gs.bitmaps[g][i]
    ensures gs.free[g] < limits[g] && Consistent(Mark(gs, g, i, false, gs.free[g] + 1, gs.total + 1), limits)
  {
    hide Clear, Sum;
    ClearUpdate(gs.bitmaps[g], limits[g], i);
    ClearBound(gs.bitmaps[g][i := false], limits[g]);
    SumUpdate(gs.free, g, gs.free[g] + 1);
    var m := Mark(gs, g, i, false, gs.free[g] + 1, gs.total + 1);
    assert forall k | 0 <= k < |limits| && k != g :: m.bitmaps[k] == gs.bitmaps[k] && m.free[k] == gs.free[k];
  }

  lemma ClearBound(bm: seq<bool>, n: nat)
    requires n <= |bm|
    ensures |Clear(bm, n)| <= n
  {
    BoundedSet(Clear(bm, n), n);
  }

  lemma {:induction false} BoundedSet(s: set<nat>, n: nat)
    requires forall i | i in s :: i < n
    ensures |s| <= n
  {
    if n > 0 { BoundedSet(s - {n - 1}, n - 1); }
    else { assert s == {}; }
  }

  /** The groups in the order in which a scan that starts at group `start` visits them. */
  function Visit(start: nat, k: nat, n: nat): (g: nat)
    requires n > 0
    ensures g < n
  {
    (start + k) % n
  }

  lemma VisitCovers(start: nat, n: nat, g: nat) returns (k: nat)
    requires g < n
    ensures k < n && Visit(start, k, n) == g
  {
    var s := start % n;
    k := if g >= s then g - s else g + n - s;
    var q := start / n;
    assert start == q * n + s;
    if g >= s {
      assert start + k == q * n + g;
      DivModUnique(start + k, n, q, g);
    } else {
      assert start + k == (q + 1) * n + g by { assert (q + 1) * n == q * n + n; }
      DivModUnique(start + k, n, q + 1, g);
    }
  }

  /** A scan from group start % n reaches group g after as many others as lie cyclically before it. */
  lemma VisitTurn(start: nat, k: nat, n: nat)
    requires k < n
    ensures (Visit(start, k, n) + n - start % n) % n == k
  {
    var s, q := start % n, start / n;
    assert start == q * n + s;
    if s + k < n {
      DivModUnique(start + k, n, q, s + k);
      DivModUnique(n + k, n, 1, k);
    } else {
      assert start + k == (q + 1) * n + (s + k - n) by { assert (q + 1) * n == q * n + n; }
      DivModUnique(start + k, n, q + 1, s + k - n);
      DivModUnique(k, n, 0, k);
    }
  }

  /** So the groups that lie cyclically before the one visited at turn k were visited earlier. */
  lemma VisitedBefore(gs: Groups, limits: seq<nat>, start: nat, k: nat)
    requires k < |limits| && forall m: nat, j: nat | m < k :: !IsClear(gs, limits, Visit(start, m, |limits|), j)
    ensures var n, g := |limits|, Visit(start, k, |limits|);
            forall h: nat, j: nat {:trigger IsClear(gs, limits, h, j)}
              | h < n && (h + n - start % n) % n < (g + n - start % n) % n :: !IsClear(gs, limits, h, j)
  {
    hide IsClear;
    var n, g := |limits|, Visit(start, k, |limits|);
    VisitTurn(start, k, n);
    forall h: nat, j: nat | h < n && (h + n - start % n) % n < (g + n - start % n) % n
      ensures !IsClear(gs, limits, h, j)
    {
      var m := VisitCovers(start, n, h);
      VisitTurn(start, m, n);
    }
  }

  lemma NoneClear(gs: Groups, limits: seq<nat>, g: nat)
    requires Consistent(gs, limits) && g < |limits| && gs.free[g] == 0
    ensures forall j: nat :: !IsClear(gs, limits, g, j)
  {
    assert Clear(gs.bitmaps[g], limits[g]) == {};
    forall j: nat | j < limits[g] ensures gs.bitmaps[g][j] { assert j !in Clear(gs.bitmaps[g], limits[g]); }
  }

  /** alloc_block and alloc_inode: scan the groups in rotated order, skipping those whose counter is
      zero, and take the first clear bit. Fails only when every group is full. */
  method TakeFirst(gs: Groups, limits: seq<nat>, start: nat) returns (found: Option<(nat, nat)>, gs': Groups)
    requires Consistent(gs, limits)
    ensures Consistent(gs', limits)
    ensures found.None? ==> gs' == gs && forall g: nat, i: nat :: !IsClear(gs, limits, g, i)
    ensures found.Some? ==>
      var (g, i) := found.value;
      && IsClear(gs, limits, g, i) && gs.free[g] > 0 && gs.total > 0
      && gs' == Mark(gs, g, i, true, gs.free[g] - 1, gs.total - 1)
      && (forall j | 0 <= j < i :: gs.bitmaps[g][j])
      && forall h: nat, j: nat {:trigger IsClear(gs, limits, h, j)}
           | h < |limits| &&
             (h + |limits| - start % |limits|) % |limits| < (g + |limits| - start % |limits|) % |limits| ::
           !IsClear(gs, limits, h, j)
    ensures |limits| > 0 && (exists j: nat :: IsClear(gs, limits, start % |limits|, j)) ==>
              found.Some? && found.value.0 == start % |limits|
  {
    gs' := gs;
    var n := |limits|;
    for k := 0 to n
      invariant gs' == gs
      invariant forall m: nat, j: nat | m < k :: !IsClear(gs, limits, Visit(start, m, n), j)
    {
      var g := Visit(start, k, n);
      if gs.free[g] == 0 {
        NoneClear(gs, limits, g);
      } else {
        for i := 0 to limits[g]
          invariant forall j | 0 <= j < i :: gs.bitmaps[g][j]
        {
          if !gs.bitmaps[g][i] {
            MarkConsistent(gs, limits, g, i);
            VisitedBefore(gs, limits, start, k);
            gs' := Mark(gs, g, i, true, gs.free[g] - 1, gs.total - 1);
            PreferredGroup(start, g, n);
            return Some((g, i)), gs';
          }
        }
      }
    }
    forall g: nat, i: nat ensures !IsClear(gs, limits, g, i) {
      if g < n { var k := VisitCovers(start, n, g); }
    }
    found := None;
  }

  lemma PreferredGroup(start: nat, g: nat, n: nat)
    requires g < n
    ensures (start % n + n - start % n) % n == 0
    ensures g != start % n ==> 0 < (g + n - start % n) % n
  {
    var s := start % n;
    assert n % n == 0;
    if g > s { DivModUnique(g + n - s, n, 1, g - s); } else if g < s { DivModUnique(g + n - s, n, 0, g + n - s); }
  }

  // Item numbers: item i of group g is number first + g * per + i.

  datatype Layout = Layout(first: nat, per: nat, limits: seq<nat>) {
    predicate Ok() {
      per > 0 && forall g | 0 <= g < |limits| :: limits[g] <= per
    }

    function Number(g: nat, i: nat): nat { first + g * per + i }

    function GroupOf(x: nat): nat
      requires per > 0 && x >= first
    {
      DivMod(x - first, per);
      (x - first) / per
    }

    function IndexOf(x: nat): nat
      requires per > 0 && x >= first
    {
      (x - first) % per
    }

    predicate Covers(x: nat) {
      per > 0 && x >= first && GroupOf(x) < |limits| && IndexOf(x) < limits[GroupOf(x)]
    }

    lemma NumberInverse(g: nat, i: nat)
      requires i < per
      ensures Number(g, i) >= first && GroupOf(Number(g, i)) == g && IndexOf(Number(g, i)) == i
    {
      DivModUnique(g * per + i, per, g, i);
    }

    lemma NumberOf(x: nat)
      requires per > 0 && x >= first
      ensures Number(GroupOf(x), IndexOf(x)) == x
    {
      DivMod(x - first, per);
    }
  }

  predicate IsFree(lay: Layout, gs: Groups, x: nat)
    requires lay.Ok()
  {
    x >= lay.first && IsClear(gs, lay.limits, lay.GroupOf(x), lay.IndexOf(x))
  }

  /** The bitmaps and both levels of counters stand for the set `free` of item numbers. */
  ghost predicate Represents(lay: Layout, gs: Groups, free: set<nat>) {
    lay.Ok() && Consistent(gs, lay.limits) && forall x: nat {:trigger IsFree(lay, gs, x)} ::
        x in free <==> IsFree(lay, gs, x)
  }

  lemma InFree(lay: Layout, gs: Groups, free: set<nat>, x: nat)
    requires Represents(lay, gs, free)
    ensures x in free <==> IsFree(lay, gs, x)
  {
  }

  lemma FreeCovered(lay: Layout, gs: Groups, free: set<nat>, x: nat)
    requires Represents(lay, gs, free) && x in free
    ensures lay.Covers(x)
  {
    assert IsFree(lay, gs, x);
  }

  /** Writing one bit changes the status of exactly one item number. */
  lemma FreeMark(lay: Layout, gs: Groups, g: nat, i: nat, used: bool, f: nat, total: nat, x: nat)
    requires lay.Ok() && Consistent(gs, lay.limits) && g < |lay.limits| && i < lay.limits[g]
    ensures IsFree(lay, Mark(gs, g, i, used, f, total), x) <==>
              if x == lay.Number(g, i) then !used else IsFree(lay, gs, x)
  {
    lay.NumberInverse(g, i);
    if x >= lay.first { lay.NumberOf(x); }
  }

  /** How many groups a scan from group start % n comes to before group g. */
  ghost function Turn(start: nat, g: nat, n: nat): int
    requires n > 0
  {
    (g + n - start % n) % n
  }

  /** Such a scan, upwards in each group, comes to item x no later than to item y. */
  ghost predicate NoLater(lay: Layout, start: nat, x: nat, y: nat) {
    && lay.per > 0 && x >= lay.first && y >= lay.first && |lay.limits| > 0
    && var n, a, b := |lay.limits|, lay.GroupOf(x), lay.GroupOf(y);
       Turn(start, a, n) < Turn(start, b, n) || (a == b && x <= y)
  }

  /** The first clear item in the order of the scan, told on item numbers. */
  lemma FirstTaken(lay: Layout, gs: Groups, start: nat, g: nat, i: nat, y: nat)
    requires lay.Ok() && Consistent(gs, lay.limits) && IsClear(gs, lay.limits, g, i) && IsFree(lay, gs, y)
    requires forall j | 0 <= j < i :: gs.bitmaps[g][j]
    requires forall h: nat, j: nat {:trigger IsClear(gs, lay.limits, h, j)}
               | h < |lay.limits| && Turn(start, h, |lay.limits|) < Turn(start, g, |lay.limits|) ::
               !IsClear(gs, lay.limits, h, j)
    ensures NoLater(lay, start, lay.Number(g, i), y)
  {
    hide Turn, Consistent;
    var n, h, j := |lay.limits|, lay.GroupOf(y), lay.IndexOf(y);
    lay.NumberInverse(g, i);
    lay.NumberOf(y);
    assert IsClear(gs, lay.limits, h, j);
    if Turn(start, h, n) == Turn(start, g, n) { SameTurn(start, g, h, n); }
  }

  lemma SameTurn(start: nat, g: nat, h: nat, n: nat)
    requires g < n && h < n && Turn(start, g, n) == Turn(start, h, n)
    ensures g == h
  {
    var s := start % n;
    if g >= s { DivModUnique(g + n - s, n, 1, g - s); } else { DivModUnique(g + n - s, n, 0, g + n - s); }
    if h >= s { DivModUnique(h + n - s, n, 1, h - s); } else { DivModUnique(h + n - s, n, 0, h + n - s); }
  }

  /** A scan from group 0 comes to the items in the order of their numbers. */
  lemma ScanFromZero(lay: Layout, x: nat, y: nat)
    requires lay.Covers(x) && lay.Covers(y) && NoLater(lay, 0, x, y)
    ensures x <= y
  {
    var n, a, b := |lay.limits|, lay.GroupOf(x), lay.GroupOf(y);
    ZeroTurn(a, n);
    ZeroTurn(b, n);
    if a < b {
      DivMod(x - lay.first, lay.per);
      DivMod(y - lay.first, lay.per);
      assert (a + 1) * lay.per <= b * lay.per by { MulMono(a + 1, b, lay.per); }
      assert (a + 1) * lay.per == a * lay.per + lay.per;
    }
  }

  lemma MulMono(a: nat, b: nat, c: nat)
    requires a <= b
    ensures a * c <= b * c
  {
  }

  lemma ZeroTurn(g: nat, n: nat)
    requires g < n
    ensures Turn(0, g, n) == g
  {
    DivModUnique(g + n, n, 1, g);
  }

  /** The bit of item x, and no other bit, became used. */
  ghost predicate BitSet(lay: Layout, gs: Groups, gs': Groups, x: nat, used: bool) {
    exists g: nat, i: nat {:trigger gs.bitmaps[g][i]} ::
      && g < |gs.bitmaps| && i < |gs.bitmaps[g]| && i < lay.per && x == lay.first + g * lay.per + i
      && gs'.bitmaps == gs.bitmaps[g := gs.bitmaps[g][i := used]]
  }

  /** alloc_block / alloc_inode on item numbers. */
  method Take(lay: Layout, gs: Groups, start: nat, ghost free: set<nat>) returns (x: Option<nat>, gs': Groups)
    requires Represents(lay, gs, free)
    ensures x.None? ==> gs' == gs && free == {}
    ensures x.Some? ==> x.value in free && Represents(lay, gs', free - {x.value})
    ensures x.Some? ==> gs'.total + 1 == gs.total && lay.Covers(x.value) && BitSet(lay, gs, gs', x.value, true)
    ensures x.Some? ==> forall y | y in free :: NoLater(lay, start, x.value, y)
  {
    var found;
    found, gs' := TakeFirst(gs, lay.limits, start);
    if found.None? {
      assert free == {} by {
        forall y: nat ensures y !in free { InFree(lay, gs, free, y); }
      }
      return None, gs';
    }
    var (g, i) := found.value;
    lay.NumberInverse(g, i);
    InFree(lay, gs, free, lay.Number(g, i));
    forall y | y in free ensures NoLater(lay, start, lay.Number(g, i), y) {
      InFree(lay, gs, free, y);
      FirstTaken(lay, gs, start, g, i, y);
    }
    assert gs.bitmaps[g][i] == false;
    forall y: nat ensures y in free - {lay.Number(g, i)} <==> IsFree(lay, gs', y) {
      InFree(lay, gs, free, y);
      FreeMark(lay, gs, g, i, true, gs.free[g] - 1, gs.total - 1, y);
    }
    x := Some(lay.Number(g, i));
  }

  /** free_block / free_inode: clear the bit and raise both counters. The counters stay exact if and
      only if the item was in use. */
  method Give(lay: Layout, gs: Groups, x: nat, ghost free: set<nat>) returns (gs': Groups)
    requires Represents(lay, gs, free) && lay.Covers(x)
    ensures Represents(lay, gs', free + {x}) <==> x !in free
    ensures gs'.total == gs.total + 1 && BitSet(lay, gs, gs', x, false)
  {
    var g, i := lay.GroupOf(x), lay.IndexOf(x);
    lay.NumberOf(x);
    MarkConsistent(gs, lay.limits, g, i);
    gs' := Mark(gs, g, i, false, gs.free[g] + 1, gs.total + 1);
    InFree(lay, gs, free, x);
    forall y: nat ensures y in free + {x} <==> IsFree(lay, gs', y) {
      InFree(lay, gs, free, y);
      FreeMark(lay, gs, g, i, false, gs.free[g] + 1, gs.total + 1, y);
    }
  }

  // The superblock counter is the number of free items.

  ghost function Numbers(lay: Layout, g: nat, s: set<nat>): set<nat> {
    set i | i in s :: lay.Number(g, i)
  }

  lemma {:induction false} NumbersCard(lay: Layout, g: nat, s: set<nat>)
    ensures |Numbers(lay, g, s)| == |s|
  {
    if s != {} {
      var j :| j in s;
      NumbersCard(lay, g, s - {j});
      assert Numbers(lay, g, s) == Numbers(lay, g, s - {j}) + {lay.Number(g, j)};
    }
  }

  ghost function FreeIn(lay: Layout, gs: Groups, free: set<nat>, n: nat): set<nat>
    requires lay.Ok()
  {
    set x | x in free && x >= lay.first && lay.GroupOf(x) < n
  }

  lemma FreeInGroup(lay: Layout, gs: Groups, free: set<nat>, g: nat)
    requires Represents(lay, gs, free) && g < |lay.limits|
    ensures |FreeIn(lay, gs, free, g + 1)| == |FreeIn(lay, gs, free, g)| + gs.free[g]
  {
    var c := Clear(gs.bitmaps[g], lay.limits[g]);
    var here := Numbers(lay, g, c);
    NumbersCard(lay, g, c);
    forall x: nat ensures x in here <==> x in free && x >= lay.first && lay.GroupOf(x) == g {
      InFree(lay, gs, free, x);
      if x in here {
        var i :| i in c && x == lay.Number(g, i);
        lay.NumberInverse(g, i);
      } else if x in free {
        lay.NumberOf(x);
        assert lay.GroupOf(x) == g ==> x == lay.Number(g, lay.IndexOf(x));
      }
    }
    assert FreeIn(lay, gs, free, g + 1) == FreeIn(lay, gs, free, g) + here;
  }

  lemma {:induction false} SumPrefix(s: seq<nat>, n: nat)
    requires n < |s|
    ensures Sum(s[..n + 1]) == Sum(s[..n]) + s[n]
  {
    if n > 0 {
      SumPrefix(s[1..], n - 1);
      assert s[..n + 1][1..] == s[1..][..n] && s[..n][1..] == s[1..][..n - 1];
    }
  }

  lemma {:induction false} FreeInCard(lay: Layout, gs: Groups, free: set<nat>, n: nat)
    requires Represents(lay, gs, free) && n <= |lay.limits|
    ensures |FreeIn(lay, gs, free, n)| == Sum(gs.free[..n])
  {
    if n > 0 {
      FreeInCard(lay, gs, free, n - 1);
      FreeInGroup(lay, gs, free, n - 1);
      SumPrefix(gs.free, n - 1);
    }
  }

  /** The superblock's free counter is exactly the number of free items. */
  lemma TotalIsCardinality(lay: Layout, gs: Groups, free: set<nat>)
    requires Represents(lay, gs, free)
    ensures gs.total == |free|
  {
    FreeInCard(lay, gs, free, |lay.limits|);
    assert gs.free[..|lay.limits|] == gs.free;
    forall x | x in free ensures x in FreeIn(lay, gs, free, |lay.limits|) { InFree(lay, gs, free, x); }
    assert FreeIn(lay, gs, free, |lay.limits|) == free;
  }
}
