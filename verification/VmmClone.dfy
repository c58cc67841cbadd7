/** Cloning an address space, how many pages that takes, and what destroying the clone gives back. */
module VmmClone {
  import opened Forest
  import Pmm
  import opened Sets
  import opened VmmState
  import opened VmmMap
  import opened VmmDestroy
  import opened VmmCopy

  // How many pages a clone takes.

  /** The pages that address space o maps. */
  ghost function PagesOf(m: Mem, g: Ghost, o: nat): set<Vpage> {
    set a: nat, b: nat, d: nat, l: nat
      | a < LOWER && b < ENTRIES && d < ENTRIES && l < ENTRIES && PRESENT in Look(m, g, o, Vpage(a, b, d, l)).flags
      :: Vpage(a, b, d, l)
  }

  lemma InPages(m: Mem, g: Ghost, o: nat, w: Vpage)
    ensures w in PagesOf(m, g, o) <==> Lower(w) && PRESENT in Look(m, g, o, w).flags
  {
    hide Look;
    if Lower(w) && PRESENT in Look(m, g, o, w).flags { assert w == Vpage(w.top, w.dir, w.mid, w.last); }
  }

  /** One page for the top-level table, one for each table of the parent and one for each page it maps. */
  ghost function Cost(m: Mem, g: Ghost, o: nat): nat {
    1 + |Owned(g.home, o)| + |PagesOf(m, g, o)|
  }

  /** The places of the tables of address space o, as places of space 0. */
  ghost function Sites(home: map<nat, Pos>, o: nat): map<nat, Pos> {
    map b | b in Owned(home, o) :: Moved(home[b], 0)
  }

  lemma SiteBack(home: map<nat, Pos>, o: nat, b: nat)
    requires b in Owned(home, o)
    ensures b in Sites(home, o) && b in home && Owner(home[b]) == o && Moved(Sites(home, o)[b], o) == home[b]
  {
    MovedPlace(home[b], 0);
  }

  lemma SiteCount(m: Mem, g: Ghost, o: nat)
    requires Ok(m, g)
    ensures |Sites(g.home, o).Values| == |Owned(g.home, o)|
  {
    hide Frames, Node, ValidPos, Owned, Sites, Moved;
    var f := Sites(g.home, o);
    SiteKeys(g.home, o);
    forall x, y | x in f && y in f && f[x] == f[y] ensures x == y {
      SiteBack(g.home, o, x);
      SiteBack(g.home, o, y);
      assert Node(Tabs(m, g), RootsOf(m, g), g.home[x]) == x;
    }
    AsMany(f);
  }

  lemma SiteKeys(home: map<nat, Pos>, o: nat)
    ensures Sites(home, o).Keys == Owned(home, o)
  {
  }

  /** A place of space o is a site exactly when there is a table. */
  lemma SiteAt(m: Mem, g: Ghost, o: nat, p: Pos)
    requires Ok(m, g) && ValidPos(TREE, p) && Owner(p) == o
    ensures Moved(p, 0) in Sites(g.home, o).Values <==> At(m, g, p) != 0
  {
    hide Frames, Node, ValidPos, Sites, Moved;
    MovedPlace(p, 0);
    SiteKeys(g.home, o);
    if At(m, g, p) != 0 {
      var b := At(m, g, p);
      assert b in Owned(g.home, o);
      SiteIs(g.home, o, b);
      assert b in Sites(g.home, o);
    }
    if Moved(p, 0) in Sites(g.home, o).Values {
      var b :| b in Sites(g.home, o) && Sites(g.home, o)[b] == Moved(p, 0);
      SiteBack(g.home, o, b);
      assert Node(Tabs(m, g), RootsOf(m, g), g.home[b]) == b;
    }
  }

  lemma SiteIs(home: map<nat, Pos>, o: nat, b: nat)
    requires b in Owned(home, o)
    ensures b in Sites(home, o) && Sites(home, o)[b] == Moved(home[b], 0)
  {
  }

  /** Every place is on the way to some page. */
  lemma PlaceOf(q: Pos) returns (w: Vpage)
    requires ValidPos(TREE, q)
    ensures Lower(w)
    ensures q == Slot(Owner(q), w.top) || q == Child(Slot(Owner(q), w.top), w.dir) || q == Place(Owner(q), w)
  {
    if q.Slot? { return Vpage(q.index, 0, 0, 0); }
    var p := q.parent;
    if p.Slot? { return Vpage(p.index, q.index, 0, 0); }
    var r := p.parent;
    LevelMax(r);
    assert Level(TREE, p) == Level(TREE, r) - 1 && Owner(p) == Owner(r);
    w := Vpage(r.index, p.index, q.index, 0);
  }

  /** Every page that left the free set went to one use. */
  lemma Spent(j: Job, m: Mem, g: Ghost, taken: set<nat>)
    requires Ready(j) && Grown(j, m, g, taken)
    ensures |Pmm.FreeSet(j.m0.pages)| == |Pmm.FreeSet(m.pages)| + 1 + |Owned(g.home, j.c)| + |taken|
  {
    hide Look, Planted, Small, Pmm.FreeSet, Pmm.Valid, Tabs, RootsOf;
    var F, W := Pmm.FreeSet(m.pages), Owned(g.home, j.c);
    assert W <= g.home.Keys && j.c in g.ctxs;
    assert F !! {j.c} && (F + {j.c}) !! W && (F + {j.c} + W) !! taken;
  }

  /** The child has no more tables than the parent, and as many exactly when it lacks none. */
  lemma TableCount(j: Job, m: Mem, g: Ghost)
    requires Ok(j.m0, j.g0) && Ok(m, g) && Within(j, m, g)
    ensures |Owned(g.home, j.c)| <= |Owned(j.g0.home, j.o)|
    ensures |Owned(g.home, j.c)| < |Owned(j.g0.home, j.o)| <==> LacksTable(j, m, g)
  {
    hide Ok, At, ValidPos, Owned, Sites, Moved;
    SiteCount(m, g, j.c);
    SiteCount(j.m0, j.g0, j.o);
    var ours, theirs := Sites(g.home, j.c).Values, Sites(j.g0.home, j.o).Values;
    forall x | x in ours ensures x in theirs {
      var q := SitePlace(m, g, j.c, x);
      SiteAt(m, g, j.c, q);
      SiteMoved(j, q);
    }
    Fewer(ours, theirs);
    if LacksTable(j, m, g) {
      var q :| ValidPos(TREE, q) && Owner(q) == j.c && At(m, g, q) == 0 && At(j.m0, j.g0, Moved(q, j.o)) != 0;
      SiteAt(m, g, j.c, q);
      SiteMoved(j, q);
    }
    if ours != theirs {
      var x :| x in theirs && x !in ours;
      var p := SitePlace(j.m0, j.g0, j.o, x);
      SiteAt(j.m0, j.g0, j.o, p);
      MovedPlace(p, j.c);
      var q := Moved(p, j.c);
      SiteAt(m, g, j.c, q);
      MovedTwice(p, j.c);
    }
  }

  lemma {:induction false} MovedTwice(p: Pos, c: nat)
    ensures Moved(Moved(p, c), 0) == Moved(p, 0) && Moved(Moved(p, c), Owner(p)) == p
  {
    if p.Child? { MovedTwice(p.parent, c); }
  }

  /** A place of the child and the parent's place that corresponds are the same site. */
  lemma SiteMoved(j: Job, q: Pos)
    requires Ok(j.m0, j.g0) && ValidPos(TREE, q)
    ensures Moved(q, 0) in Sites(j.g0.home, j.o).Values <==> At(j.m0, j.g0, Moved(q, j.o)) != 0
  {
    hide Ok, At, ValidPos, Sites, Moved;
    MovedPlace(q, j.o);
    MovedTwice(q, j.o);
    SiteAt(j.m0, j.g0, j.o, Moved(q, j.o));
  }

  lemma SitePlace(m: Mem, g: Ghost, o: nat, x: Pos) returns (p: Pos)
    requires Ok(m, g) && x in Sites(g.home, o).Values
    ensures ValidPos(TREE, p) && Owner(p) == o && Moved(p, 0) == x
  {
    hide Frames, Node, ValidPos, Sites, Moved;
    SiteKeys(g.home, o);
    var b :| b in Sites(g.home, o) && Sites(g.home, o)[b] == x;
    SiteIs(g.home, o, b);
    p := g.home[b];
  }

  /** The child maps no more pages than the parent, each to a frame of its own. */
  lemma PageCount(j: Job, m: Mem, g: Ghost, taken: set<nat>)
    requires Copied(j, m, g, taken)
    ensures |taken| <= |PagesOf(j.m0, j.g0, j.o)|
    ensures |taken| < |PagesOf(j.m0, j.g0, j.o)| <==> LacksPage(j, m, g)
  {
    hide Look, ContentOf, PagesOf;
    var ours, theirs := PagesOf(m, g, j.c), PagesOf(j.m0, j.g0, j.o);
    var f := map w | w in ours :: Look(m, g, j.c, w).frame;
    forall w ensures w in ours <==> Lower(w) && Look(m, g, j.c, w) != NOTHING { InPages(m, g, j.c, w); }
    forall w
      ensures w in theirs <==> Lower(w) && PRESENT in Look(j.m0, j.g0, j.o, w).flags
    {
      InPages(j.m0, j.g0, j.o, w);
    }
    AsMany(f);
    forall v ensures v in f.Values <==> v in taken {
      if v in taken {
        var w :| Lower(w) && Look(m, g, j.c, w) != NOTHING && Look(m, g, j.c, w).frame == v;
        assert w in f;
      }
    }
    assert f.Values == taken && f.Keys == ours;
    Fewer(ours, theirs);
    if LacksPage(j, m, g) {
      var w :| Lower(w) && PRESENT in Look(j.m0, j.g0, j.o, w).flags && Look(m, g, j.c, w) == NOTHING;
      assert w in theirs && w !in ours;
    }
    if ours != theirs {
      var w :| w in theirs && w !in ours;
      assert Look(m, g, j.c, w) == NOTHING;
    }
  }

  /** A child that has everything lacks nothing. */
  lemma NothingLacks(j: Job, m: Mem, g: Ghost)
    requires forall w | Lower(w) :: Has(j, m, g, w)
    ensures !LacksTable(j, m, g) && !LacksPage(j, m, g)
  {
    hide Look, At, ValidPos, Moved;
    forall q | ValidPos(TREE, q) && Owner(q) == j.c && At(j.m0, j.g0, Moved(q, j.o)) != 0 ensures At(m, g, q) != 0 {
      var w := PlaceOf(q);
      assert Has(j, m, g, w);
      MovedPlaces(j.o, j.c, w);
      MovedPlaces(j.c, j.o, w);
    }
    forall w | Lower(w) && PRESENT in Look(j.m0, j.g0, j.o, w).flags
      ensures Look(m, g, j.c, w) != NOTHING
    {
      assert Has(j, m, g, w);
    }
  }

  /** A clone that is finished had enough pages, one that stopped had not. */
  lemma CloneExact(j: Job, m: Mem, g: Ghost, taken: set<nat>)
    requires Cloning(j, m, g, taken)
    ensures (forall w | Lower(w) :: Has(j, m, g, w)) ==> |Pmm.FreeSet(j.m0.pages)| >= Cost(j.m0, j.g0, j.o)
    ensures Stopped(j, m, g) ==> |Pmm.FreeSet(j.m0.pages)| < Cost(j.m0, j.g0, j.o)
  {
    hide Ok, Grown, Copied, Within, Has, Pmm.FreeSet, LacksTable, LacksPage, Owned, PagesOf;
    CloningOk(j, m, g, taken);
    Spent(j, m, g, taken);
    TableCount(j, m, g);
    PageCount(j, m, g, taken);
    if forall w | Lower(w) :: Has(j, m, g, w) { NothingLacks(j, m, g); }
  }

  /** A finished clone: the child maps exactly the pages the parent maps, each to a fresh page of its own
      with the same contents and the low flags. */
  ghost predicate Cloned(j: Job, m': Mem, g': Ghost, taken: set<nat>) {
    Cloning(j, m', g', taken) && forall w | Lower(w) :: Has(j, m', g', w)
  }

  /** Page w of the child c against that of its parent o: mapped together, with the flag bits below 12 of the
      parent's entry and no others, and with its bytes. */
  ghost predicate SamePage(m: Mem, g: Ghost, o: nat, m': Mem, g': Ghost, c: nat, w: Vpage) {
    var e, e' := Look(m, g, o, w), Look(m', g', c, w);
    && (PRESENT !in e.flags ==> e' == NOTHING)
    && (PRESENT in e.flags ==>
          && (forall x: nat {:trigger x in e'.flags} {:trigger x in e.flags} ::
                x in e'.flags <==> x < 12 && x in e.flags)
          && (if e'.frame in m'.data then m'.data[e'.frame] else []) ==
             if e.frame in m.data then m.data[e.frame] else [])
  }

  lemma ClonedPage(j: Job, m': Mem, g': Ghost, taken: set<nat>, w: Vpage)
    requires Cloned(j, m', g', taken) && Lower(w)
    ensures SamePage(j.m0, j.g0, j.o, m', g', j.c, w)
  {
    hide Ok, Look, Grown, Within, Follows, Ready;
    assert Has(j, m', g', w);
    var e, e' := Look(j.m0, j.g0, j.o, w), Look(m', g', j.c, w);
    assert e' == NOTHING || CopyOf(j, m', e, e', taken);
  }

  lemma ClonedPages(j: Job, m': Mem, g': Ghost, taken: set<nat>)
    requires Cloned(j, m', g', taken)
    ensures forall w | Lower(w) :: SamePage(j.m0, j.g0, j.o, m', g', j.c, w)
  {
    hide Cloned, SamePage;
    forall w | Lower(w) ensures SamePage(j.m0, j.g0, j.o, m', g', j.c, w) { ClonedPage(j, m', g', taken, w); }
  }

  /** So what a process could read, write and reach from user mode, its child can too. */
  lemma ChildRights(m: Mem, g: Ghost, o: nat, m': Mem, g': Ghost, c: nat, w: Vpage)
    requires SamePage(m, g, o, m', g', c, w) && {0, 1, 2} <= Look(m, g, o, w).flags
    ensures {0, 1, 2} <= Look(m', g', c, w).flags
  {
    hide Look;
  }

  /** A clone that failed: the child is gone and the parent as before; every page is back in the free set,
      except copies of pages with the keep flag. */
  ghost predicate CloneFailed(m: Mem, g: Ghost, o: nat, c: nat, m': Mem, g': Ghost) {
    && Ok(m', g') && g' == g && (c != 0 ==> c in Pmm.FreeSet(m.pages)) && Pmm.FreeSet(m'.pages) <= Pmm.FreeSet(m.pages)
    && (forall o': nat, w {:trigger Look(m', g', o', w)} | Lower(w) && o' != c ::
          Look(m', g', o', w) == Look(m, g, o', w))
    && (forall f: nat {:trigger ContentOf(m', f)} | f !in Pmm.FreeSet(m.pages) :: ContentOf(m', f) == ContentOf(m, f))
    && ((forall w {:trigger Look(m, g, o, w)} | Lower(w) && PRESENT in Look(m, g, o, w).flags ::
        NO_FREE !in Look(m, g, o, w).flags) ==>
          Pmm.FreeSet(m'.pages) == Pmm.FreeSet(m.pages))
  }

  method Clone(m: Mem, o: nat, upper: seq<Entry>, ghost g: Ghost)
    returns (ok: bool, c: nat, m': Mem, ghost g': Ghost, ghost taken: set<nat>)
    requires Ok(m, g) && o in g.ctxs && |upper| == ENTRIES - LOWER && Mapping(m, g, o)
    ensures ok ==> Cloned(Job(m, g, o, c), m', g', taken)
    ensures ok ==> forall w | Lower(w) :: SamePage(m, g, o, m', g', c, w)
    ensures ok ==> Kernel(m', c, upper)
    ensures KernelSame(m, m', g.ctxs)
    ensures !ok ==> CloneFailed(m, g, o, c, m', g')
    ensures ok <==> |Pmm.FreeSet(m.pages)| >= Cost(m, g, o)
  {
    hide Cloning, Ok, Look, Pmm.FreeSet, Created, CloneFailed, SamePage, Kernel, KernelSame, Steady;
    hide Has, InRange, Unshared, Destroyed, Mapping, Stopped, Cost;
    taken := {};
    c, m', g' := Create(m, upper, g);
    if c == 0 {
      NoChild(m, g, o);
      KernelRefl(m, g.ctxs);
      SomeCost(m, g, o);
      return false, 0, m, g, {};
    }
    ghost var j := Job(m, g, o, c);
    ghost var m1, g1 := m', g';
    CloneStart(j, m', g');
    ok, m', g', taken := CloneTop(m', o, c, j, g');
    CloneExact(j, m', g', taken);
    CloneKernel(j, m1, g1, m', g', taken, upper);
    if ok { ClonedPages(j, m', g', taken); }
    if !ok {
      CloningOk(j, m', g', taken);
      ChildOnly(j, m', g', taken);
      ghost var mc, gc := m', g';
      m', g' := Destroy(m', c, g');
      CloneUndone(j, mc, gc, taken, m', g');
      UndoneKernel(j, mc, gc, m', g');
    }
  }

  lemma CloneKernel(j: Job, m1: Mem, g1: Ghost, m': Mem, g': Ghost, taken: set<nat>, upper: seq<Entry>)
    requires Created(j.m0, j.g0, m1, g1, j.c) && Kernel(m1, j.c, upper) && KernelSame(j.m0, m1, j.g0.ctxs)
    requires Cloning(j, m', g', taken) && Steady(m1, g1, m', g') && |upper| == ENTRIES - LOWER
    ensures Kernel(m', j.c, upper) && KernelSame(j.m0, m', j.g0.ctxs)
  {
    hide Look, At, Pmm.FreeSet, Copied, Within, Ok, Kernel, KernelSame, Grown;
    KernelTrans(j.m0, m1, m', j.g0.ctxs, g1.ctxs);
    TopTable(j, m', g', taken);
    KernelKept(m1, m', g1.ctxs, j.c, upper);
  }

  lemma TopTable(j: Job, m: Mem, g: Ghost, taken: set<nat>)
    requires Cloning(j, m, g, taken)
    ensures j.c in m.tab && |m.tab[j.c]| == ENTRIES
  {
    hide Look, At, Pmm.FreeSet, Planted, Copied, Within;
  }

  lemma KernelKept(m: Mem, m': Mem, C: set<nat>, c: nat, upper: seq<Entry>)
    requires Kernel(m, c, upper) && KernelSame(m, m', C) && c in C && c in m'.tab && |m'.tab[c]| == LOWER + |upper|
    ensures Kernel(m', c, upper)
  {
    forall i | 0 <= i < |upper| ensures m'.tab[c][LOWER + i] == upper[i] {
      assert m.tab[c][LOWER + i] == m.tab[c][LOWER..][i];
    }
  }

  lemma UndoneKernel(j: Job, m: Mem, g: Ghost, m': Mem, g': Ghost)
    requires Destroyed(m, g, m', g', j.c) && KernelSame(j.m0, m, j.g0.ctxs)
    ensures KernelSame(j.m0, m', j.g0.ctxs)
  {
    hide Look, Ok, Gone, Owned, Pmm.FreeSet, KernelSame;
    KernelTab(j.m0, m, m', j.g0.ctxs);
  }

  /** The parent's mapped pages are in use. */
  ghost predicate Mapping(m: Mem, g: Ghost, o: nat) {
    forall w {:trigger Look(m, g, o, w)} | Lower(w) && PRESENT in Look(m, g, o, w).flags ::
        Look(m, g, o, w).frame !in Pmm.FreeSet(m.pages)
  }

  lemma SomeCost(m: Mem, g: Ghost, o: nat)
    ensures Cost(m, g, o) > 0
  {
  }

  lemma NoChild(m: Mem, g: Ghost, o: nat)
    requires Ok(m, g)
    ensures CloneFailed(m, g, o, 0, m, g)
  {
    hide Ok, Look, Pmm.FreeSet;
  }

  lemma CloneStart(j: Job, m: Mem, g: Ghost)
    requires Ok(j.m0, j.g0) && j.o in j.g0.ctxs && Mapping(j.m0, j.g0, j.o) && Created(j.m0, j.g0, m, g, j.c)
    ensures Cloning(j, m, g, {}) && forall w | Lower(w) :: Look(m, g, j.c, w) == NOTHING
  {
    hide Ok, Look, Pmm.FreeSet, At, Within;
    ChildOwnsNothing(j, g);
    StartWithin(j, m, g);
  }

  lemma StartWithin(j: Job, m: Mem, g: Ghost)
    requires Ok(m, g) && Owned(g.home, j.c) == {}
    ensures Within(j, m, g)
  {
    hide Frames, Node, ValidPos;
    forall q | ValidPos(TREE, q) && Owner(q) == j.c ensures At(m, g, q) == 0 {
      assert At(m, g, q) != 0 ==> At(m, g, q) in Owned(g.home, j.c);
    }
  }

  lemma ChildOwnsNothing(j: Job, g: Ghost)
    requires Ok(j.m0, j.g0) && j.c !in j.g0.ctxs && g.home == j.g0.home
    ensures Owned(g.home, j.c) == {}
  {
    hide Planted, Small;
  }

  /** The pages that destroying the child gives back are its own. */
  lemma ChildOnly(j: Job, m: Mem, g: Ghost, taken: set<nat>)
    requires Cloning(j, m, g, taken)
    ensures InRange(m, g, j.c) && Unshared(m, g, j.c)
  {
    hide Ok, Look, ContentOf, Owned;
    FreeInRange(j.m0.pages);
  }

  lemma FreeInRange(p: Pmm.Pages)
    ensures forall f | f in Pmm.FreeSet(p) :: f < |p.bits|
  {
  }

  // Destroying what was cloned.

  /** Page w of address space c is mapped to frame f with the keep flag. */
  ghost predicate KeptAt(m: Mem, g: Ghost, c: nat, w: Vpage, f: nat) {
    Lower(w) && Look(m, g, c, w).frame == f && PRESENT in Look(m, g, c, w).flags && NO_FREE in Look(m, g, c, w).flags
  }

  ghost function Stuck(m: Mem, g: Ghost, c: nat, taken: set<nat>): set<nat> {
    set f | f in taken && exists w :: KeptAt(m, g, c, w, f)
  }

  lemma LeafGivenBack(j: Job, m: Mem, g: Ghost, taken: set<nat>, f: nat)
    requires Cloning(j, m, g, taken) && f in LeavesOf(m, g, Owned(g.home, j.c))
    ensures f in taken && f !in Stuck(m, g, j.c, taken)
  {
    hide Ok, Look, ContentOf, LeafFrames, Level, Grown;
    assert Ok(m, g) by { CloningOk(j, m, g, taken); }
    var b :| b in Owned(g.home, j.c) && b in g.home && b in m.tab && Level(TREE, g.home[b]) == 0 &&
        f in LeafFrames(m.tab[b], ENTRIES);
    var w := LeafPage(m, g, j.c, b, f);
    forall w' ensures !KeptAt(m, g, j.c, w', f) {}
  }

  lemma TakenGivenBack(j: Job, m: Mem, g: Ghost, taken: set<nat>, f: nat)
    requires Cloning(j, m, g, taken) && f in taken && f !in Stuck(m, g, j.c, taken)
    ensures f in LeavesOf(m, g, Owned(g.home, j.c))
  {
    hide Ok, ContentOf, LeafFrames, At;
    CloningOk(j, m, g, taken);
    PagesOk(j.m0, j.g0);
    var w :| Lower(w) && Look(m, g, j.c, w) != NOTHING && Look(m, g, j.c, w).frame == f;
    assert !KeptAt(m, g, j.c, w, f);
    var b := At(m, g, Place(j.c, w));
    Places(j.c, w);
    TableAt(m, g, Place(j.c, w));
    LeafIn(m.tab[b], w.last);
    assert Freeable(m.tab[b][w.last]);
  }

  /** Destroying the child gives back everything but the copies of pages with the keep flag. */
  lemma Restored(j: Job, m: Mem, g: Ghost, taken: set<nat>, m': Mem, g': Ghost)
    requires Cloning(j, m, g, taken) && Destroyed(m, g, m', g', j.c)
    ensures Pmm.FreeSet(m'.pages) == Pmm.FreeSet(j.m0.pages) - Stuck(m, g, j.c, taken) && g' == j.g0
  {
    hide Ok, Look, ContentOf, Stuck, LeavesOf, Copied, CopyOf, Pmm.FreeSet;
    var leaves, stuck := LeavesOf(m, g, Owned(g.home, j.c)), Stuck(m, g, j.c, taken);
    StuckIn(m, g, j.c, taken);
    forall f | f in leaves ensures f in taken && f !in stuck { LeafGivenBack(j, m, g, taken, f); }
    forall f | f in taken && f !in stuck ensures f in leaves { TakenGivenBack(j, m, g, taken, f); }
    assert leaves == taken - stuck;
    RestoredFree(j, m, g, taken, stuck);
    assert g'.home == j.g0.home && g'.ctxs == j.g0.ctxs by { RestoredGhost(j, m, g, taken); }
  }

  lemma StuckIn(m: Mem, g: Ghost, c: nat, taken: set<nat>)
    ensures Stuck(m, g, c, taken) <= taken
  {
  }

  lemma RestoredFree(j: Job, m: Mem, g: Ghost, taken: set<nat>, stuck: set<nat>)
    requires Ready(j) && Grown(j, m, g, taken) && stuck <= taken
    ensures Pmm.FreeSet(m.pages) + (Owned(g.home, j.c) + (taken - stuck)) + {j.c} == Pmm.FreeSet(j.m0.pages) - stuck
  {
    hide Ok, Look, Pmm.FreeSet;
  }

  lemma RestoredGhost(j: Job, m: Mem, g: Ghost, taken: set<nat>)
    requires Ready(j) && Grown(j, m, g, taken)
    ensures g.home - Owned(g.home, j.c) == j.g0.home && g.ctxs - {j.c} == j.g0.ctxs
  {
    hide Ok, Look, Pmm.FreeSet;
    ChildOwnsNothing(j, j.g0);
    forall b | b in j.g0.home ensures Owner(j.g0.home[b]) != j.c { assert b !in Owned(j.g0.home, j.c); }
  }

  /** Clone then destroy returns the free set to its prior value exactly when the parent maps no page with the keep
      flag. */
  lemma CloneThenDestroy(j: Job, m: Mem, g: Ghost, taken: set<nat>, m': Mem, g': Ghost)
    requires Cloned(j, m, g, taken) && Destroyed(m, g, m', g', j.c)
    ensures g' == j.g0
    ensures Pmm.FreeSet(m'.pages) == Pmm.FreeSet(j.m0.pages) <==>
        forall w {:trigger Look(j.m0, j.g0, j.o, w)} | Lower(w) && PRESENT in Look(j.m0, j.g0, j.o, w).flags ::
          NO_FREE !in Look(j.m0, j.g0, j.o, w).flags
  {
    hide Ok, Look, ContentOf, Grown, Destroyed, Ready, Pmm.FreeSet, Stuck;
    Restored(j, m, g, taken, m', g');
    StuckFree(j, m, g, taken);
    if w :| Lower(w) && PRESENT in Look(j.m0, j.g0, j.o, w).flags && NO_FREE in Look(j.m0, j.g0, j.o, w).flags {
      assert Has(j, m, g, w);
      KeptStuck(j, m, g, taken, w);
    } else {
      NoneStuck(j, m, g, taken);
    }
  }

  lemma StuckFree(j: Job, m: Mem, g: Ghost, taken: set<nat>)
    requires Cloning(j, m, g, taken)
    ensures taken <= Pmm.FreeSet(j.m0.pages)
  {
    hide Ok, Look, ContentOf, Pmm.FreeSet;
  }

  lemma KeptStuck(j: Job, m: Mem, g: Ghost, taken: set<nat>, w: Vpage)
    requires Cloning(j, m, g, taken) && Lower(w) && PRESENT in Look(m, g, j.c, w).flags
    requires NO_FREE in Look(j.m0, j.g0, j.o, w).flags
    ensures Look(m, g, j.c, w).frame in Stuck(m, g, j.c, taken) && Look(m, g, j.c, w).frame in taken
  {
    hide Ok, Look, ContentOf, Grown;
    assert KeptAt(m, g, j.c, w, Look(m, g, j.c, w).frame);
  }

  lemma NoneStuck(j: Job, m: Mem, g: Ghost, taken: set<nat>)
    requires Cloning(j, m, g, taken)
    requires forall w {:trigger Look(j.m0, j.g0, j.o, w)} | Lower(w) && PRESENT in Look(j.m0, j.g0, j.o, w).flags ::
        NO_FREE !in Look(j.m0, j.g0, j.o, w).flags
    ensures Stuck(m, g, j.c, taken) == {}
  {
    hide Ok, Look, ContentOf, Grown;
  }

  lemma CloneUndone(j: Job, m: Mem, g: Ghost, taken: set<nat>, m': Mem, g': Ghost)
    requires Cloning(j, m, g, taken) && Destroyed(m, g, m', g', j.c)
    ensures CloneFailed(j.m0, j.g0, j.o, j.c, m', g')
  {
    hide Ok, Look, Pmm.FreeSet, Stuck, Owned, Gone;
    Restored(j, m, g, taken, m', g');
    StuckFree(j, m, g, taken);
    forall o': nat, w | Lower(w) && o' != j.c ensures Look(m', g', o', w) == Look(j.m0, j.g0, o', w) {
      assert Look(m', g', o', w) == Look(m, g, o', w);
    }
    forall f: nat | f !in Pmm.FreeSet(j.m0.pages) ensures ContentOf(m', f) == ContentOf(j.m0, f) {
      assert ContentOf(m, f) == ContentOf(j.m0, f);
    }
    if forall w {:trigger Look(j.m0, j.g0, j.o, w)} | Lower(w) && PRESENT in Look(j.m0, j.g0, j.o, w).flags ::
        NO_FREE !in Look(j.m0, j.g0, j.o, w).flags {
      NoneStuck(j, m, g, taken);
    }
  }
}
