/** The walk that copies an address space: every mapped page of the lower half into a page of its own. */
module VmmCopy {
  import opened Forest
  import Pmm
  import opened VmmState
  import opened VmmMap

  /** The flag bits that a copy keeps: those below the frame number. */
  function Low(flags: set<nat>): set<nat> {
    set x | x in flags && x < 12
  }

  function ContentOf(m: Mem, f: nat): (c: Content)
    ensures f in m.data ==> c == m.data[f]
  {
    if f in m.data then m.data[f] else []
  }

  /** The same place in address space o. */
  function Moved(p: Pos, o: nat): Pos {
    match p
    case Slot(_, i) => Slot(o, i)
    case Child(q, i) => Child(Moved(q, o), i)
  }

  lemma {:induction false} MovedPlace(p: Pos, o: nat)
    ensures Owner(Moved(p, o)) == o && Level(TREE, Moved(p, o)) == Level(TREE, p)
    ensures ValidPos(TREE, Moved(p, o)) <==> ValidPos(TREE, p)
    ensures Moved(Moved(p, o), Owner(p)) == p
  {
    if p.Child? { MovedPlace(p.parent, o); }
  }

  lemma MovedPlaces(o: nat, c: nat, w: Vpage)
    ensures Moved(Slot(c, w.top), o) == Slot(o, w.top)
    ensures Moved(Child(Slot(c, w.top), w.dir), o) == Child(Slot(o, w.top), w.dir)
    ensures Moved(Place(c, w), o) == Place(o, w)
  {
  }

  /** A clone in progress: the state it began with, the parent, and the child's top-level table. */
  datatype Job = Job(m0: Mem, g0: Ghost, o: nat, c: nat)

  /** What the parent may ask for: its mapped pages are in use. */
  ghost predicate Ready(j: Job) {
    && Ok(j.m0, j.g0) && j.o in j.g0.ctxs && j.c in Pmm.FreeSet(j.m0.pages) && j.c !in j.g0.ctxs && j.c !in j.g0.home
    && (forall w {:trigger Look(j.m0, j.g0, j.o, w)} | Lower(w) && PRESENT in Look(j.m0, j.g0, j.o, w).flags ::
          Look(j.m0, j.g0, j.o, w).frame !in Pmm.FreeSet(j.m0.pages))
  }

  /** Only the child changed, and every page that left the free set is its top-level table, one of its
      tables, or a copy in `taken`. */
  ghost predicate Grown(j: Job, m: Mem, g: Ghost, taken: set<nat>) {
    && Ok(m, g) && g.ctxs == j.g0.ctxs + {j.c} && |m.pages.bits| == |j.m0.pages.bits|
    && (forall b | b in j.g0.home :: b in g.home && g.home[b] == j.g0.home[b])
    && (forall b | b in g.home && b !in j.g0.home :: Owner(g.home[b]) == j.c)
    && (forall o: nat, w {:trigger Look(m, g, o, w)} | Lower(w) && o != j.c ::
          Look(m, g, o, w) == Look(j.m0, j.g0, o, w))
    && Pmm.FreeSet(m.pages) + {j.c} + Owned(g.home, j.c) + taken == Pmm.FreeSet(j.m0.pages)
    && taken !! g.home.Keys && taken !! g.ctxs && taken !! Pmm.FreeSet(m.pages)
  }

  /** A page of the child: nothing, or a copy of the parent's page in a frame of its own. */
  ghost predicate CopyOf(j: Job, m: Mem, e: Entry, e': Entry, taken: set<nat>) {
    PRESENT in e.flags && e'.flags == Low(e.flags) && e'.frame in taken &&
        ContentOf(m, e'.frame) == ContentOf(j.m0, e.frame)
  }

  ghost predicate Copied(j: Job, m: Mem, g: Ghost, taken: set<nat>) {
    && (forall f: nat | f !in taken :: ContentOf(m, f) == ContentOf(j.m0, f))
    && (forall w {:trigger Look(m, g, j.c, w)} | Lower(w) ::
          Look(m, g, j.c, w) == NOTHING || CopyOf(j, m, Look(j.m0, j.g0, j.o, w), Look(m, g, j.c, w), taken))
    && (forall w, w' | Lower(w) && Lower(w') && Look(m, g, j.c, w) != NOTHING && Look(m, g, j.c, w') != NOTHING
          && Look(m, g, j.c, w).frame == Look(m, g, j.c, w').frame :: w == w')
    && (forall f | f in taken :: exists w :: Lower(w) && Look(m, g, j.c, w) != NOTHING && Look(m, g, j.c, w).frame == f)
  }

  /** The child has a table only where the parent has one. */
  ghost predicate Within(j: Job, m: Mem, g: Ghost) {
    forall q {:trigger At(m, g, q)} | ValidPos(TREE, q) && Owner(q) == j.c && At(m, g, q) != 0 ::
        At(j.m0, j.g0, Moved(q, j.o)) != 0
  }

  ghost predicate Cloning(j: Job, m: Mem, g: Ghost, taken: set<nat>) {
    Ready(j) && Grown(j, m, g, taken) && Copied(j, m, g, taken) && Within(j, m, g)
  }

  /** The child has a table at the place that corresponds to p if the parent has one at p. */
  ghost predicate Follows(j: Job, m: Mem, g: Ghost, p: Pos) {
    At(j.m0, j.g0, p) != 0 ==> At(m, g, Moved(p, j.c)) != 0
  }

  /** The child has the page, and the tables on the way to it, if the parent has them. */
  ghost predicate Has(j: Job, m: Mem, g: Ghost, w: Vpage) {
    && (PRESENT in Look(j.m0, j.g0, j.o, w).flags ==> PRESENT in Look(m, g, j.c, w).flags)
    && Follows(j, m, g, Slot(j.o, w.top)) && Follows(j, m, g, Child(Slot(j.o, w.top), w.dir))
    && Follows(j, m, g, Place(j.o, w))
  }

  /** The clone stops: the child still lacks a table or a page of the parent, and no page is free. */
  ghost predicate Stopped(j: Job, m: Mem, g: Ghost) {
    Pmm.FreeSet(m.pages) == {} && (LacksTable(j, m, g) || LacksPage(j, m, g))
  }

  ghost predicate LacksTable(j: Job, m: Mem, g: Ghost) {
    exists q {:trigger At(m, g, q)} ::
        ValidPos(TREE, q) && Owner(q) == j.c && At(m, g, q) == 0 && At(j.m0, j.g0, Moved(q, j.o)) != 0
  }

  ghost predicate LacksPage(j: Job, m: Mem, g: Ghost) {
    exists w {:trigger Look(m, g, j.c, w)} ::
        Lower(w) && PRESENT in Look(j.m0, j.g0, j.o, w).flags && Look(m, g, j.c, w) == NOTHING
  }

  /** Existing tables stay where they are, and the upper halves stay as they are. */
  ghost predicate Steady(m: Mem, g: Ghost, m': Mem, g': Ghost) {
    && (forall q {:trigger At(m', g', q)} | ValidPos(TREE, q) && At(m, g, q) != 0 :: At(m', g', q) == At(m, g, q))
    && g.ctxs <= g'.ctxs && KernelSame(m, m', g.ctxs)
  }

  /** Tables that a clone does not own stay where they are. */
  lemma ParentAt(j: Job, m: Mem, g: Ghost, taken: set<nat>, p: Pos)
    requires Ready(j) && Grown(j, m, g, taken) && ValidPos(TREE, p) && Owner(p) != j.c
    ensures At(m, g, p) == At(j.m0, j.g0, p)
  {
    hide Frames, Node, Look, Pmm.FreeSet, ValidPos;
    var b, b' := At(j.m0, j.g0, p), At(m, g, p);
    if b != 0 { assert j.g0.home[b] == p && g.home[b] == p; }
    if b' != 0 { assert g.home[b'] == p && j.g0.home[b'] == p; }
  }

  lemma SameHomeAt(m: Mem, m': Mem, g: Ghost, p: Pos)
    requires Ok(m, g) && Ok(m', g) && ValidPos(TREE, p)
    ensures At(m', g, p) == At(m, g, p)
  {
    hide Frames, Node, ValidPos;
    var b, b' := At(m, g, p), At(m', g, p);
    if b != 0 { assert g.home[b] == p; }
    if b' != 0 { assert g.home[b'] == p; }
  }

  /** Above a table there are tables. */
  lemma TablesAbove(m: Mem, g: Ghost, o: nat, w: Vpage)
    requires At(m, g, Place(o, w)) != 0
    ensures At(m, g, Slot(o, w.top)) != 0 && At(m, g, Child(Slot(o, w.top), w.dir)) != 0
  {
    hide At;
    if At(m, g, Slot(o, w.top)) == 0 { Missing(m, g, Slot(o, w.top), w.dir); }
    if At(m, g, Child(Slot(o, w.top), w.dir)) == 0 { Missing(m, g, Child(Slot(o, w.top), w.dir), w.mid); }
  }

  // The two steps: a new table for the child, and a copied page.

  lemma TableStep(j: Job, m: Mem, g: Ghost, taken: set<nat>, m': Mem, g': Ghost, p: Pos)
    requires Cloning(j, m, g, taken) && Extends(m, g, m', g', j.c) && At(j.m0, j.g0, Moved(p, j.o)) != 0
    requires forall q | ValidPos(TREE, q) && q != p :: At(m', g', q) == At(m, g, q)
    ensures Cloning(j, m', g', taken) && Steady(m, g, m', g')
    ensures forall w | Lower(w) :: Look(m', g', j.c, w) == Look(m, g, j.c, w)
  {
    hide Ok, At, Look, Ready, ContentOf, CopyOf, Moved, ValidPos;
    TableConserves(j, m, g, taken, m', g');
    assert Copied(j, m', g', taken) by { SameCopied(j, m, g, taken, m', g'); }
    forall o: nat, w | Lower(w) && o != j.c ensures Look(m', g', o, w) == Look(j.m0, j.g0, o, w) {
      assert Look(m', g', o, w) == Look(m, g, o, w);
    }
  }

  lemma SameCopied(j: Job, m: Mem, g: Ghost, taken: set<nat>, m': Mem, g': Ghost)
    requires Copied(j, m, g, taken) && m'.data == m.data && forall w | Lower(w) ::
        Look(m', g', j.c, w) == Look(m, g, j.c, w)
    ensures Copied(j, m', g', taken)
  {
    hide Look;
    forall f | f in taken
      ensures exists w :: Lower(w) && Look(m', g', j.c, w) != NOTHING && Look(m', g', j.c, w).frame == f
    {
      var w :| Lower(w) && Look(m, g, j.c, w) != NOTHING && Look(m, g, j.c, w).frame == f;
      assert Look(m', g', j.c, w) == Look(m, g, j.c, w);
    }
  }

  lemma TableConserves(j: Job, m: Mem, g: Ghost, taken: set<nat>, m': Mem, g': Ghost)
    requires Grown(j, m, g, taken) && Extends(m, g, m', g', j.c)
    ensures Pmm.FreeSet(m'.pages) + {j.c} + Owned(g'.home, j.c) + taken == Pmm.FreeSet(j.m0.pages)
    ensures taken !! g'.home.Keys && taken !! Pmm.FreeSet(m'.pages)
  {
    hide Look, At, Planted, Small, Pmm.FreeSet, Pmm.Valid, Tabs, RootsOf;
    var F, F', added := Pmm.FreeSet(m.pages), Pmm.FreeSet(m'.pages), g'.home.Keys - g.home.Keys;
    assert F == F' + added;
    assert Owned(g'.home, j.c) == Owned(g.home, j.c) + added;
  }

  /** The state after one page was copied to frame v for page w of the child. */
  ghost predicate PageCopied(j: Job, m: Mem, g: Ghost, m': Mem, v: nat, w: Vpage) {
    && Ok(m', g) && v in Pmm.FreeSet(m.pages) && Pmm.FreeSet(m'.pages) == Pmm.FreeSet(m.pages) - {v}
    && |m'.pages.bits| == |m.pages.bits|
    && (forall o: nat, w' {:trigger Look(m', g, o, w')} | Lower(w') :: Look(m', g, o, w') ==
          if (o, w') == (j.c, w) then Entry(v, Low(Look(m, g, j.o, w).flags)) else Look(m, g, o, w'))
    && m'.data == m.data[v := ContentOf(m, Look(m, g, j.o, w).frame)]
    && Steady(m, g, m', g)
  }

  lemma PageStep(j: Job, m: Mem, g: Ghost, taken: set<nat>, m': Mem, v: nat, w: Vpage)
    requires Cloning(j, m, g, taken) && PageCopied(j, m, g, m', v, w) && Lower(w)
    requires PRESENT in Look(m, g, j.o, w).flags && Look(m, g, j.c, w) == NOTHING
    ensures Cloning(j, m', g, taken + {v}) && PRESENT in Look(m', g, j.c, w).flags
  {
    hide Ok, At, Look, Ready, ContentOf, Copied, Pmm.FreeSet, Steady, Owned, Grown, Within;
    PageGrown(j, m, g, taken, m', v, w);
    PageData(j, m, g, taken, m', v, w);
    PageWithin(j, m, g, taken, m', v, w);
  }

  lemma PageWithin(j: Job, m: Mem, g: Ghost, taken: set<nat>, m': Mem, v: nat, w: Vpage)
    requires Grown(j, m, g, taken) && Within(j, m, g) && PageCopied(j, m, g, m', v, w)
    ensures Within(j, m', g)
  {
    hide Ok, At, Look, ContentOf, Pmm.FreeSet, Steady, Owned, Moved, ValidPos;
    forall q | ValidPos(TREE, q) && Owner(q) == j.c && At(m', g, q) != 0 ensures At(j.m0, j.g0, Moved(q, j.o)) != 0 {
      SameHomeAt(m, m', g, q);
    }
  }

  lemma PageGrown(j: Job, m: Mem, g: Ghost, taken: set<nat>, m': Mem, v: nat, w: Vpage)
    requires Ready(j) && Grown(j, m, g, taken) && PageCopied(j, m, g, m', v, w)
    ensures Grown(j, m', g, taken + {v}) && v !in taken && taken <= Pmm.FreeSet(j.m0.pages)
    ensures forall w | Lower(w) :: Look(m, g, j.o, w) == Look(j.m0, j.g0, j.o, w)
    ensures v !in g.home && v != j.c
  {
    hide At, Look, Planted, Small, Pmm.FreeSet, Pmm.Valid, Tabs, RootsOf, Steady, Owned, ContentOf;
    FreshApart(m, g, v);
    forall o: nat, w' | Lower(w') && o != j.c ensures Look(m', g, o, w') == Look(j.m0, j.g0, o, w') {
      assert Look(m, g, o, w') == Look(j.m0, j.g0, o, w');
    }
  }

  lemma PageData(j: Job, m: Mem, g: Ghost, taken: set<nat>, m': Mem, v: nat, w: Vpage)
    requires Ready(j) && Copied(j, m, g, taken) && PageCopied(j, m, g, m', v, w) && Lower(w) && v !in taken
    requires PRESENT in Look(m, g, j.o, w).flags && Look(m, g, j.c, w) == NOTHING
    requires taken <= Pmm.FreeSet(j.m0.pages) && Look(m, g, j.o, w) == Look(j.m0, j.g0, j.o, w)
    ensures Copied(j, m', g, taken + {v}) && PRESENT in Look(m', g, j.c, w).flags
  {
    hide Ok, At, Look, Pmm.FreeSet, Steady;
    var e, e' := Look(m, g, j.o, w), Look(m', g, j.c, w);
    assert e.frame !in taken;
    assert CopyOf(j, m', e, e', taken + {v});
    forall w' | Lower(w')
      ensures Look(m', g, j.c, w') == NOTHING ||
          CopyOf(j, m', Look(j.m0, j.g0, j.o, w'), Look(m', g, j.c, w'), taken + {v})
    {
      if w' != w { assert Look(m', g, j.c, w') == Look(m, g, j.c, w'); }
    }
    forall f | f in taken + {v}
      ensures exists w' :: Lower(w') && Look(m', g, j.c, w') != NOTHING && Look(m', g, j.c, w').frame == f
    {
      if f in taken {
        var w' :| Lower(w') && Look(m, g, j.c, w') != NOTHING && Look(m, g, j.c, w').frame == f;
        assert Look(m', g, j.c, w') == Look(m, g, j.c, w');
      }
    }
    PageInjective(j, m, g, taken, m', v, w);
  }

  lemma PageInjective(j: Job, m: Mem, g: Ghost, taken: set<nat>, m': Mem, v: nat, w: Vpage)
    requires Copied(j, m, g, taken) && PageCopied(j, m, g, m', v, w) && Lower(w) && v !in taken
    ensures forall x, y | Lower(x) && Lower(y) && Look(m', g, j.c, x) != NOTHING && Look(m', g, j.c, y) != NOTHING
              && Look(m', g, j.c, x).frame == Look(m', g, j.c, y).frame :: x == y
  {
    hide Ok, At, Look, Pmm.FreeSet, Steady, ContentOf;
    forall x, y | Lower(x) && Lower(y) && Look(m', g, j.c, x) != NOTHING && Look(m', g, j.c, y) != NOTHING &&
        Look(m', g, j.c, x).frame == Look(m', g, j.c, y).frame
      ensures x == y
    {
      if x != w { assert Look(m', g, j.c, x) == Look(m, g, j.c, x); }
      if y != w { assert Look(m', g, j.c, y) == Look(m, g, j.c, y); }
    }
  }

  lemma CopyPageMeans(j: Job, m: Mem, g: Ghost, m': Mem, v: nat, w: Vpage, x: nat)
    requires PageCopied(j, m, g, m', v, w) && Lower(w) && x == At(m, g, Place(j.o, w)) != 0
    requires x in m.tab && |m.tab[x]| == ENTRIES && w.last < ENTRIES
    ensures var e, e' := m.tab[x][w.last], Look(m', g, j.c, w);
            && (forall b: nat {:trigger b in e'.flags} :: b in e'.flags <==> b < 12 && b in e.flags)
            && e'.frame in m'.data && m'.data[e'.frame] == if e.frame in m.data then m.data[e.frame] else []
  {
    hide Ok, At, Pmm.FreeSet, Steady;
    assert Look(m', g, j.c, w) == Entry(v, Low(Look(m, g, j.o, w).flags));
  }

  /** Copy the page that entry `last` of the parent's table x maps into a fresh page for the child's table y. */
  method CopyPage(m: Mem, x: nat, y: nat, ghost j: Job, ghost g: Ghost, ghost taken: set<nat>, w: Vpage)
    returns (ok: bool, m': Mem, ghost taken': set<nat>)
    requires Cloning(j, m, g, taken) && Lower(w) && x == At(m, g, Place(j.o, w)) != 0
    requires y == At(m, g, Place(j.c, w)) != 0
    requires x in m.tab && |m.tab[x]| == ENTRIES && PRESENT in m.tab[x][w.last].flags && Look(m, g, j.c, w) == NOTHING
    ensures !ok ==> m' == m && taken' == taken && Stopped(j, m', g)
    ensures Cloning(j, m', g, taken') && Steady(m, g, m', g)
    ensures ok ==> PRESENT in Look(m', g, j.c, w).flags
    ensures ok ==>
              var e, e' := m.tab[x][w.last], Look(m', g, j.c, w);
              && (forall b: nat {:trigger b in e'.flags} :: b in e'.flags <==> b < 12 && b in e.flags)
              && e'.frame in m'.data && m'.data[e'.frame] == if e.frame in m.data then m.data[e.frame] else []
    ensures forall w' | Lower(w') && w' != w :: Look(m', g, j.c, w') == Look(m, g, j.c, w')
  {
    hide Cloning, Ok, At, Look, Pmm.FreeSet, Steady, Stopped, PageCopied;
    m', taken' := m, taken;
    CloningOk(j, m, g, taken);
    PagesOk(m, g);
    LeafTable(m, g, j.o, w);
    LeafTable(m, g, j.c, w);
    SteadyRefl(m, g);
    var v, pages := AllocPage(m.pages);
    if v == 0 {
      NoPage(j, m, g, w);
      return false, m, taken;
    }
    var e := m.tab[x][w.last];
    var mid := Mem(m.tab, m.data[v := ContentOf(m, e.frame)], pages);
    m' := PutEntry(mid, y, w.last, Entry(v, Low(e.flags)));
    CopyPageOk(j, m, g, mid, m', v, w, y, e);
    CopyPageMeans(j, m, g, m', v, w, x);
    PageStep(j, m, g, taken, m', v, w);
    PageSteady(j, m, g, m', v, w);
    taken' := taken + {v};
    ok := true;
  }

  lemma NoPage(j: Job, m: Mem, g: Ghost, w: Vpage)
    requires Pmm.FreeSet(m.pages) == {} && Lower(w) && PRESENT in Look(j.m0, j.g0, j.o, w).flags
    requires Look(m, g, j.c, w) == NOTHING
    ensures Stopped(j, m, g)
  {
    hide Look, Pmm.FreeSet;
  }

  lemma CloningOk(j: Job, m: Mem, g: Ghost, taken: set<nat>)
    requires Cloning(j, m, g, taken)
    ensures Ok(m, g) && j.o in g.ctxs && j.c in g.ctxs && j.o != j.c
    ensures forall w | Lower(w) :: Look(m, g, j.o, w) == Look(j.m0, j.g0, j.o, w)
  {
    hide Look;
  }

  lemma SteadyRefl(m: Mem, g: Ghost)
    ensures Steady(m, g, m, g)
  {
  }

  lemma SteadyTrans(m: Mem, g: Ghost, m1: Mem, g1: Ghost, m2: Mem, g2: Ghost)
    requires Steady(m, g, m1, g1) && Steady(m1, g1, m2, g2)
    ensures Steady(m, g, m2, g2)
  {
    hide At, KernelSame;
    KernelTrans(m, m1, m2, g.ctxs, g1.ctxs);
    forall q | ValidPos(TREE, q) && At(m, g, q) != 0
      ensures At(m2, g2, q) == At(m, g, q)
    {
      assert At(m1, g1, q) == At(m, g, q);
    }
  }

  lemma PageSteady(j: Job, m: Mem, g: Ghost, m': Mem, v: nat, w: Vpage)
    requires PageCopied(j, m, g, m', v, w)
    ensures Steady(m, g, m', g)
    ensures forall w' | Lower(w') && w' != w :: Look(m', g, j.c, w') == Look(m, g, j.c, w')
  {
    hide Ok, Look, At;
  }

  lemma CopyPageOk(j: Job, m: Mem, g: Ghost, mid: Mem, m': Mem, v: nat, w: Vpage, y: nat, e: Entry)
    requires Ok(m, g) && Lower(w) && y == At(m, g, Place(j.c, w)) != 0 && FreshFrame(m, mid.pages, v)
    requires e == Look(m, g, j.o, w) && mid == Mem(m.tab, m.data[v := ContentOf(m, e.frame)], mid.pages)
    requires y in m.tab && |m.tab[y]| == ENTRIES && m' == PutEntry(mid, y, w.last, Entry(v, Low(e.flags)))
    ensures PageCopied(j, m, g, m', v, w)
  {
    hide Pmm.FreeSet, Pmm.Valid, Planted, Node, ContentOf, Low, KernelSame;
    LeafTable(m, g, j.c, w);
    LeafKernel(mid, g, m', y, w.last, Entry(v, Low(e.flags)));
    assert KernelSame(m, m', g.ctxs) by { SameKernel(m, mid, m', g); }
    assert Tabs(mid, g) == Tabs(m, g) && RootsOf(mid, g) == RootsOf(m, g);
    assert Frames(mid, g) by { PageFrames(m, g, mid, v); }
    PutLeaf(mid, g, j.c, w, y, Entry(v, Low(e.flags)), m');
    forall o: nat, w' | Lower(w')
      ensures Look(m', g, o, w') == if (o, w') == (j.c, w) then Entry(v, Low(e.flags)) else Look(m, g, o, w')
    {
      assert Look(mid, g, o, w') == Look(m, g, o, w');
    }
  }

  lemma SameKernel(m: Mem, mid: Mem, m': Mem, g: Ghost)
    requires mid.tab == m.tab && KernelSame(mid, m', g.ctxs)
    ensures KernelSame(m, m', g.ctxs)
  {
  }

  lemma PageFrames(m: Mem, g: Ghost, mid: Mem, v: nat)
    requires Frames(m, g) && mid.tab == m.tab && FreshFrame(m, mid.pages, v)
    ensures Frames(mid, g)
  {
  }

  // The four nested loops, innermost first. Each copies the pages whose indices begin with the given ones.

  method CloneLast(m: Mem, x: nat, y: nat, a: nat, b: nat, d: nat, ghost j: Job, ghost g: Ghost, ghost taken: set<nat>)
    returns (ok: bool, m': Mem, ghost taken': set<nat>)
    requires Cloning(j, m, g, taken) && Lower(Vpage(a, b, d, 0))
    requires x == At(m, g, Place(j.o, Vpage(a, b, d, 0))) != 0 && y == At(m, g, Place(j.c, Vpage(a, b, d, 0))) != 0
    requires forall w | Lower(w) && w.top == a && w.dir == b && w.mid == d :: Look(m, g, j.c, w) == NOTHING
    ensures Cloning(j, m', g, taken') && Steady(m, g, m', g)
    ensures ok ==> forall w | Lower(w) && w.top == a && w.dir == b && w.mid == d :: Has(j, m', g, w)
    ensures !ok ==> Stopped(j, m', g)
    ensures forall w | Lower(w) && !(w.top == a && w.dir == b && w.mid == d) ::
        Look(m', g, j.c, w) == Look(m, g, j.c, w)
  {
    hide Cloning, Ok, At, Look, Pmm.FreeSet, Steady, Has, Stopped;
    m', taken' := m, taken;
    SteadyRefl(m, g);
    ghost var p, q := Place(j.o, Vpage(a, b, d, 0)), Place(j.c, Vpage(a, b, d, 0));
    Places(j.o, Vpage(a, b, d, 0));
    Places(j.c, Vpage(a, b, d, 0));
    for i := 0 to ENTRIES
      invariant Cloning(j, m', g, taken') && Steady(m, g, m', g) && At(m', g, p) == x && At(m', g, q) == y
      invariant forall w | Lower(w) && w.top == a && w.dir == b && w.mid == d && w.last < i :: Has(j, m', g, w)
      invariant forall w | Lower(w) && w.top == a && w.dir == b && w.mid == d && w.last >= i ::
          Look(m', g, j.c, w) == NOTHING
      invariant forall w | Lower(w) && !(w.top == a && w.dir == b && w.mid == d) ::
          Look(m', g, j.c, w) == Look(m, g, j.c, w)
    {
      var w := Vpage(a, b, d, i);
      CloningOk(j, m', g, taken');
      LeafTable(m', g, j.o, w);
      ghost var was := m';
      if PRESENT in m'.tab[x][i].flags {
        ok, m', taken' := CopyPage(m', x, y, j, g, taken', w);
        SteadyTrans(m, g, was, g, m', g);
        SteadyAt(was, g, m', g, p);
        SteadyAt(was, g, m', g, q);
        if !ok { return; }
      } else {
        SteadyRefl(m', g);
      }
      HasKept(j, was, g, m', g, w);
    }
    ok := true;
  }

  lemma SteadyAt(m: Mem, g: Ghost, m': Mem, g': Ghost, p: Pos)
    requires Steady(m, g, m', g') && ValidPos(TREE, p) && At(m, g, p) != 0
    ensures At(m', g', p) == At(m, g, p)
  {
  }

  /** Pages other than w that the child has, it keeps; page w it has, or the parent has not. */
  lemma HasKept(j: Job, m: Mem, g: Ghost, m': Mem, g': Ghost, w: Vpage)
    requires Lower(w) && (PRESENT !in Look(j.m0, j.g0, j.o, w).flags || PRESENT in Look(m', g', j.c, w).flags)
    requires Steady(m, g, m', g') && At(m', g', Place(j.c, w)) != 0
    requires forall w' | Lower(w') && w' != w :: Look(m', g', j.c, w') == Look(m, g, j.c, w')
    ensures Has(j, m', g', w) && forall w' | Lower(w') && w' != w && Has(j, m, g, w') :: Has(j, m', g', w')
  {
    hide Look, At, Steady, Has;
    TablesAbove(m', g', j.c, w);
    HasHere(j, m', g', w);
    HasMore(j, m, g, m', g');
  }

  lemma HasHere(j: Job, m: Mem, g: Ghost, w: Vpage)
    requires PRESENT !in Look(j.m0, j.g0, j.o, w).flags || PRESENT in Look(m, g, j.c, w).flags
    requires At(m, g, Place(j.c, w)) != 0 && At(m, g, Slot(j.c, w.top)) != 0
    requires At(m, g, Child(Slot(j.c, w.top), w.dir)) != 0
    ensures Has(j, m, g, w)
  {
    hide Look, At;
    MovedPlaces(j.c, j.o, w);
  }

  lemma NoTable(m: Mem, g: Ghost, o: nat, w: Vpage)
    requires At(m, g, Place(o, w)) == 0
    ensures Look(m, g, o, w) == NOTHING
  {
    hide At;
  }

  /** Where the parent has no table at p, it maps nothing below p. */
  lemma NothingThere(j: Job, m: Mem, g: Ghost, taken: set<nat>, p: Pos, w: Vpage)
    requires Cloning(j, m, g, taken) && Lower(w) && At(m, g, p) == 0
    requires
      || p == Slot(j.o, w.top)
      || (p == Child(Slot(j.o, w.top), w.dir) && At(m, g, Slot(j.c, w.top)) != 0)
      || (p == Place(j.o, w) && At(m, g, Child(Slot(j.c, w.top), w.dir)) != 0)
    ensures Has(j, m, g, w)
  {
    hide Cloning, Ok, At, Look;
    CloningOk(j, m, g, taken);
    var q := Child(Slot(j.o, w.top), w.dir);
    if p == Slot(j.o, w.top) { Missing(m, g, p, w.dir); }
    if At(m, g, q) == 0 { Missing(m, g, q, w.mid); }
    NoTable(m, g, j.o, w);
    if At(m, g, Slot(j.c, w.top)) == 0 { Missing(m, g, Slot(j.c, w.top), w.dir); }
    MovedPlaces(j.c, j.o, w);
    ParentTables(j, m, g, taken, w);
  }

  lemma ParentTables(j: Job, m: Mem, g: Ghost, taken: set<nat>, w: Vpage)
    requires Cloning(j, m, g, taken) && Lower(w)
    ensures At(m, g, Slot(j.o, w.top)) == At(j.m0, j.g0, Slot(j.o, w.top))
    ensures At(m, g, Child(Slot(j.o, w.top), w.dir)) == At(j.m0, j.g0, Child(Slot(j.o, w.top), w.dir))
    ensures At(m, g, Place(j.o, w)) == At(j.m0, j.g0, Place(j.o, w))
  {
    hide Ok, At, Look, Grown, Copied, Within, Ready, ValidPos;
    CloningOk(j, m, g, taken);
    Places(j.o, w);
    ParentAt(j, m, g, taken, Slot(j.o, w.top));
    ParentAt(j, m, g, taken, Child(Slot(j.o, w.top), w.dir));
    ParentAt(j, m, g, taken, Place(j.o, w));
  }

  /** The next child table on the way down, made where it is missing. */
  method ChildTable(m: Mem, y: nat, i: nat, ghost j: Job, ghost g: Ghost, ghost taken: set<nat>, ghost q: Pos)
    returns (y': nat, m': Mem, ghost g': Ghost)
    requires Cloning(j, m, g, taken) && Holds(m, g, q, y) && q.index == i && Owner(q) == j.c
    requires At(j.m0, j.g0, Moved(q, j.o)) != 0
    ensures Cloning(j, m', g', taken) && Steady(m, g, m', g') && y' == At(m', g', q)
    ensures y' == 0 ==> Stopped(j, m', g')
    ensures forall w | Lower(w) :: Look(m', g', j.c, w) == Look(m, g, j.c, w)
  {
    hide Cloning, Ok, At, Look, Extends, Steady, Holds, ValidPos, Pmm.FreeSet, Stopped;
    CloningOk(j, m, g, taken);
    HeldPlace(m, g, q, y);
    y', m', g' := GetNextLevel(m, y, i, true, g, q);
    TableStep(j, m, g, taken, m', g', q);
    if y' == 0 { NoTableLeft(j, m, g, q); }
  }

  lemma HeldPlace(m: Mem, g: Ghost, p: Pos, x: nat)
    requires Holds(m, g, p, x)
    ensures ValidPos(TREE, p)
  {
  }

  lemma NoTableLeft(j: Job, m: Mem, g: Ghost, q: Pos)
    requires Pmm.FreeSet(m.pages) == {} && ValidPos(TREE, q) && Owner(q) == j.c && At(m, g, q) == 0
    requires At(j.m0, j.g0, Moved(q, j.o)) != 0
    ensures Stopped(j, m, g)
  {
    hide At, Pmm.FreeSet;
  }

  /** Reading entry i of the parent's table at p. */
  lemma ParentEntry(j: Job, m: Mem, g: Ghost, taken: set<nat>, p: Pos, i: nat)
    requires Cloning(j, m, g, taken) && ValidPos(TREE, p) && Level(TREE, p) > 0 && At(m, g, p) != 0 && i < ENTRIES
    ensures var x := At(m, g, p);
            && x in m.tab && |m.tab[x]| == ENTRIES && Holds(m, g, Child(p, i), x)
            && At(m, g, Child(p, i)) == Ptr(m.tab[x][i]) && TableEntry(m.tab[x][i])
  {
    hide At, Ok, Tabs;
    TableAt(m, g, p);
  }

  method CloneMid(m: Mem, x: nat, y: nat, a: nat, b: nat, ghost j: Job, ghost g: Ghost, ghost taken: set<nat>)
    returns (ok: bool, m': Mem, ghost g': Ghost, ghost taken': set<nat>)
    requires Cloning(j, m, g, taken) && Lower(Vpage(a, b, 0, 0))
    requires x == At(m, g, Child(Slot(j.o, a), b)) != 0 && y == At(m, g, Child(Slot(j.c, a), b)) != 0
    requires forall w | Lower(w) && w.top == a && w.dir == b :: Look(m, g, j.c, w) == NOTHING
    ensures Cloning(j, m', g', taken') && Steady(m, g, m', g')
    ensures ok ==> forall w | Lower(w) && w.top == a && w.dir == b :: Has(j, m', g', w)
    ensures !ok ==> Stopped(j, m', g')
    ensures forall w | Lower(w) && !(w.top == a && w.dir == b) :: Look(m', g', j.c, w) == Look(m, g, j.c, w)
  {
    hide Cloning, Ok, At, Look, Pmm.FreeSet, Steady, Has, Holds, Stopped;
    m', g', taken' := m, g, taken;
    SteadyRefl(m, g);
    ghost var p, q := Child(Slot(j.o, a), b), Child(Slot(j.c, a), b);
    for i := 0 to ENTRIES
      invariant Cloning(j, m', g', taken') && Steady(m, g, m', g') && At(m', g', p) == x && At(m', g', q) == y
      invariant forall w | Lower(w) && w.top == a && w.dir == b && w.mid < i :: Has(j, m', g', w)
      invariant forall w | Lower(w) && w.top == a && w.dir == b && w.mid >= i :: Look(m', g', j.c, w) == NOTHING
      invariant forall w | Lower(w) && !(w.top == a && w.dir == b) :: Look(m', g', j.c, w) == Look(m, g, j.c, w)
    {
      ghost var v := Vpage(a, b, i, 0);
      Places(j.o, v);
      Places(j.c, v);
      ParentEntry(j, m', g', taken', p, i);
      ParentEntry(j, m', g', taken', q, i);
      ghost var was, gwas := m', g';
      if PRESENT in m'.tab[x][i].flags {
        var pt := m'.tab[x][i].frame;
        var pt';
        MovedPlaces(j.o, j.c, v);
        ParentTables(j, m', g', taken', v);
        pt', m', g' := ChildTable(m', y, i, j, g', taken', Place(j.c, v));
        SteadyTrans(m, g, was, gwas, m', g');
        if pt' == 0 { ok := false; return; }
        SteadyAt(was, gwas, m', g', Place(j.o, v));
        ghost var mid := m';
        ok, m', taken' := CloneLast(m', pt, pt', a, b, i, j, g', taken');
        SteadyTrans(was, gwas, mid, g', m', g');
        SteadyTrans(m, g, was, gwas, m', g');
        if !ok { return; }
      } else {
        SteadyRefl(m', g');
        forall w | Lower(w) && w.top == a && w.dir == b && w.mid == i ensures Has(j, m', g', w) {
          NothingThere(j, m', g', taken', Place(j.o, v), w);
        }
      }
      SteadyFrom(m, g, m', g', p);
      SteadyFrom(m, g, m', g', q);
      HasMore(j, was, gwas, m', g');
    }
    ok := true;
  }

  lemma SteadyFrom(m: Mem, g: Ghost, m': Mem, g': Ghost, p: Pos)
    requires Steady(m, g, m', g')
    ensures ValidPos(TREE, p) && At(m, g, p) != 0 ==> At(m', g', p) == At(m, g, p)
  {
  }

  /** A page of the child that did not change is had as before. */
  lemma HasMore(j: Job, m: Mem, g: Ghost, m': Mem, g': Ghost)
    requires Steady(m, g, m', g')
    ensures forall w | Lower(w) && Look(m', g', j.c, w) == Look(m, g, j.c, w) && Has(j, m, g, w) :: Has(j, m', g', w)
  {
    hide Look, At, ValidPos, Steady;
    forall w | Lower(w) && Look(m', g', j.c, w) == Look(m, g, j.c, w) && Has(j, m, g, w) ensures Has(j, m', g', w) {
      MovedPlaces(j.c, j.o, w);
      Places(j.c, w);
      SteadyFrom(m, g, m', g', Slot(j.c, w.top));
      SteadyFrom(m, g, m', g', Child(Slot(j.c, w.top), w.dir));
      SteadyFrom(m, g, m', g', Place(j.c, w));
    }
  }

  method CloneDir(m: Mem, x: nat, y: nat, a: nat, ghost j: Job, ghost g: Ghost, ghost taken: set<nat>)
    returns (ok: bool, m': Mem, ghost g': Ghost, ghost taken': set<nat>)
    requires Cloning(j, m, g, taken) && a < LOWER
    requires x == At(m, g, Slot(j.o, a)) != 0 && y == At(m, g, Slot(j.c, a)) != 0
    requires forall w | Lower(w) && w.top == a :: Look(m, g, j.c, w) == NOTHING
    ensures Cloning(j, m', g', taken') && Steady(m, g, m', g')
    ensures ok ==> forall w | Lower(w) && w.top == a :: Has(j, m', g', w)
    ensures !ok ==> Stopped(j, m', g')
    ensures forall w | Lower(w) && w.top != a :: Look(m', g', j.c, w) == Look(m, g, j.c, w)
  {
    hide Cloning, Ok, At, Look, Pmm.FreeSet, Steady, Has, Holds, Stopped;
    m', g', taken' := m, g, taken;
    SteadyRefl(m, g);
    ghost var p, q := Slot(j.o, a), Slot(j.c, a);
    for i := 0 to ENTRIES
      invariant Cloning(j, m', g', taken') && Steady(m, g, m', g') && At(m', g', p) == x && At(m', g', q) == y
      invariant forall w | Lower(w) && w.top == a && w.dir < i :: Has(j, m', g', w)
      invariant forall w | Lower(w) && w.top == a && w.dir >= i :: Look(m', g', j.c, w) == NOTHING
      invariant forall w | Lower(w) && w.top != a :: Look(m', g', j.c, w) == Look(m, g, j.c, w)
    {
      ghost var v := Vpage(a, i, 0, 0);
      Places(j.o, v);
      Places(j.c, v);
      ParentEntry(j, m', g', taken', p, i);
      ParentEntry(j, m', g', taken', q, i);
      ghost var was, gwas := m', g';
      if PRESENT in m'.tab[x][i].flags {
        var pd := m'.tab[x][i].frame;
        var pd';
        MovedPlaces(j.o, j.c, v);
        ParentTables(j, m', g', taken', v);
        pd', m', g' := ChildTable(m', y, i, j, g', taken', Child(q, i));
        SteadyTrans(m, g, was, gwas, m', g');
        if pd' == 0 { ok := false; return; }
        SteadyAt(was, gwas, m', g', Child(p, i));
        ghost var mid, gmid := m', g';
        ok, m', g', taken' := CloneMid(m', pd, pd', a, i, j, g', taken');
        SteadyTrans(was, gwas, mid, gmid, m', g');
        SteadyTrans(m, g, was, gwas, m', g');
        if !ok { return; }
      } else {
        SteadyRefl(m', g');
        forall w | Lower(w) && w.top == a && w.dir == i ensures Has(j, m', g', w) {
          NothingThere(j, m', g', taken', Child(p, i), w);
        }
      }
      SteadyFrom(m, g, m', g', p);
      SteadyFrom(m, g, m', g', q);
      HasMore(j, was, gwas, m', g');
    }
    ok := true;
  }

  /** The outermost loop, over the lower half of the top-level tables. */
  method CloneTop(m: Mem, o: nat, c: nat, ghost j: Job, ghost g: Ghost)
    returns (ok: bool, m': Mem, ghost g': Ghost, ghost taken: set<nat>)
    requires Cloning(j, m, g, {}) && j.o == o && j.c == c && forall w | Lower(w) :: Look(m, g, j.c, w) == NOTHING
    ensures Cloning(j, m', g', taken) && Steady(m, g, m', g')
    ensures ok ==> forall w | Lower(w) :: Has(j, m', g', w)
    ensures !ok ==> Stopped(j, m', g')
  {
    hide Cloning, Ok, At, Look, Pmm.FreeSet, Steady, Has, Holds, Stopped;
    m', g', taken := m, g, {};
    SteadyRefl(m, g);
    for i := 0 to LOWER
      invariant Cloning(j, m', g', taken) && Steady(m, g, m', g')
      invariant forall w | Lower(w) && w.top < i :: Has(j, m', g', w)
      invariant forall w | Lower(w) && w.top >= i :: Look(m', g', j.c, w) == NOTHING
    {
      ghost var v := Vpage(i, 0, 0, 0);
      ghost var was, gwas := m', g';
      CloningOk(j, m', g', taken);
      SlotAt(m', g', o, i);
      HoldsSlot(m', g', c, v);
      HoldsSlot(m', g', o, v);
      if PRESENT in m'.tab[o][i].flags {
        var pdpt := m'.tab[o][i].frame;
        var pdpt';
        MovedPlaces(j.o, j.c, v);
        ParentTables(j, m', g', taken, v);
        pdpt', m', g' := ChildTable(m', c, i, j, g', taken, Slot(c, i));
        SteadyTrans(m, g, was, gwas, m', g');
        if pdpt' == 0 { ok := false; return; }
        SteadyAt(was, gwas, m', g', Slot(o, i));
        ghost var mid, gmid := m', g';
        ok, m', g', taken := CloneDir(m', pdpt, pdpt', i, j, g', taken);
        SteadyTrans(was, gwas, mid, gmid, m', g');
        SteadyTrans(m, g, was, gwas, m', g');
        if !ok { return; }
      } else {
        SteadyRefl(m', g');
        forall w | Lower(w) && w.top == i ensures Has(j, m', g', w) { NothingThere(j, m', g', taken, Slot(o, i), w); }
      }
      HasMore(j, was, gwas, m', g');
    }
    ok := true;
  }
}
