/** Making and destroying address spaces. */
module VmmDestroy {
  import opened Forest
  import Pmm
  import opened VmmState
  import opened VmmMap

  // A new address space.

  /** vmm_create_context: a top-level table with an empty lower half and the kernel's upper half. */
  method Create(m: Mem, upper: seq<Entry>, ghost g: Ghost) returns (c: nat, m': Mem, ghost g': Ghost)
    requires Ok(m, g) && |upper| == ENTRIES - LOWER
    ensures c == 0 ==> m' == m && g' == g && Pmm.FreeSet(m.pages) == {}
    ensures c != 0 ==> Created(m, g, m', g', c) && Kernel(m', c, upper) && KernelSame(m, m', g.ctxs)
  {
    hide Ok, Created;
    NotFree(m, g);
    PagesOk(m, g);
    var pages;
    c, pages := AllocPage(m.pages);
    if c == 0 { return 0, m, g; }
    m' := Mem(m.tab[c := seq(LOWER, _ => NOTHING) + upper], m.data, pages);
    g' := g.(ctxs := g.ctxs + {c});
    CreatedOk(m, g, m', g', c, upper, pages);
  }

  /** The upper half of a top-level table is the kernel's. */
  ghost predicate Kernel(m: Mem, c: nat, upper: seq<Entry>) {
    c in m.tab && |m.tab[c]| == LOWER + |upper| && m.tab[c][LOWER..] == upper
  }

  lemma NotFree(m: Mem, g: Ghost)
    requires Ok(m, g)
    ensures Pmm.FreeSet(m.pages) !! g.ctxs
  {
  }

  ghost predicate Created(m: Mem, g: Ghost, m': Mem, g': Ghost, c: nat) {
    && c in Pmm.FreeSet(m.pages) && c != 0 && c !in g.ctxs && c !in g.home && Ok(m', g')
    && g' == g.(ctxs := g.ctxs + {c}) && m'.data == m.data
    && Pmm.FreeSet(m'.pages) == Pmm.FreeSet(m.pages) - {c} && |m'.pages.bits| == |m.pages.bits|
    && (forall o: nat, w {:trigger Look(m', g', o, w)} | Lower(w) ::
          Look(m', g', o, w) == if o == c then NOTHING else Look(m, g, o, w))
    && (forall q {:trigger At(m', g', q)} | ValidPos(TREE, q) ::
          At(m', g', q) == if Owner(q) == c then 0 else At(m, g, q))
  }

  lemma CreatedOk(m: Mem, g: Ghost, m': Mem, g': Ghost, c: nat, upper: seq<Entry>, pages: Pmm.Pages)
    requires Ok(m, g) && |upper| == ENTRIES - LOWER && FreshFrame(m, pages, c)
    requires m' == Mem(m.tab[c := seq(LOWER, _ => NOTHING) + upper], m.data, pages) && g' == g.(ctxs := g.ctxs + {c})
    ensures Created(m, g, m', g', c)
  {
    hide Pmm.Valid, Planted, Frames, Node, Pmm.FreeSet, Tabs, RootsOf;
    FreshApart(m, g, c);
    CreatedTabs(m, g, m', g', c, upper, pages);
    forall q | ValidPos(TREE, q) ensures At(m', g', q) == if Owner(q) == c then 0 else At(m, g, q) {
      CreatedAt(m, g, m', g', c, q);
    }
    OwnersIn(m, g);
    CreatedPlanted(m, g, m', g', c);
    CreatedFrames(m, g, m', g', c, upper, pages);
    forall o: nat, w | Lower(w) ensures Look(m', g', o, w) == if o == c then NOTHING else Look(m, g, o, w) {
      Places(o, w);
      if At(m, g, Place(o, w)) != 0 { TableAt(m, g, Place(o, w)); }
    }
  }

  lemma CreatedTabs(m: Mem, g: Ghost, m': Mem, g': Ghost, c: nat, upper: seq<Entry>, pages: Pmm.Pages)
    requires |upper| == ENTRIES - LOWER && c !in g.ctxs
    requires m' == Mem(m.tab[c := seq(LOWER, _ => NOTHING) + upper], m.data, pages) && g' == g.(ctxs := g.ctxs + {c})
    ensures Tabs(m', g') == Tabs(m, g) - {c}
    ensures c in RootsOf(m', g') && RootsOf(m', g') == RootsOf(m, g)[c := RootsOf(m', g')[c]]
    ensures |RootsOf(m', g')[c]| == LOWER
    ensures forall i | 0 <= i < LOWER :: RootsOf(m', g')[c][i] == 0
  {
    assert Tabs(m', g') == Tabs(m, g) - {c};
    assert RootsOf(m', g') == RootsOf(m, g)[c := RootsOf(m', g')[c]];
  }

  lemma {:induction false} CreatedAt(m: Mem, g: Ghost, m': Mem, g': Ghost, c: nat, q: Pos)
    requires Ok(m, g) && ValidPos(TREE, q) && c !in g.home && c !in g.ctxs
    requires Tabs(m', g') == Tabs(m, g) - {c}
    requires c in RootsOf(m', g') && RootsOf(m', g') == RootsOf(m, g)[c := RootsOf(m', g')[c]] &&
          forall i | 0 <= i < |RootsOf(m', g')[c]| :: RootsOf(m', g')[c][i] == 0
    ensures At(m', g', q) == if Owner(q) == c then 0 else At(m, g, q)
  {
    hide Ok, Tabs, RootsOf;
    if q.Child? {
      CreatedAt(m, g, m', g', c, q.parent);
      if At(m, g, q.parent) != 0 { TableAt(m, g, q.parent); }
    }
  }

  lemma CreatedPlanted(m: Mem, g: Ghost, m': Mem, g': Ghost, c: nat)
    requires Planted(TREE, Tabs(m, g), RootsOf(m, g), g.home) && c !in g.home && g'.home == g.home
    requires forall f | f in g.home :: Owner(g.home[f]) != c
    requires forall q | ValidPos(TREE, q) :: At(m', g', q) == if Owner(q) == c then 0 else At(m, g, q)
    requires Tabs(m', g') == Tabs(m, g) - {c}
    ensures Planted(TREE, Tabs(m', g'), RootsOf(m', g'), g'.home)
  {
    hide Node, Tabs, RootsOf, Owner, ValidPos;
    var t', r' := Tabs(m', g'), RootsOf(m', g');
    forall p | ValidPos(TREE, p) && Node(t', r', p) != 0
      ensures Node(t', r', p) in g'.home && g'.home[Node(t', r', p)] == p
    {
      assert At(m', g', p) == Node(t', r', p);
    }
    forall b | b in g'.home ensures Node(t', r', g'.home[b]) == b {
      assert At(m', g', g'.home[b]) == Node(t', r', g'.home[b]);
    }
  }

  lemma OwnersIn(m: Mem, g: Ghost)
    requires Frames(m, g)
    ensures forall f | f in g.home :: Owner(g.home[f]) in g.ctxs
  {
  }

  lemma CreatedFrames(m: Mem, g: Ghost, m': Mem, g': Ghost, c: nat, upper: seq<Entry>, pages: Pmm.Pages)
    requires Frames(m, g) && c !in g.home && c !in g.ctxs && |upper| == ENTRIES - LOWER && FreshFrame(m, pages, c)
    requires m' == Mem(m.tab[c := seq(LOWER, _ => NOTHING) + upper], m.data, pages) && g' == g.(ctxs := g.ctxs + {c})
    ensures Frames(m', g')
  {
    hide Level, Pmm.Valid;
    assert Small(m', g') by { CreatedSmall(m, g, m', g', c, upper, pages); }
  }

  lemma CreatedSmall(m: Mem, g: Ghost, m': Mem, g': Ghost, c: nat, upper: seq<Entry>, pages: Pmm.Pages)
    requires Small(m, g) && c !in g.home && |upper| == ENTRIES - LOWER
    requires m' == Mem(m.tab[c := seq(LOWER, _ => NOTHING) + upper], m.data, pages) && g' == g.(ctxs := g.ctxs + {c})
    ensures Small(m', g')
  {
    hide Level;
  }

  // Tearing an address space down.

  /** A mapped page that destroying the address space gives back. */
  predicate Freeable(e: Entry) {
    PRESENT in e.flags && NO_FREE !in e.flags && e.frame != 0
  }

  /** The frames given back for the first n entries of a last table. */
  ghost function LeafFrames(s: seq<Entry>, n: nat): set<nat> {
    set j: nat | j < n && j < |s| && Freeable(s[j]) :: s[j].frame
  }

  /** The frames given back for the last tables among B. */
  ghost function LeavesOf(m: Mem, g: Ghost, B: set<nat>): set<nat> {
    set b, f | b in B && b in g.home && b in m.tab && Level(TREE, g.home[b]) == 0 &&
        f in LeafFrames(m.tab[b], ENTRIES) :: f
  }

  ghost function Gone(m: Mem, g: Ghost, B: set<nat>): set<nat> {
    B + LeavesOf(m, g, B)
  }

  lemma GoneUnion(m: Mem, g: Ghost, A: set<nat>, B: set<nat>)
    ensures Gone(m, g, A + B) == Gone(m, g, A) + Gone(m, g, B) && Gone(m, g, {}) == {}
  {
    hide LeafFrames, Level;
  }

  /** A table gives back its own frame; a last table also the pages it maps. */
  lemma GoneOne(m: Mem, g: Ghost, b: nat)
    requires b in g.home && b in m.tab
    ensures Gone(m, g, {b}) == {b} + if Level(TREE, g.home[b]) == 0 then LeafFrames(m.tab[b], ENTRIES) else {}
  {
    hide LeafFrames, Level;
  }

  /** Every page that would be given back is a page of the allocator. */
  ghost predicate InRange(m: Mem, g: Ghost, o: nat) {
    forall w {:trigger Look(m, g, o, w)} | Lower(w) && Freeable(Look(m, g, o, w)) ::
        Look(m, g, o, w).frame < |m.pages.bits|
  }

  /** A last table of o is the last table of some page. */
  lemma LastTable(m: Mem, g: Ghost, o: nat, p: Pos) returns (w: Vpage)
    requires Ok(m, g) && ValidPos(TREE, p) && Level(TREE, p) == 0 && Owner(p) == o
    ensures Lower(w.(last := 0)) && p == Place(o, w) && w.last == 0
  {
    hide Ok;
    LevelMax(p);
    if p.Child? { LevelMax(p.parent); if p.parent.Child? { LevelMax(p.parent.parent); } }
    assert Owner(p) == Owner(p.parent) == Owner(p.parent.parent);
    w := Vpage(p.parent.parent.index, p.parent.index, p.index, 0);
  }

  lemma {:induction false} LevelMax(p: Pos)
    requires ValidPos(TREE, p)
    ensures Level(TREE, p) <= 2 && (p.Child? ==> ValidPos(TREE, p.parent) && Level(TREE, p) < 2)
  {
    if p.Child? { LevelMax(p.parent); }
  }

  /** free_pagetable_hierarchy on a last table: give back the pages it maps. */
  method FreeLeaves(m: Mem, pages: Pmm.Pages, x: nat) returns (pages': Pmm.Pages)
    requires Pmm.Valid(pages) && pages.ready && x in m.tab && |m.tab[x]| == ENTRIES
    requires forall f | f in LeafFrames(m.tab[x], ENTRIES) :: f < |pages.bits|
    ensures Pmm.Valid(pages') && pages'.ready && |pages'.bits| == |pages.bits|
    ensures Pmm.FreeSet(pages') == Pmm.FreeSet(pages) + LeafFrames(m.tab[x], ENTRIES)
  {
    hide Pmm.Valid, Pmm.FreeSet, LeafFrames, Pmm.Run;
    pages' := pages;
    LeafStep(m.tab[x], 0);
    for i := 0 to ENTRIES
      invariant Pmm.Valid(pages') && pages'.ready && |pages'.bits| == |pages.bits|
      invariant Pmm.FreeSet(pages') == Pmm.FreeSet(pages) + LeafFrames(m.tab[x], i)
    {
      LeafStep(m.tab[x], i);
      var e := m.tab[x][i];
      if PRESENT in e.flags {
        if NO_FREE !in e.flags {
          LeafIn(m.tab[x], i);
          Pmm.RunGrows(e.frame, 0);
          pages' := Pmm.Free(pages', e.frame, 1);
        }
      }
    }
  }

  lemma LeafStep(s: seq<Entry>, i: nat)
    requires i < |s|
    ensures LeafFrames(s, i + 1) == LeafFrames(s, i) + if Freeable(s[i]) then {s[i].frame} else {}
    ensures LeafFrames(s, 0) == {}
  {
    hide Freeable;
    var a, b := LeafFrames(s, i + 1), LeafFrames(s, i) + if Freeable(s[i]) then {s[i].frame} else {};
    forall f | f in a ensures f in b {
      var j: nat :| j < i + 1 && j < |s| && Freeable(s[j]) && s[j].frame == f;
      assert j < i ==> s[j].frame in LeafFrames(s, i);
    }
    forall f | f in LeafFrames(s, i) ensures f in a {
      var j: nat :| j < i && j < |s| && Freeable(s[j]) && s[j].frame == f;
      assert s[j].frame in a;
    }
    if Freeable(s[i]) { assert s[i].frame in a; }
  }

  lemma LeafIn(s: seq<Entry>, i: nat)
    requires i < |s| == ENTRIES
    ensures Freeable(s[i]) ==> s[i].frame in LeafFrames(s, ENTRIES)
  {
  }

  /** What the walk may rely on below place p: its frames are pages of the allocator. */
  ghost predicate Walkable(m: Mem, g: Ghost, o: nat) {
    Ok(m, g) && forall b, f {:trigger b in g.home, f in LeafFrames(m.tab[b], ENTRIES)} |
      b in g.home && b in m.tab && Owner(g.home[b]) == o && Level(TREE, g.home[b]) == 0 &&
          f in LeafFrames(m.tab[b], ENTRIES) :: f < |m.pages.bits|
  }

  /** free_pagetable_hierarchy on table x at place p, with `level` levels of tables below it. */
  method FreeBelow(m: Mem, pages: Pmm.Pages, x: nat, level: nat, ghost g: Ghost, ghost o: nat, ghost p: Pos)
    returns (pages': Pmm.Pages)
    requires Walkable(m, g, o) && Pmm.Valid(pages) && pages.ready && |pages.bits| == |m.pages.bits|
    requires ValidPos(TREE, p) && Owner(p) == o && x == At(m, g, p) != 0 && level == Level(TREE, p)
    ensures Pmm.Valid(pages') && pages'.ready && |pages'.bits| == |pages.bits|
    ensures x in g.home && x in m.tab
    ensures level == 0 ==> Pmm.FreeSet(pages') == Pmm.FreeSet(pages) + LeafFrames(m.tab[x], ENTRIES)
    ensures level > 0 ==> Pmm.FreeSet(pages') == Pmm.FreeSet(pages) + Gone(m, g, Fan(g.home, p, ENTRIES))
    decreases level
  {
    hide Ok, At, Pmm.Valid, Pmm.FreeSet, LeafFrames, Gone, Fan, Below, ValidPos, Walkable, Pmm.Run;
    WalkTable(m, g, o, p);
    if level == 0 {
      pages' := FreeLeaves(m, pages, x);
      return;
    }
    pages' := pages;
    WalkStep(m, g, o, p, 0);
    for i := 0 to ENTRIES
      invariant Pmm.Valid(pages') && pages'.ready && |pages'.bits| == |pages.bits|
      invariant Pmm.FreeSet(pages') == Pmm.FreeSet(pages) + Gone(m, g, Fan(g.home, p, i))
    {
      WalkStep(m, g, o, p, i);
      if PRESENT in m.tab[x][i].flags {
        var y := m.tab[x][i].frame;
        pages' := FreeBelow(m, pages', y, level - 1, g, o, Child(p, i));
        WalkTree(m, g, o, Child(p, i));
        Pmm.RunGrows(y, 0);
        pages' := Pmm.Free(pages', y, 1);
      }
    }
  }

  lemma WalkTable(m: Mem, g: Ghost, o: nat, p: Pos)
    requires Walkable(m, g, o) && ValidPos(TREE, p) && Owner(p) == o && At(m, g, p) != 0
    ensures var x := At(m, g, p);
            && x in g.home && g.home[x] == p && x in m.tab && |m.tab[x]| == ENTRIES && 0 < x < |m.pages.bits|
            && (Level(TREE, p) == 0 ==> forall f | f in LeafFrames(m.tab[x], ENTRIES) :: f < |m.pages.bits|)
            && (Level(TREE, p) > 0 ==> forall i: nat | i < ENTRIES ::
                  At(m, g, Child(p, i)) == Ptr(m.tab[x][i]) && TableEntry(m.tab[x][i]))
    ensures Level(TREE, p) >= 0
  {
    hide At, Planted, LeafFrames;
    TableAt(m, g, p);
    LevelUp(p);
  }

  /** One turn of the loop over the entries of the table at p. */
  lemma WalkStep(m: Mem, g: Ghost, o: nat, p: Pos, i: nat)
    requires Walkable(m, g, o) && ValidPos(TREE, p) && Owner(p) == o && Level(TREE, p) > 0 && i < ENTRIES
    ensures var q := Child(p, i);
            && ValidPos(TREE, q) && Owner(q) == o && Level(TREE, q) == Level(TREE, p) - 1
            && Gone(m, g, Fan(g.home, p, i + 1)) == Gone(m, g, Fan(g.home, p, i)) + Gone(m, g, Below(g.home, q))
            && (At(m, g, q) == 0 ==> Gone(m, g, Below(g.home, q)) == {})
    ensures Gone(m, g, Fan(g.home, p, 0)) == {}
  {
    hide Gone, Fan, Below, LeafFrames, Frames;
    var q := Child(p, i);
    var t, r := Tabs(m, g), RootsOf(m, g);
    FanStep(TREE, t, r, g.home, p, i);
    FanAll(TREE, t, r, g.home, p);
    FanAll(TREE, t, r, g.home, q);
    GoneUnion(m, g, Fan(g.home, p, i), Below(g.home, q));
  }

  /** A table with everything below it. */
  lemma WalkTree(m: Mem, g: Ghost, o: nat, q: Pos)
    requires Walkable(m, g, o) && ValidPos(TREE, q) && Owner(q) == o && At(m, g, q) != 0
    ensures var x := At(m, g, q);
            && x in m.tab && x < |m.pages.bits|
            && Gone(m, g, Below(g.home, q)) == {x} + if Level(TREE, q) == 0 then LeafFrames(m.tab[x], ENTRIES)
                else Gone(m, g, Fan(g.home, q, ENTRIES))
    ensures Level(TREE, q) >= 0
  {
    hide Gone, Fan, Below, LeafFrames, Frames;
    var x := At(m, g, q);
    WalkTable(m, g, o, q);
    var t, r := Tabs(m, g), RootsOf(m, g);
    FanAll(TREE, t, r, g.home, q);
    GoneUnion(m, g, Fan(g.home, q, ENTRIES), {x});
    GoneOne(m, g, x);
  }

  /** No page that o gives back is a table of another address space. */
  ghost predicate Unshared(m: Mem, g: Ghost, o: nat) {
    forall w {:trigger Look(m, g, o, w)} | Lower(w) && Freeable(Look(m, g, o, w)) ::
      var f := Look(m, g, o, w).frame;
      (f in g.ctxs ==> f == o) && (f in g.home ==> Owner(g.home[f]) == o)
  }

  /** Every frame in LeavesOf is the frame of a page that o maps. */
  lemma LeafPage(m: Mem, g: Ghost, o: nat, b: nat, f: nat) returns (w: Vpage)
    requires Ok(m, g) && b in g.home && b in m.tab && Owner(g.home[b]) == o && Level(TREE, g.home[b]) == 0
    requires f in LeafFrames(m.tab[b], ENTRIES)
    ensures Lower(w) && Freeable(Look(m, g, o, w)) && Look(m, g, o, w).frame == f
  {
    hide Freeable, Frames;
    var j: nat :| j < ENTRIES && j < |m.tab[b]| && Freeable(m.tab[b][j]) && m.tab[b][j].frame == f;
    assert At(m, g, g.home[b]) == b;
    w := LastTable(m, g, o, g.home[b]);
    w := w.(last := j);
    assert Place(o, w) == g.home[b];
  }

  lemma RangeWalkable(m: Mem, g: Ghost, o: nat)
    requires Ok(m, g) && InRange(m, g, o)
    ensures Walkable(m, g, o)
  {
    hide Ok, LeafFrames, Look;
    forall b, f | b in g.home && b in m.tab && Owner(g.home[b]) == o && Level(TREE, g.home[b]) == 0 &&
        f in LeafFrames(m.tab[b], ENTRIES)
      ensures f < |m.pages.bits|
    {
      var w := LeafPage(m, g, o, b, f);
    }
  }

  /** After vmm_destroy_context: the tables of o, its top-level table and the pages it mapped without the
      keep flag are free, nothing else changed hands, and every other address space is as it was. */
  ghost predicate Destroyed(m: Mem, g: Ghost, m': Mem, g': Ghost, o: nat) {
    && Ok(m', g') && g' == Ghost(g.home - Owned(g.home, o), g.ctxs - {o})
    && Pmm.FreeSet(m'.pages) == Pmm.FreeSet(m.pages) + Gone(m, g, Owned(g.home, o)) + {o}
    && m'.data == m.data && m'.tab == m.tab && |m'.pages.bits| == |m.pages.bits|
    && forall o': nat, w {:trigger Look(m', g', o', w)} | Lower(w) && o' != o ::
        Look(m', g', o', w) == Look(m, g, o', w)
  }

  method Destroy(m: Mem, o: nat, ghost g: Ghost) returns (m': Mem, ghost g': Ghost)
    requires Ok(m, g) && o in g.ctxs && InRange(m, g, o) && Unshared(m, g, o)
    ensures Destroyed(m, g, m', g', o)
  {
    hide *;
    RangeWalkable(m, g, o);
    RootFacts(m, g, o);
    var pages := FreeSlots(m, o, g);
    Pmm.RunGrows(o, 0);
    pages := Pmm.Free(pages, o, 1);
    m' := m.(pages := pages);
    g' := Ghost(g.home - Owned(g.home, o), g.ctxs - {o});
    DestroyedOk(m, g, m', g', o);
  }

  /** All lower entries of the top-level table. */
  method FreeSlots(m: Mem, o: nat, ghost g: Ghost) returns (pages: Pmm.Pages)
    requires Walkable(m, g, o) && o in g.ctxs && o in m.tab && |m.tab[o]| == ENTRIES
    requires Pmm.Valid(m.pages) && m.pages.ready
    ensures Pmm.Valid(pages) && pages.ready && |pages.bits| == |m.pages.bits|
    ensures Pmm.FreeSet(pages) == Pmm.FreeSet(m.pages) + Gone(m, g, Owned(g.home, o))
  {
    hide *;
    pages := m.pages;
    RootEnds(m, g, o);
    for i := 0 to LOWER
      invariant Pmm.Valid(pages) && pages.ready && |pages.bits| == |m.pages.bits|
      invariant Pmm.FreeSet(pages) == Pmm.FreeSet(m.pages) + Gone(m, g, Upto(g.home, o, i))
    {
      pages := FreeSlot(m, pages, i, g, o, Pmm.FreeSet(m.pages));
    }
  }

  /** One lower entry of the top-level table: everything below it, then the table itself. */
  method FreeSlot(m: Mem, pages: Pmm.Pages, i: nat, ghost g: Ghost, o: nat, ghost before: set<nat>)
    returns (pages': Pmm.Pages)
    requires Walkable(m, g, o) && o in g.ctxs && i < LOWER && o in m.tab && |m.tab[o]| == ENTRIES
    requires Pmm.Valid(pages) && pages.ready && |pages.bits| == |m.pages.bits|
    requires Pmm.FreeSet(pages) == before + Gone(m, g, Upto(g.home, o, i))
    ensures Pmm.Valid(pages') && pages'.ready && |pages'.bits| == |m.pages.bits|
    ensures Pmm.FreeSet(pages') == before + Gone(m, g, Upto(g.home, o, i + 1))
  {
    hide Ok, At, Pmm.Valid, Pmm.FreeSet, LeafFrames, Gone, Below, ValidPos, Walkable, Owned, Pmm.Run, Upto, Fan;
    RootStep(m, g, o, i);
    pages' := pages;
    if PRESENT in m.tab[o][i].flags {
      var y := m.tab[o][i].frame;
      pages' := FreeBelow(m, pages, y, 2, g, o, Slot(o, i));
      WalkTree(m, g, o, Slot(o, i));
      Pmm.RunGrows(y, 0);
      pages' := Pmm.Free(pages', y, 1);
    }
  }

  lemma RootEnds(m: Mem, g: Ghost, o: nat)
    requires Walkable(m, g, o) && o in g.ctxs
    ensures Gone(m, g, Upto(g.home, o, 0)) == {} && Upto(g.home, o, LOWER) == Owned(g.home, o)
  {
    hide Walkable, Gone, Upto, Owned;
    RootStep(m, g, o, 0);
  }

  lemma RootFacts(m: Mem, g: Ghost, o: nat)
    requires Ok(m, g) && o in g.ctxs
    ensures Pmm.Valid(m.pages) && m.pages.ready && 0 < o < |m.pages.bits| && o in m.tab && |m.tab[o]| == ENTRIES
  {
  }

  lemma RootStep(m: Mem, g: Ghost, o: nat, i: nat)
    requires Walkable(m, g, o) && o in g.ctxs && i < LOWER
    ensures var q := Slot(o, i);
            && ValidPos(TREE, q) && Owner(q) == o && Level(TREE, q) == 2
            && o in m.tab && |m.tab[o]| == ENTRIES && At(m, g, q) == Ptr(m.tab[o][i]) && TableEntry(m.tab[o][i])
            && Gone(m, g, Upto(g.home, o, i + 1)) == Gone(m, g, Upto(g.home, o, i)) + Gone(m, g, Below(g.home, q))
            && (At(m, g, q) == 0 ==> Gone(m, g, Below(g.home, q)) == {})
    ensures Gone(m, g, Upto(g.home, o, 0)) == {} && Upto(g.home, o, LOWER) == Owned(g.home, o)
  {
    hide Gone, Below, LeafFrames, Frames, Upto, Owned;
    SlotAt(m, g, o, i);
    UptoStep(TREE, g.home, o, i);
    FanAll(TREE, Tabs(m, g), RootsOf(m, g), g.home, Slot(o, i));
    GoneUnion(m, g, Upto(g.home, o, i), Below(g.home, Slot(o, i)));
  }

  lemma DestroyedOk(m: Mem, g: Ghost, m': Mem, g': Ghost, o: nat)
    requires Ok(m, g) && o in g.ctxs && Unshared(m, g, o) && m' == m.(pages := m'.pages)
    requires Pmm.Valid(m'.pages) && m'.pages.ready && |m'.pages.bits| == |m.pages.bits|
    requires Pmm.FreeSet(m'.pages) == Pmm.FreeSet(m.pages) + Gone(m, g, Owned(g.home, o)) + {o}
    requires g' == Ghost(g.home - Owned(g.home, o), g.ctxs - {o})
    ensures Destroyed(m, g, m', g', o)
  {
    hide Planted, Frames, Unshared, Gone, Owned, Pmm.FreeSet, Pmm.Valid, Node, Tabs, RootsOf;
    forall q | ValidPos(TREE, q)
      ensures At(m', g', q) == if Owner(q) == o then 0 else At(m, g, q)
    {
      DestroyedAt(m, g, m', g', o, q);
    }
    DestroyedPlanted(m, g, m', g', o);
    DestroyedFrames(m, g, m', g', o);
    forall o': nat, w | Lower(w) && o' != o ensures Look(m', g', o', w) == Look(m, g, o', w) { Places(o', w); }
  }

  lemma DestroyedAt(m: Mem, g: Ghost, m': Mem, g': Ghost, o: nat, q: Pos)
    requires Ok(m, g) && o in g.ctxs && m'.tab == m.tab && g' == Ghost(g.home - Owned(g.home, o), g.ctxs - {o})
    requires ValidPos(TREE, q)
    ensures At(m', g', q) == if Owner(q) == o then 0 else At(m, g, q)
  {
    hide Node, ValidPos, Owned;
    if Owner(q) == o {
      NoRoot(Tabs(m', g'), RootsOf(m', g'), q);
    } else {
      SameNodes(TREE, Tabs(m, g), RootsOf(m, g), g.home, Tabs(m', g'), RootsOf(m', g'), Owner(q), q);
    }
  }

  lemma DestroyedPlanted(m: Mem, g: Ghost, m': Mem, g': Ghost, o: nat)
    requires Planted(TREE, Tabs(m, g), RootsOf(m, g), g.home) && m'.tab == m.tab
    requires g' == Ghost(g.home - Owned(g.home, o), g.ctxs - {o})
    requires forall q | ValidPos(TREE, q) :: At(m', g', q) == if Owner(q) == o then 0 else At(m, g, q)
    ensures Planted(TREE, Tabs(m', g'), RootsOf(m', g'), g'.home)
  {
    hide Node, RootsOf, Owner, ValidPos;
    var t', r' := Tabs(m', g'), RootsOf(m', g');
    forall p | ValidPos(TREE, p) && Node(t', r', p) != 0
      ensures Node(t', r', p) in g'.home && g'.home[Node(t', r', p)] == p
    {
      assert At(m', g', p) == Node(t', r', p);
    }
    forall b | b in g'.home ensures Node(t', r', g'.home[b]) == b {
      assert At(m', g', g'.home[b]) == Node(t', r', g'.home[b]);
    }
  }

  lemma DestroyedFrames(m: Mem, g: Ghost, m': Mem, g': Ghost, o: nat)
    requires Ok(m, g) && o in g.ctxs && Unshared(m, g, o) && m' == m.(pages := m'.pages)
    requires Pmm.Valid(m'.pages) && m'.pages.ready && |m'.pages.bits| == |m.pages.bits|
    requires Pmm.FreeSet(m'.pages) == Pmm.FreeSet(m.pages) + Gone(m, g, Owned(g.home, o)) + {o}
    requires g' == Ghost(g.home - Owned(g.home, o), g.ctxs - {o})
    ensures Frames(m', g')
  {
    hide Pmm.FreeSet, Pmm.Valid, Planted, LeafFrames, Look, Unshared, Level;
    forall f | f in Gone(m, g, Owned(g.home, o))
      ensures f !in g'.home && f !in g'.ctxs && f != 0
    {
      GoneApart(m, g, o, f);
    }
  }

  lemma GoneApart(m: Mem, g: Ghost, o: nat, f: nat)
    requires Ok(m, g) && o in g.ctxs && Unshared(m, g, o) && f in Gone(m, g, Owned(g.home, o))
    ensures f != 0 && (f in g.home ==> Owner(g.home[f]) == o) && (f in g.ctxs ==> f == o)
  {
    hide Pmm.FreeSet, Pmm.Valid, Look, Tabs, RootsOf, Node, LeafFrames;
    if f !in Owned(g.home, o) {
      var b :| b in Owned(g.home, o) && b in m.tab && Level(TREE, g.home[b]) == 0 && f in LeafFrames(m.tab[b], ENTRIES);
      var w := LeafPage(m, g, o, b, f);
    }
  }
}
