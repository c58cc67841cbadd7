/** Mapping, unmapping and translating one page. */
module VmmMap {
  import opened Options
  import opened Forest
  import Pmm
  import opened VmmState

  const PAGE: nat := 4096
  const LOWER_HALF: nat := 0x8000_0000_0000
  const FRAMES: nat := 0x100_0000_0000

  /** The four table indices in a virtual address. */
  function PageOf(virt: nat): (v: Vpage)
    requires virt < LOWER_HALF
    ensures Lower(v)
  {
    Vpage((virt / 0x80_0000_0000) % ENTRIES, (virt / 0x4000_0000) % ENTRIES, (virt / 0x20_0000) % ENTRIES,
        (virt / 0x1000) % ENTRIES)
  }

  /** Two addresses of the lower half use the same entry exactly when they lie in the same page. */
  lemma PageOfExact(a: nat, b: nat)
    requires a < LOWER_HALF && b < LOWER_HALF
    ensures PageOf(a) == PageOf(b) <==> a / PAGE == b / PAGE
  {
    Digits(a);
    Digits(b);
  }

  lemma Digits(a: nat)
    requires a < LOWER_HALF
    ensures var v, n := PageOf(a), a / PAGE;
            && n == ((v.top * ENTRIES + v.dir) * ENTRIES + v.mid) * ENTRIES + v.last
            && v.last == n % ENTRIES && v.mid == n / ENTRIES % ENTRIES && v.dir == n / ENTRIES / ENTRIES % ENTRIES
            && v.top == n / ENTRIES / ENTRIES / ENTRIES
  {
    var n := a / 0x1000;
    assert a / 0x20_0000 == n / 512;
    assert a / 0x4000_0000 == n / 512 / 512;
    assert a / 0x80_0000_0000 == n / 512 / 512 / 512;
  }

  /** One page from the allocator, 0 when there is none. */
  method AllocPage(pages: Pmm.Pages) returns (v: nat, pages': Pmm.Pages)
    requires Pmm.Valid(pages) && pages.ready && 0 !in Pmm.FreeSet(pages)
    ensures v == 0 ==> pages' == pages && Pmm.FreeSet(pages) == {}
    ensures v != 0 ==> v in Pmm.FreeSet(pages) && Pmm.FreeSet(pages') == Pmm.FreeSet(pages) - {v}
    ensures v != 0 ==> Pmm.Valid(pages') && pages'.ready && |pages'.bits| == |pages.bits|
    ensures v != 0 ==> Pmm.Allocated(pages, pages', 1, Some(v))
  {
    var r;
    r, pages' := Pmm.Alloc(pages, 1);
    OnePage(pages, pages', r);
    v := if r.Some? then r.value else 0;
  }

  lemma OnePage(p: Pmm.Pages, p': Pmm.Pages, r: Option<nat>)
    requires p.ready && Pmm.Allocated(p, p', 1, r)
    ensures r.None? ==> Pmm.FreeSet(p) == {} && p' == p
    ensures r.Some? ==> r.value in Pmm.FreeSet(p) && Pmm.FreeSet(p') == Pmm.FreeSet(p) - {r.value}
    ensures r.Some? ==> p'.ready && |p'.bits| == |p.bits|
  {
    if r.None? {
      forall s | s in Pmm.FreeSet(p) ensures false { assert Pmm.FreeRun(p.bits, s, 1); }
    } else {
      assert Pmm.Run(r.value, 1) == {r.value};
    }
  }

  /** Tables may have been added below address space o; nothing that was mapped or reachable changed, and
      every page that left the free set became a table. */
  ghost predicate Extends(m: Mem, g: Ghost, m': Mem, g': Ghost, o: nat) {
    && Ok(m', g') && g'.ctxs == g.ctxs && m'.data == m.data && |m'.pages.bits| == |m.pages.bits|
    && (forall b | b in g.home :: b in g'.home && g'.home[b] == g.home[b])
    && (forall b | b in g'.home && b !in g.home :: Owner(g'.home[b]) == o)
    && Pmm.FreeSet(m'.pages) + g'.home.Keys == Pmm.FreeSet(m.pages) + g.home.Keys
    && (forall q {:trigger At(m', g', q)} | ValidPos(TREE, q) && At(m, g, q) != 0 :: At(m', g', q) == At(m, g, q))
    && (forall o': nat, v {:trigger Look(m', g', o', v)} | Lower(v) :: Look(m', g', o', v) == Look(m, g, o', v))
    && KernelSame(m, m', g.ctxs)
  }

  lemma ExtendsTrans(m: Mem, g: Ghost, m1: Mem, g1: Ghost, m2: Mem, g2: Ghost, o: nat)
    requires Extends(m, g, m1, g1, o) && Extends(m1, g1, m2, g2, o)
    ensures Extends(m, g, m2, g2, o)
  {
    hide Ok, At, Look, Pmm.FreeSet, KernelSame;
    KernelTrans(m, m1, m2, g.ctxs, g1.ctxs);
    forall q | ValidPos(TREE, q) && At(m, g, q) != 0 ensures At(m2, g2, q) == At(m, g, q) {
      assert At(m1, g1, q) == At(m, g, q);
    }
    forall o': nat, v | Lower(v) ensures Look(m2, g2, o', v) == Look(m, g, o', v) {
      assert Look(m1, g1, o', v) == Look(m, g, o', v);
    }
  }

  lemma ExtendsRefl(m: Mem, g: Ghost, o: nat)
    requires Ok(m, g)
    ensures Extends(m, g, m, g, o)
  {
  }

  /** 1 where there is no table at p. */
  ghost function Lack(m: Mem, g: Ghost, p: Pos): nat {
    if At(m, g, p) == 0 then 1 else 0
  }

  /** The tables that mapping page v of address space o needs and that are not there. */
  ghost function Lacking(m: Mem, g: Ghost, o: nat, v: Vpage): nat {
    Lack(m, g, Slot(o, v.top)) + Lack(m, g, Child(Slot(o, v.top), v.dir)) + Lack(m, g, Place(o, v))
  }

  /** The table that entry i of table x points to; with `allocate`, a missing one is made. */
  method GetNextLevel(m: Mem, x: nat, i: nat, allocate: bool, ghost g: Ghost, ghost p: Pos)
    returns (y: nat, m': Mem, ghost g': Ghost)
    requires Ok(m, g) && Holds(m, g, p, x) && p.index == i && Owner(p) in g.ctxs
    ensures Extends(m, g, m', g', Owner(p)) && Ok(m', g') && g'.ctxs == g.ctxs && y == At(m', g', p)
    ensures !allocate ==> m' == m && g' == g
    ensures y == 0 ==> m' == m && g' == g
    ensures y == 0 <==> At(m, g, p) == 0 && (!allocate || Pmm.FreeSet(m.pages) == {})
    ensures y != 0 ==> |Pmm.FreeSet(m'.pages)| == |Pmm.FreeSet(m.pages)| - Lack(m, g, p)
    ensures forall q | ValidPos(TREE, q) && q != p :: At(m', g', q) == At(m, g, q)
  {
    hide Ok, At, Extends, Hung, Pmm.FreeSet;
    ExtendsRefl(m, g, Owner(p));
    PagesOk(m, g);
    HeldEntry(m, g, p, x);
    m', g' := m, g;
    if PRESENT in m.tab[x][i].flags { return m.tab[x][i].frame, m, g; }
    if !allocate { return 0, m, g; }
    var v, pages := AllocPage(m.pages);
    if v == 0 { return 0, m, g; }
    var blank := Mem(m.tab[v := seq(ENTRIES, _ => NOTHING)], m.data, pages);
    FreshNot(m, g, p, x, v);
    m' := PutEntry(blank, x, i, Entry(v, {PRESENT, WRITE, USER}));
    g' := g.(home := g.home[v := p]);
    HungIs(m, x, i, v, pages, m');
    HangTable(m, g, p, x, v, pages, m', g');
    HungExtends(m, g, p, x, v, pages, m', g');
    y := v;
  }

  lemma PagesOk(m: Mem, g: Ghost)
    requires Ok(m, g)
    ensures Pmm.Valid(m.pages) && m.pages.ready && 0 !in Pmm.FreeSet(m.pages)
  {
  }

  lemma HeldEntry(m: Mem, g: Ghost, p: Pos, x: nat)
    requires Ok(m, g) && Holds(m, g, p, x)
    ensures At(m, g, p) == Ptr(m.tab[x][p.index]) && TableEntry(m.tab[x][p.index])
  {
    hide Ok, At;
    LevelUp(p);
    if p.Slot? { SlotAt(m, g, x, p.index); } else { TableAt(m, g, p.parent); }
  }

  lemma FreshNot(m: Mem, g: Ghost, p: Pos, x: nat, v: nat)
    requires Ok(m, g) && Holds(m, g, p, x) && v in Pmm.FreeSet(m.pages)
    ensures v != x && v !in g.home && v !in g.ctxs
  {
    hide Planted, At;
    FreshApart(m, g, v);
    LevelUp(p);
    if p.Child? { TableAt(m, g, p.parent); }
  }

  lemma HungIs(m: Mem, x: nat, i: nat, v: nat, pages: Pmm.Pages, m': Mem)
    requires x in m.tab && i < |m.tab[x]| && x != v
    requires m' == PutEntry(Mem(m.tab[v := seq(ENTRIES, _ => NOTHING)], m.data, pages), x, i,
        Entry(v, {PRESENT, WRITE, USER}))
    ensures m' == Hung(m, x, i, v, pages)
  {
  }

  lemma HungExtends(m: Mem, g: Ghost, p: Pos, x: nat, v: nat, pages: Pmm.Pages, m': Mem, g': Ghost)
    requires x in m.tab && p.index < |m.tab[x]| && m' == Hung(m, x, p.index, v, pages)
    requires g' == g.(home := g.home[v := p])
    requires v !in g.home && v in Pmm.FreeSet(m.pages) && Pmm.FreeSet(pages) == Pmm.FreeSet(m.pages) - {v}
    requires |pages.bits| == |m.pages.bits|
    requires Ok(m', g') && At(m, g, p) == 0
    requires forall q | ValidPos(TREE, q) && q != p :: At(m', g', q) == At(m, g, q)
    requires forall o: nat, w | Lower(w) :: Look(m', g', o, w) == Look(m, g, o, w)
    requires v !in g.ctxs && v != x && (x in g.ctxs ==> p.index < LOWER)
    ensures Extends(m, g, m', g', Owner(p))
  {
    hide Ok, At, Look, Pmm.FreeSet;
    assert KernelSame(m, m', g.ctxs);
  }

  /** After vmm_map: on success the page maps to the frame with the flags and no other page of any address
      space changed; on failure no page changed. Pages only moved from the free set to tables of o. */
  ghost predicate Mapped(m: Mem, g: Ghost, m': Mem, g': Ghost, o: nat, v: Vpage, e: Entry, ok: bool) {
    && Ok(m', g') && g'.ctxs == g.ctxs && m'.data == m.data
    && (forall b | b in g.home :: b in g'.home && g'.home[b] == g.home[b])
    && (forall b | b in g'.home && b !in g.home :: Owner(g'.home[b]) == o)
    && Pmm.FreeSet(m'.pages) + g'.home.Keys == Pmm.FreeSet(m.pages) + g.home.Keys
    && (forall o': nat, w {:trigger Look(m', g', o', w)} | Lower(w) ::
          Look(m', g', o', w) == if ok && (o', w) == (o, v) then e else Look(m, g, o', w))
    && (ok <==> |Pmm.FreeSet(m.pages)| >= Lacking(m, g, o, v))
    && (ok ==> |Pmm.FreeSet(m'.pages)| == |Pmm.FreeSet(m.pages)| - Lacking(m, g, o, v))
    && (!ok ==> Pmm.FreeSet(m'.pages) == {})
    && KernelSame(m, m', g.ctxs)
  }

  method Map(m: Mem, o: nat, virt: nat, phys: nat, flags: set<nat>, ghost g: Ghost)
    returns (ok: bool, m': Mem, ghost g': Ghost)
    requires Ok(m, g) && o in g.ctxs && virt < LOWER_HALF
    ensures Mapped(m, g, m', g', o, PageOf(virt), Entry(phys / PAGE % FRAMES, flags + {PRESENT}), ok)
  {
    hide Ok, At, Look, Extends, Holds, ValidPos, Mapped, PutEntry, Pmm.FreeSet;
    var v := PageOf(virt);
    var e := Entry(phys / PAGE % FRAMES, flags + {PRESENT});
    var x1, x2, x3;
    HoldsSlot(m, g, o, v);
    x1, m', g' := GetNextLevel(m, o, v.top, true, g, Slot(o, v.top));
    if x1 == 0 { Unmapped(m, g, m', g', o, v, e); return false, m', g'; }
    ghost var m1, g1 := m', g';
    HoldsNext(m', g', Slot(o, v.top), v.dir, x1);
    x2, m', g' := GetNextLevel(m', x1, v.dir, true, g', Child(Slot(o, v.top), v.dir));
    ExtendsTrans(m, g, m1, g1, m', g', o);
    if x2 == 0 { Unmapped(m, g, m', g', o, v, e); return false, m', g'; }
    m1, g1 := m', g';
    HoldsNext(m', g', Child(Slot(o, v.top), v.dir), v.mid, x2);
    x3, m', g' := GetNextLevel(m', x2, v.mid, true, g', Place(o, v));
    ExtendsTrans(m, g, m1, g1, m', g', o);
    if x3 == 0 { Unmapped(m, g, m', g', o, v, e); return false, m', g'; }
    m1 := m';
    LeafTable(m', g', o, v);
    m' := PutEntry(m', x3, v.last, e);
    PutLeaf(m1, g', o, v, x3, e, m');
    MappedLeaf(m, g, m1, g', m', o, v, x3, e);
    ok := true;
  }

  lemma HoldsSlot(m: Mem, g: Ghost, o: nat, v: Vpage)
    requires Ok(m, g) && o in g.ctxs && Lower(v)
    ensures Holds(m, g, Slot(o, v.top), o) && ValidPos(TREE, Slot(o, v.top)) && Level(TREE, Slot(o, v.top)) == 2
    ensures ValidPos(TREE, Place(o, v)) && Level(TREE, Place(o, v)) == 0 && Owner(Place(o, v)) == o
    ensures ValidPos(TREE, Child(Slot(o, v.top), v.dir)) && Level(TREE, Child(Slot(o, v.top), v.dir)) == 1
    ensures Owner(Slot(o, v.top)) == o && Owner(Child(Slot(o, v.top), v.dir)) == o
  {
    Places(o, v);
    SlotAt(m, g, o, v.top);
  }

  lemma HoldsNext(m: Mem, g: Ghost, p: Pos, i: nat, x: nat)
    requires Ok(m, g) && ValidPos(TREE, p) && Level(TREE, p) > 0 && i < ENTRIES && x == At(m, g, p) != 0
    ensures Holds(m, g, Child(p, i), x) && Owner(Child(p, i)) in g.ctxs
  {
    TableAt(m, g, p);
  }

  lemma LeafTable(m: Mem, g: Ghost, o: nat, v: Vpage)
    requires Ok(m, g) && Lower(v) && At(m, g, Place(o, v)) != 0
    ensures var x := At(m, g, Place(o, v));
            x in m.tab && |m.tab[x]| == ENTRIES && Look(m, g, o, v) == m.tab[x][v.last] && x !in g.ctxs
  {
    hide Ok, At;
    Places(o, v);
    TableAt(m, g, Place(o, v));
  }

  lemma LeafKernel(m: Mem, g: Ghost, m': Mem, x: nat, i: nat, e: Entry)
    requires x in m.tab && i < |m.tab[x]| && x !in g.ctxs && m' == PutEntry(m, x, i, e)
    ensures KernelSame(m, m', g.ctxs)
  {
  }

  lemma Unmapped(m: Mem, g: Ghost, m': Mem, g': Ghost, o: nat, v: Vpage, e: Entry)
    requires Extends(m, g, m', g', o) && Pmm.FreeSet(m'.pages) == {} && |Pmm.FreeSet(m.pages)| < Lacking(m, g, o, v)
    ensures Mapped(m, g, m', g', o, v, e, false)
  {
    hide Ok, At, Look, Pmm.FreeSet;
  }

  lemma MappedLeaf(m: Mem, g: Ghost, m1: Mem, g1: Ghost, m': Mem, o: nat, v: Vpage, x: nat, e: Entry)
    requires Extends(m, g, m1, g1, o) && Ok(m', g1) && x in m1.tab && v.last < |m1.tab[x]|
    requires m' == PutEntry(m1, x, v.last, e)
    requires forall o': nat, w | Lower(w) :: Look(m', g1, o', w) == if (o', w) == (o, v) then e else Look(m1, g1, o', w)
    requires |Pmm.FreeSet(m1.pages)| == |Pmm.FreeSet(m.pages)| - Lacking(m, g, o, v) && x !in g1.ctxs
    ensures Mapped(m, g, m', g1, o, v, e, true)
  {
    hide Ok, At, Look, Pmm.FreeSet, KernelSame;
    assert KernelSame(m1, m', g1.ctxs) by { LeafKernel(m1, g1, m', x, v.last, e); }
    KernelTrans(m, m1, m', g.ctxs, g1.ctxs);
    forall o': nat, w | Lower(w) ensures Look(m', g1, o', w) == if (o', w) == (o, v) then e else Look(m, g, o', w) {
      assert Look(m1, g1, o', w) == Look(m, g, o', w);
    }
  }

  /** The three entries on the way to a mapped page are present, writable and open to user mode. */
  lemma PathRights(m: Mem, g: Ghost, o: nat, v: Vpage)
    requires Ok(m, g) && o in g.ctxs && Lower(v) && Look(m, g, o, v) != NOTHING
    ensures var x, y := At(m, g, Slot(o, v.top)), At(m, g, Child(Slot(o, v.top), v.dir));
            && o in m.tab && |m.tab[o]| == ENTRIES && x in m.tab && |m.tab[x]| == ENTRIES
            && y in m.tab && |m.tab[y]| == ENTRIES
            && {0, 1, 2} <= m.tab[o][v.top].flags && {0, 1, 2} <= m.tab[x][v.dir].flags
            && {0, 1, 2} <= m.tab[y][v.mid].flags
  {
    hide Ok, At;
    Places(o, v);
    SlotAt(m, g, o, v.top);
    if At(m, g, Child(Slot(o, v.top), v.dir)) == 0 { Missing(m, g, Child(Slot(o, v.top), v.dir), v.mid); }
    if At(m, g, Slot(o, v.top)) == 0 { Missing(m, g, Slot(o, v.top), v.dir); }
    TableAt(m, g, Slot(o, v.top));
    TableAt(m, g, Child(Slot(o, v.top), v.dir));
  }

  /** The walk without allocation that unmap and translate share: the last table, or 0. */
  method Walk(m: Mem, o: nat, virt: nat, ghost g: Ghost) returns (x: nat)
    requires Ok(m, g) && o in g.ctxs && virt < LOWER_HALF
    ensures x == At(m, g, Place(o, PageOf(virt)))
  {
    hide Ok, At, Look, Extends, Holds, ValidPos, PageOf;
    var v := PageOf(virt);
    ghost var m1, g1;
    HoldsSlot(m, g, o, v);
    x, m1, g1 := GetNextLevel(m, o, v.top, false, g, Slot(o, v.top));
    if x == 0 { Missing(m, g, Slot(o, v.top), v.dir); Missing(m, g, Child(Slot(o, v.top), v.dir), v.mid); return; }
    HoldsNext(m, g, Slot(o, v.top), v.dir, x);
    x, m1, g1 := GetNextLevel(m, x, v.dir, false, g, Child(Slot(o, v.top), v.dir));
    if x == 0 { Missing(m, g, Child(Slot(o, v.top), v.dir), v.mid); return; }
    HoldsNext(m, g, Child(Slot(o, v.top), v.dir), v.mid, x);
    x, m1, g1 := GetNextLevel(m, x, v.mid, false, g, Place(o, v));
  }

  lemma Missing(m: Mem, g: Ghost, p: Pos, i: nat)
    requires At(m, g, p) == 0
    ensures At(m, g, Child(p, i)) == 0
  {
  }

  /** vmm_unmap: the page maps to nothing and no other page changed; it reports whether there was a last table. */
  method Unmap(m: Mem, o: nat, virt: nat, ghost g: Ghost) returns (ok: bool, m': Mem)
    requires Ok(m, g) && o in g.ctxs && virt < LOWER_HALF
    ensures Ok(m', g) && m'.data == m.data && m'.pages == m.pages && (ok <==> At(m, g, Place(o, PageOf(virt))) != 0)
    ensures forall o': nat, w | Lower(w) ::
        Look(m', g, o', w) == if (o', w) == (o, PageOf(virt)) then NOTHING else Look(m, g, o', w)
    ensures KernelSame(m, m', g.ctxs)
  {
    hide Ok, At, PageOf;
    var v := PageOf(virt);
    var x := Walk(m, o, virt, g);
    if x == 0 { return false, m; }
    LeafTable(m, g, o, v);
    m' := PutEntry(m, x, v.last, NOTHING);
    PutLeaf(m, g, o, v, x, NOTHING, m');
    ok := true;
  }

  /** vmm_virt_to_phys: frame and offset of a mapped address, 0 for any other. */
  method VirtToPhys(m: Mem, o: nat, virt: nat, ghost g: Ghost) returns (phys: nat)
    requires Ok(m, g) && o in g.ctxs && virt < LOWER_HALF
    ensures var e := Look(m, g, o, PageOf(virt));
            phys == if PRESENT in e.flags then e.frame * PAGE + virt % PAGE else 0
  {
    hide Ok, At, PageOf;
    var v := PageOf(virt);
    var x := Walk(m, o, virt, g);
    if x == 0 { return 0; }
    LeafTable(m, g, o, v);
    var e := m.tab[x][v.last];
    phys := if PRESENT in e.flags then e.frame * PAGE + virt % PAGE else 0;
  }
}
