/** All address spaces over one page allocator, as an object. */
module Vmm {
  import opened Forest
  import Pmm
  import opened Sets
  import opened VmmState
  import opened VmmMap
  import opened VmmDestroy
  import opened VmmCopy
  import opened VmmClone

  /** Every run of map, unmap, create, clone and destroy keeps the tables a forest whose pages are in use,
      and each address space a partial map from pages to frames. */
  class AddressSpaces {
    var mem: Mem
    ghost var g: Ghost

    ghost predicate Valid()
      reads this
    {
      Ok(mem, g)
    }

    constructor (pages: Pmm.Pages, data: map<nat, Content>)
      requires Pmm.Valid(pages) && pages.ready && 0 !in Pmm.FreeSet(pages)
      ensures Valid() && g == Ghost(map[], {}) && mem.pages == pages
    {
      hide Pmm.Valid, Pmm.FreeSet;
      mem := Mem(map[], data, pages);
      g := Ghost(map[], {});
      NoSpaces(Mem(map[], data, pages), Ghost(map[], {}));
    }

    method MapPage(o: nat, virt: nat, phys: nat, flags: set<nat>) returns (ok: bool)
      requires Valid() && o in g.ctxs && virt < LOWER_HALF
      modifies this
      ensures Valid()
      ensures Mapped(old(mem), old(g), mem, g, o, PageOf(virt), Entry(phys / PAGE % FRAMES, flags + {PRESENT}), ok)
    {
      hide Ok, Mapped;
      var m;
      ghost var h;
      ok, m, h := Map(mem, o, virt, phys, flags, g);
      MappedOk(mem, g, m, h, o, PageOf(virt), Entry(phys / PAGE % FRAMES, flags + {PRESENT}), ok);
      mem, g := m, h;
    }

    method UnmapPage(o: nat, virt: nat) returns (ok: bool)
      requires Valid() && o in g.ctxs && virt < LOWER_HALF
      modifies this`mem
      ensures Valid() && mem.pages == old(mem.pages) && mem.data == old(mem.data)
      ensures forall o': nat, w | Lower(w) ::
          Look(mem, g, o', w) == if (o', w) == (o, PageOf(virt)) then NOTHING else Look(old(mem), g, o', w)
      ensures KernelSame(old(mem), mem, g.ctxs)
    {
      hide Ok;
      var m;
      ok, m := Unmap(mem, o, virt, g);
      mem := m;
    }

    method Translate(o: nat, virt: nat) returns (phys: nat)
      requires Valid() && o in g.ctxs && virt < LOWER_HALF
      ensures var e := Look(mem, g, o, PageOf(virt));
              phys == if PRESENT in e.flags then e.frame * PAGE + virt % PAGE else 0
    {
      hide Ok;
      phys := VirtToPhys(mem, o, virt, g);
    }

    method NewSpace(upper: seq<Entry>) returns (c: nat)
      requires Valid() && |upper| == ENTRIES - LOWER
      modifies this
      ensures Valid() && (c == 0 ==> unchanged(this) && Pmm.FreeSet(mem.pages) == {})
      ensures c != 0 ==> Created(old(mem), old(g), mem, g, c) && Kernel(mem, c, upper)
    {
      hide Ok, Created;
      var m;
      ghost var h;
      c, m, h := Create(mem, upper, g);
      if c != 0 { CreatedValid(mem, g, m, h, c); }
      mem, g := m, h;
    }

    method CloneSpace(o: nat, upper: seq<Entry>) returns (ok: bool, c: nat, ghost taken: set<nat>)
      requires Valid() && o in g.ctxs && |upper| == ENTRIES - LOWER && Mapping(mem, g, o)
      modifies this
      ensures Valid() && (ok ==> Cloned(Job(old(mem), old(g), o, c), mem, g, taken))
      ensures ok ==> Kernel(mem, c, upper) && forall w | Lower(w) :: SamePage(old(mem), old(g), o, mem, g, c, w)
      ensures KernelSame(old(mem), mem, old(g.ctxs))
      ensures !ok ==> CloneFailed(old(mem), old(g), o, c, mem, g)
      ensures ok <==> |Pmm.FreeSet(old(mem.pages))| >= Cost(old(mem), old(g), o)
    {
      hide Ok, Cloned, CloneFailed, Mapping, Cost, SamePage;
      var m;
      ghost var h;
      ok, c, m, h, taken := Clone(mem, o, upper, g);
      if ok { ClonedOk(Job(mem, g, o, c), m, h, taken); } else { FailedOk(mem, g, o, c, m, h); }
      mem, g := m, h;
    }

    method DropSpace(o: nat)
      requires Valid() && o in g.ctxs && InRange(mem, g, o) && Unshared(mem, g, o)
      modifies this
      ensures Valid() && Destroyed(old(mem), old(g), mem, g, o)
    {
      hide Ok, Destroyed, InRange, Unshared;
      var m;
      ghost var h;
      m, h := Destroy(mem, o, g);
      DestroyedValid(mem, g, m, h, o);
      mem, g := m, h;
    }
  }

  lemma NoSpaces(m: Mem, g: Ghost)
    requires m.tab == map[] && g == Ghost(map[], {}) && Pmm.Valid(m.pages) && m.pages.ready
    requires 0 !in Pmm.FreeSet(m.pages)
    ensures Ok(m, g)
  {
    hide Pmm.Valid, Pmm.FreeSet;
    assert RootsOf(m, g) == map[];
    forall p ensures Node(Tabs(m, g), RootsOf(m, g), p) == 0 { NoRoot(Tabs(m, g), RootsOf(m, g), p); }
  }

  lemma MappedOk(m: Mem, g: Ghost, m': Mem, g': Ghost, o: nat, v: Vpage, e: Entry, ok: bool)
    requires Mapped(m, g, m', g', o, v, e, ok)
    ensures Ok(m', g')
  {
    hide Ok, Look;
  }

  lemma CreatedValid(m: Mem, g: Ghost, m': Mem, g': Ghost, c: nat)
    requires Created(m, g, m', g', c)
    ensures Ok(m', g')
  {
    hide Ok, Look, At;
  }

  lemma ClonedOk(j: Job, m: Mem, g: Ghost, taken: set<nat>)
    requires Cloned(j, m, g, taken)
    ensures Ok(m, g)
  {
    hide Ok, Look, Copied, Has;
  }

  lemma FailedOk(m: Mem, g: Ghost, o: nat, c: nat, m': Mem, g': Ghost)
    requires CloneFailed(m, g, o, c, m', g')
    ensures Ok(m', g')
  {
    hide Ok, Look;
  }

  lemma DestroyedValid(m: Mem, g: Ghost, m': Mem, g': Ghost, o: nat)
    requires Destroyed(m, g, m', g', o)
    ensures Ok(m', g')
  {
    hide Ok, Look;
  }

  // A page that is lost by cloning and destroying.

  lemma RunSize(n: nat)
    ensures |Pmm.Run(1, n)| == n && forall x | x in Pmm.Run(1, n) :: 1 <= x <= n
  {
  }

  /** A new address space owns no table and maps no page. */
  lemma FirstSpace(m: Mem, g: Ghost, m': Mem, g': Ghost, c: nat)
    requires g == Ghost(map[], {}) && Created(m, g, m', g', c)
    ensures c in g'.ctxs && g'.home == map[] && |Pmm.FreeSet(m'.pages)| == |Pmm.FreeSet(m.pages)| - 1
    ensures forall w | Lower(w) :: Look(m', g', c, w) == NOTHING
  {
    hide Ok, Look, Pmm.FreeSet;
  }

  /** After mapping one page of the first address space, cloning it takes at most five pages. */
  lemma OnePage(m: Mem, g: Ghost, m': Mem, g': Ghost, o: nat, v: Vpage, e: Entry)
    requires g.home == map[] && (forall w | Lower(w) :: Look(m, g, o, w) == NOTHING) && Lower(v)
    requires Mapped(m, g, m', g', o, v, e, true) && PRESENT in e.flags && e.frame == 0
    ensures Cost(m', g', o) <= 5 && Mapping(m', g', o) && |Pmm.FreeSet(m'.pages)| >= |Pmm.FreeSet(m.pages)| - 3
    ensures Look(m', g', o, v) == e && g'.ctxs == g.ctxs
  {
    hide Ok, Look, Pmm.FreeSet, PagesOf, Lack;
    PagesOk(m', g');
    LackOne(m, g, o, v);
    HomeApart(m', g');
    assert Pmm.FreeSet(m'.pages) + g'.home.Keys == Pmm.FreeSet(m.pages);
    Fewer(Owned(g'.home, o), g'.home.Keys);
    forall w ensures w in PagesOf(m', g', o) <==> w == v {
      InPages(m', g', o, w);
      if Lower(w) { assert Look(m', g', o, w) == if w == v then e else NOTHING; }
    }
    assert PagesOf(m', g', o) == {v};
  }

  lemma LackOne(m: Mem, g: Ghost, o: nat, v: Vpage)
    ensures Lacking(m, g, o, v) <= 3
  {
    hide At;
  }

  lemma HomeApart(m: Mem, g: Ghost)
    requires Ok(m, g)
    ensures Pmm.FreeSet(m.pages) !! g.home.Keys
  {
    hide Planted, Pmm.FreeSet;
  }

  /** The copy of a page with the keep flag does not come back. */
  lemma KeptLost(j: Job, m: Mem, g: Ghost, taken: set<nat>, m': Mem, g': Ghost, w: Vpage)
    requires Cloned(j, m, g, taken) && Destroyed(m, g, m', g', j.c)
    requires Lower(w) && PRESENT in Look(j.m0, j.g0, j.o, w).flags && NO_FREE in Look(j.m0, j.g0, j.o, w).flags
    ensures Pmm.FreeSet(m'.pages) < Pmm.FreeSet(j.m0.pages)
  {
    hide Ok, Look, Cloning, Destroyed, Pmm.FreeSet, Stuck, Follows;
    assert Has(j, m, g, w);
    Restored(j, m, g, taken, m', g');
    StuckFree(j, m, g, taken);
    KeptStuck(j, m, g, taken, w);
  }

  /** One address space with one page that has the keep flag: cloning it and destroying the clone leaves
      fewer free pages than before. */
  method KeptPageLost() returns (before: set<nat>, after: set<nat>)
    ensures after < before
  {
    hide Ok, Mapped, Created, Cloned, CloneFailed, Destroyed;
    hide Cost, Mapping, Look, Pmm.FreeSet, InRange, Unshared, Pmm.Valid;
    var bits := [true] + seq(15, _ => false);
    var a := new Pmm.PageAllocator(bits);
    FifteenFree(a.pages);
    var upper := seq(ENTRIES - LOWER, _ => NOTHING);
    var s := new AddressSpaces(a.pages, map[]);
    ghost var m0, g0 := s.mem, s.g;
    var o := s.NewSpace(upper);
    FirstSpace(m0, g0, s.mem, s.g, o);
    ghost var m1, g1 := s.mem, s.g;
    var mapped := s.MapPage(o, 0, 0, {NO_FREE});
    ghost var e := Entry(0, {NO_FREE} + {PRESENT});
    MapFits(m1, g1, s.mem, s.g, o, PageOf(0), e, mapped);
    OnePage(m1, g1, s.mem, s.g, o, PageOf(0), e);
    before := Pmm.FreeSet(s.mem.pages);
    ghost var m2, g2 := s.mem, s.g;
    var ok, c;
    ghost var taken;
    ok, c, taken := s.CloneSpace(o, upper);
    ghost var m3, g3 := s.mem, s.g;
    ghost var j := Job(m2, g2, o, c);
    CloneReady(j, m3, g3, taken);
    s.DropSpace(c);
    KeptLost(j, m3, g3, taken, s.mem, s.g, PageOf(0));
    after := Pmm.FreeSet(s.mem.pages);
  }

  lemma FifteenFree(p: Pmm.Pages)
    requires p.bits == [true] + seq(15, _ => false)
    ensures 0 !in Pmm.FreeSet(p) && |Pmm.FreeSet(p)| >= 15
  {
    RunSize(15);
    assert Pmm.Run(1, 15) <= Pmm.FreeSet(p);
    Fewer(Pmm.Run(1, 15), Pmm.FreeSet(p));
  }

  lemma MapFits(m: Mem, g: Ghost, m': Mem, g': Ghost, o: nat, v: Vpage, e: Entry, ok: bool)
    requires Mapped(m, g, m', g', o, v, e, ok) && |Pmm.FreeSet(m.pages)| >= 3
    ensures ok
  {
    hide Ok, Look, Pmm.FreeSet, Lack;
    LackOne(m, g, o, v);
  }

  lemma CloneReady(j: Job, m: Mem, g: Ghost, taken: set<nat>)
    requires Cloned(j, m, g, taken)
    ensures j.c in g.ctxs && InRange(m, g, j.c) && Unshared(m, g, j.c)
  {
    hide Cloning, Has, InRange, Unshared;
    CloningOk(j, m, g, taken);
    ChildOnly(j, m, g, taken);
  }
}
