/** Address spaces: four levels of 512-entry tables in physical frames, seen as a forest. */
module VmmState {
  import opened Words
  import opened Forest
  import opened Pmm

  const ENTRIES: nat := 512
  const LOWER: nat := 256

  // Bit numbers of the flags in an entry.
  const PRESENT: nat := 0
  const WRITE: nat := 1
  const USER: nat := 2
  const HUGE: nat := 7
  const NO_FREE: nat := 9

  /** An entry: the frame number in bits 12 to 51, and which of the other bits are set. */
  datatype Entry = Entry(frame: nat, flags: set<nat>)
  const NOTHING: Entry := Entry(0, {})

  type Content = seq<byte>

  /** Physical memory: what frames used as tables hold, what other frames hold, and the page allocator. */
  datatype Mem = Mem(tab: map<nat, seq<Entry>>, data: map<nat, Content>, pages: Pages)

  /** home: where each table hangs. ctxs: the top-level tables, each naming its address space. */
  datatype Ghost = Ghost(home: map<nat, Pos>, ctxs: set<nat>)

  /** Below each of the 256 lower entries of a top-level table there are a table of tables of tables.
      The last tables are the data places of the forest; what they map may be any frame. */
  const TREE: Shape := Shape(LOWER, LOWER, 2, ENTRIES)

  function Ptr(e: Entry): nat {
    if PRESENT in e.flags then e.frame else 0
  }

  function Ptrs(s: seq<Entry>): (r: seq<nat>)
    ensures |r| == |s| && forall i | 0 <= i < |s| :: r[i] == Ptr(s[i])
  {
    seq(|s|, i requires 0 <= i < |s| => Ptr(s[i]))
  }

  function Tabs(m: Mem, g: Ghost): Tables {
    map f | f in m.tab && f !in g.ctxs :: Ptrs(m.tab[f])
  }

  function RootsOf(m: Mem, g: Ghost): Roots {
    map o | o in g.ctxs && o in m.tab && |m.tab[o]| == ENTRIES :: Ptrs(m.tab[o])[..LOWER]
  }

  function At(m: Mem, g: Ghost, p: Pos): nat {
    Node(Tabs(m, g), RootsOf(m, g), p)
  }

  /** An entry that points to a table: bits 0 to 2 are set, so that the entries of the last table decide who may
      read and write. */
  ghost predicate TableEntry(e: Entry) {
    HUGE !in e.flags && (PRESENT in e.flags ==> e.frame != 0 && 0 in e.flags && 1 in e.flags && 2 in e.flags)
  }

  ghost predicate Small(m: Mem, g: Ghost) {
    && (forall f, i | f in g.home && Level(TREE, g.home[f]) > 0 && f in m.tab && 0 <= i < |m.tab[f]| ::
          TableEntry(m.tab[f][i]))
    && (forall o, i | o in g.ctxs && o in m.tab && 0 <= i < LOWER <= |m.tab[o]| :: TableEntry(m.tab[o][i]))
  }

  /** Tables hang at one place each; tables and top-level tables are in use in the page allocator;
      page 0 is in use too, because its address is the null pointer. */
  ghost predicate Ok(m: Mem, g: Ghost) {
    Planted(TREE, Tabs(m, g), RootsOf(m, g), g.home) && Frames(m, g)
  }

  ghost predicate Frames(m: Mem, g: Ghost) {
    && Small(m, g)
    && Pmm.Valid(m.pages) && m.pages.ready
    && (forall o | o in g.ctxs :: o != 0 && o in m.tab && |m.tab[o]| == ENTRIES && o < |m.pages.bits|)
    && (forall f | f in g.home :: f < |m.pages.bits| && f in m.tab && f !in g.ctxs)
    && FreeSet(m.pages) !! g.home.Keys && FreeSet(m.pages) !! g.ctxs && 0 !in FreeSet(m.pages)
    && (forall f | f in g.home :: Owner(g.home[f]) in g.ctxs)
  }

  /** The upper halves of the top-level tables in C are the same. */
  ghost predicate KernelSame(m: Mem, m': Mem, C: set<nat>) {
    forall o, i {:trigger m'.tab[o][i]} {:trigger m.tab[o][i]} | o in C && o in m.tab && LOWER <= i < |m.tab[o]| ::
      o in m'.tab && i < |m'.tab[o]| && m'.tab[o][i] == m.tab[o][i]
  }

  lemma KernelRefl(m: Mem, C: set<nat>)
    ensures KernelSame(m, m, C)
  {
  }

  lemma KernelTrans(m: Mem, m1: Mem, m2: Mem, C: set<nat>, D: set<nat>)
    requires KernelSame(m, m1, C) && KernelSame(m1, m2, D) && C <= D
    ensures KernelSame(m, m2, C)
  {
    forall o, i | o in C && o in m.tab && LOWER <= i < |m.tab[o]|
      ensures o in m2.tab && i < |m2.tab[o]| && m2.tab[o][i] == m.tab[o][i]
    {
      assert m.tab[o][i] == m.tab[o][i];
      assert m1.tab[o][i] == m.tab[o][i];
    }
  }

  lemma KernelTab(m: Mem, m1: Mem, m2: Mem, C: set<nat>)
    requires KernelSame(m, m1, C) && m2.tab == m1.tab
    ensures KernelSame(m, m2, C)
  {
    forall o, i | o in C && o in m.tab && LOWER <= i < |m.tab[o]|
      ensures o in m2.tab && i < |m2.tab[o]| && m2.tab[o][i] == m.tab[o][i]
    {
      assert m.tab[o][i] == m.tab[o][i];
      assert m1.tab[o][i] == m.tab[o][i];
    }
  }

  // Virtual pages.

  /** The four table indices of a virtual page in the lower half. */
  datatype Vpage = Vpage(top: nat, dir: nat, mid: nat, last: nat)

  predicate Lower(v: Vpage) {
    v.top < LOWER && v.dir < ENTRIES && v.mid < ENTRIES && v.last < ENTRIES
  }

  /** The place of the last table for v in address space o. */
  function Place(o: nat, v: Vpage): Pos {
    Child(Child(Slot(o, v.top), v.dir), v.mid)
  }

  /** The entry that maps v in address space o; NOTHING where a table is missing. */
  function Look(m: Mem, g: Ghost, o: nat, v: Vpage): Entry {
    var x := At(m, g, Place(o, v));
    if x != 0 && x in m.tab && v.last < |m.tab[x]| then m.tab[x][v.last] else NOTHING
  }

  lemma Places(o: nat, v: Vpage)
    requires Lower(v)
    ensures ValidPos(TREE, Place(o, v)) && Level(TREE, Place(o, v)) == 0
    ensures ValidPos(TREE, Slot(o, v.top)) && Level(TREE, Slot(o, v.top)) == 2
    ensures ValidPos(TREE, Child(Slot(o, v.top), v.dir)) && Level(TREE, Child(Slot(o, v.top), v.dir)) == 1
    ensures Owner(Place(o, v)) == o
  {
    var r := Slot(o, v.top);
    assert Level(TREE, r) == 2 && Owner(r) == o && ValidPos(TREE, r);
    var p := Child(r, v.dir);
    assert Level(TREE, p) == 1 && Owner(p) == o && ValidPos(TREE, p);
    var q := Child(p, v.mid);
    assert Level(TREE, q) == 0 && Owner(q) == o && ValidPos(TREE, q);
  }

  /** A table that hangs in the forest, and what its entries say about the places below it. */
  lemma TableAt(m: Mem, g: Ghost, p: Pos)
    requires Ok(m, g) && ValidPos(TREE, p) && At(m, g, p) != 0
    ensures var x := At(m, g, p);
            && x in g.home && g.home[x] == p && x in m.tab && x !in g.ctxs && |m.tab[x]| == ENTRIES
            && x !in FreeSet(m.pages)
            && (Level(TREE, p) > 0 ==> forall i: nat | i < ENTRIES ::
                  At(m, g, Child(p, i)) == Ptr(m.tab[x][i]) && TableEntry(m.tab[x][i]))
    ensures Owner(p) in g.ctxs
  {
    var x := At(m, g, p);
    assert g.home[x] == p;
    assert Tabs(m, g)[x] == Ptrs(m.tab[x]);
  }

  lemma SlotAt(m: Mem, g: Ghost, o: nat, i: nat)
    requires Ok(m, g) && o in g.ctxs && i < LOWER
    ensures o in m.tab && |m.tab[o]| == ENTRIES && At(m, g, Slot(o, i)) == Ptr(m.tab[o][i]) && TableEntry(m.tab[o][i])
  {
  }

  // The two writes.

  function PutEntry(m: Mem, x: nat, i: nat, e: Entry): Mem
    requires x in m.tab && i < |m.tab[x]|
  {
    m.(tab := m.tab[x := m.tab[x][i := e]])
  }

  /** Writing an entry of a last table changes what one page of one address space maps to. */
  lemma PutLeaf(m: Mem, g: Ghost, o: nat, v: Vpage, x: nat, e: Entry, m': Mem)
    requires Ok(m, g) && Lower(v) && x == At(m, g, Place(o, v)) != 0
    requires x in m.tab && v.last < |m.tab[x]| && m' == PutEntry(m, x, v.last, e)
    ensures Ok(m', g)
    ensures forall o': nat, v' | Lower(v') ::
        Look(m', g, o', v') == if (o', v') == (o, v) then e else Look(m, g, o', v')
    ensures forall p | ValidPos(TREE, p) :: At(m', g, p) == At(m, g, p)
  {
    hide Ok, At;
    Places(o, v);
    TableAt(m, g, Place(o, v));
    PutLeafOk(m, g, Place(o, v), x, v.last, e, m');
    forall o': nat, v' | Lower(v') ensures Look(m', g, o', v') == if (o', v') == (o, v) then e else Look(m, g, o', v') {
      Places(o', v');
      if At(m, g, Place(o', v')) == x { TableAt(m, g, Place(o', v')); }
    }
  }

  lemma PutLeafOk(m: Mem, g: Ghost, p: Pos, x: nat, i: nat, e: Entry, m': Mem)
    requires Ok(m, g) && ValidPos(TREE, p) && Level(TREE, p) == 0 && x == At(m, g, p) != 0
    requires x in m.tab && i < |m.tab[x]| && m' == PutEntry(m, x, i, e)
    ensures Ok(m', g)
    ensures forall p | ValidPos(TREE, p) :: At(m', g, p) == At(m, g, p)
  {
    hide Frames, Planted;
    TableAt(m, g, p);
    PutLeafFrames(m, g, x, i, e, m');
    PutLeafTabs(m, g, x, i, e, m');
    PutDataKeeps(TREE, Tabs(m, g), RootsOf(m, g), g.home, x, Ptrs(m'.tab[x]));
  }

  lemma PutLeafTabs(m: Mem, g: Ghost, x: nat, i: nat, e: Entry, m': Mem)
    requires x in m.tab && x !in g.ctxs && i < |m.tab[x]| && m' == PutEntry(m, x, i, e)
    ensures Tabs(m', g) == Tabs(m, g)[x := Ptrs(m'.tab[x])] && RootsOf(m', g) == RootsOf(m, g)
  {
  }

  lemma PutLeafFrames(m: Mem, g: Ghost, x: nat, i: nat, e: Entry, m': Mem)
    requires Frames(m, g) && x in g.home && Level(TREE, g.home[x]) == 0 && x in m.tab && i < |m.tab[x]|
    requires m' == PutEntry(m, x, i, e)
    ensures Frames(m', g)
  {
    hide Pmm.Valid, FreeSet, Level;
  }

  /** A fresh table of absent entries hung at an empty place. */
  ghost function Hung(m: Mem, x: nat, i: nat, v: nat, pages: Pages): Mem
    requires x in m.tab && i < |m.tab[x]|
  {
    var e := Entry(v, {PRESENT, WRITE, USER});
    Mem(m.tab[v := seq(ENTRIES, _ => NOTHING)][x := m.tab[x][i := e]], m.data, pages)
  }

  /** Where table x keeps the pointer of place p. */
  ghost predicate Holds(m: Mem, g: Ghost, p: Pos, x: nat) {
    && ValidPos(TREE, p) && x in m.tab && |m.tab[x]| == ENTRIES && p.index < ENTRIES
    && (p.Slot? ==> p.owner == x && x in g.ctxs && p.index < LOWER)
    && (p.Child? ==> At(m, g, p.parent) == x != 0 && x !in g.ctxs)
  }

  ghost predicate FreshFrame(m: Mem, pages: Pages, v: nat) {
    && v != 0 && v in FreeSet(m.pages) && Pmm.Valid(pages) && pages.ready && FreeSet(pages) == FreeSet(m.pages) - {v}
    && |pages.bits| == |m.pages.bits|
  }

  lemma HangTable(m: Mem, g: Ghost, p: Pos, x: nat, v: nat, pages: Pages, m': Mem, g': Ghost)
    requires Ok(m, g) && Holds(m, g, p, x) && At(m, g, p) == 0 && FreshFrame(m, pages, v)
    requires m' == Hung(m, x, p.index, v, pages) && g' == g.(home := g.home[v := p])
    ensures Ok(m', g') && At(m', g', p) == v
    ensures forall q | ValidPos(TREE, q) && q != p :: At(m', g', q) == At(m, g, q)
    ensures forall o: nat, w | Lower(w) :: Look(m', g', o, w) == Look(m, g, o, w)
  {
    hide Ok, At, Hung;
    HangForest(m, g, p, x, v, pages, m', g');
    forall o: nat, w | Lower(w) ensures Look(m', g', o, w) == Look(m, g, o, w) {
      Places(o, w);
      HangLook(m, g, p, x, v, pages, m', g', Place(o, w));
    }
  }

  lemma HangForest(m: Mem, g: Ghost, p: Pos, x: nat, v: nat, pages: Pages, m': Mem, g': Ghost)
    requires Ok(m, g) && Holds(m, g, p, x) && At(m, g, p) == 0 && FreshFrame(m, pages, v)
    requires m' == Hung(m, x, p.index, v, pages) && g' == g.(home := g.home[v := p])
    ensures Ok(m', g')
    ensures forall q | ValidPos(TREE, q) :: At(m', g', q) == if q == p then v else At(m, g, q)
  {
    hide Planted, Frames, Hung, RootsOf, Tabs, Node, ValidPos;
    LevelUp(p);
    if p.Child? { TableAt(m, g, p.parent); }
    FramesAt(m, g, v);
    HangFrames(m, g, p, x, v, pages, m', g');
    var t, r := Tabs(m, g), RootsOf(m, g);
    var t1 := t[v := Blank()];
    PutDataKeeps(TREE, t, r, g.home, v, Blank());
    HangKeeps(TREE, t1, r, g.home, p, v);
    if p.Slot? { HangAtSlot(m, g, p, x, v, pages, m', g'); } else { HangAtChild(m, g, p, x, v, pages, m', g'); }
  }

  function Blank(): (r: seq<nat>)
    ensures |r| == ENTRIES && forall i | 0 <= i < |r| :: r[i] == 0
  {
    seq(ENTRIES, _ => 0)
  }

  lemma FramesAt(m: Mem, g: Ghost, v: nat)
    requires Frames(m, g) && v in FreeSet(m.pages)
    ensures v !in g.home && v !in g.ctxs && v < |m.pages.bits|
    ensures forall o | o in g.ctxs :: o in RootsOf(m, g) && |RootsOf(m, g)[o]| == LOWER
  {
  }

  lemma {:induction false} LevelUp(p: Pos)
    requires ValidPos(TREE, p)
    ensures Level(TREE, p) >= 0 && (p.Child? ==> ValidPos(TREE, p.parent))
  {
    if p.Child? { LevelUp(p.parent); }
  }

  lemma HangAtSlot(m: Mem, g: Ghost, p: Pos, x: nat, v: nat, pages: Pages, m': Mem, g': Ghost)
    requires Holds(m, g, p, x) && p.Slot? && v !in g.ctxs && p.index < LOWER && v != x
    requires m' == Hung(m, x, p.index, v, pages) && g' == g.(home := g.home[v := p])
    ensures x in RootsOf(m, g) && Tabs(m', g') == Tabs(m, g)[v := Blank()]
    ensures RootsOf(m', g') == RootsOf(m, g)[x := With(RootsOf(m, g)[x], p.index, v)]
  {
    var r := RootsOf(m, g);
    assert r[x] == Ptrs(m.tab[x])[..LOWER];
    assert Ptrs(m'.tab[x])[..LOWER] == With(r[x], p.index, v);
    assert Ptrs(m'.tab[v]) == Blank();
    assert RootsOf(m', g') == r[x := With(r[x], p.index, v)];
  }

  lemma HangAtChild(m: Mem, g: Ghost, p: Pos, x: nat, v: nat, pages: Pages, m': Mem, g': Ghost)
    requires Holds(m, g, p, x) && p.Child? && v !in g.ctxs && v != x
    requires m' == Hung(m, x, p.index, v, pages) && g' == g.(home := g.home[v := p])
    ensures x in Tabs(m, g) && |Tabs(m, g)[x]| == ENTRIES && RootsOf(m', g') == RootsOf(m, g)
    ensures var t1: Tables := Tabs(m, g)[v := Blank()]; Tabs(m', g') == t1[x := With(Tabs(m, g)[x], p.index, v)]
  {
    hide Node;
    var t: Tables := Tabs(m, g);
    var t1: Tables := t[v := Blank()];
    assert Ptrs(m'.tab[v]) == Blank();
    assert Ptrs(m'.tab[x]) == With(t[x], p.index, v);
    assert Tabs(m', g') == t1[x := With(t[x], p.index, v)];
    assert RootsOf(m', g') == RootsOf(m, g);
  }

  lemma HangFrames(m: Mem, g: Ghost, p: Pos, x: nat, v: nat, pages: Pages, m': Mem, g': Ghost)
    requires Frames(m, g) && Holds(m, g, p, x) && FreshFrame(m, pages, v)
    requires Owner(p) in g.ctxs && v !in g.home && v !in g.ctxs && v != x
    requires m' == Hung(m, x, p.index, v, pages) && g' == g.(home := g.home[v := p])
    ensures Frames(m', g')
  {
    hide Pmm.Valid, Level, Node, ValidPos, Small;
    HangSmall(m, g, p, x, v, pages, m', g');
  }

  lemma HangSmall(m: Mem, g: Ghost, p: Pos, x: nat, v: nat, pages: Pages, m': Mem, g': Ghost)
    requires Small(m, g) && x in m.tab && |m.tab[x]| == ENTRIES && p.index < ENTRIES && v !in g.home && v !in g.ctxs
    requires v != x && v != 0
    requires m' == Hung(m, x, p.index, v, pages) && g' == g.(home := g.home[v := p])
    requires (forall f | f in g.home :: f in m.tab) && (forall o | o in g.ctxs :: o in m.tab)
    ensures Small(m', g')
  {
    hide Level;
    forall f | f in m.tab && f != v
      ensures f in m'.tab && |m'.tab[f]| == |m.tab[f]| && forall i | 0 <= i < |m.tab[f]| ::
            m'.tab[f][i] == m.tab[f][i] || TableEntry(m'.tab[f][i])
    {
    }
    forall f, i | f in g'.home && Level(TREE, g'.home[f]) > 0 && f in m'.tab && 0 <= i < |m'.tab[f]|
      ensures TableEntry(m'.tab[f][i])
    {
      if f != v {
        assert g'.home[f] == g.home[f];
        assert TableEntry(m.tab[f][i]);
      }
    }
    forall o, i | o in g'.ctxs && o in m'.tab && 0 <= i < LOWER <= |m'.tab[o]| ensures TableEntry(m'.tab[o][i]) {
      assert TableEntry(m.tab[o][i]);
    }
  }

  /** A page whose last table is the new one maps to nothing, as before. */
  lemma HangLook(m: Mem, g: Ghost, p: Pos, x: nat, v: nat, pages: Pages, m': Mem, g': Ghost, q: Pos)
    requires Ok(m, g) && Ok(m', g') && Holds(m, g, p, x) && At(m, g, p) == 0 && FreshFrame(m, pages, v)
    requires m' == Hung(m, x, p.index, v, pages) && g' == g.(home := g.home[v := p])
    requires ValidPos(TREE, q) && Level(TREE, q) == 0 && At(m', g', q) == if q == p then v else At(m, g, q)
    ensures var y, y' := At(m, g, q), At(m', g', q);
            if q == p then y == 0 && y' == v && v in m'.tab && m'.tab[v] == seq(ENTRIES, _ => NOTHING)
            else y' == y && (y != 0 ==> y in m.tab && y in m'.tab && m'.tab[y] == m.tab[y])
  {
    hide Planted, Frames, At;
    var y := At(m, g, q);
    if y != 0 { TableAt(m, g, q); }
    FreshApart(m, g, v);
    if p.Child? { TableAt(m, g, p.parent); LevelUp(p.parent); }
  }

  lemma FreshApart(m: Mem, g: Ghost, v: nat)
    requires Ok(m, g) && v in FreeSet(m.pages)
    ensures v !in g.home && v !in g.ctxs
  {
    hide Planted;
  }
}
