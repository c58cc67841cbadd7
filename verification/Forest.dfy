/** Forests of pointer tables: the shape shared by the block trees of ext2 inodes and by the
    page-table trees of address spaces. A pointer is a table number, and 0 means "absent". */
module Forest {
  type Tables = map<nat, seq<nat>>
  type Roots = map<nat, seq<nat>>

  /** A place in the forest: a root slot of some owner, or an entry of the table at another place. */
  datatype Pos = Slot(owner: nat, index: nat) | Child(parent: Pos, index: nat)

  /** An owner has `slots` root slots. The first `direct` of them have `base` table levels below
      them, and each later slot has one level more than the one before. A table has `width` entries. */
  datatype Shape = Shape(slots: nat, direct: nat, base: nat, width: nat)

  function Owner(p: Pos): nat {
    match p
    case Slot(o, _) => o
    case Child(q, _) => Owner(q)
  }

  function With(s: seq<nat>, i: nat, v: nat): (r: seq<nat>)
    requires i < |s|
    ensures |r| == |s| && r[i] == v && forall j :: 0 <= j < |s| && j != i ==> r[j] == s[j]
  {
    s[..i] + [v] + s[i + 1..]
  }

  /** The number of table levels still below p: 0 at a data place. */
  function Level(sh: Shape, p: Pos): int {
    match p
    case Slot(_, i) => sh.base + if i < sh.direct then 0 else i + 1 - sh.direct
    case Child(q, _) => Level(sh, q) - 1
  }

  predicate ValidPos(sh: Shape, p: Pos) {
    match p
    case Slot(_, i) => i < sh.slots
    case Child(q, i) => ValidPos(sh, q) && Level(sh, q) > 0 && i < sh.width
  }

  /** The pointer stored at place p. */
  function Node(t: Tables, r: Roots, p: Pos): nat {
    match p
    case Slot(o, i) => if o in r && i < |r[o]| then r[o][i] else 0
    case Child(q, i) =>
      var b := Node(t, r, q);
      if b != 0 && b in t && i < |t[b]| then t[b][i] else 0
  }

  /** home tells at which place each block hangs. Its existence says that no block hangs at two
      places; its keys are exactly the blocks that hang anywhere. */
  ghost predicate Planted(sh: Shape, t: Tables, r: Roots, home: map<nat, Pos>) {
    && 0 !in home
    && (forall p {:trigger Node(t, r, p)} | ValidPos(sh, p) && Node(t, r, p) != 0 ::
          Node(t, r, p) in home && home[Node(t, r, p)] == p)
    && (forall b | b in home :: ValidPos(sh, home[b]) && Node(t, r, home[b]) == b)
    && (forall b | b in home :: b in t && |t[b]| == sh.width)
  }

  /** No block hangs at two places. */
  lemma NoSharing(sh: Shape, t: Tables, r: Roots, home: map<nat, Pos>, p: Pos, q: Pos)
    requires Planted(sh, t, r, home)
    requires ValidPos(sh, p) && ValidPos(sh, q) && Node(t, r, p) == Node(t, r, q) != 0
    ensures p == q
  {
    assert home[Node(t, r, p)] == p;
    assert home[Node(t, r, q)] == q;
  }

  /** Rewriting a block that is not a table of the forest moves no pointer. */
  lemma {:induction false} PutData(sh: Shape, t: Tables, r: Roots, home: map<nat, Pos>, b: nat, x: seq<nat>, p: Pos)
    requires Planted(sh, t, r, home) && ValidPos(sh, p)
    requires b in home ==> Level(sh, home[b]) == 0
    ensures Node(t[b := x], r, p) == Node(t, r, p)
  {
    if p.Child? {
      PutData(sh, t, r, home, b, x, p.parent);
      assert Node(t, r, p.parent) != 0 ==> home[Node(t, r, p.parent)] == p.parent;
    }
  }

  lemma PutDataKeeps(sh: Shape, t: Tables, r: Roots, home: map<nat, Pos>, b: nat, x: seq<nat>)
    requires Planted(sh, t, r, home) && |x| == sh.width
    requires b in home ==> Level(sh, home[b]) == 0
    ensures Planted(sh, t[b := x], r, home)
    ensures forall p | ValidPos(sh, p) :: Node(t[b := x], r, p) == Node(t, r, p)
  {
    forall p | ValidPos(sh, p) ensures Node(t[b := x], r, p) == Node(t, r, p) {
      PutData(sh, t, r, home, b, x, p);
    }
  }

  /** A new pointer v may be stored at s: a data place takes any pointer, a table place must be
      empty and takes a table of absent pointers. */
  ghost predicate CanHang(sh: Shape, t: Tables, r: Roots, s: Pos, v: nat) {
    ValidPos(sh, s) && (Level(sh, s) > 0 ==>
      Node(t, r, s) == 0 && v in t && forall i | 0 <= i < |t[v]| :: t[v][i] == 0)
  }

  /** Storing v in entry i of the table at s.parent changes the pointer at s and no other. */
  lemma {:induction false} HangChild(sh: Shape, t: Tables, r: Roots, home: map<nat, Pos>, s: Pos, v: nat, p: Pos)
    requires Planted(sh, t, r, home) && s.Child? && CanHang(sh, t, r, s, v) && ValidPos(sh, p)
    requires Level(sh, s) > 0 ==> v !in home
    requires Node(t, r, s.parent) != 0
    ensures var x := Node(t, r, s.parent);
            x in t && s.index < |t[x]| &&
            Node(t[x := With(t[x], s.index, v)], r, p) == if p == s then v else Node(t, r, p)
  {
    var x := Node(t, r, s.parent);
    assert home[x] == s.parent;
    var t' := t[x := With(t[x], s.index, v)];
    if p.Child? {
      HangChild(sh, t, r, home, s, v, p.parent);
      var y := Node(t, r, p.parent);
      if p.parent == s {
        assert v != x;
        assert Node(t', r, p) == 0;
      } else if y == x {
        assert p.parent == s.parent;
      }
    }
  }

  /** Storing v in a root slot changes the pointer at that slot and no other. */
  lemma {:induction false} HangSlot(sh: Shape, t: Tables, r: Roots, home: map<nat, Pos>, s: Pos, v: nat, p: Pos)
    requires Planted(sh, t, r, home) && s.Slot? && CanHang(sh, t, r, s, v) && ValidPos(sh, p)
    requires s.owner in r && |r[s.owner]| == sh.slots
    ensures Node(t, r[s.owner := With(r[s.owner], s.index, v)], p) == if p == s then v else Node(t, r, p)
  {
    if p.Child? {
      HangSlot(sh, t, r, home, s, v, p.parent);
    }
  }

  /** What storing v at s does to the tables and the roots. */
  function Hang(t: Tables, r: Roots, s: Pos, v: nat): (tr: (Tables, Roots))
    requires s.Slot? ==> s.owner in r && s.index < |r[s.owner]|
    requires s.Child? ==> Node(t, r, s.parent) in t && s.index < |t[Node(t, r, s.parent)]|
  {
    match s
    case Slot(o, i) => (t, r[o := With(r[o], i, v)])
    case Child(q, i) => var x := Node(t, r, q); (t[x := With(t[x], i, v)], r)
  }

  /** Hanging a fresh block at an empty place keeps the forest free of sharing. */
  lemma HangKeeps(sh: Shape, t: Tables, r: Roots, home: map<nat, Pos>, s: Pos, v: nat)
    requires Planted(sh, t, r, home) && CanHang(sh, t, r, s, v)
    requires v != 0 && v !in home && Node(t, r, s) == 0 && v in t && |t[v]| == sh.width
    requires s.Slot? ==> s.owner in r && |r[s.owner]| == sh.slots
    requires s.Child? ==> Node(t, r, s.parent) != 0
    ensures s.Child? ==> Node(t, r, s.parent) in t && s.index < |t[Node(t, r, s.parent)]|
    ensures var (t', r') := Hang(t, r, s, v);
            && Planted(sh, t', r', home[v := s])
            && forall p | ValidPos(sh, p) :: Node(t', r', p) == if p == s then v else Node(t, r, p)
  {
    if s.Child? { assert home[Node(t, r, s.parent)] == s.parent; }
    var (t', r') := Hang(t, r, s, v);
    forall p | ValidPos(sh, p) ensures Node(t', r', p) == if p == s then v else Node(t, r, p) {
      if s.Slot? { HangSlot(sh, t, r, home, s, v, p); } else { HangChild(sh, t, r, home, s, v, p); }
    }
  }

  /** Replacing the block at one place keeps the forest free of sharing. */
  lemma SwapKeeps(sh: Shape, t: Tables, r: Roots, home: map<nat, Pos>, t': Tables, r': Roots, s: Pos, v: nat)
    requires Planted(sh, t, r, home) && ValidPos(sh, s) && Node(t, r, s) != 0 && v != 0 && v !in home
    requires forall p | ValidPos(sh, p) :: Node(t', r', p) == if p == s then v else Node(t, r, p)
    requires v in t' && |t'[v]| == sh.width && forall b | b in home :: b in t' && |t'[b]| == sh.width
    ensures Planted(sh, t', r', (home - {Node(t, r, s)})[v := s])
  {
    hide Node, ValidPos;
    assert home[Node(t, r, s)] == s;
  }

  /** q lies at p or somewhere below it. */
  predicate Under(q: Pos, p: Pos) {
    q == p || (q.Child? && Under(q.parent, p))
  }

  /** The blocks that hang at p or below it. */
  ghost function Below(home: map<nat, Pos>, p: Pos): set<nat> {
    set b | b in home && Under(home[b], p)
  }

  /** The blocks that hang below the roots of owner o. */
  ghost function Owned(home: map<nat, Pos>, o: nat): set<nat> {
    set b | b in home && Owner(home[b]) == o
  }

  /** For q strictly below p: which entry of the table at p leads to q. */
  function Branch(q: Pos, p: Pos): nat
    requires Under(q, p) && q != p
  {
    if q.parent == p then q.index else Branch(q.parent, p)
  }

  /** The blocks strictly below p that the entries before i lead to. */
  ghost function Fan(home: map<nat, Pos>, p: Pos, i: nat): set<nat> {
    set b | b in home && Under(home[b], p) && home[b] != p && Branch(home[b], p) < i
  }

  lemma {:induction false} UnderBranch(sh: Shape, q: Pos, p: Pos, i: nat)
    requires ValidPos(sh, q) && Under(q, p)
    ensures q != p ==> Branch(q, p) < sh.width && Level(sh, p) > Level(sh, q) >= 0
    ensures Under(q, Child(p, i)) <==> q != p && Branch(q, p) == i
    ensures Owner(q) == Owner(p)
  {
    if q != p { UnderBranch(sh, q.parent, p, i); }
    else { NotUnderChild(p, Child(p, i)); }
  }

  lemma {:induction false} NotUnderChild(q: Pos, p: Pos)
    requires q < p
    ensures !Under(q, p)
  {
    if q.Child? { NotUnderChild(q.parent, p); }
  }

  /** Entry i adds to the fan exactly what hangs at it and below it, and nothing seen before. */
  lemma FanStep(sh: Shape, t: Tables, r: Roots, home: map<nat, Pos>, p: Pos, i: nat)
    requires Planted(sh, t, r, home)
    ensures Fan(home, p, i + 1) == Fan(home, p, i) + Below(home, Child(p, i))
    ensures Fan(home, p, i) !! Below(home, Child(p, i))
  {
    forall b | b in home ensures b in Below(home, Child(p, i)) <==>
      Under(home[b], p) && home[b] != p && Branch(home[b], p) == i
    {
      if Under(home[b], p) { UnderBranch(sh, home[b], p, i); }
      else if Under(home[b], Child(p, i)) { UnderParent(home[b], p, i); }
    }
  }

  lemma {:induction false} UnderParent(q: Pos, p: Pos, i: nat)
    requires Under(q, Child(p, i))
    ensures Under(q, p)
  {
    if q != Child(p, i) { UnderParent(q.parent, p, i); }
  }

  /** A full fan is everything below p; together with the block at p it is the whole subtree. */
  lemma FanAll(sh: Shape, t: Tables, r: Roots, home: map<nat, Pos>, p: Pos)
    requires Planted(sh, t, r, home) && ValidPos(sh, p)
    ensures Fan(home, p, 0) == {}
    ensures Node(t, r, p) != 0 ==> Below(home, p) == Fan(home, p, sh.width) + {Node(t, r, p)}
    ensures Node(t, r, p) !in Fan(home, p, sh.width)
    ensures Level(sh, p) == 0 ==> Fan(home, p, sh.width) == {}
    ensures Node(t, r, p) == 0 ==> Below(home, p) == {}
  {
    forall b | b in home && Under(home[b], p)
      ensures home[b] != p ==> Branch(home[b], p) < sh.width && Level(sh, p) > 0
      ensures Node(t, r, p) != 0
    {
      UnderBranch(sh, home[b], p, 0);
      UnderPresent(t, r, home[b], p);
    }
  }

  lemma {:induction false} UnderPresent(t: Tables, r: Roots, q: Pos, p: Pos)
    requires Under(q, p) && Node(t, r, q) != 0
    ensures Node(t, r, p) != 0
  {
    if q != p { UnderPresent(t, r, q.parent, p); }
  }

  /** Clearing a root slot removes exactly the subtree below it. */
  lemma {:induction false} PruneSlot(t: Tables, r: Roots, o: nat, i: nat, p: Pos)
    requires o in r && i < |r[o]|
    ensures Node(t, r[o := With(r[o], i, 0)], p) == if Under(p, Slot(o, i)) then 0 else Node(t, r, p)
  {
    if p.Child? { PruneSlot(t, r, o, i, p.parent); }
  }

  lemma PruneKeeps(sh: Shape, t: Tables, r: Roots, home: map<nat, Pos>, o: nat, i: nat)
    requires Planted(sh, t, r, home) && o in r && i < |r[o]|
    ensures Planted(sh, t, r[o := With(r[o], i, 0)], home - Below(home, Slot(o, i)))
  {
    var r' := r[o := With(r[o], i, 0)];
    forall p ensures Node(t, r', p) == if Under(p, Slot(o, i)) then 0 else Node(t, r, p) {
      PruneSlot(t, r, o, i, p);
    }
  }

  function SlotOf(p: Pos): nat {
    match p
    case Slot(_, i) => i
    case Child(q, _) => SlotOf(q)
  }

  /** The blocks that hang below the first i root slots of owner o. */
  ghost function Upto(home: map<nat, Pos>, o: nat, i: nat): set<nat> {
    set b | b in home && Owner(home[b]) == o && SlotOf(home[b]) < i
  }

  lemma {:induction false} UnderSlot(p: Pos, o: nat, i: nat)
    ensures Under(p, Slot(o, i)) <==> Owner(p) == o && SlotOf(p) == i
  {
    if p.Child? { UnderSlot(p.parent, o, i); }
  }

  lemma {:induction false} SlotBound(sh: Shape, p: Pos)
    requires ValidPos(sh, p)
    ensures SlotOf(p) < sh.slots
  {
    if p.Child? { SlotBound(sh, p.parent); }
  }

  /** Root slot i adds what hangs at it and below it; all slots together are what o owns. */
  lemma UptoStep(sh: Shape, home: map<nat, Pos>, o: nat, i: nat)
    requires forall b | b in home :: ValidPos(sh, home[b])
    ensures Upto(home, o, 0) == {} && Upto(home, o, sh.slots) == Owned(home, o)
    ensures Upto(home, o, i + 1) == Upto(home, o, i) + Below(home, Slot(o, i))
  {
    forall b | b in home
      ensures SlotOf(home[b]) < sh.slots &&
            (b in Below(home, Slot(o, i)) <==> Owner(home[b]) == o && SlotOf(home[b]) == i)
    {
      SlotBound(sh, home[b]);
      UnderSlot(home[b], o, i);
    }
  }

  /** The places of one owner depend on its roots and on its own tables only. */
  lemma {:induction false} SameNodes(sh: Shape, t: Tables, r: Roots, home: map<nat, Pos>, t': Tables, r': Roots, o: nat,
        p: Pos)
    requires Planted(sh, t, r, home) && ValidPos(sh, p) && Owner(p) == o
    requires (o in r <==> o in r') && (o in r ==> r'[o] == r[o])
    requires forall b | b in home && Owner(home[b]) == o :: b in t' && t'[b] == t[b]
    ensures Node(t', r', p) == Node(t, r, p)
  {
    if p.Child? {
      SameNodes(sh, t, r, home, t', r', o, p.parent);
      assert Node(t, r, p.parent) != 0 ==> home[Node(t, r, p.parent)] == p.parent;
    }
  }

  /** An owner without roots has nothing anywhere. */
  lemma {:induction false} NoRoot(t: Tables, r: Roots, p: Pos)
    requires Owner(p) !in r
    ensures Node(t, r, p) == 0
  {
    if p.Child? { NoRoot(t, r, p.parent); }
  }
}
