/** The slab cache: slabs of equal objects on three lists, each slab with a chain through its free objects. */
module Slab {
  import opened Options
  import opened Arith
  import opened IntrusiveList

  const PAGE: nat := 4096
  const HEADER: nat := 48
  const PARTIAL: nat := 0
  const FULL: nat := 1
  const FREE: nat := 2

  /** Object size, objects per slab, pages per slab. */
  datatype Dims = Dims(size: nat, per: nat, pages: nat)

  function Span(d: Dims): nat {
    d.pages * PAGE
  }

  ghost predicate DimsOk(d: Dims) {
    d.size > 0 && d.per > 0 && HEADER + Times(d.per, d.size) <= Span(d)
  }

  /** kmem_cache_init: double the pages until an object fits, at most to 16. It fails exactly for objects that
      do not fit in 16 pages; otherwise the slab holds as many objects as its pages have room for. */
  method Dimension(size: nat) returns (ok: bool, d: Dims)
    requires size > 0
    ensures ok <==> size <= 16 * PAGE - HEADER
    ensures ok ==>
        DimsOk(d) && d.size == size && d.pages in {1, 2, 4, 8, 16} && Span(d) < HEADER + Times(d.per + 1, size)
    ensures ok && d.pages > 1 ==> size > d.pages / 2 * PAGE - HEADER
  {
    var pages := 1;
    while (pages * PAGE - HEADER) / size == 0 && pages < 16
      invariant pages in {1, 2, 4, 8, 16} && (pages > 1 ==> size > pages / 2 * PAGE - HEADER)
      decreases 16 - pages
    {
      Positive(pages * PAGE - HEADER, size);
      pages := pages * 2;
    }
    var space := pages * PAGE - HEADER;
    var per := space / size;
    Positive(space, size);
    QuoRem(space, size);
    d := Dims(size, per, pages);
    ok := per != 0;
  }

  lemma Positive(x: nat, n: nat)
    requires n > 0
    ensures x / n == 0 <==> x < n
    ensures x / n >= 0
  {
    DivMod(x, n);
    if x < n { DivModUnique(x, n, 0, x); }
  }

  // Objects of a slab.

  function Object(d: Dims, b: nat, i: nat): nat {
    b + HEADER + Times(i, d.size)
  }

  ghost predicate IsObject(d: Dims, b: nat, o: nat) {
    exists i: nat :: i < d.per && o == Object(d, b, i)
  }

  ghost function Objects(d: Dims, b: nat, n: nat): set<nat> {
    if n == 0 then {} else Objects(d, b, n - 1) + {Object(d, b, n - 1)}
  }

  lemma {:induction false} ObjectsMean(d: Dims, b: nat, n: nat, o: nat)
    ensures o in Objects(d, b, n) <==> exists i: nat :: i < n && o == Object(d, b, i)
  {
    hide Object;
    if n > 0 { ObjectsMean(d, b, n - 1, o); }
  }

  lemma {:induction false} ObjectsCard(d: Dims, b: nat, n: nat)
    ensures |Objects(d, b, n)| <= n
  {
    if n > 0 { ObjectsCard(d, b, n - 1); }
  }

  /** Objects lie behind the header, inside the slab, and do not overlap. */
  lemma ObjectsApart(d: Dims, b: nat, i: nat, j: nat)
    requires DimsOk(d) && i < d.per && j < d.per
    ensures b + HEADER <= Object(d, b, i) && Object(d, b, i) + d.size <= b + Span(d)
    ensures i < j ==> Object(d, b, i) + d.size <= Object(d, b, j)
    ensures i != j ==> Object(d, b, i) != Object(d, b, j)
  {
    TimesLess(i, d.per, d.size);
    if i < j { TimesLess(i, j, d.size); }
    if j < i { TimesLess(j, i, d.size); }
  }

  /** Masking an object's address finds its slab exactly when the slab starts at a multiple of its size. */
  lemma MaskFinds(d: Dims, b: nat, i: nat)
    requires DimsOk(d) && i < d.per
    ensures Span(d) > 0 && (Object(d, b, i) / Span(d) * Span(d) == b <==> b % Span(d) == 0)
  {
    ObjectsApart(d, b, i, i);
    var o, s := Object(d, b, i), Span(d);
    if b % s == 0 {
      DivMod(b, s);
      DivModUnique(o, s, b / s, o - b);
    }
    if o / s * s == b { DivModUnique(b, s, o / s, 0); }
  }

  // Free chains.

  /** From head, the first words of the objects spell out the chain s. */
  ghost predicate Threaded(word: map<nat, Option<nat>>, head: Option<nat>, s: seq<nat>) {
    && head == At(s, 0)
    && (forall i | 0 <= i < |s| :: s[i] in word && word[s[i]] == At(s, i + 1))
    && (forall i, j | 0 <= i < j < |s| :: s[i] != s[j])
  }

  lemma ThreadedFrame(word: map<nat, Option<nat>>, word': map<nat, Option<nat>>, head: Option<nat>, s: seq<nat>)
    requires Threaded(word, head, s) && forall o | o in s :: o in word' && (o in word ==> word'[o] == word[o])
    ensures Threaded(word', head, s)
  {
  }

  lemma ThreadedPop(word: map<nat, Option<nat>>, head: Option<nat>, s: seq<nat>)
    requires Threaded(word, head, s) && |s| > 0
    ensures head == Some(s[0]) && s[0] in word && s[0] !in s[1..] && Threaded(word, word[s[0]], s[1..])
  {
    assert word[s[0]] == At(s, 1);
  }

  lemma ThreadedPush(word: map<nat, Option<nat>>, head: Option<nat>, s: seq<nat>, o: nat, word': map<nat, Option<nat>>)
    requires Threaded(word, head, s) && o !in s && word' == word[o := head]
    ensures Threaded(word', Some(o), [o] + s)
  {
  }

  lemma {:induction false} ChainCard(s: seq<nat>)
    requires forall i, j | 0 <= i < j < |s| :: s[i] != s[j]
    ensures |Members(s)| == |s|
  {
    if s != [] {
      ChainCard(s[1..]);
      assert Members(s) == Members(s[1..]) + {s[0]};
    }
  }

  lemma SubsetCard(a: set<nat>, b: set<nat>)
    requires a <= b
    ensures |a| <= |b|
  {
    assert b == a + (b - a);
  }

  // The cache.

  datatype SlabHead = SlabHead(free: Option<nat>, count: nat)

  /** heads: the lists. slabs and links: the slab headers. word: the first word of each object, which is
      the chain pointer while the object is free and anything while it is live. */
  datatype Cache = Cache(d: Dims, heads: seq<Option<nat>>, slabs: map<nat, SlabHead>, links: Links,
      word: map<nat, Option<nat>>)

  datatype View = View(lists: seq<seq<nat>>, chains: map<nat, seq<nat>>, live: set<nat>)

  /** The list a slab belongs on. A slab of one object is never on the free list. */
  function ListOf(per: nat, count: nat): nat {
    if count == 0 then FULL else if count == per && per > 1 then FREE else PARTIAL
  }

  /** The chain of slab b holds exactly its objects that are not live. */
  ghost predicate SlabOk(c: Cache, v: View, b: nat) {
    && b in c.slabs && b in v.chains && b in c.links && Span(c.d) > 0 && b % Span(c.d) == 0
    && Threaded(c.word, c.slabs[b].free, v.chains[b]) && c.slabs[b].count == |v.chains[b]|
    && (forall o | o in v.chains[b] :: IsObject(c.d, b, o))
    && (forall o {:trigger IsObject(c.d, b, o)} | IsObject(c.d, b, o) :: o in v.live <==> o !in v.chains[b])
  }

  /** The list slab b is on: the one its count calls for, unless `but` names another while it is in transit. */
  function Where(c: Cache, but: map<nat, nat>, b: nat): nat
    requires b in c.slabs
  {
    if b in but then but[b] else ListOf(c.d.per, c.slabs[b].count)
  }

  ghost predicate Listing(c: Cache, v: View, but: map<nat, nat>) {
    && Family(c.links, c.heads, v.lists) && |v.lists| == 3
    && (forall k, b | 0 <= k < 3 && b in Members(v.lists[k]) :: b in c.slabs)
    && (forall b {:trigger Where(c, but, b)} | b in c.slabs ::
          Where(c, but, b) < 3 && b in Members(v.lists[Where(c, but, b)]))
  }

  ghost predicate Slabs(c: Cache, v: View) {
    && DimsOk(c.d) && Span(c.d) > 0
    && (forall b {:trigger SlabOk(c, v, b)} | b in c.slabs :: SlabOk(c, v, b))
    && (forall o | o in v.live :: exists b :: b in c.slabs && IsObject(c.d, b, o))
  }

  ghost predicate Inv(c: Cache, v: View, but: map<nat, nat>) {
    Slabs(c, v) && Listing(c, v, but)
  }

  /** Different slabs share no byte. */
  lemma SlabsApart(d: Dims, a: nat, b: nat)
    requires Span(d) > 0 && a % Span(d) == 0 && b % Span(d) == 0 && a < b
    ensures a + Span(d) <= b
  {
    var s := Span(d);
    DivMod(a, s);
    DivMod(b, s);
    if b < a + s { DivModUnique(b, s, a / s, b - a); }
  }

  lemma OtherSlab(d: Dims, a: nat, b: nat, o: nat)
    requires DimsOk(d) && Span(d) > 0 && a % Span(d) == 0 && b % Span(d) == 0 && a != b && IsObject(d, a, o)
    ensures !IsObject(d, b, o)
  {
    hide Span, Object;
    var i: nat :| i < d.per && o == Object(d, a, i);
    ObjectsApart(d, a, i, i);
    forall j: nat | j < d.per ensures o != Object(d, b, j) {
      ObjectsApart(d, b, j, j);
      if a < b { SlabsApart(d, a, b); } else { SlabsApart(d, b, a); }
    }
  }

  /** Live objects lie in slabs, behind the header, and never overlap. */
  lemma LiveApart(c: Cache, v: View, x: nat, y: nat)
    requires Slabs(c, v) && x in v.live && y in v.live && x < y
    ensures x + c.d.size <= y
  {
    hide Threaded, Object, Span;
    var a :| a in c.slabs && IsObject(c.d, a, x);
    var b :| b in c.slabs && IsObject(c.d, b, y);
    var i: nat :| i < c.d.per && x == Object(c.d, a, i);
    var j: nat :| j < c.d.per && y == Object(c.d, b, j);
    assert SlabOk(c, v, a) && SlabOk(c, v, b);
    ObjectsApart(c.d, a, i, i);
    ObjectsApart(c.d, b, j, j);
    if a == b {
      ObjectsApart(c.d, a, i, j);
      ObjectsApart(c.d, a, j, i);
    } else if a < b {
      SlabsApart(c.d, a, b);
    } else {
      SlabsApart(c.d, b, a);
    }
  }

  /** A chain has at most all objects, and fewer when one of them is live. */
  lemma ChainBound(c: Cache, v: View, b: nat)
    requires SlabOk(c, v, b)
    ensures |v.chains[b]| <= c.d.per
    ensures forall o | IsObject(c.d, b, o) && o in v.live :: |v.chains[b]| < c.d.per
  {
    hide Object, Span;
    var s, all := v.chains[b], Objects(c.d, b, c.d.per);
    ChainCard(s);
    ObjectsCard(c.d, b, c.d.per);
    forall o | o in Members(s) ensures o in all { ObjectsMean(c.d, b, c.d.per, o); }
    SubsetCard(Members(s), all);
    forall o | IsObject(c.d, b, o) && o in v.live ensures |s| < c.d.per {
      ObjectsMean(c.d, b, c.d.per, o);
      SubsetCard(Members(s) + {o}, all);
    }
  }

  // Moving a slab from one list to another.

  method Move(c: Cache, b: nat, from: nat, to: nat, ghost lists: seq<seq<nat>>)
    returns (c': Cache, ghost lists': seq<seq<nat>>)
    requires Family(c.links, c.heads, lists) && |lists| == 3 && from < 3 && to < 3 && from != to
    requires b in Members(lists[from]) && b in c.links
    ensures Family(c'.links, c'.heads, lists') && c' == c.(heads := c'.heads, links := c'.links)
    ensures c'.links.Keys == c.links.Keys
    ensures Moved(lists, lists', b, from, to) && |c'.heads| == 3 && c'.heads[to] == Some(b)
  {
    hide Family, Members, Relisted;
    var links, heads;
    ghost var l1;
    FamilySize(c, lists);
    links, heads, l1 := Detach(c.links, c.heads, from, b, lists);
    RelistedFacts(lists, l1, from, Members(lists[from]) - {b});
    links, heads, lists' := Push(links, heads, to, b, l1);
    RelistedFacts(l1, lists', to, Members(l1[to]) + {b});
    c' := c.(heads := heads, links := links);
    FamilySize(c', lists');
  }

  lemma FamilySize(c: Cache, lists: seq<seq<nat>>)
    requires Family(c.links, c.heads, lists)
    ensures |c.heads| == |lists|
  {
  }

  lemma RelistedFacts(lists: seq<seq<nat>>, lists': seq<seq<nat>>, k: nat, now: set<nat>)
    requires Relisted(lists, lists', k, now)
    ensures |lists'| == |lists| && k < |lists| && Members(lists'[k]) == now
    ensures forall j | 0 <= j < |lists| && j != k :: Members(lists'[j]) == Members(lists[j])
  {
    hide Members;
  }

  ghost predicate Moved(lists: seq<seq<nat>>, lists': seq<seq<nat>>, b: nat, from: nat, to: nat) {
    && |lists'| == |lists| == 3 && from < 3 && to < 3 && from != to
    && forall j | 0 <= j < 3 ::
        Members(lists'[j]) == if j == from then Members(lists[j]) - {b}
            else if j == to then Members(lists[j]) + {b} else Members(lists[j])
  }

  /** After a move of slab b from the list it is on to another. */
  lemma Settled(c: Cache, v: View, c': Cache, v': View, but: map<nat, nat>, b: nat, from: nat, to: nat, but': map<nat,
        nat>)
    requires Listing(c, v, but) && b in c.slabs && from == Where(c, but, b) && Moved(v.lists, v'.lists, b, from, to)
    requires Family(c'.links, c'.heads, v'.lists) && c'.slabs == c.slabs && c'.d == c.d
    requires Where(c', but', b) == to && forall a | a in c.slabs && a != b :: Where(c', but', a) == Where(c, but, a)
    ensures Listing(c', v', but')
  {
    hide Family, Members, Where;
    forall a | a in c'.slabs ensures Where(c', but', a) < 3 && a in Members(v'.lists[Where(c', but', a)]) {
      if a != b { assert a in Members(v.lists[Where(c, but, a)]); }
    }
  }

  // A new slab.

  ghost function FreshChain(d: Dims, b: nat, n: nat): (s: seq<nat>)
    ensures |s| == n && forall i | 0 <= i < n :: s[i] == Object(d, b, i)
  {
    seq(n, (i: nat) => Object(d, b, i))
  }

  /** The words of a new slab: each object points to the next, the last to nothing. */
  method Thread(word: map<nat, Option<nat>>, d: Dims, b: nat) returns (word': map<nat, Option<nat>>)
    requires DimsOk(d)
    ensures Threaded(word', Some(Object(d, b, 0)), FreshChain(d, b, d.per))
    ensures word.Keys <= word'.Keys && forall o | o in word && !IsObject(d, b, o) :: word'[o] == word[o]
  {
    hide Object, Times, IsObject;
    forall i: nat | i < d.per ensures IsObject(d, b, Object(d, b, i)) { ObjectIs(d, b, i); }
    forall i: nat, j: nat | i < j < d.per ensures Object(d, b, i) != Object(d, b, j) { ObjectsApart(d, b, i, j); }
    word' := word;
    for i := 0 to d.per - 1
      invariant forall k: nat | k < i :: Object(d, b, k) in word' && word'[Object(d, b, k)] == Some(Object(d, b, k + 1))
      invariant word.Keys <= word'.Keys && forall o | o in word && !IsObject(d, b, o) :: word'[o] == word[o]
    {
      word' := word'[Object(d, b, i) := Some(Object(d, b, i + 1))];
    }
    word' := word'[Object(d, b, d.per - 1) := None];
    ThreadedIf(word', d, b);
  }

  lemma ObjectIs(d: Dims, b: nat, i: nat)
    requires i < d.per
    ensures IsObject(d, b, Object(d, b, i))
  {
  }

  lemma ThreadedIf(word: map<nat, Option<nat>>, d: Dims, b: nat)
    requires DimsOk(d)
    requires forall k: nat | k < d.per - 1 ::
        Object(d, b, k) in word && word[Object(d, b, k)] == Some(Object(d, b, k + 1))
    requires Object(d, b, d.per - 1) in word && word[Object(d, b, d.per - 1)] == None
    ensures Threaded(word, Some(Object(d, b, 0)), FreshChain(d, b, d.per))
  {
    hide Object;
    var s := FreshChain(d, b, d.per);
    forall i, j | 0 <= i < j < |s| ensures s[i] != s[j] { ObjectsApart(d, b, i, j); }
    forall i | 0 <= i < |s| ensures s[i] in word && word[s[i]] == At(s, i + 1) {
      assert s[i] == Object(d, b, i);
    }
  }

  /** allocate_slab_page, and the new slab on the partial list. */
  method NewSlab(c: Cache, b: nat, ghost v: View) returns (c': Cache, ghost v': View)
    requires Inv(c, v, map[]) && b !in c.slabs && Span(c.d) > 0 && b % Span(c.d) == 0
    ensures Inv(c', v', map[b := PARTIAL]) && c'.d == c.d && v'.live == v.live && b in c'.slabs
    ensures c'.slabs[b].count == c.d.per
    ensures forall a | a in c.slabs :: a in c'.slabs && c'.slabs[a] == c.slabs[a]
    ensures c'.slabs.Keys == c.slabs.Keys + {b} && c'.slabs[b].free == Some(b + HEADER)
    ensures PARTIAL < |c.heads| && c'.heads == c.heads[PARTIAL := Some(b)]
  {
    hide Family, Members, Threaded, SlabOk, Object, Relisted, Span, IsObject;
    FirstObject(c.d, b);
    var word := Thread(c.word, c.d, b);
    var links := c.links[b := Link(None, None)];
    NewLoose(c, v, b, links);
    var heads;
    ghost var lists;
    links, heads, lists := Push(links, c.heads, PARTIAL, b, v.lists);
    c' := Cache(c.d, heads, c.slabs[b := SlabHead(Some(Object(c.d, b, 0)), c.d.per)], links, word);
    v' := View(lists, v.chains[b := FreshChain(c.d, b, c.d.per)], v.live);
    NewListing(c, v, c', v', b);
    NewSlabs(c, v, c', v', b);
  }

  lemma FirstObject(d: Dims, b: nat)
    ensures Object(d, b, 0) == b + HEADER
  {
  }

  lemma NewLoose(c: Cache, v: View, b: nat, links: Links)
    requires Listing(c, v, map[]) && b !in c.slabs && links == c.links[b := Link(None, None)]
    ensures Loose(v.lists, b) && Family(links, c.heads, v.lists) && |v.lists| == 3
  {
    hide Listed;
    assert Loose(v.lists, b);
    FamilyFrame(c.links, links, c.heads, v.lists);
  }

  lemma NewListing(c: Cache, v: View, c': Cache, v': View, b: nat)
    requires Listing(c, v, map[]) && b !in c.slabs && Family(c'.links, c'.heads, v'.lists) && c'.d == c.d
    requires PARTIAL < |v.lists| && Relisted(v.lists, v'.lists, PARTIAL, Members(v.lists[PARTIAL]) + {b})
    requires b in c'.slabs && c'.slabs == c.slabs[b := c'.slabs[b]]
    ensures Listing(c', v', map[b := PARTIAL])
  {
    hide Family, Members;
    RelistedFacts(v.lists, v'.lists, PARTIAL, Members(v.lists[PARTIAL]) + {b});
    forall a | a in c'.slabs
      ensures Where(c', map[b := PARTIAL], a) < 3 && a in Members(v'.lists[Where(c', map[b := PARTIAL], a)])
    {
      if a != b { assert a in Members(v.lists[Where(c, map[], a)]); }
    }
  }

  lemma NewSlabs(c: Cache, v: View, c': Cache, v': View, b: nat)
    requires Slabs(c, v) && b !in c.slabs && b % Span(c.d) == 0 && c'.d == c.d && c.links.Keys <= c'.links.Keys
    requires b in c'.links
    requires c'.slabs == c.slabs[b := SlabHead(Some(Object(c.d, b, 0)), c.d.per)]
    requires v' == View(v'.lists, v.chains[b := FreshChain(c.d, b, c.d.per)], v.live)
    requires Threaded(c'.word, Some(Object(c.d, b, 0)), FreshChain(c.d, b, c.d.per))
    requires c.word.Keys <= c'.word.Keys && forall o | o in c.word && !IsObject(c.d, b, o) :: c'.word[o] == c.word[o]
    ensures Slabs(c', v')
  {
    hide Threaded, Object, Span, SlabOk, IsObject;
    forall a | a in c'.slabs ensures SlabOk(c', v', a) {
      if a != b { SlabFields(c, v, a); KeptSlab(c, v, c', v', a, b); } else { FirstSlab(c, v, c', v', b); }
    }
    forall o | o in v'.live ensures exists a :: a in c'.slabs && IsObject(c'.d, a, o) {
      var a :| a in c.slabs && IsObject(c.d, a, o);
      assert a in c'.slabs;
    }
  }

  lemma SlabFields(c: Cache, v: View, a: nat)
    requires Slabs(c, v) && a in c.slabs
    ensures SlabOk(c, v, a) && a in v.chains && a in c.links && Span(c.d) > 0 && a % Span(c.d) == 0
    ensures c.slabs[a].count == |v.chains[a]|
  {
    hide Threaded, IsObject;
    assert SlabOk(c, v, a);
  }

  /** Work on the objects of slab b leaves slab a as it was. */
  lemma KeptSlab(c: Cache, v: View, c': Cache, v': View, a: nat, b: nat)
    requires SlabOk(c, v, a) && a != b && DimsOk(c.d) && c'.d == c.d && b % Span(c.d) == 0 && a in c'.links
    requires a in c'.slabs && c'.slabs[a] == c.slabs[a] && a in v'.chains && v'.chains[a] == v.chains[a]
    requires c.word.Keys <= c'.word.Keys && forall o | o in c.word && !IsObject(c.d, b, o) :: c'.word[o] == c.word[o]
    requires forall o | !IsObject(c.d, b, o) :: o in v'.live <==> o in v.live
    ensures SlabOk(c', v', a)
  {
    hide Object, Span, IsObject, Threaded;
    forall o | IsObject(c.d, a, o) ensures !IsObject(c.d, b, o) { OtherSlab(c.d, a, b, o); }
    ThreadIn(c.word, c.slabs[a].free, v.chains[a]);
    ThreadedFrame(c.word, c'.word, c.slabs[a].free, v.chains[a]);
  }

  lemma ThreadIn(word: map<nat, Option<nat>>, head: Option<nat>, s: seq<nat>)
    requires Threaded(word, head, s)
    ensures forall o | o in s :: o in word
  {
  }

  lemma FirstSlab(c: Cache, v: View, c': Cache, v': View, b: nat)
    requires Slabs(c, v) && b !in c.slabs && b % Span(c.d) == 0 && c'.d == c.d && b in c'.links
    requires b in c'.slabs && c'.slabs[b] == SlabHead(Some(Object(c.d, b, 0)), c.d.per)
    requires b in v'.chains && v'.chains[b] == FreshChain(c.d, b, c.d.per) && v'.live == v.live
    requires Threaded(c'.word, Some(Object(c.d, b, 0)), FreshChain(c.d, b, c.d.per))
    ensures SlabOk(c', v', b)
  {
    hide Object, Span, Threaded, FreshChain;
    var s := FreshChain(c.d, b, c.d.per);
    forall o ensures o in s <==> IsObject(c.d, b, o) {
      if IsObject(c.d, b, o) { var i: nat :| i < c.d.per && o == Object(c.d, b, i); assert s[i] == o; }
      if o in s { var i :| 0 <= i < |s| && s[i] == o; assert IsObject(c.d, b, o); }
    }
    forall o | IsObject(c.d, b, o) ensures o !in v.live {
      if o in v.live {
        var a :| a in c.slabs && IsObject(c.d, a, o);
        assert SlabOk(c, v, a);
        OtherSlab(c.d, a, b, o);
      }
    }
  }

  // Taking and giving back objects.

  /** Take the first object off the chain of slab b. */
  method Pop(c: Cache, b: nat, ghost v: View) returns (o: nat, c': Cache, ghost v': View)
    requires Inv(c, v, map[b := PARTIAL]) && b in c.slabs && c.slabs[b].count > 0
    ensures Inv(c', v', map[b := PARTIAL]) && c'.d == c.d && o !in v.live && v'.live == v.live + {o}
    ensures v'.lists == v.lists
    ensures b in c'.slabs && c'.slabs[b].count == c.slabs[b].count - 1 && c'.slabs[b].count < c.d.per
    ensures c'.links == c.links && c'.heads == c.heads
    ensures c.slabs[b].free == Some(o) && c'.slabs == c.slabs[b := c'.slabs[b]]
  {
    hide Family, Members, Threaded, SlabOk, Object, Span, IsObject, Where;
    SlabFields(c, v, b);
    PopFacts(c, v, b);
    ChainBound(c, v, b);
    o := c.slabs[b].free.value;
    c' := c.(slabs := c.slabs[b := SlabHead(c.word[o], c.slabs[b].count - 1)]);
    v' := View(v.lists, v.chains[b := v.chains[b][1..]], v.live + {o});
    PopSlabs(c, v, c', v', b, o);
    InTransit(c, b, PARTIAL);
    TransitListing(c, v, map[b := PARTIAL], c', v', b, map[b := PARTIAL]);
  }

  lemma InTransit(c: Cache, b: nat, k: nat)
    requires b in c.slabs
    ensures Where(c, map[b := k], b) == k
  {
  }

  lemma PopFacts(c: Cache, v: View, b: nat)
    requires SlabOk(c, v, b) && c.slabs[b].count > 0
    ensures var s := v.chains[b];
            && |s| > 0 && c.slabs[b].free == Some(s[0]) && s[0] in c.word && IsObject(c.d, b, s[0]) && s[0] !in v.live
  {
    hide Object;
    ThreadedPop(c.word, c.slabs[b].free, v.chains[b]);
    assert v.chains[b][0] in v.chains[b];
  }

  /** A change to the header of slab b, which is in transit, keeps the lists. */
  lemma TransitListing(c: Cache, v: View, but: map<nat, nat>, c': Cache, v': View, b: nat, but': map<nat, nat>)
    requires Listing(c, v, but) && b in c.slabs && b in c'.slabs && c'.d == c.d && c'.links == c.links
    requires c'.heads == c.heads && v'.lists == v.lists
    requires c'.slabs == c.slabs[b := c'.slabs[b]] && b in but' && but' == map[b := Where(c, but, b)]
    requires but == map[] || but == but'
    ensures Listing(c', v', but')
  {
    hide Family, Members;
    forall a | a in c'.slabs ensures Where(c', but', a) < 3 && a in Members(v'.lists[Where(c', but', a)]) {
      assert a in Members(v.lists[Where(c, but, a)]);
    }
  }

  lemma PopSlabs(c: Cache, v: View, c': Cache, v': View, b: nat, o: nat)
    requires Slabs(c, v) && b in c.slabs && b in v.chains && |v.chains[b]| > 0 && o == v.chains[b][0] && o in c.word
    requires IsObject(c.d, b, o)
    requires c.slabs[b].count > 0 && c' == c.(slabs := c.slabs[b := SlabHead(c.word[o], c.slabs[b].count - 1)])
    requires v' == View(v.lists, v.chains[b := v.chains[b][1..]], v.live + {o})
    ensures Slabs(c', v')
  {
    hide Threaded, Object, Span, SlabOk, IsObject;
    SlabFields(c, v, b);
    forall a | a in c'.slabs ensures SlabOk(c', v', a) {
      if a != b { SlabFields(c, v, a); KeptSlab(c, v, c', v', a, b); } else { PoppedSlab(c, v, c', v', b, o); }
    }
    forall x | x in v'.live ensures exists a :: a in c'.slabs && IsObject(c'.d, a, x) {
      if x == o {
        assert b in c'.slabs && IsObject(c'.d, b, x);
      } else {
        var a :| a in c.slabs && IsObject(c.d, a, x);
        assert a in c'.slabs;
      }
    }
  }

  lemma PoppedSlab(c: Cache, v: View, c': Cache, v': View, b: nat, o: nat)
    requires SlabOk(c, v, b) && |v.chains[b]| > 0 && o == v.chains[b][0] && o in c.word && c.slabs[b].count > 0
    requires c' == c.(slabs := c.slabs[b := SlabHead(c.word[o], c.slabs[b].count - 1)])
    requires v' == View(v.lists, v.chains[b := v.chains[b][1..]], v.live + {o})
    ensures SlabOk(c', v', b)
  {
    hide Threaded, Object, Span, IsObject;
    var s := v.chains[b];
    ThreadedPop(c.word, c.slabs[b].free, s);
    assert s == [o] + s[1..];
  }

  /** Object o came from slab b: from one that is partly used, from one that is free only when none is partly used,
      and from a new one only when no slab has an object left. It is the first of the slab's chain, and no other
      slab changes. */
  ghost predicate TakenFrom(c: Cache, c': Cache, page: Option<nat>, b: nat, o: nat) {
    && b in c'.slabs && (forall a | a in c.slabs && a != b :: a in c'.slabs && c'.slabs[a] == c.slabs[a])
    && (b in c.slabs ==>
          && c'.slabs.Keys == c.slabs.Keys && c.slabs[b].free == Some(o) && c'.slabs[b].count == c.slabs[b].count - 1
          && (c.slabs[b].count == c.d.per > 1 ==>
                forall a | a in c.slabs :: c.slabs[a].count == 0 || c.slabs[a].count == c.d.per))
    && (b !in c.slabs ==>
          && page == Some(b) && c'.slabs.Keys == c.slabs.Keys + {b} && o == b + HEADER
          && c'.slabs[b].count == c.d.per - 1 && forall a | a in c.slabs :: c.slabs[a].count == 0)
  }

  /** The slab taken from headed the partial list, or else the free list, or else is new; it then heads the list
      of its count. */
  ghost predicate TakenFront(c: Cache, c': Cache, b: nat) {
    && |c.heads| == |c'.heads| == 3 && b in c'.slabs
    && (if c.heads[PARTIAL].Some? then c.heads[PARTIAL] == Some(b)
        else if c.heads[FREE].Some? then c.heads[FREE] == Some(b) else b !in c.slabs)
    && c'.heads[if c'.slabs[b].count == 0 then FULL else PARTIAL] == Some(b)
  }

  /** A slab that got its first or its last object back heads the list it moves to. */
  ghost predicate GivenFront(c: Cache, c': Cache, b: nat) {
    && b in c'.slabs && |c'.heads| == 3
    && (if c'.slabs[b].count == 1 then c'.heads[PARTIAL] == Some(b)
        else if c'.slabs[b].count == c'.d.per then c'.heads[FREE] == Some(b) else c'.heads == c.heads)
  }

  /** kmem_cache_alloc; `page` is what the page allocator has to offer for a new slab. It fails exactly when
      every object of every slab is live and there is no page; otherwise the object was not live. */
  method Alloc(c: Cache, page: Option<nat>, ghost v: View) returns (r: Option<nat>, c': Cache, ghost v': View)
    requires Inv(c, v, map[]) && (page.Some? ==> page.value !in c.slabs && Span(c.d) > 0 && page.value % Span(c.d) == 0)
    ensures Inv(c', v', map[]) && c'.d == c.d
    ensures r.None? <==> page.None? && forall b | b in c.slabs :: c.slabs[b].count == 0
    ensures r.None? ==> c' == c && v' == v
    ensures r.Some? ==> r.value !in v.live && v'.live == v.live + {r.value}
    ensures r.Some? ==> exists b :: TakenFrom(c, c', page, b, r.value) && TakenFront(c, c', b)
  {
    hide Slabs, Listing, Chosen, TakenFrom, TakenFront, Span;
    var b;
    b, c', v' := Choose(c, page, v);
    if b.None? { return None, c', v'; }
    ghost var c0 := c';
    var o;
    o, c', v' := Pop(c', b.value, v');
    r := Some(o);
    ghost var c1 := c';
    if c'.slabs[b.value].count == 0 {
      c', v' := Retire(c', b.value, v');
    } else {
      Arrived(c', v', b.value);
    }
    TakenAs(c, page, b.value, c0, o, c1, c');
  }

  /** The first part: the slab to take from, on the partial list with an object to give. */
  method Choose(c: Cache, page: Option<nat>, ghost v: View) returns (b: Option<nat>, c': Cache, ghost v': View)
    requires Inv(c, v, map[]) && (page.Some? ==> page.value !in c.slabs && Span(c.d) > 0 && page.value % Span(c.d) == 0)
    ensures b.None? <==> page.None? && forall x | x in c.slabs :: c.slabs[x].count == 0
    ensures b.None? ==> c' == c && v' == v
    ensures b.Some? ==> Inv(c', v', map[b.value := PARTIAL]) && c'.d == c.d && v'.live == v.live
    ensures b.Some? ==> Chosen(c, c', page, b.value) && |c'.heads| == 3
    ensures b.Some? ==> b.value in c'.slabs && c'.slabs[b.value].count > 0
  {
    hide Family, Members, Threaded, SlabOk, Object, Span, IsObject, Where, Slabs, Listing;
    ListHeads(c, v);
    c', v' := c, v;
    b := c.heads[PARTIAL];
    if b.None? {
      b := c.heads[FREE];
      if b.Some? {
        MoveReady(c, v, b.value, FREE);
        ghost var lists;
        c', lists := Move(c, b.value, FREE, PARTIAL, v.lists);
        v' := v.(lists := lists);
        Settle(c, v, c', v', map[], b.value, FREE, PARTIAL, map[b.value := PARTIAL]);
        LiftSlabs(c, v, c', v');
      }
    } else {
      StayPartial(c, v, b.value);
    }
    if b.None? {
      if page.None? { return; }
      c', v' := NewSlab(c, page.value, v);
      InvDims(c', v', map[page.value := PARTIAL]);
      b := page;
    }
  }

  /** The last part: a slab without objects to give heads the full list. */
  method Retire(c: Cache, b: nat, ghost v: View) returns (c': Cache, ghost v': View)
    requires Inv(c, v, map[b := PARTIAL]) && b in c.slabs && c.slabs[b].count == 0
    ensures Inv(c', v', map[]) && v'.live == v.live && c' == c.(heads := c'.heads, links := c'.links)
    ensures |c'.heads| == 3 && c'.heads[FULL] == Some(b)
  {
    hide Family, Members, Threaded, SlabOk, Object, Span, IsObject, Where, Slabs, Listing;
    InTransit(c, b, PARTIAL);
    MoveFrom(c, v, map[b := PARTIAL], b, PARTIAL);
    ghost var lists;
    c', lists := Move(c, b, PARTIAL, FULL, v.lists);
    v' := v.(lists := lists);
    Settle(c, v, c', v', map[b := PARTIAL], b, PARTIAL, FULL, map[]);
    LiftSlabs(c, v, c', v');
  }

  ghost predicate Chosen(c: Cache, c': Cache, page: Option<nat>, b: nat) {
    && |c.heads| == |c'.heads| == 3 && b in c'.slabs && c'.heads[PARTIAL] == Some(b)
    && (forall a | a in c.slabs :: a in c'.slabs && c'.slabs[a] == c.slabs[a])
    && (if c.heads[PARTIAL].Some? then c.heads[PARTIAL] == Some(b)
        else if c.heads[FREE].Some? then c.heads[FREE] == Some(b) else b !in c.slabs)
    && (b in c.slabs ==>
          && c'.slabs.Keys == c.slabs.Keys
          && (c.slabs[b].count == c.d.per > 1 ==>
                forall a | a in c.slabs :: c.slabs[a].count == 0 || c.slabs[a].count == c.d.per))
    && (b !in c.slabs ==>
          && page == Some(b) && c'.slabs.Keys == c.slabs.Keys + {b} && c'.slabs[b].free == Some(b + HEADER)
          && c'.slabs[b].count == c.d.per && forall a | a in c.slabs :: c.slabs[a].count == 0)
  }

  lemma TakenAs(c: Cache, page: Option<nat>, b: nat, c0: Cache, o: nat, c1: Cache, c': Cache)
    requires Chosen(c, c0, page, b) && c0.slabs[b].free == Some(o) && b in c1.slabs && c1.heads == c0.heads
    requires c1.slabs == c0.slabs[b := c1.slabs[b]] && c1.slabs[b].count == c0.slabs[b].count - 1
    requires c' == c1.(heads := c'.heads, links := c'.links) && |c'.heads| == 3
    requires if c1.slabs[b].count == 0 then c'.heads[FULL] == Some(b) else c' == c1
    ensures TakenFrom(c, c', page, b, o) && TakenFront(c, c', b)
  {
  }

  lemma InvDims(c: Cache, v: View, but: map<nat, nat>)
    requires Inv(c, v, but)
    ensures c.d.per > 0
  {
    hide SlabOk, Family;
  }

  /** What the list heads say: a list is empty exactly when no slab belongs on it. */
  lemma ListHeads(c: Cache, v: View)
    requires Inv(c, v, map[])
    ensures |c.heads| == |v.lists| == 3
    ensures c.heads[PARTIAL].Some? ==>
        c.heads[PARTIAL].value in c.slabs && Where(c, map[], c.heads[PARTIAL].value) == PARTIAL &&
        c.slabs[c.heads[PARTIAL].value].count > 0
    ensures c.heads[FREE].Some? ==>
        c.heads[FREE].value in c.slabs && Where(c, map[], c.heads[FREE].value) == FREE &&
        c.slabs[c.heads[FREE].value].count > 0
    ensures c.heads[PARTIAL].None? && c.heads[FREE].None? ==> forall b | b in c.slabs :: c.slabs[b].count == 0
    ensures c.heads[PARTIAL].None? ==> forall b | b in c.slabs :: c.slabs[b].count == 0 || c.slabs[b].count == c.d.per
    ensures c.heads[PARTIAL].Some? && c.d.per > 1 ==> c.slabs[c.heads[PARTIAL].value].count != c.d.per
  {
    hide Family, Members, SlabOk, Where;
    FamilySize(c, v.lists);
    HeadOf(c.links, c.heads, v.lists, PARTIAL);
    HeadOf(c.links, c.heads, v.lists, FREE);
    forall k, b | 0 <= k < 3 && b in Members(v.lists[k])
      ensures b in c.slabs && Where(c, map[], b) == k
    {
      OneList(c, v, map[], k, b);
    }
    forall b | b in c.slabs && c.slabs[b].count > 0
      ensures Where(c, map[], b) == PARTIAL || (Where(c, map[], b) == FREE && c.slabs[b].count == c.d.per)
    {
      WhereMeans(c, b);
    }
    if c.heads[PARTIAL].Some? { WhereMeans(c, c.heads[PARTIAL].value); }
    if c.heads[FREE].Some? { WhereMeans(c, c.heads[FREE].value); }
  }

  lemma WhereMeans(c: Cache, b: nat)
    requires b in c.slabs
    ensures Where(c, map[], b) == ListOf(c.d.per, c.slabs[b].count)
    ensures c.slabs[b].count > 0 <==> Where(c, map[], b) != FULL
    ensures Where(c, map[], b) < 3
  {
  }

  /** The lists are disjoint, so a slab on list k is on the list it belongs on. */
  lemma OneList(c: Cache, v: View, but: map<nat, nat>, k: nat, b: nat)
    requires Listing(c, v, but) && k < 3 && b in Members(v.lists[k])
    ensures b in c.slabs && Where(c, but, b) == k
  {
    hide Family, Members, Where;
    var w := Where(c, but, b);
    assert b in Members(v.lists[w]);
    if w != k { DisjointLists(c, v.lists, w, k); }
  }

  lemma DisjointLists(c: Cache, lists: seq<seq<nat>>, i: nat, j: nat)
    requires Family(c.links, c.heads, lists) && i < |lists| && j < |lists| && i != j
    ensures Members(lists[i]) !! Members(lists[j])
  {
    hide Members, Listed;
  }

  lemma MoveFrom(c: Cache, v: View, but: map<nat, nat>, b: nat, k: nat)
    requires Inv(c, v, but) && b in c.slabs && Where(c, but, b) == k
    ensures k < 3 && |v.lists| == 3 && Family(c.links, c.heads, v.lists) && b in Members(v.lists[k]) && b in c.links
  {
    hide Family, Members, Where;
    assert SlabOk(c, v, b);
  }

  lemma MoveReady(c: Cache, v: View, b: nat, k: nat)
    requires Inv(c, v, map[]) && b in c.slabs && Where(c, map[], b) == k
    ensures k < 3 && |v.lists| == 3 && Family(c.links, c.heads, v.lists) && b in Members(v.lists[k]) && b in c.links
  {
    hide Inv, Family, Members, Where;
    MoveFrom(c, v, map[], b, k);
  }

  lemma Settle(c: Cache, v: View, c': Cache, v': View, but: map<nat, nat>, b: nat, from: nat, to: nat, but': map<nat,
        nat>)
    requires Listing(c, v, but) && b in c.slabs && from == Where(c, but, b) && Moved(v.lists, v'.lists, b, from, to)
    requires Family(c'.links, c'.heads, v'.lists) && c'.slabs == c.slabs && c'.d == c.d
    requires (but == map[] && but' == map[b := to]) ||
        (but == map[b := from] && but' == map[] && to == ListOf(c.d.per, c.slabs[b].count))
    ensures Listing(c', v', but')
  {
    hide Family, Members, Listing, Moved;
    Settled(c, v, c', v', but, b, from, to, but');
  }

  lemma LiftSlabs(c: Cache, v: View, c': Cache, v': View)
    requires Slabs(c, v) && c' == c.(heads := c'.heads, links := c'.links) && c'.links.Keys == c.links.Keys
    requires v' == v.(lists := v'.lists)
    ensures Slabs(c', v')
  {
    hide Threaded, IsObject;
    forall b | b in c'.slabs ensures SlabOk(c', v', b) { assert SlabOk(c, v, b); }
  }

  /** A slab on the partial list may be taken as in transit there, and back. */
  lemma StayPartial(c: Cache, v: View, b: nat)
    requires Listing(c, v, map[]) && b in c.slabs && Where(c, map[], b) == PARTIAL
    ensures Listing(c, v, map[b := PARTIAL])
  {
    hide Family, Members;
    forall a | a in c.slabs
      ensures Where(c, map[b := PARTIAL], a) < 3 && a in Members(v.lists[Where(c, map[b := PARTIAL], a)])
    {
      assert a in Members(v.lists[Where(c, map[], a)]);
    }
  }

  lemma Arrived(c: Cache, v: View, b: nat)
    requires Listing(c, v, map[b := PARTIAL]) && b in c.slabs && 0 < c.slabs[b].count
    requires c.slabs[b].count < c.d.per || c.d.per == 1
    ensures Listing(c, v, map[])
  {
    hide Family, Members;
    forall a | a in c.slabs ensures Where(c, map[], a) < 3 && a in Members(v.lists[Where(c, map[], a)]) {
      assert a in Members(v.lists[Where(c, map[b := PARTIAL], a)]);
    }
  }

  /** Give object o back to slab b, which masking found. */
  method GiveBack(c: Cache, b: nat, o: nat, ghost v: View) returns (c': Cache, ghost v': View)
    requires Inv(c, v, map[]) && b in c.slabs && IsObject(c.d, b, o) && o in v.live
    ensures c.slabs[b].count < c.d.per && Inv(c', v', map[b := Where(c, map[], b)]) && c'.d == c.d
    ensures v'.live == v.live - {o}
    ensures c'.slabs == c.slabs[b := SlabHead(Some(o), c.slabs[b].count + 1)] && c'.word == c.word[o := c.slabs[b].free]
    ensures c'.heads == c.heads
  {
    hide Family, Members, Threaded, SlabOk, Object, Span, IsObject, Where;
    SlabFields(c, v, b);
    ChainBound(c, v, b);
    c' := c.(word := c.word[o := c.slabs[b].free], slabs := c.slabs[b := SlabHead(Some(o), c.slabs[b].count + 1)]);
    v' := View(v.lists, v.chains[b := [o] + v.chains[b]], v.live - {o});
    PushSlabs(c, v, c', v', b, o);
    TransitListing(c, v, map[], c', v', b, map[b := Where(c, map[], b)]);
  }

  lemma PushSlabs(c: Cache, v: View, c': Cache, v': View, b: nat, o: nat)
    requires Slabs(c, v) && b in c.slabs && b in v.chains && IsObject(c.d, b, o) && o in v.live
    requires c' == c.(word := c.word[o := c.slabs[b].free],
        slabs := c.slabs[b := SlabHead(Some(o), c.slabs[b].count + 1)])
    requires v' == View(v.lists, v.chains[b := [o] + v.chains[b]], v.live - {o})
    ensures Slabs(c', v')
  {
    hide Threaded, Object, Span, SlabOk, IsObject;
    SlabFields(c, v, b);
    forall a | a in c'.slabs ensures SlabOk(c', v', a) {
      if a != b { SlabFields(c, v, a); KeptSlab(c, v, c', v', a, b); } else { PushedSlab(c, v, c', v', b, o); }
    }
    forall x | x in v'.live ensures exists a :: a in c'.slabs && IsObject(c'.d, a, x) {
      var a :| a in c.slabs && IsObject(c.d, a, x);
      assert a in c'.slabs;
    }
  }

  lemma PushedSlab(c: Cache, v: View, c': Cache, v': View, b: nat, o: nat)
    requires SlabOk(c, v, b) && IsObject(c.d, b, o) && o in v.live
    requires c' == c.(word := c.word[o := c.slabs[b].free],
        slabs := c.slabs[b := SlabHead(Some(o), c.slabs[b].count + 1)])
    requires v' == View(v.lists, v.chains[b := [o] + v.chains[b]], v.live - {o})
    ensures SlabOk(c', v', b)
  {
    hide Threaded, Object, Span, IsObject;
    ThreadedPush(c.word, c.slabs[b].free, v.chains[b], o, c'.word);
  }

  /** Object o is the first of the chain of slab b, in which it lies; no other slab changed. */
  ghost predicate GivenTo(c: Cache, c': Cache, b: nat, o: nat) {
    && b in c.slabs && b <= o < b + c.d.pages * PAGE
    && c'.slabs == c.slabs[b := SlabHead(Some(o), c.slabs[b].count + 1)]
    && o in c'.word && c'.word[o] == c.slabs[b].free
  }

  lemma MaskBelow(c: Cache, o: nat)
    requires Span(c.d) > 0
    ensures var b := o / Span(c.d) * Span(c.d); b <= o < b + c.d.pages * PAGE
  {
    DivMod(o, Span(c.d));
  }

  /** kmem_cache_free of a live object. */
  method Free(c: Cache, o: nat, ghost v: View) returns (c': Cache, ghost v': View)
    requires Inv(c, v, map[]) && o in v.live
    ensures Inv(c', v', map[]) && c'.d == c.d && v'.live == v.live - {o}
    ensures exists b :: GivenTo(c, c', b, o) && GivenFront(c, c', b)
  {
    hide Family, Members, Threaded, SlabOk, Object, Span, IsObject, Where, Slabs, Listing;
    MaskSlab(c, v, o);
    var b := o / Span(c.d) * Span(c.d);
    MaskBelow(c, o);
    c', v' := GiveBack(c, b, o, v);
    WhereMeans(c, b);
    assert GivenTo(c, c', b, o);
    ghost var c1, v1 := c', v';
    ghost var lists;
    if c'.slabs[b].count == 1 {
      InTransit(c', b, FULL);
      MoveFrom(c', v', map[b := FULL], b, FULL);
      c', lists := Move(c', b, FULL, PARTIAL, v'.lists);
      v' := v'.(lists := lists);
      Settle(c1, v1, c', v', map[b := FULL], b, FULL, PARTIAL, map[]);
      LiftSlabs(c1, v1, c', v');
    } else if c'.slabs[b].count == c.d.per {
      InTransit(c', b, PARTIAL);
      MoveFrom(c', v', map[b := PARTIAL], b, PARTIAL);
      c', lists := Move(c', b, PARTIAL, FREE, v'.lists);
      v' := v'.(lists := lists);
      Settle(c1, v1, c', v', map[b := PARTIAL], b, PARTIAL, FREE, map[]);
      LiftSlabs(c1, v1, c', v');
    } else {
      Arrived(c', v', b);
    }
    ListHeads(c', v');
    assert GivenTo(c, c', b, o) && GivenFront(c, c', b);
  }

  lemma MaskSlab(c: Cache, v: View, o: nat)
    requires Slabs(c, v) && o in v.live
    ensures Span(c.d) > 0 && o / Span(c.d) * Span(c.d) >= 0 && o / Span(c.d) * Span(c.d) in c.slabs
    ensures IsObject(c.d, o / Span(c.d) * Span(c.d), o)
  {
    hide Threaded, Object, Span;
    var b :| b in c.slabs && IsObject(c.d, b, o);
    var i: nat :| i < c.d.per && o == Object(c.d, b, i);
    assert SlabOk(c, v, b);
    MaskFinds(c.d, b, i);
  }

  // The cache as an object.

  /** Every run of allocations and frees keeps the chains, the lists and the live objects in order. */
  class ObjectCache {
    var cache: Cache
    ghost var view: View

    ghost predicate Valid()
      reads this
    {
      Inv(cache, view, map[])
    }

    constructor (d: Dims, word: map<nat, Option<nat>>)
      requires DimsOk(d)
      ensures Valid() && view.live == {} && cache.d == d
    {
      cache := Cache(d, [None, None, None], map[], map[], word);
      view := View([[], [], []], map[], {});
    }

    method New(page: Option<nat>) returns (r: Option<nat>)
      requires Valid()
      requires page.Some? ==> page.value !in cache.slabs && Span(cache.d) > 0 && page.value % Span(cache.d) == 0
      modifies this
      ensures Valid() && cache.d == old(cache.d)
      ensures r.None? <==> page.None? && forall b | b in old(cache).slabs :: old(cache).slabs[b].count == 0
      ensures r.None? ==> unchanged(this)
      ensures r.Some? ==> r.value !in old(view.live) && view.live == old(view.live) + {r.value}
      ensures r.Some? ==> exists b :: TakenFrom(old(cache), cache, page, b, r.value) && TakenFront(old(cache), cache, b)
    {
      hide Slabs, Listing;
      var c;
      ghost var v;
      r, c, v := Alloc(cache, page, view);
      cache, view := c, v;
    }

    method Delete(o: nat)
      requires Valid() && o in view.live
      modifies this
      ensures Valid() && cache.d == old(cache.d) && view.live == old(view.live) - {o}
      ensures exists b :: GivenTo(old(cache), cache, b, o) && GivenFront(old(cache), cache, b)
    {
      hide Slabs, Listing;
      var c;
      ghost var v;
      c, v := Free(cache, o, view);
      cache, view := c, v;
    }

    /** The owner of a live object writes to its first word. */
    method Scribble(o: nat, w: Option<nat>)
      requires Valid() && o in view.live
      modifies this`cache
      ensures Valid() && cache == old(cache).(word := old(cache).word[o := w])
    {
      hide Slabs, Listing;
      ghost var before := cache;
      cache := cache.(word := cache.word[o := w]);
      Scribbled(before, cache, view, o);
    }
  }

  lemma Scribbled(c: Cache, c': Cache, v: View, o: nat)
    requires Inv(c, v, map[]) && o in v.live && c' == c.(word := c'.word)
    requires c.word.Keys <= c'.word.Keys && forall x | x in c.word && x != o :: c'.word[x] == c.word[x]
    ensures Inv(c', v, map[])
  {
    hide Family, Members, Threaded, IsObject;
    forall b | b in c'.slabs ensures SlabOk(c', v, b) {
      assert SlabOk(c, v, b);
      ThreadIn(c.word, c.slabs[b].free, v.chains[b]);
      ThreadedFrame(c.word, c'.word, c.slabs[b].free, v.chains[b]);
    }
    forall b | b in c'.slabs ensures Where(c', map[], b) < 3 && b in Members(v.lists[Where(c', map[], b)]) {
      assert b in Members(v.lists[Where(c, map[], b)]);
    }
  }
}
