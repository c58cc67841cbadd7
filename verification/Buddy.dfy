/** The buddy allocator: block headers in the pool's own memory, one intrusive free list per order. */
module Buddy {
  import opened Options
  import opened Bits
  import opened Dyadic
  import opened IntrusiveList
  import opened BuddyTiles

  const MAGIC: nat := 0x80D180D1
  const UNIT: nat := 64
  const HEADER: nat := 24
  const SIZES: nat := 0x1_0000_0000_0000_0000

  /** What the first bytes of a unit read as when taken for a block header. Only the headers of
      current blocks mean anything; elsewhere they are stale or written by the block's user. */
  datatype Head = Head(magic: nat, free: bool, order: nat)

  datatype Pool = Pool(heads: seq<Head>, links: Links, lists: seq<Option<nat>>)

  ghost function ByOrder(v: View, k: nat): set<nat> {
    set h | h in v.free && h in v.order && v.order[h] == k
  }

  /** The header of block h says what the block is; the free flag of a block in transit lags behind. */
  ghost predicate HeadOk(p: Pool, v: View, held: set<nat>, h: nat) {
    && h < |p.heads| && h in v.order && p.heads[h].magic == MAGIC && p.heads[h].order == v.order[h]
    && (h !in held ==> p.heads[h].free == (h in v.free))
  }

  /** The free list of every order holds exactly the free blocks of that order. */
  ghost predicate ListsOk(v: View, ls: seq<seq<nat>>) {
    |ls| == MAX_ORDER + 1 && forall k | 0 <= k < |ls| :: Members(ls[k]) == ByOrder(v, k)
  }

  ghost predicate Rep(p: Pool, v: View, ls: seq<seq<nat>>, held: set<nat>) {
    && |v.owner| <= |p.heads|
    && (forall u: nat | u < |p.heads| :: u in p.links)
    && Family(p.links, p.lists, ls) && ListsOk(v, ls)
    && (forall h {:trigger HeadOk(p, v, held, h)} | h in v.order :: HeadOk(p, v, held, h))
  }

  /** The pool between two operations (nothing held) or inside one (one block held). */
  ghost predicate Inv(p: Pool, v: View, ls: seq<seq<nat>>, held: set<nat>) {
    && Tiled(v) && Canonical(v) && Rep(p, v, ls, held) && |v.owner| == |p.heads|
    && held <= v.order.Keys && held !! v.free
  }

  /** Facts about the lists that the loops read. */
  lemma ListFacts(p: Pool, v: View, ls: seq<seq<nat>>, held: set<nat>, k: nat)
    requires Rep(p, v, ls, held) && k <= MAX_ORDER
    ensures |ls| == |p.lists| == MAX_ORDER + 1 && Family(p.links, p.lists, ls)
    ensures p.lists[k].None? <==> ByOrder(v, k) == {}
    ensures p.lists[k].Some? ==> p.lists[k].value in ByOrder(v, k) && p.lists[k].value in Members(ls[k])
  {
    hide Family, HeadOk;
    assert Members(ls[k]) == ByOrder(v, k);
    FamilySize(p, ls);
    HeadOf(p.links, p.lists, ls, k);
  }

  lemma FamilySize(p: Pool, ls: seq<seq<nat>>)
    requires Family(p.links, p.lists, ls)
    ensures |p.lists| == |ls|
  {
  }

  // One block off its list, one block cut, two blocks joined, one block back on its list.

  method TakeFrom(p: Pool, k: nat, ghost v: View, ghost ls: seq<seq<nat>>)
    returns (b: nat, p': Pool, ghost v': View, ghost ls': seq<seq<nat>>)
    requires Inv(p, v, ls, {}) && k <= MAX_ORDER && |p.lists| == MAX_ORDER + 1 && p.lists[k].Some?
    ensures b in v.free && b in v.order && v.order[b] == k && v' == v.(free := v.free - {b}) && p.lists[k] == Some(b)
    ensures Inv(p', v', ls', {b}) && Live(v') == Live(v)[b := k] && |p'.heads| == |p.heads|
  {
    hide Tiled, Canonical, Family, ListsOk, HeadOk, Live, Members, Relisted;
    ListFacts(p, v, ls, {}, k);
    b := p.lists[k].value;
    var links, lists;
    links, lists, ls' := Detach(p.links, p.lists, k, b, ls);
    p' := p.(links := links, lists := lists);
    v' := v.(free := v.free - {b});
    TakeLists(v, v', ls, ls', k, b);
    TakeCanonical(v, b, v');
    TakeHeads(p, v, p', v', b);
  }

  lemma TakeLists(v: View, v': View, ls: seq<seq<nat>>, ls': seq<seq<nat>>, k: nat, b: nat)
    requires ListsOk(v, ls) && k < |ls| && Relisted(ls, ls', k, Members(ls[k]) - {b}) && b in v.order && v.order[b] == k
    requires v' == v.(free := v.free - {b})
    ensures ListsOk(v', ls')
  {
    hide Members;
    forall j | 0 <= j < |ls'| ensures Members(ls'[j]) == ByOrder(v', j) {
      assert Members(ls[j]) == ByOrder(v, j);
      if j != k { assert ByOrder(v', j) == ByOrder(v, j); } else { assert ByOrder(v', j) == ByOrder(v, j) - {b}; }
    }
  }

  lemma TakeHeads(p: Pool, v: View, p': Pool, v': View, b: nat)
    requires forall h {:trigger HeadOk(p, v, {}, h)} | h in v.order :: HeadOk(p, v, {}, h)
    requires p'.heads == p.heads && v' == v.(free := v.free - {b})
    ensures forall h {:trigger HeadOk(p', v', {b}, h)} | h in v'.order :: HeadOk(p', v', {b}, h)
  {
    forall h | h in v'.order ensures HeadOk(p', v', {b}, h) { assert HeadOk(p, v, {}, h); }
  }

  method SplitOnce(p: Pool, b: nat, ghost v: View, ghost ls: seq<seq<nat>>)
    returns (p': Pool, ghost v': View, ghost ls': seq<seq<nat>>)
    requires Inv(p, v, ls, {b}) && b < |p.heads| && p.heads[b].order > 0 && b in v.order
    requires v.order[b] == p.heads[b].order
    ensures v' == Split(v, b) && Inv(p', v', ls', {b}) && b in v'.order && v'.order[b] == v.order[b] - 1
    ensures Live(v') == Live(v)[b := v.order[b] - 1] && |p'.heads| == |p.heads| && p'.heads[b].order == v'.order[b]
    ensures Tiled(v)
  {
    hide Tiled, Canonical, Family, ListsOk, HeadOk, Live, Members, Relisted, Pow2, Split, Aligned;
    ghost var k, c := SplitAt(v, b);
    var order := p.heads[b].order - 1;
    var buddy := b + Pow2(order);
    v' := Split(v, b);
    SplitTiled(v, b, v');
    SplitCanonical(v, b, v');
    SplitFields(v, b, v', k, c);
    OffLists(p, v, ls, {b}, c);
    var links, lists;
    links, lists, ls' := Push(p.links, p.lists, order, buddy, ls);
    var heads := p.heads[buddy := Head(MAGIC, true, order)];
    p' := Pool(heads[b := heads[b].(order := order)], links, lists);
    PushLists(v, v', ls, ls', order, buddy);
    SplitHeads(p, v, p', v', b, k, c);
  }

  lemma SplitFields(v: View, b: nat, w: View, k: nat, c: nat)
    requires b in v.order && v.order[b] == k + 1 && c == b + Pow2(k) && w == Split(v, b)
    ensures w.order == v.order[b := k][c := k] && |w.owner| == |v.owner| && w.free == v.free + {c}
  {
  }

  /** A unit that heads no block is on no list. */
  lemma OffLists(p: Pool, v: View, ls: seq<seq<nat>>, held: set<nat>, c: nat)
    requires Rep(p, v, ls, held) && c !in v.free
    ensures Loose(ls, c) && |ls| == |p.lists| == MAX_ORDER + 1
  {
    hide Family, HeadOk, Members;
    FamilySize(p, ls);
    forall k | 0 <= k < |ls| ensures c !in Members(ls[k]) { assert Members(ls[k]) == ByOrder(v, k); }
  }

  /** Block c becomes a free block of order k; no other free block changes. */
  lemma PushLists(v: View, v': View, ls: seq<seq<nat>>, ls': seq<seq<nat>>, k: nat, c: nat)
    requires ListsOk(v, ls) && k < |ls| && Relisted(ls, ls', k, Members(ls[k]) + {c}) && c !in v.free
    requires v'.free == v.free + {c} && c in v'.order && v'.order[c] == k
    requires forall h | h in v.free :: h in v.order <==> h in v'.order
    requires forall h | h in v.free && h in v.order :: v'.order[h] == v.order[h]
    ensures ListsOk(v', ls')
  {
    hide Members;
    forall j | 0 <= j < |ls'| ensures Members(ls'[j]) == ByOrder(v', j) {
      assert Members(ls[j]) == ByOrder(v, j);
      if j != k { assert ByOrder(v', j) == ByOrder(v, j); } else { assert ByOrder(v', j) == ByOrder(v, j) + {c}; }
    }
  }

  lemma SplitHeads(p: Pool, v: View, p': Pool, v': View, b: nat, k: nat, c: nat)
    requires forall h {:trigger HeadOk(p, v, {b}, h)} | h in v.order :: HeadOk(p, v, {b}, h)
    requires b in v.order && c !in v.order && b != c && b < |p.heads| && c < |p.heads|
    requires p'.heads == p.heads[c := Head(MAGIC, true, k)][b := p.heads[b].(order := k)]
    requires v'.order == v.order[b := k][c := k] && v'.free == v.free + {c}
    ensures forall h {:trigger HeadOk(p', v', {b}, h)} | h in v'.order :: HeadOk(p', v', {b}, h)
  {
    forall h | h in v'.order ensures HeadOk(p', v', {b}, h) {
      assert HeadOk(p, v, {b}, b);
      if h != c { assert HeadOk(p, v, {b}, h); }
    }
  }

  method MergeOnce(p: Pool, b: nat, buddy: nat, ghost v: View, ghost ls: seq<seq<nat>>)
    returns (b': nat, p': Pool, ghost v': View, ghost ls': seq<seq<nat>>)
    requires Inv(p, v, ls, {b}) && Mergeable(v, b) && buddy == Buddy(b, v.order[b]) && b < |p.heads|
    requires p.heads[b].order == v.order[b]
    ensures v' == Merge(v, b, buddy) && b' == (if buddy < b then buddy else b) && Inv(p', v', ls', {b'})
    ensures b' in v'.order
    ensures v'.order[b'] == v.order[b] + 1 && Live(v') == (Live(v) - {b})[b' := v.order[b] + 1]
    ensures b' <= b && b + Pow2(v.order[b]) <= b' + Pow2(v'.order[b'])
    ensures |p'.heads| == |p.heads| && b' < |p'.heads| && p'.heads[b'].order == v'.order[b']
  {
    hide Tiled, Canonical, Family, ListsOk, HeadOk, Live, Members, Relisted, Pow2, Merge, Aligned, Buddy;
    ghost var low, high := MergeAt(v, b);
    v' := Merge(v, b, buddy);
    MergeTiled(v, b, v');
    MergeCanonical(v, b, v');
    MergeFields(v, b, buddy, v', low, high);
    var order := p.heads[b].order;
    OnList(p, v, ls, {b}, buddy);
    var links, lists;
    links, lists, ls' := Detach(p.links, p.lists, order, buddy, ls);
    b' := if buddy < b then buddy else b;
    assert HeadOk(p, v, {b}, buddy);
    BlockIn(p, v, {b}, buddy);
    p' := Pool(p.heads[b' := p.heads[b'].(order := order + 1)], links, lists);
    MergeLists(v, v', ls, ls', order, buddy, low, high);
    MergeHeads(p, v, p', v', b, buddy, low, high);
  }

  lemma BlockIn(p: Pool, v: View, held: set<nat>, h: nat)
    requires HeadOk(p, v, held, h)
    ensures h < |p.heads| && h in v.order && p.heads[h].magic == MAGIC && p.heads[h].order == v.order[h]
    ensures h !in held ==> p.heads[h].free == (h in v.free)
  {
  }

  lemma MergeFields(v: View, b: nat, c: nat, w: View, low: nat, high: nat)
    requires b in v.order && w == Merge(v, b, c) && low == (if b < c then b else c) && high == (if b < c then c else b)
    ensures w.order == (v.order - {high})[low := v.order[b] + 1] && w.free == v.free - {c} && |w.owner| == |v.owner|
  {
  }

  lemma OnList(p: Pool, v: View, ls: seq<seq<nat>>, held: set<nat>, c: nat)
    requires Rep(p, v, ls, held) && c in v.free && c in v.order && v.order[c] <= MAX_ORDER
    ensures |ls| == |p.lists| == MAX_ORDER + 1 && c in Members(ls[v.order[c]])
  {
    hide Family, HeadOk, Members;
    FamilySize(p, ls);
    assert Members(ls[v.order[c]]) == ByOrder(v, v.order[c]);
  }

  lemma MergeLists(v: View, v': View, ls: seq<seq<nat>>, ls': seq<seq<nat>>, k: nat, c: nat, low: nat, high: nat)
    requires ListsOk(v, ls) && k < |ls| && Relisted(ls, ls', k, Members(ls[k]) - {c}) && c in v.free && c in v.order
    requires v.order[c] == k
    requires v'.free == v.free - {c} && v'.order == (v.order - {high})[low := k + 1]
    requires low == c || low !in v.free
    requires high == c || high !in v.free
    ensures ListsOk(v', ls')
  {
    hide Members;
    forall j | 0 <= j < |ls'| ensures Members(ls'[j]) == ByOrder(v', j) {
      assert Members(ls[j]) == ByOrder(v, j);
      if j != k { assert ByOrder(v', j) == ByOrder(v, j); } else { assert ByOrder(v', j) == ByOrder(v, j) - {c}; }
    }
  }

  lemma MergeHeads(p: Pool, v: View, p': Pool, v': View, b: nat, c: nat, low: nat, high: nat)
    requires forall h {:trigger HeadOk(p, v, {b}, h)} | h in v.order :: HeadOk(p, v, {b}, h)
    requires b in v.order && c in v.order && b != c && {low, high} == {b, c} && low != high && low < |p.heads|
    requires p'.heads == p.heads[low := p.heads[low].(order := v.order[b] + 1)]
    requires v'.order == (v.order - {high})[low := v.order[b] + 1] && v'.free == v.free - {c}
    ensures forall h {:trigger HeadOk(p', v', {low}, h)} | h in v'.order :: HeadOk(p', v', {low}, h)
  {
    assert low == b || low == c;
    assert high == b || high == c;
    forall h | h in v'.order ensures HeadOk(p', v', {low}, h) {
      assert HeadOk(p, v, {b}, h);
    }
  }

  /** Set the free flag of the held block and put it on the list of its order. */
  method PutBack(p: Pool, b: nat, ghost v: View, ghost ls: seq<seq<nat>>)
    returns (p': Pool, ghost v': View, ghost ls': seq<seq<nat>>)
    requires Inv(p, v, ls, {b}) && !Mergeable(v, b)
    ensures Inv(p', v', ls', {}) && v' == v.(free := v.free + {b}) && Live(v') == Live(v) - {b}
    ensures |p'.heads| == |p.heads| && v.order[b] < |p'.lists| && p'.lists[v.order[b]] == Some(b)
  {
    hide Tiled, Canonical, Family, ListsOk, HeadOk, Live, Members, Relisted, Pow2, Aligned, Buddy;
    assert HeadOk(p, v, {b}, b);
    BlockIn(p, v, {b}, b);
    OrderBound(v, b);
    OffLists(p, v, ls, {b}, b);
    var links, lists;
    links, lists, ls' := Push(p.links, p.lists, p.heads[b].order, b, ls);
    p' := Pool(p.heads[b := p.heads[b].(free := true)], links, lists);
    v' := v.(free := v.free + {b});
    ReleaseCanonical(v, b, v');
    PushLists(v, v', ls, ls', v.order[b], b);
    FlagHeads(p, v, p', v', b, true);
  }

  lemma OrderBound(v: View, b: nat)
    requires Tiled(v) && b in v.order
    ensures v.order[b] <= MAX_ORDER && v.free <= v.order.Keys
  {
  }

  lemma FlagHeads(p: Pool, v: View, p': Pool, v': View, b: nat, flag: bool)
    requires forall h {:trigger HeadOk(p, v, {b}, h)} | h in v.order :: HeadOk(p, v, {b}, h)
    requires b in v.order && b < |p.heads| && p'.heads == p.heads[b := p.heads[b].(free := flag)]
    requires v' == v.(free := if flag then v.free + {b} else v.free) && b !in v.free
    ensures forall h {:trigger HeadOk(p', v', {}, h)} | h in v'.order :: HeadOk(p', v', {}, h)
  {
    forall h | h in v'.order ensures HeadOk(p', v', {}, h) {
      assert HeadOk(p, v, {b}, h);
    }
  }

  // Allocation.

  /** k is the smallest order whose blocks hold `total` bytes, or one past the largest order. */
  predicate Smallest(total: nat, k: nat) {
    && k <= MAX_ORDER + 1
    && (k > 0 ==> UNIT * Pow2(k - 1) < total)
    && (k <= MAX_ORDER ==> total <= UNIT * Pow2(k))
  }

  /** After kmem_buddy_alloc: it fails exactly for size 0, for sizes beyond the largest order, or when no
      aligned region of the needed order is wholly free; otherwise one block becomes live. It is cut from a free
      block than which none is smaller among those large enough, and all other free blocks stay. */
  ghost predicate Allocated(v: View, v': View, size: nat, k: nat, r: Option<nat>) {
    && Smallest((size + HEADER) % SIZES, k)
    && (r.None? <==> size == 0 || k > MAX_ORDER || forall a: nat {:trigger AllFree(v, a, k)} | Aligned(a, k) ::
          !AllFree(v, a, k))
    && (r.None? ==> v' == v)
    && (r.Some? ==> Live(v') == Live(v)[r.value := k] && r.value !in Live(v) && AllFree(v, r.value, k))
    && (r.Some? ==> CutFrom(v, v', k, r.value))
  }

  /** b was a free block; every other free block has an order below k or no lower than that of b, and stays. */
  ghost predicate CutFrom(v: View, v': View, k: nat, b: nat) {
    && b in v.free && b in v.order && v.order[b] >= k
    && (forall f | f in v.free && f in v.order :: v.order[f] < k || v.order[f] >= v.order[b])
    && KeepsOthers(v, v', b)
  }

  ghost predicate KeepsOthers(v: View, v': View, b: nat) {
    forall f | f in v.free && f in v.order && f != b :: f in v'.free && f in v'.order && v'.order[f] == v.order[f]
  }

  method Alloc(p: Pool, size: nat, ghost v: View, ghost ls: seq<seq<nat>>)
    returns (r: Option<nat>, p': Pool, ghost v': View, ghost ls': seq<seq<nat>>, ghost k: nat)
    requires Inv(p, v, ls, {}) && size < SIZES
    ensures Inv(p', v', ls', {}) && Allocated(v, v', size, k, r) && |v'.owner| == |v.owner|
    ensures r.Some? ==> r.value in v.order && v.order[r.value] < |p.lists| && p.lists[v.order[r.value]] == r
  {
    hide Inv, Rep, Allocated, Live, AllFree, Aligned, Pow2, KeepsOthers;
    r, p', v', ls' := None, p, v, ls;
    var total := (size + HEADER) % SIZES;
    var target := FindOrder(total);
    k := target;
    if size == 0 || target > MAX_ORDER {
      AllocNothing(v, size, k);
      return;
    }
    var order := target;
    LoopFacts(p, v, ls);
    while order <= MAX_ORDER && p.lists[order].None?
      invariant target <= order <= MAX_ORDER + 1
      invariant forall j | target <= j < order :: p.lists[j].None?
    {
      order := order + 1;
    }
    if order > MAX_ORDER {
      NoneLeft(p, v, ls, size, target);
      return;
    }
    var b;
    b, p', v', ls' := TakeFrom(p, order, v, ls);
    HeldHead(p', v', ls', b);
    ghost var top := order;
    TakenKeeps(v, b);
    while order > target
      invariant target <= order <= top
      invariant Inv(p', v', ls', {b}) && b in v'.order && v'.order[b] == order && |p'.heads| == |p.heads|
      invariant b < |p'.heads| && p'.heads[b].order == order && Live(v') == Live(v)[b := order]
      invariant KeepsOthers(v, v', b)
    {
      ghost var whole := v';
      p', v', ls' := SplitOnce(p', b, v', ls');
      SplitKeeps(v, whole, b);
      order := order - 1;
    }
    FirstList(p, v, ls, target, top);
    AllocDone(p, v, ls, v', size, target, b, top);
    p' := MarkUsed(p', b, v', ls');
    r := Some(b);
    OwnerSize(p, v, ls, {}, p', v', ls', {});
  }

  lemma TakenKeeps(v: View, b: nat)
    ensures KeepsOthers(v, v.(free := v.free - {b}), b)
  {
  }

  lemma SplitKeeps(v0: View, v: View, b: nat)
    requires Tiled(v) && b in v.order && v.order[b] > 0 && KeepsOthers(v0, v, b)
    ensures KeepsOthers(v0, Split(v, b), b)
  {
    hide Tiled, Split, Aligned, Pow2;
    var k, c := SplitAt(v, b);
    SplitFields(v, b, Split(v, b), k, c);
  }

  /** The lists below that of b are empty, so every free block of order k or more has at least that of b. */
  lemma FirstList(p: Pool, v: View, ls: seq<seq<nat>>, k: nat, top: nat)
    requires Inv(p, v, ls, {}) && top <= MAX_ORDER && |p.lists| == MAX_ORDER + 1
    requires forall j | k <= j < top :: p.lists[j].None?
    ensures forall f | f in v.free && f in v.order :: v.order[f] < k || v.order[f] >= top
  {
    hide Inv, Rep;
    forall f | f in v.free && f in v.order ensures v.order[f] < k || v.order[f] >= top { OnItsList(p, v, ls, f); }
  }

  /** A free block of just the right order is handed out as it is, and nothing else changes. */
  lemma ExactFit(v: View, v': View, size: nat, k: nat, r: Option<nat>, f: nat)
    requires Tiled(v) && Canonical(v) && Tiled(v') && Canonical(v') && |v'.owner| == |v.owner|
    requires Allocated(v, v', size, k, r) && r.Some? && f in v.free && f in v.order && v.order[f] == k
    ensures r.value in v.free && v.order[r.value] == k && v' == v.(free := v.free - {r.value})
  {
    hide Tiled, Canonical, Live, AllFree, Smallest, KeepsOthers;
    var w := v.(free := v.free - {r.value});
    TakeCanonical(v, r.value, w);
    UniqueTiling(v', w);
  }

  method FindOrder(total: nat) returns (k: nat)
    ensures Smallest(total, k)
  {
    k := 0;
    while UNIT * Pow2(k) < total && k <= MAX_ORDER
      invariant k <= MAX_ORDER + 1 && (k > 0 ==> UNIT * Pow2(k - 1) < total)
    {
      k := k + 1;
    }
  }

  method MarkUsed(p: Pool, b: nat, ghost v: View, ghost ls: seq<seq<nat>>) returns (p': Pool)
    requires Inv(p, v, ls, {b}) && b < |p.heads|
    ensures Inv(p', v, ls, {}) && |p'.heads| == |p.heads|
  {
    hide Tiled, Canonical, Family, ListsOk, HeadOk;
    p' := p.(heads := p.heads[b := p.heads[b].(free := false)]);
    FlagHeads(p, v, p', v, b, false);
  }

  lemma LoopFacts(p: Pool, v: View, ls: seq<seq<nat>>)
    requires Inv(p, v, ls, {})
    ensures |p.lists| == MAX_ORDER + 1
  {
    ListFacts(p, v, ls, {}, 0);
  }

  lemma HeldHead(p: Pool, v: View, ls: seq<seq<nat>>, b: nat)
    requires Inv(p, v, ls, {b})
    ensures b < |p.heads| && b in v.order && p.heads[b].order == v.order[b] && |p.heads| == |v.owner|
  {
    hide Tiled, Canonical, Family, ListsOk;
    assert HeadOk(p, v, {b}, b);
  }

  lemma OwnerSize(p: Pool, v: View, ls: seq<seq<nat>>, held: set<nat>, p': Pool, v': View, ls': seq<seq<nat>>,
        held': set<nat>)
    requires Inv(p, v, ls, held) && Inv(p', v', ls', held') && |p.heads| == |p'.heads|
    ensures |v'.owner| == |v.owner|
  {
    hide Tiled, Canonical, Rep;
  }

  lemma AllocNothing(v: View, size: nat, k: nat)
    requires Smallest((size + HEADER) % SIZES, k) && (size == 0 || k > MAX_ORDER)
    ensures Allocated(v, v, size, k, None)
  {
  }

  /** With every list from the target order on empty, no aligned region of that order is wholly free. */
  lemma NoneLeft(p: Pool, v: View, ls: seq<seq<nat>>, size: nat, k: nat)
    requires Inv(p, v, ls, {}) && k <= MAX_ORDER && Smallest((size + HEADER) % SIZES, k) && |p.lists| == MAX_ORDER + 1
    requires forall j | k <= j <= MAX_ORDER :: p.lists[j].None?
    ensures Allocated(v, v, size, k, None)
  {
    hide Tiled, Canonical, Rep, Pow2, Aligned, Smallest;
    forall a: nat | Aligned(a, k) ensures !AllFree(v, a, k) {
      if AllFree(v, a, k) {
        FreeRegion(v, a, k);
        var o := v.owner[a];
        FreeFields(v, a, k);
        OnItsList(p, v, ls, o);
      }
    }
  }

  lemma OnItsList(p: Pool, v: View, ls: seq<seq<nat>>, o: nat)
    requires Inv(p, v, ls, {}) && o in v.free && o in v.order && |p.lists| == MAX_ORDER + 1
    ensures v.order[o] <= MAX_ORDER && p.lists[v.order[o]].Some?
  {
    hide Canonical, Rep;
    ListFacts(p, v, ls, {}, v.order[o]);
    assert o in ByOrder(v, v.order[o]);
  }

  lemma AllocDone(p: Pool, v: View, ls: seq<seq<nat>>, v': View, size: nat, k: nat, b: nat, top: nat)
    requires Inv(p, v, ls, {}) && k <= top && size > 0 && Smallest((size + HEADER) % SIZES, k) && k <= MAX_ORDER
    requires b in v.free && b in v.order && v.order[b] == top && Live(v') == Live(v)[b := k] && KeepsOthers(v, v', b)
    requires forall f | f in v.free && f in v.order :: v.order[f] < k || v.order[f] >= top
    ensures Allocated(v, v', size, k, Some(b))
  {
    hide Canonical, Rep, Pow2, Aligned, Smallest;
    AlignedDown(b, k, top);
    Pow2Monotone(k, top);
    forall u | b <= u < b + Pow2(k) ensures u < |v.owner| && v.owner[u] in v.free { assert Covers(v, b, u); }
    assert AllFree(v, b, k) && Aligned(b, k);
  }

  /** The block holds the requested bytes after its header exactly when the size computation does not wrap. */
  lemma Capacity(size: nat, k: nat)
    requires size < SIZES && Smallest((size + HEADER) % SIZES, k) && k <= MAX_ORDER
    ensures UNIT * Pow2(k) - HEADER >= size <==> size + HEADER < SIZES
  {
    if size + HEADER >= SIZES {
      assert (size + HEADER) % SIZES == size + HEADER - SIZES;
      assert k == 0;
    }
  }

  // Freeing.

  /** The free block b, which holds unit u, is the first on the list of its order. */
  ghost predicate OnTop(p: Pool, v: View, b: nat, u: nat) {
    && b in v.free && b in v.order && v.order[b] < |p.lists| && p.lists[v.order[b]] == Some(b)
    && b <= u < b + Pow2(v.order[b])
  }

  /** Freeing the block at b: a free block is left alone, a live one leaves the live blocks. */
  method Free(p: Pool, ptr: Option<nat>, ghost v: View, ghost ls: seq<seq<nat>>)
    returns (p': Pool, ghost v': View, ghost ls': seq<seq<nat>>)
    requires Inv(p, v, ls, {}) && (ptr.Some? ==> ptr.value in v.order)
    ensures Inv(p', v', ls', {}) && |v'.owner| == |v.owner|
    ensures Live(v') == if ptr.Some? then Live(v) - {ptr.value} else Live(v)
    ensures ptr.None? || ptr.value in v.free ==> p' == p && v' == v
    ensures ptr.Some? && ptr.value !in v.free ==> exists b :: OnTop(p', v', b, ptr.value)
  {
    hide Inv, Rep, Live, AllFree, Aligned, Pow2, Tiled, Mergeable, Buddy, HeadOk;
    p', v', ls' := p, v, ls;
    if ptr.None? { return; }
    var b := ptr.value;
    BlockHead(p, v, ls, {}, b);
    if p.heads[b].magic != MAGIC || p.heads[b].free {
      NotLive(v, b);
      return;
    }
    Hold(p, v, ls, b);
    Pow2Positive(v.order[b]);
    while p'.heads[b].order < MAX_ORDER
      invariant Inv(p', v', ls', {b}) && b < |p'.heads| && |p'.heads| == |p.heads|
      invariant b in v'.order && p'.heads[b].order == v'.order[b]
      invariant Live(v') - {b} == Live(v) - {ptr.value}
      invariant b <= ptr.value < b + Pow2(v'.order[b])
      decreases MAX_ORDER - p'.heads[b].order
    {
      var order := p'.heads[b].order;
      var buddy := Buddy(b, order);
      if buddy >= |p'.heads| {
        NoBuddy(p', v', ls', b);
        break;
      }
      InspectedHead(p', v', ls', b);
      if p'.heads[buddy].magic != MAGIC || !p'.heads[buddy].free || p'.heads[buddy].order != order { break; }
      MergeLive(v', b, buddy, Live(v') - {b});
      b, p', v', ls' := MergeOnce(p', b, buddy, v', ls');
    }
    TopOrder(v', b);
    p', v', ls' := PutBack(p', b, v', ls');
    assert OnTop(p', v', b, ptr.value);
    OwnerSize(p, v, ls, {}, p', v', ls', {});
  }

  lemma BlockHead(p: Pool, v: View, ls: seq<seq<nat>>, held: set<nat>, h: nat)
    requires Inv(p, v, ls, held) && h in v.order
    ensures h < |p.heads| && p.heads[h].magic == MAGIC && p.heads[h].order == v.order[h]
    ensures h !in held ==> p.heads[h].free == (h in v.free)
  {
    hide Tiled, Canonical, Family, ListsOk;
    assert HeadOk(p, v, held, h);
  }

  lemma NotLive(v: View, b: nat)
    requires b in v.free
    ensures Live(v) - {b} == Live(v)
  {
  }

  /** A live block may be held: nothing changes. */
  lemma Hold(p: Pool, v: View, ls: seq<seq<nat>>, b: nat)
    requires Inv(p, v, ls, {}) && b in v.order && b !in v.free
    ensures Inv(p, v, ls, {b})
  {
    hide Tiled, Canonical, Family, ListsOk;
    forall h | h in v.order ensures HeadOk(p, v, {b}, h) { assert HeadOk(p, v, {}, h); }
  }

  lemma NoBuddy(p: Pool, v: View, ls: seq<seq<nat>>, b: nat)
    requires Inv(p, v, ls, {b}) && b in v.order && Buddy(b, v.order[b]) >= |p.heads|
    ensures !Mergeable(v, b)
  {
    hide Canonical, Rep, Buddy;
    if Mergeable(v, b) { Own(v, Buddy(b, v.order[b])); }
  }

  /** The merge test reads the header of a current block, and succeeds exactly when that is a free buddy of the same
      order. */
  lemma InspectedHead(p: Pool, v: View, ls: seq<seq<nat>>, b: nat)
    requires Inv(p, v, ls, {b}) && b in v.order && v.order[b] < MAX_ORDER && Buddy(b, v.order[b]) < |p.heads|
    ensures Buddy(b, v.order[b]) in v.order
    ensures var h := p.heads[Buddy(b, v.order[b])];
            h.magic == MAGIC && (Mergeable(v, b) <==> h.free && h.order == v.order[b])
  {
    hide Canonical, Rep, Pow2, Aligned, Buddy;
    BuddyIsHead(v, b);
    BuddyBack(b, v.order[b]);
    BlockHead(p, v, ls, {b}, Buddy(b, v.order[b]));
  }

  lemma TopOrder(v: View, b: nat)
    ensures b in v.order && v.order[b] >= MAX_ORDER ==> !Mergeable(v, b)
  {
  }

  lemma MergeLive(v: View, b: nat, c: nat, rest: map<nat, nat>)
    requires Mergeable(v, b) && c == Buddy(b, v.order[b]) && rest == Live(v) - {b}
    ensures var b' := if c < b then c else b; (Live(v) - {b})[b' := v.order[b] + 1] - {b'} == rest
  {
    hide Buddy;
  }

  // Initialisation.

  /** The largest order, up to MAX_ORDER, whose blocks fit in n units. */
  function Top(n: nat): (k: nat)
    requires n > 0
    ensures k <= MAX_ORDER && Pow2(k) <= n && (k < MAX_ORDER ==> n < Pow2(k + 1))
  {
    TopFrom(n, MAX_ORDER)
  }

  function TopFrom(n: nat, j: nat): (k: nat)
    requires n > 0
    ensures k <= j && Pow2(k) <= n && (k < j ==> n < Pow2(k + 1))
  {
    if Pow2(j) <= n || j == 0 then j else TopFrom(n, j - 1)
  }

  /** A block of order k may start at unit u: it fits before unit n, and its address is aligned. */
  predicate Room(base: nat, n: nat, u: nat, k: nat) {
    u + Pow2(k) <= n && Aligned(base + u, k)
  }

  /** What kmem_buddy_init lays down: all blocks free, aligned by address, each as large as the rest of the
      pool and its address allow. */
  ghost predicate Greedy(base: nat, n: nat, v: View) {
    && Partition(v) && v.free == v.order.Keys
    && forall h | h in v.order :: Room(base, n, h, v.order[h]) && forall j | v.order[h] < j <= MAX_ORDER ::
        !Room(base, n, h, j)
  }

  /** kmem_buddy_init on n units of arbitrary memory at unit address base. */
  method Init(base: nat, heads: seq<Head>, links: Links) returns (p: Pool, ghost v: View, ghost ls: seq<seq<nat>>)
    requires forall u: nat | u < |heads| :: u in links
    ensures Rep(p, v, ls, {}) && |v.owner| == |p.heads| == |heads| && Greedy(base, |heads|, v)
    ensures forall u: nat | u < |heads| && u !in v.order :: p.heads[u] == heads[u]
  {
    hide Rep, Greedy, Room, Aligned, Pow2;
    var n := |heads|;
    p := Pool(heads, links, seq(MAX_ORDER + 1, _ => None));
    v, ls := View(map[], [], {}), seq(MAX_ORDER + 1, _ => []);
    InitEmpty(base, n, p, v, ls);
    var cur := 0;
    while cur < n
      invariant cur == |v.owner| <= n == |p.heads|
      invariant Rep(p, v, ls, {}) && Greedy(base, n, v)
      invariant forall u: nat | u < n && u !in v.order :: p.heads[u] == heads[u]
      decreases n - cur
    {
      var order: nat := MAX_ORDER;
      while order > 0
        invariant 0 <= order <= MAX_ORDER
        invariant forall j: nat | order < j <= MAX_ORDER :: !Room(base, n, cur, j)
      {
        AlignedMod(base + cur, order);
        RoomMeans(base, n, cur, order);
        if n - cur >= Pow2(order) && (base + cur) % Pow2(order) == 0 { break; }
        order := order - 1;
      }
      RoomMeans(base, n, cur, 0);
      p, v, ls := LayBlock(base, n, p, cur, order, v, ls);
      cur := cur + Pow2(order);
    }
  }

  lemma RoomMeans(base: nat, n: nat, u: nat, k: nat)
    requires u < n
    ensures Room(base, n, u, k) <==> n - u >= Pow2(k) && Aligned(base + u, k)
    ensures k == 0 ==> Room(base, n, u, k)
    ensures Pow2(k) > 0
  {
  }

  lemma InitEmpty(base: nat, n: nat, p: Pool, v: View, ls: seq<seq<nat>>)
    requires v == View(map[], [], {}) && ls == seq(MAX_ORDER + 1, _ => []) && p.lists == seq(MAX_ORDER + 1, _ => None)
    requires forall u: nat | u < |p.heads| :: u in p.links
    ensures Rep(p, v, ls, {}) && Greedy(base, n, v)
  {
    forall k | 0 <= k < |ls| ensures Members(ls[k]) == ByOrder(v, k) { assert ls[k] == []; }
  }

  method LayBlock(base: nat, n: nat, p: Pool, cur: nat, order: nat, ghost v: View, ghost ls: seq<seq<nat>>)
    returns (p': Pool, ghost v': View, ghost ls': seq<seq<nat>>)
    requires cur == |v.owner| < n == |p.heads| && order <= MAX_ORDER && Rep(p, v, ls, {}) && Greedy(base, n, v)
    requires Room(base, n, cur, order) && forall j | order < j <= MAX_ORDER :: !Room(base, n, cur, j)
    ensures |v'.owner| == cur + Pow2(order) <= |p'.heads| == n && Rep(p', v', ls', {}) && Greedy(base, n, v')
    ensures v'.order.Keys == v.order.Keys + {cur} && forall u: nat | u < n && u != cur :: p'.heads[u] == p.heads[u]
  {
    hide Family, ListsOk, HeadOk, Members, Relisted, Pow2, Greedy, Aligned;
    v' := View(v.order[cur := order], v.owner + seq(Pow2(order), _ => cur), v.free + {cur});
    LaidTiles(base, n, v, v', cur, order);
    OffLists(p, v, ls, {}, cur);
    var links, lists;
    links, lists, ls' := Push(p.links, p.lists, order, cur, ls);
    p' := Pool(p.heads[cur := Head(MAGIC, true, order)], links, lists);
    PushLists(v, v', ls, ls', order, cur);
    LaidHeads(p, v, p', v', cur, order);
  }

  lemma LaidTiles(base: nat, n: nat, v: View, v': View, cur: nat, order: nat)
    requires cur == |v.owner| < n && order <= MAX_ORDER && Greedy(base, n, v)
    requires Room(base, n, cur, order) && forall j | order < j <= MAX_ORDER :: !Room(base, n, cur, j)
    requires v' == View(v.order[cur := order], v.owner + seq(Pow2(order), _ => cur), v.free + {cur})
    ensures Greedy(base, n, v') && cur !in v.order && cur !in v.free
    ensures v.free <= v.order.Keys
  {
    hide Pow2, Room, Aligned;
    Pow2Positive(order);
    forall h | h in v.order ensures h + Pow2(v.order[h]) <= cur && h < cur { Pow2Positive(v.order[h]); }
    assert Room(base, n, cur, order) ==> cur + Pow2(order) <= n by { RoomMeans(base, n, cur, order); }
    forall u: nat | u < |v'.owner| ensures Covers(v', v'.owner[u], u) {
      if u < cur { assert Covers(v, v.owner[u], u); }
    }
    forall h, u: nat | Covers(v', h, u) && u < |v'.owner| ensures v'.owner[u] == h {
      if h != cur { assert Covers(v, h, u); }
    }
  }

  lemma Pow2Positive(k: nat)
    ensures Pow2(k) > 0
  {
  }

  lemma LaidHeads(p: Pool, v: View, p': Pool, v': View, cur: nat, order: nat)
    requires forall h {:trigger HeadOk(p, v, {}, h)} | h in v.order :: HeadOk(p, v, {}, h)
    requires cur < |p.heads| && cur !in v.order && p'.heads == p.heads[cur := Head(MAGIC, true, order)]
    requires v'.order == v.order[cur := order] && v'.free == v.free + {cur}
    ensures forall h {:trigger HeadOk(p', v', {}, h)} | h in v'.order :: HeadOk(p', v', {}, h)
  {
    forall h | h in v'.order ensures HeadOk(p', v', {}, h) {
      if h != cur { assert HeadOk(p, v, {}, h); }
    }
  }

  /** init aligns blocks by address, free finds buddies by offset. The result of init is a canonical tiling
      for free exactly when the pool starts at a multiple of the largest block that fits in it. */
  lemma InitExact(base: nat, n: nat, v: View)
    requires Greedy(base, n, v) && |v.owner| == n > 0
    ensures Tiled(v) && Canonical(v) <==> Aligned(base, Top(n))
  {
    hide Greedy, Canonical, Aligned, Pow2, AllFree;
    if Aligned(base, Top(n)) { InitAligned(base, n, v); }
    if Tiled(v) && Canonical(v) { AlignedInit(base, n, v); }
  }

  lemma AlignedInit(base: nat, n: nat, v: View)
    requires Greedy(base, n, v) && |v.owner| == n > 0 && Tiled(v) && Canonical(v)
    ensures Aligned(base, Top(n))
  {
    hide Greedy, Tiled, Canonical, Aligned, Pow2, AllFree;
    var k := Top(n);
    GreedyFree(base, n, v);
    FreeRegion(v, 0, k);
    Corner(v, 0, k);
    GreedyAt(base, n, v, 0);
    AlignedDown(base, k, v.order[0]);
  }

  lemma GreedyFree(base: nat, n: nat, v: View)
    requires Greedy(base, n, v) && |v.owner| == n > 0
    ensures AllFree(v, 0, Top(n)) && Aligned(0, Top(n))
  {
    ZeroAligned(Top(n));
    forall u | 0 <= u < Pow2(Top(n)) ensures v.owner[u] in v.free { assert Covers(v, v.owner[u], u); }
  }

  lemma ZeroAligned(k: nat)
    ensures Aligned(0, k)
  {
  }

  lemma GreedyAt(base: nat, n: nat, v: View, h: nat)
    requires Greedy(base, n, v) && h in v.order
    ensures v.order[h] <= MAX_ORDER && h + Pow2(v.order[h]) <= n && Aligned(base + h, v.order[h])
    ensures forall j | v.order[h] < j <= MAX_ORDER && h + Pow2(j) <= n :: !Aligned(base + h, j)
  {
    hide Pow2, Aligned;
    assert Room(base, n, h, v.order[h]);
    forall j | v.order[h] < j <= MAX_ORDER && h + Pow2(j) <= n ensures !Aligned(base + h, j) {
      assert !Room(base, n, h, j);
    }
  }

  /** Adding a multiple of 2^k does not change whether an address is one. */
  lemma {:induction false} AlignedAdd(b: nat, h: nat, k: nat)
    requires Aligned(b, k)
    ensures Aligned(b + h, k) <==> Aligned(h, k)
    decreases k
  {
    hide Aligned;
    AlignedStep(b, k);
    AlignedStep(h, k);
    AlignedStep(b + h, k);
    if k > 0 {
      HalfAdd(b, h);
      AlignedAdd(b / 2, h / 2, k - 1);
    }
  }

  lemma AlignedStep(u: nat, k: nat)
    ensures k == 0 ==> Aligned(u, k)
    ensures k > 0 ==> (Aligned(u, k) <==> u % 2 == 0 && Aligned(u / 2, k - 1))
  {
  }

  lemma HalfAdd(b: nat, h: nat)
    requires b % 2 == 0
    ensures (b + h) % 2 == h % 2 && (b + h) / 2 == b / 2 + h / 2
  {
  }

  lemma InitAligned(base: nat, n: nat, v: View)
    requires Greedy(base, n, v) && |v.owner| == n > 0 && Aligned(base, Top(n))
    ensures Tiled(v) && Canonical(v)
  {
    hide Pow2, Aligned, Room, Buddy;
    forall h | h in v.order ensures Aligned(h, v.order[h]) {
      GreedyAt(base, n, v, h);
      FitsTop(n, v.order[h]);
      AlignedDown(base, v.order[h], Top(n));
      AlignedAdd(base, h, v.order[h]);
    }
    forall h | h in v.free && v.order[h] < MAX_ORDER && Buddy(h, v.order[h]) in v.free
      ensures v.order[Buddy(h, v.order[h])] != v.order[h]
    {
      if v.order[Buddy(h, v.order[h])] == v.order[h] {
        InitNoBuddies(base, n, v, h);
      }
    }
  }

  lemma FitsTop(n: nat, k: nat)
    requires n > 0 && k <= MAX_ORDER && Pow2(k) <= n
    ensures k <= Top(n)
  {
    var t := Top(n);
    if k > t { Pow2Monotone(t + 1, k); }
  }

  /** Of two equal buddies the left one would have been laid down twice as large. */
  lemma InitNoBuddies(base: nat, n: nat, v: View, h: nat)
    requires Greedy(base, n, v) && |v.owner| == n > 0 && Aligned(base, Top(n)) && h in v.order && v.order[h] < MAX_ORDER
    requires Aligned(h, v.order[h]) && Buddy(h, v.order[h]) in v.order
    ensures v.order[Buddy(h, v.order[h])] != v.order[h]
  {
    hide Aligned, Greedy, Buddy, Pow2;
    var k, c := v.order[h], Buddy(h, v.order[h]);
    var low := BuddyLow(h, k);
    GreedyAt(base, n, v, low);
    GreedyAt(base, n, v, if low == h then c else h);
    if v.order[c] == k {
      FitsTop(n, k + 1);
      AlignedDown(base, k + 1, Top(n));
      AlignedAdd(base, low, k + 1);
    }
  }

  /** The left one of two buddies starts a block of twice the size. */
  lemma BuddyLow(h: nat, k: nat) returns (low: nat)
    requires Aligned(h, k)
    ensures Aligned(low, k + 1) && Pow2(k + 1) == 2 * Pow2(k)
    ensures (low == h && Buddy(h, k) == h + Pow2(k)) || (low == Buddy(h, k) && h == low + Pow2(k))
    ensures low == h <==> Buddy(h, k) != low
  {
    hide Aligned, Buddy;
    BuddyMeans(h, k);
    BuddyBack(h, k);
    low := if Aligned(h, k + 1) then h else h - Pow2(k);
  }

  /** With nothing live the pool is back in the state that init made. */
  lemma BackToStart(v: View, start: View, base: nat)
    requires Greedy(base, |start.owner|, start) && Tiled(start) && Canonical(start)
    requires Tiled(v) && Canonical(v) && |v.owner| == |start.owner| && Live(v) == map[]
    ensures v == start
  {
    hide Tiled, Canonical, Room;
    assert Live(start) == map[];
    UniqueTiling(v, start);
  }

  /** A pool of four pages that starts at the second page. Init lays down blocks of 1, 2 and 1 pages. The buddy
      by offset of the last one is unit 128, the inside of the second block: free reads there, as a header,
      whatever the memory held before. */
  method Misaligned(heads: seq<Head>, links: Links) returns (p: Pool, ghost v: View, ghost ls: seq<seq<nat>>)
    requires |heads| == 256 && forall u: nat | u < |heads| :: u in links
    ensures Rep(p, v, ls, {}) && v.order == map[0 := 6, 64 := 7, 192 := 6] && |v.owner| == |p.heads| == 256
    ensures !(Tiled(v) && Canonical(v))
    ensures p.heads[192] == Head(MAGIC, true, 6) && Buddy(192, 6) == 128 && v.owner[128] == 64
    ensures p.heads[128] == heads[128]
  {
    hide Rep, Greedy, Tiled, Canonical, Aligned, Pow2, Buddy;
    p, v, ls := Init(64, heads, links);
    Page2(v);
    RepHead(p, v, ls, 192);
  }

  lemma RepHead(p: Pool, v: View, ls: seq<seq<nat>>, h: nat)
    requires Rep(p, v, ls, {}) && h in v.order
    ensures h < |p.heads| && p.heads[h] == Head(MAGIC, h in v.free, v.order[h])
  {
    hide Family, ListsOk;
    assert HeadOk(p, v, {}, h);
  }

  lemma Page2(v: View)
    requires Greedy(64, 256, v) && |v.owner| == 256
    ensures v.order == map[0 := 6, 64 := 7, 192 := 6] && v.free == v.order.Keys && v.owner[128] == 64
    ensures !(Tiled(v) && Canonical(v)) && Buddy(192, 6) == 128
  {
    hide Greedy, Tiled, Canonical, Aligned, Pow2, Room;
    Pages();
    GreedyOwn(64, 256, v, 0);
    LaidAt(64, 256, v, 0, 6);
    LaidAt(64, 256, v, 64, 7);
    LaidAt(64, 256, v, 192, 6);
    forall h | h in v.order ensures h in {0, 64, 192} { GreedyOwn(64, 256, v, h); }
    BuddyMeans(192, 6);
    if Tiled(v) && Canonical(v) { InitExact(64, 256, v); }
  }

  lemma Pages()
    ensures Pow2(6) == 64 && Pow2(7) == 128 && Pow2(8) == 256 && Aligned(192, 6) && !Aligned(192, 7)
    ensures Top(256) == 8 && !Aligned(64, 8)
    ensures Room(64, 256, 0, 6) && Room(64, 256, 64, 7) && Room(64, 256, 192, 6)
    ensures forall j | 7 <= j <= MAX_ORDER :: !Room(64, 256, 0, j) && !Room(64, 256, 192, j)
    ensures forall j | 8 <= j <= MAX_ORDER :: !Room(64, 256, 64, j)
  {
    assert Pow2(6) == 64 && Pow2(7) == 128 && Pow2(8) == 256 by { assert Pow2(2) == 4 && Pow2(4) == 16; }
    hide Pow2, Aligned;
    AlignedMod(64, 6);
    AlignedMod(64, 7);
    AlignedMod(64, 8);
    AlignedMod(128, 7);
    AlignedMod(128, 8);
    AlignedMod(192, 6);
    AlignedMod(192, 7);
    AlignedMod(256, 6);
    forall j | 7 <= j <= MAX_ORDER ensures !Room(64, 256, 0, j) && !Room(64, 256, 192, j) {
      if Aligned(64, j) { AlignedDown(64, 7, j); }
      Pow2Monotone(7, j);
    }
    forall j | 8 <= j <= MAX_ORDER ensures !Room(64, 256, 64, j) {
      if Aligned(128, j) { AlignedDown(128, 8, j); }
    }
    FitsTop(256, 8);
    TopEight();
  }

  lemma TopEight()
    requires Pow2(8) == 256
    ensures Top(256) <= 8
  {
    hide Pow2;
    if Top(256) > 8 {
      Pow2Monotone(9, Top(256));
      assert Pow2(9) > 256 by { Pow2Next(8); }
    }
  }

  lemma Pow2Next(k: nat)
    ensures Pow2(k + 1) == 2 * Pow2(k)
  {
  }

  lemma GreedyOwn(base: nat, n: nat, v: View, h: nat)
    requires Greedy(base, n, v) && |v.owner| == n
    ensures h in v.order ==> h < n && v.owner[h] == h
    ensures v.free == v.order.Keys
  {
    if h in v.order {
      Pow2Positive(v.order[h]);
      assert Covers(v, h, h);
    }
  }

  /** Where the blocks before u end, the largest block that has room is laid down. */
  lemma LaidAt(base: nat, n: nat, v: View, u: nat, k: nat)
    requires Greedy(base, n, v) && |v.owner| == n > u && k <= MAX_ORDER && Room(base, n, u, k)
    requires forall j | k < j <= MAX_ORDER :: !Room(base, n, u, j)
    requires u == 0 || exists h :: h in v.order && h + Pow2(v.order[h]) == u
    ensures u in v.order && v.order[u] == k
    ensures forall w: nat | u <= w < u + Pow2(k) :: w < n && v.owner[w] == u
  {
    hide Room, Aligned, Pow2;
    var o := v.owner[u];
    assert Covers(v, o, u);
    if u > 0 {
      var h: nat :| h in v.order && h + Pow2(v.order[h]) == u;
      Pow2Positive(v.order[h]);
      assert Covers(v, h, u - 1);
      assert o < u ==> Covers(v, o, u - 1);
    }
    assert Room(base, n, u, v.order[u]);
    assert v.order[u] == k;
    forall w: nat | u <= w < u + Pow2(k) ensures w < n && v.owner[w] == u { assert Covers(v, u, w); }
  }

  // The allocator as an object.

  /** Every run of Malloc, Release and writes to live blocks keeps the pool a canonical tiling. */
  class Allocator {
    var pool: Pool
    ghost var view: View
    ghost var lists: seq<seq<nat>>
    ghost const base: nat
    ghost const start: View

    ghost predicate Valid()
      reads this
    {
      && Inv(pool, view, lists, {}) && |view.owner| == |start.owner|
      && Greedy(base, |start.owner|, start) && Tiled(start) && Canonical(start)
    }

    constructor (at: nat, heads: seq<Head>, links: Links)
      requires forall u: nat | u < |heads| :: u in links
      requires |heads| > 0 ==> Aligned(at, Top(|heads|))
      ensures Valid() && view == start && base == at && Live(view) == map[] && |view.owner| == |heads|
    {
      hide Rep, Greedy, Canonical, Live, Aligned;
      var p;
      ghost var v, ls;
      p, v, ls := Init(at, heads, links);
      if |heads| > 0 { InitExact(at, |heads|, v); } else { NoUnits(at, v); }
      GreedyLive(at, |heads|, v);
      pool, view, lists, base, start := p, v, ls, at, v;
    }

    method Malloc(size: nat) returns (r: Option<nat>, ghost k: nat)
      requires Valid() && size < SIZES
      modifies this
      ensures Valid() && Allocated(old(view), view, size, k, r)
    {
      hide Rep, Greedy, Tiled, Canonical, Allocated;
      ghost var v, ls;
      var p;
      r, p, v, ls, k := Alloc(pool, size, view, lists);
      pool, view, lists := p, v, ls;
    }

    /** Releasing the last live block brings the free lists back to what init made. */
    method Release(ptr: Option<nat>)
      requires Valid() && (ptr.Some? ==> ptr.value in view.order)
      modifies this
      ensures Valid() && Live(view) == if ptr.Some? then old(Live(view)) - {ptr.value} else old(Live(view))
      ensures Live(view) == map[] ==> view == start
      ensures ptr.Some? && ptr.value !in old(view.free) ==> exists b :: OnTop(pool, view, b, ptr.value)
    {
      hide Rep, Greedy, Tiled, Canonical, Live, OnTop;
      ghost var v, ls;
      var p;
      p, v, ls := Free(pool, ptr, view, lists);
      pool, view, lists := p, v, ls;
      if Live(view) == map[] { BackToStart(view, start, base); }
    }

    /** The owner of a live block writes anything into it, past its header. */
    method Scribble(b: nat, u: nat, head: Head, link: Link)
      requires Valid() && b in Live(view) && b < u < b + Pow2(view.order[b])
      modifies this
      ensures Valid() && view == old(view) && u < |pool.heads| && u in pool.links
      ensures pool == old(pool).(heads := pool.heads, links := pool.links)
      ensures pool.heads == old(pool).heads[u := head] && pool.links == old(pool).links[u := link]
    {
      hide Rep, Greedy, Tiled, Canonical;
      UserUnit(view, b, u);
      ghost var before := pool;
      assert u < |pool.heads|;
      pool := pool.(heads := pool.heads[u := head], links := pool.links[u := link]);
      Scribbled(before, pool, view, lists, u);
    }
  }

  lemma NoUnits(base: nat, v: View)
    requires Greedy(base, 0, v) && |v.owner| == 0
    ensures Tiled(v) && Canonical(v)
  {
  }

  lemma GreedyLive(base: nat, n: nat, v: View)
    requires Greedy(base, n, v)
    ensures Live(v) == map[]
  {
  }

  lemma UserUnit(v: View, b: nat, u: nat)
    requires Tiled(v) && b in v.order && b < u < b + Pow2(v.order[b])
    ensures u < |v.owner| && u !in v.order && u !in v.free
  {
    assert Covers(v, b, u);
    if u in v.order { Own(v, u); }
  }

  lemma Scribbled(p: Pool, p': Pool, v: View, ls: seq<seq<nat>>, u: nat)
    requires Inv(p, v, ls, {}) && u < |p.heads| && u !in v.order && u !in v.free
    requires p'.lists == p.lists && |p'.heads| == |p.heads| && forall i | 0 <= i < |p.heads| && i != u ::
        p'.heads[i] == p.heads[i]
    requires p.links.Keys <= p'.links.Keys && forall i | i in p.links && i != u :: p'.links[i] == p.links[i]
    ensures Inv(p', v, ls, {})
  {
    hide Tiled, Canonical, Family, ListsOk;
    OffLists(p, v, ls, {}, u);
    FamilyFrame(p.links, p'.links, p.lists, ls);
    forall h | h in v.order ensures HeadOk(p', v, {}, h) { assert HeadOk(p, v, {}, h); }
  }
}
