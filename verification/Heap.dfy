/** The first-fit kernel heap: a linked list of headers in address order, back pointers before each
    payload, and running statistics. */
module Heap {
  import opened Options
  import opened Arith
  import opened Bits
  import opened HeapBlocks

  const MAGIC: nat := 0xC001C0DE
  const MIN_BLOCK: nat := 32
  const WORD: nat := 8
  const SIZES: nat := 0x1_0000_0000_0000_0000

  datatype Header = Header(magic: nat, free: bool, size: nat, next: Option<nat>, prev: Option<nat>)
  datatype Stats = Stats(total: nat, free: nat, used: nat, count: nat)

  /** Memory as the heap uses it: what reads as a header at an address, and the block pointer that lies
      just before a payload address. Only headers of current blocks and pointers of live payloads matter. */
  datatype Heap = Heap(start: nat, hdr: map<nat, Header>, back: map<nat, nat>, stats: Stats)

  function AddrAt(bl: seq<Block>, i: int): Option<nat> {
    if 0 <= i < |bl| then Some(bl[i].addr) else None
  }

  function HeaderOf(bl: seq<Block>, i: nat): Header
    requires i < |bl|
  {
    Header(MAGIC, bl[i].free, bl[i].size, AddrAt(bl, i + 1), AddrAt(bl, i - 1))
  }

  /** The headers spell out the blocks, forwards and backwards. */
  ghost predicate Linked(hdr: map<nat, Header>, bl: seq<Block>) {
    forall i | 0 <= i < |bl| :: bl[i].addr in hdr && hdr[bl[i].addr] == HeaderOf(bl, i)
  }

  ghost predicate Rep(h: Heap, bl: seq<Block>) {
    && Tiled(bl, h.start, h.start + h.stats.total) && Linked(h.hdr, bl)
    && h.stats.count == |bl| && h.stats.free == FreeBytes(bl) && h.stats.used == UsedBytes(bl)
  }

  /** The two counters always add up to the heap. */
  lemma StatsTotal(h: Heap, bl: seq<Block>)
    requires Rep(h, bl)
    ensures h.stats.free + h.stats.used == h.stats.total
  {
    BytesTotal(bl, h.start, h.start + h.stats.total);
  }

  lemma HeaderAt(h: Heap, bl: seq<Block>, i: nat)
    requires Rep(h, bl) && i < |bl|
    ensures bl[i].addr in h.hdr && h.hdr[bl[i].addr] == HeaderOf(bl, i)
  {
  }

  /** kheap_init on memory with arbitrary contents. */
  method Init(start: nat, total: nat, hdr: map<nat, Header>, back: map<nat, nat>)
    returns (h: Heap, ghost bl: seq<Block>)
    requires total >= HEADER
    ensures Rep(h, bl) && bl == [Block(start, total - HEADER, true)] && Calm(bl) && h.start == start
    ensures h.stats.total == total
  {
    h := Heap(start, hdr[start := Header(MAGIC, true, total - HEADER, None, None)], back,
        Stats(total, total - HEADER, HEADER, 1));
    bl := [Block(start, total - HEADER, true)];
    BytesOne(bl[0]);
  }

  // Splitting.

  lemma {:induction false} CutLinked(bl: seq<Block>, i: nat, size: nat, hdr': map<nat, Header>)
    requires i < |bl| && size + HEADER <= bl[i].size
    requires forall k | 0 <= k < |bl| && k != i && k != i + 1 ::
        bl[k].addr in hdr' && hdr'[bl[k].addr] == HeaderOf(bl, k)
    requires var c := bl[i].addr + HEADER + size;
             && bl[i].addr in hdr' && hdr'[bl[i].addr] == HeaderOf(bl, i).(size := size, next := Some(c))
             && c in hdr'
             && hdr'[c] == Header(MAGIC, true, bl[i].size - size - HEADER, AddrAt(bl, i + 1), Some(bl[i].addr))
             && (i + 1 < |bl| ==>
                   bl[i + 1].addr in hdr' && hdr'[bl[i + 1].addr] == HeaderOf(bl, i + 1).(prev := Some(c)))
    ensures Linked(hdr', Cut(bl, i, size))
  {
    var t := Cut(bl, i, size);
    forall k | 0 <= k < |t| ensures t[k].addr in hdr' && hdr'[t[k].addr] == HeaderOf(t, k) {
      if k < i {
        assert hdr'[bl[k].addr] == HeaderOf(bl, k);
      } else if k > i + 2 {
        assert hdr'[bl[k - 1].addr] == HeaderOf(bl, k - 1);
      }
    }
  }

  /** Addresses of other blocks differ from that of block i and lie outside its body. */
  lemma Elsewhere(bl: seq<Block>, start: nat, end: nat, i: nat, k: nat)
    requires Tiled(bl, start, end) && i < |bl| && k < |bl| && k != i
    ensures bl[k].addr < bl[i].addr || EndOf(bl[i]) <= bl[k].addr
  {
    if k < i { Ordered(bl, start, end, k, i); } else { Ordered(bl, start, end, i, k); }
  }

  method SplitBlock(h: Heap, a: nat, size: nat, ghost bl: seq<Block>, ghost i: nat)
    returns (h': Heap, ghost bl': seq<Block>)
    requires Rep(h, bl) && i < |bl| && bl[i].addr == a && bl[i].free && size <= bl[i].size
    ensures bl' == (if bl[i].size <= size + HEADER + MIN_BLOCK then bl else Cut(bl, i, size))
    ensures Rep(h', bl') && h'.start == h.start && h'.back == h.back && h'.stats.total == h.stats.total
  {
    hide Rep, Cut;
    HeadFields(h, bl, i);
    var block := h.hdr[a];
    if block.size <= size + HEADER + MIN_BLOCK { return h, bl; }
    var c := a + HEADER + size;
    NextHead(h, bl, i, c);
    var hdr := h.hdr[c := Header(MAGIC, true, block.size - size - HEADER, block.next, Some(a))];
    if block.next.Some? {
      hdr := hdr[block.next.value := hdr[block.next.value].(prev := Some(c))];
    }
    hdr := hdr[a := block.(next := Some(c), size := size)];
    bl' := Cut(bl, i, size);
    SplitLinked(h, bl, i, size, hdr);
    CutFits(h, bl, i, size);
    h' := h.(hdr := hdr, stats := Stats(h.stats.total, h.stats.free - HEADER, h.stats.used + HEADER,
        h.stats.count + 1));
    CutRep(h, bl, i, size, h');
  }

  lemma HeadFields(h: Heap, bl: seq<Block>, i: nat)
    requires Rep(h, bl) && i < |bl|
    ensures bl[i].addr in h.hdr && h.hdr[bl[i].addr].size == bl[i].size && h.hdr[bl[i].addr].next == AddrAt(bl, i + 1)
  {
    hide Rep;
    HeaderAt(h, bl, i);
  }

  /** The next header is another one, and no header lies inside block i. */
  lemma NextHead(h: Heap, bl: seq<Block>, i: nat, c: nat)
    requires Rep(h, bl) && i < |bl| && bl[i].addr < c < EndOf(bl[i])
    ensures i + 1 < |bl| ==> bl[i + 1].addr in h.hdr && bl[i + 1].addr != bl[i].addr && bl[i + 1].addr != c
    ensures forall k | 0 <= k < |bl| :: bl[k].addr != c
  {
    hide FreeBytes, UsedBytes, Tiled, Linked;
    if i + 1 < |bl| { HeaderAt(h, bl, i + 1); }
    forall k: nat | k < |bl| && k != i ensures bl[k].addr != c && bl[k].addr != bl[i].addr {
      Elsewhere(bl, h.start, h.start + h.stats.total, i, k);
    }
  }

  /** Headers after a split: the block ends at the new header, which the next one points back to. */
  lemma SplitLinked(h: Heap, bl: seq<Block>, i: nat, size: nat, hdr: map<nat, Header>)
    requires Rep(h, bl) && i < |bl| && size + HEADER < bl[i].size && bl[i].addr in h.hdr
    requires var a, c, block := bl[i].addr, bl[i].addr + HEADER + size, h.hdr[bl[i].addr];
             && a in hdr && hdr[a] == block.(next := Some(c), size := size)
             && c in hdr && block.size == bl[i].size
             && hdr[c] == Header(MAGIC, true, block.size - size - HEADER, block.next, Some(a))
             && (i + 1 < |bl| ==>
                   && bl[i + 1].addr in h.hdr && bl[i + 1].addr in hdr
                   && hdr[bl[i + 1].addr] == h.hdr[bl[i + 1].addr].(prev := Some(c)))
             && forall x | x in h.hdr && x != c && x != a && (i + 1 < |bl| ==> x != bl[i + 1].addr) ::
                  x in hdr && hdr[x] == h.hdr[x]
    ensures Linked(hdr, Cut(bl, i, size))
  {
    hide FreeBytes, UsedBytes, Tiled, Linked, Cut;
    var c := bl[i].addr + HEADER + size;
    HeaderAt(h, bl, i);
    if i + 1 < |bl| { HeaderAt(h, bl, i + 1); }
    NextHead(h, bl, i, c);
    OtherHeads(h, bl, i, c, hdr);
    CutLinked(bl, i, size, hdr);
  }

  lemma CutFits(h: Heap, bl: seq<Block>, i: nat, size: nat)
    requires Rep(h, bl) && i < |bl| && bl[i].free && size + HEADER <= bl[i].size
    ensures h.stats.free >= HEADER
  {
    hide Tiled, Linked, FreeBytes, UsedBytes;
    CutBytes(bl, i, size);
  }

  lemma CutRep(h: Heap, bl: seq<Block>, i: nat, size: nat, h': Heap)
    requires Rep(h, bl) && i < |bl| && bl[i].free && size + HEADER <= bl[i].size && h.stats.free >= HEADER
    requires h'.start == h.start && Linked(h'.hdr, Cut(bl, i, size))
    requires h'.stats == Stats(h.stats.total, h.stats.free - HEADER, h.stats.used + HEADER, h.stats.count + 1)
    ensures Rep(h', Cut(bl, i, size))
  {
    hide Tiled, Linked, FreeBytes, UsedBytes, HeaderOf;
    CutBytes(bl, i, size);
    CutTiled(bl, h.start, h.start + h.stats.total, i, size);
  }

  lemma OtherHeads(h: Heap, bl: seq<Block>, i: nat, c: nat, hdr: map<nat, Header>)
    requires Rep(h, bl) && i < |bl| && forall k | 0 <= k < |bl| && k != i :: bl[k].addr != c
    requires forall x | x in h.hdr && x != c && x != bl[i].addr && (i + 1 < |bl| ==> x != bl[i + 1].addr) ::
        x in hdr && hdr[x] == h.hdr[x]
    ensures forall k | 0 <= k < |bl| && k != i && k != i + 1 ::
        bl[k].addr in hdr && hdr[bl[k].addr] == HeaderOf(bl, k)
  {
    hide FreeBytes, UsedBytes, Tiled, Linked;
    forall k | 0 <= k < |bl| && k != i && k != i + 1
      ensures bl[k].addr in h.hdr && bl[k].addr in hdr && hdr[bl[k].addr] == HeaderOf(bl, k)
    {
      HeaderAt(h, bl, k);
      Elsewhere(bl, h.start, h.start + h.stats.total, i, k);
      if i + 1 < |bl| { Elsewhere(bl, h.start, h.start + h.stats.total, i + 1, k); }
    }
  }

  // The free flag.

  lemma FlagLinked(hdr: map<nat, Header>, bl: seq<Block>, start: nat, end: nat, i: nat, free: bool, hdr': map<nat,
        Header>)
    requires Tiled(bl, start, end) && Linked(hdr, bl) && i < |bl|
    requires hdr' == hdr[bl[i].addr := HeaderOf(bl, i).(free := free)]
    ensures Linked(hdr', Flagged(bl, i, free))
  {
    hide Tiled;
    var t := Flagged(bl, i, free);
    forall k | 0 <= k < |t| ensures t[k].addr in hdr' && hdr'[t[k].addr] == HeaderOf(t, k) {
      if k != i { Elsewhere(bl, start, end, i, k); }
      assert hdr[bl[k].addr] == HeaderOf(bl, k);
    }
  }

  method SetFree(h: Heap, a: nat, free: bool, ghost bl: seq<Block>, ghost i: nat) returns (h': Heap)
    requires Rep(h, bl) && i < |bl| && bl[i].addr == a && bl[i].free != free
    ensures Rep(h', Flagged(bl, i, free)) && h'.start == h.start && h'.back == h.back && h'.stats.total == h.stats.total
  {
    hide Tiled, FreeBytes, UsedBytes, Linked;
    HeaderAt(h, bl, i);
    FlaggedBytes(bl, i, free);
    FlaggedTiled(bl, h.start, h.start + h.stats.total, i, free);
    var hdr := h.hdr[a := h.hdr[a].(free := free)];
    FlagLinked(h.hdr, bl, h.start, h.start + h.stats.total, i, free, hdr);
    var size := h.hdr[a].size;
    h' := h.(hdr := hdr,
             stats := if free then Stats(h.stats.total, h.stats.free + size, h.stats.used - size, h.stats.count)
                      else Stats(h.stats.total, h.stats.free - size, h.stats.used + size, h.stats.count));
  }

  // Joining.

  lemma JoinLinked(hdr: map<nat, Header>, bl: seq<Block>, i: nat, hdr': map<nat, Header>)
    requires Linked(hdr, bl) && i + 1 < |bl|
    requires forall k | 0 <= k < |bl| && k != i && k != i + 1 && k != i + 2 ::
        bl[k].addr in hdr' && hdr'[bl[k].addr] == hdr[bl[k].addr]
    requires bl[i].addr in hdr'
    requires hdr'[bl[i].addr] == HeaderOf(bl, i).(size := bl[i].size + HEADER + bl[i + 1].size,
        next := AddrAt(bl, i + 2))
    requires i + 2 < |bl| ==>
        bl[i + 2].addr in hdr' && hdr'[bl[i + 2].addr] == HeaderOf(bl, i + 2).(prev := Some(bl[i].addr))
    ensures Linked(hdr', Joined(bl, i))
  {
    var t := Joined(bl, i);
    forall k | 0 <= k < |t| ensures t[k].addr in hdr' && hdr'[t[k].addr] == HeaderOf(t, k) {
      if k < i {
        assert hdr[bl[k].addr] == HeaderOf(bl, k);
      } else if k > i + 1 {
        assert hdr[bl[k + 1].addr] == HeaderOf(bl, k + 1);
      }
    }
  }

  /** Block a takes over its free successor: sizes, links and counters. */
  method JoinNext(h: Heap, a: nat, ghost bl: seq<Block>, ghost i: nat) returns (h': Heap)
    requires Rep(h, bl) && i + 1 < |bl| && bl[i].addr == a && bl[i].free && bl[i + 1].free
    ensures Rep(h', Joined(bl, i)) && h'.start == h.start && h'.back == h.back && h'.stats.total == h.stats.total
  {
    hide Tiled, FreeBytes, UsedBytes, Linked;
    HeaderAt(h, bl, i);
    HeaderAt(h, bl, i + 1);
    if i + 2 < |bl| { HeaderAt(h, bl, i + 2); Elsewhere(bl, h.start, h.start + h.stats.total, i, i + 2); }
    var block := h.hdr[a];
    var next := h.hdr[block.next.value];
    var hdr := h.hdr[a := block.(size := block.size + HEADER + next.size, next := next.next)];
    if next.next.Some? {
      hdr := hdr[next.next.value := hdr[next.next.value].(prev := Some(a))];
    }
    JoinHeads(h, bl, i, hdr);
    JoinLinked(h.hdr, bl, i, hdr);
    JoinedBytes(bl, i);
    JoinedTiled(bl, h.start, h.start + h.stats.total, i);
    h' := h.(hdr := hdr, stats := Stats(h.stats.total, h.stats.free + HEADER, h.stats.used - HEADER,
        h.stats.count - 1));
  }

  lemma JoinHeads(h: Heap, bl: seq<Block>, i: nat, hdr: map<nat, Header>)
    requires Rep(h, bl) && i + 1 < |bl|
    requires forall x | x in h.hdr && x != bl[i].addr && (i + 2 < |bl| ==> x != bl[i + 2].addr) ::
        x in hdr && hdr[x] == h.hdr[x]
    ensures forall k | 0 <= k < |bl| && k != i && k != i + 1 && k != i + 2 ::
        bl[k].addr in hdr && hdr[bl[k].addr] == h.hdr[bl[k].addr]
  {
    hide FreeBytes, UsedBytes, Tiled, Linked;
    forall k | 0 <= k < |bl| && k != i && k != i + 1 && k != i + 2
      ensures bl[k].addr in h.hdr && bl[k].addr in hdr && hdr[bl[k].addr] == h.hdr[bl[k].addr]
    {
      HeaderAt(h, bl, k);
      Elsewhere(bl, h.start, h.start + h.stats.total, i, k);
      if i + 2 < |bl| { Elsewhere(bl, h.start, h.start + h.stats.total, i + 2, k); }
    }
  }

  // Allocation.

  /** What khmalloc asks of a block: the size rounded up to 8, and room for the back pointer, in 64-bit arithmetic. */
  function Required(size: nat): nat {
    ((size + 7) % SIZES / 8 * 8 + WORD) % SIZES
  }

  /** The computation leaves room for the request exactly when it does not wrap. */
  lemma RequiredExact(size: nat)
    requires size < SIZES
    ensures Required(size) >= size + WORD <==> size + 16 <= SIZES
    ensures size + 16 <= SIZES ==> Required(size) < size + WORD + 8 && Required(size) % 8 == 0
  {
  }

  predicate Fits(b: Block, need: nat) {
    b.free && b.size >= need
  }

  /** The first block that fits was taken, cut if enough is left over. */
  ghost predicate TookAt(bl: seq<Block>, bl': seq<Block>, i: nat, need: nat) {
    && i < |bl| && bl[i].free && bl[i].size >= need && (forall k | 0 <= k < i :: !(bl[k].free && bl[k].size >= need))
    && bl' == Flagged(if bl[i].size <= need + HEADER + MIN_BLOCK then bl else Cut(bl, i, need), i, false)
  }

  /** khmalloc without the claim: the address of the block, its header and the list. */
  method Take(h: Heap, need: nat, ghost bl: seq<Block>)
    returns (r: Option<nat>, h': Heap, ghost bl': seq<Block>, ghost i: nat)
    requires Rep(h, bl) && Calm(bl)
    ensures Rep(h', bl') && Calm(bl') && h'.start == h.start && h'.stats.total == h.stats.total && h'.back == h.back
    ensures r.None? ==> bl' == bl && h' == h && forall k | 0 <= k < |bl| :: !(bl[k].free && bl[k].size >= need)
    ensures r.Some? ==> TookAt(bl, bl', i, need) && r.value == bl[i].addr
  {
    hide Tiled, FreeBytes, UsedBytes, Linked;
    Nonempty(h, bl);
    HeaderAt(h, bl, 0);
    h', bl' := h, bl;
    r := None;
    i := 0;
    var cur := Some(h.start);
    while cur.Some?
      invariant i <= |bl| && cur == AddrAt(bl, i)
      invariant forall k | 0 <= k < i :: !(bl[k].free && bl[k].size >= need)
      decreases |bl| - i
    {
      HeaderAt(h, bl, i);
      var block := h.hdr[cur.value];
      if block.free && block.size >= need {
        h', bl' := SplitBlock(h, cur.value, need, bl, i);
        h' := SetFree(h', cur.value, false, bl', i);
        CutCalm(bl, i, need, bl');
        bl' := Flagged(bl', i, false);
        r := cur;
        return;
      }
      cur := block.next;
      i := i + 1;
    }
  }

  lemma Nonempty(h: Heap, bl: seq<Block>)
    requires Rep(h, bl)
    ensures |bl| > 0 && bl[0].addr == h.start
  {
  }

  lemma CutCalm(bl: seq<Block>, i: nat, need: nat, t: seq<Block>)
    requires Calm(bl) && i < |bl| && bl[i].free && (t == bl || (need + HEADER <= bl[i].size && t == Cut(bl, i, need)))
    ensures i < |t| && Calm(Flagged(t, i, false))
  {
    var u := Flagged(t, i, false);
    forall k | 0 <= k < |u| - 1 ensures !(u[k].free && u[k + 1].free) {
      if t == bl {
        assert !(bl[k].free && bl[k + 1].free);
      } else if k < i {
        assert !(bl[k].free && bl[k + 1].free);
      } else if k > i {
        assert !(bl[k - 1].free && bl[k].free);
      }
    }
  }

  // Claims: the live payloads.

  /** Payload: the block that holds it, the size of that block, and how many bytes were asked for. */
  datatype Claim = Claim(block: nat, size: nat, bytes: nat)

  ghost predicate ClaimOk(back: map<nat, nat>, bl: seq<Block>, p: nat, c: Claim) {
    && Block(c.block, c.size, false) in bl && p in back && back[p] == c.block
    && c.block + HEADER + WORD <= p && p + c.bytes <= c.block + HEADER + c.size
  }

  /** Each live payload lies in a used block of its own, behind its back pointer; every used block has one. */
  ghost predicate Claims(back: map<nat, nat>, bl: seq<Block>, live: map<nat, Claim>) {
    && (forall p | p in live :: ClaimOk(back, bl, p, live[p]))
    && (forall p, q | p in live && q in live && p != q :: live[p].block != live[q].block)
    && (forall b | b in bl && !b.free :: exists p :: p in live && live[p].block == b.addr)
  }

  ghost predicate HeapOk(h: Heap, bl: seq<Block>, live: map<nat, Claim>) {
    Rep(h, bl) && Calm(bl) && Claims(h.back, bl, live)
  }

  /** Live payloads, with their back pointers, never overlap. */
  lemma DisjointPayloads(h: Heap, bl: seq<Block>, live: map<nat, Claim>, p: nat, q: nat)
    requires HeapOk(h, bl, live) && p in live && q in live && p != q
    ensures p + live[p].bytes <= q - WORD || q + live[q].bytes <= p - WORD
  {
    hide FreeBytes, UsedBytes, Linked;
    assert ClaimOk(h.back, bl, p, live[p]) && ClaimOk(h.back, bl, q, live[q]);
    var i: nat :| i < |bl| && bl[i] == Block(live[p].block, live[p].size, false);
    var j: nat :| j < |bl| && bl[j] == Block(live[q].block, live[q].size, false);
    Elsewhere(bl, h.start, h.start + h.stats.total, i, j);
    Elsewhere(bl, h.start, h.start + h.stats.total, j, i);
  }

  /** When nothing is live the heap is one free block again. */
  lemma NothingLive(h: Heap, bl: seq<Block>, live: map<nat, Claim>)
    requires HeapOk(h, bl, live) && live == map[]
    ensures h.stats.total >= HEADER && bl == [Block(h.start, h.stats.total - HEADER, true)]
  {
    forall b | b in bl ensures b.free {}
    AllFree(bl, h.start, h.start + h.stats.total);
  }

  /** The used blocks before and after one block was taken. */
  lemma TookUsed(bl: seq<Block>, bl': seq<Block>, i: nat, need: nat)
    requires TookAt(bl, bl', i, need)
    ensures i < |bl| && Fits(bl[i], need) && i < |bl'| && !bl'[i].free && bl'[i].addr == bl[i].addr
    ensures need <= bl'[i].size && bl'[i] in bl'
    ensures forall b: Block | b in bl && !b.free :: b in bl'
    ensures forall b: Block | b in bl' && !b.free && b != bl'[i] :: b in bl
  {
    var t := if bl[i].size <= need + HEADER + MIN_BLOCK then bl else Cut(bl, i, need);
    if t != bl { CutUsed(bl, i, need); }
    UsedFlag(t, i, bl');
  }

  lemma UsedFlag(t: seq<Block>, i: nat, u: seq<Block>)
    requires i < |t| && t[i].free && u == Flagged(t, i, false)
    ensures |u| == |t| && u[i] == t[i].(free := false) && u[i] in u
    ensures forall b: Block | b in t && !b.free :: b in u
    ensures forall b: Block | b in u && !b.free && b != u[i] :: b in t
  {
    forall b: Block | b in t && !b.free ensures b in u {
      var k :| 0 <= k < |t| && t[k] == b;
      assert u[k] == b;
    }
    forall b: Block | b in u && !b.free && b != u[i] ensures b in t {
      var k :| 0 <= k < |u| && u[k] == b;
      assert b == t[k];
    }
  }

  /** Cutting a free block changes no used block. */
  lemma CutUsed(bl: seq<Block>, i: nat, need: nat)
    requires i < |bl| && bl[i].free && need + HEADER <= bl[i].size
    ensures forall b: Block | !b.free :: b in bl <==> b in Cut(bl, i, need)
  {
    var t := Cut(bl, i, need);
    forall b: Block | !b.free ensures b in bl <==> b in t {
      if b in bl { var k :| 0 <= k < |bl| && bl[k] == b; assert t[if k < i then k else k + 1] == b; }
      if b in t { var k :| 0 <= k < |t| && t[k] == b; assert bl[if k < i then k else k - 1] == b; }
    }
  }

  /** A new payload p in the block that was taken. */
  lemma NewClaim(h: Heap, bl: seq<Block>, live: map<nat, Claim>, bl': seq<Block>, back': map<nat, nat>, i: nat,
        need: nat, p: nat, n: nat, live': map<nat, Claim>)
    requires HeapOk(h, bl, live) && TookAt(bl, bl', i, need)
    requires bl[i].addr + HEADER + WORD <= p && p + n <= bl[i].addr + HEADER + need
    requires p in back' && back'[p] == bl[i].addr && forall q | q in live :: q in back' && back'[q] == h.back[q]
    requires i < |bl'| && live' == live[p := Claim(bl[i].addr, bl'[i].size, n)]
    ensures p !in live && Claims(back', bl', live')
  {
    hide Rep, TookAt, Calm, ClaimOk;
    TookUsed(bl, bl', i, need);
    Outside(h, bl, live, i, need, p, n);
    forall q | q in live' ensures ClaimOk(back', bl', q, live'[q]) {
      if q != p { ClaimMoves(h.back, back', bl, bl', q, live[q]); } else { ClaimHere(back', bl', i, p, live'[p]); }
    }
    forall b | b in bl' && !b.free ensures exists q :: q in live' && live'[q].block == b.addr {
      if b == bl'[i] {
        assert live'[p].block == b.addr;
      } else {
        assert b in bl;
        var q :| q in live && live[q].block == b.addr;
        assert live'[q].block == b.addr;
      }
    }
  }

  lemma ClaimMoves(back: map<nat, nat>, back': map<nat, nat>, bl: seq<Block>, bl': seq<Block>, q: nat, c: Claim)
    requires ClaimOk(back, bl, q, c) && q in back' && back'[q] == back[q]
    requires Block(c.block, c.size, false) in bl ==> Block(c.block, c.size, false) in bl'
    ensures ClaimOk(back', bl', q, c)
  {
  }

  lemma ClaimHere(back: map<nat, nat>, bl: seq<Block>, i: nat, p: nat, c: Claim)
    requires i < |bl| && bl[i] == Block(c.block, c.size, false) && p in back && back[p] == c.block
    requires c.block + HEADER + WORD <= p && p + c.bytes <= c.block + HEADER + c.size
    ensures ClaimOk(back, bl, p, c)
  {
  }

  /** No live payload is in a free block. */
  lemma Outside(h: Heap, bl: seq<Block>, live: map<nat, Claim>, i: nat, need: nat, p: nat, n: nat)
    requires HeapOk(h, bl, live) && i < |bl| && Fits(bl[i], need) && bl[i].addr + HEADER + WORD <= p
    requires p + n <= bl[i].addr + HEADER + need
    ensures p !in live && forall q | q in live :: live[q].block != bl[i].addr
  {
    hide Linked, FreeBytes, UsedBytes, Calm;
    forall q | q in live ensures q != p && live[q].block != bl[i].addr {
      assert ClaimOk(h.back, bl, q, live[q]);
      var j: nat :| j < |bl| && bl[j] == Block(live[q].block, live[q].size, false);
      Elsewhere(bl, h.start, h.start + h.stats.total, i, j);
      Elsewhere(bl, h.start, h.start + h.stats.total, j, i);
    }
  }

  /** khmalloc up to the claim: take a block and store its address before the plain payload address. */
  method TakeBlock(h: Heap, size: nat, ghost bl: seq<Block>, ghost live: map<nat, Claim>)
    returns (r: Option<nat>, h': Heap, ghost bl': seq<Block>, ghost i: nat)
    requires HeapOk(h, bl, live)
    ensures Rep(h', bl') && Calm(bl') && h'.start == h.start && h'.stats.total == h.stats.total
    ensures r.None? ==> bl' == bl && h' == h
    ensures r.None? ==> size == 0 || forall k | 0 <= k < |bl| :: !(bl[k].free && bl[k].size >= Required(size))
    ensures r.Some? ==> size > 0 && TookAt(bl, bl', i, Required(size)) && r.value == bl[i].addr
    ensures r.Some? ==> h'.back == h.back[r.value + HEADER + WORD := r.value]
  {
    hide Rep, Claims, TookAt, Calm, Required, Fits;
    h', bl', r, i := h, bl, None, 0;
    if size == 0 { return; }
    r, h', bl', i := Take(h, Required(size), bl);
    if r.Some? {
      ghost var before := h';
      h' := h'.(back := h'.back[r.value + HEADER + WORD := r.value]);
      SameRep(before, h', bl');
    }
  }

  lemma SameRep(h: Heap, h': Heap, bl: seq<Block>)
    requires Rep(h, bl) && h' == h.(back := h'.back)
    ensures Rep(h', bl)
  {
  }

  /** khmalloc: it fails exactly for size 0 or when no free block is large enough; otherwise the payload is new. */
  method Malloc(h: Heap, size: nat, ghost bl: seq<Block>, ghost live: map<nat, Claim>)
    returns (r: Option<nat>, h': Heap, ghost bl': seq<Block>, ghost live': map<nat, Claim>)
    requires HeapOk(h, bl, live) && size + 16 <= SIZES
    ensures HeapOk(h', bl', live') && h'.start == h.start && h'.stats.total == h.stats.total
    ensures r.None? <==> size == 0 || forall k | 0 <= k < |bl| :: !(bl[k].free && bl[k].size >= Required(size))
    ensures r.None? ==> h' == h && bl' == bl && live' == live
    ensures r.Some? ==>
        r.value !in live && r.value in live' && live'[r.value].bytes == size && live' == live[r.value := live'[r.value]]
    ensures r.Some? ==> exists i: nat :: TookAt(bl, bl', i, Required(size)) && r.value == bl[i].addr + HEADER + WORD
  {
    hide Rep, Claims, TookAt, Calm, Required, Fits;
    var a;
    ghost var i;
    live', r := live, None;
    a, h', bl', i := TakeBlock(h, size, bl, live);
    if a.None? { return; }
    var p := a.value + HEADER + WORD;
    RequiredExact(size);
    TookUsed(bl, bl', i, Required(size));
    live' := live[p := Claim(bl[i].addr, bl'[i].size, size)];
    BackKept(h, bl, live, h'.back, i, Required(size), p);
    NewClaim(h, bl, live, bl', h'.back, i, Required(size), p, size, live');
    r := Some(p);
  }

  /** Storing back pointers inside a free block disturbs no live payload. */
  lemma BackKept(h: Heap, bl: seq<Block>, live: map<nat, Claim>, back': map<nat, nat>, i: nat, need: nat, p: nat)
    requires HeapOk(h, bl, live) && i < |bl| && Fits(bl[i], need) && WORD <= need
    requires bl[i].addr + HEADER + WORD <= p <= bl[i].addr + HEADER + need
    requires back' == h.back[bl[i].addr + HEADER + WORD := bl[i].addr] ||
        back' == h.back[bl[i].addr + HEADER + WORD := bl[i].addr][p := bl[i].addr]
    ensures forall q | q in live :: q in back' && q in h.back && back'[q] == h.back[q]
  {
    hide Rep, Calm, Fits;
    Outside(h, bl, live, i, need, p, 0);
    Outside(h, bl, live, i, need, bl[i].addr + HEADER + WORD, 0);
    forall q | q in live
      ensures q in back' && q in h.back && back'[q] == h.back[q]
    {
      assert ClaimOk(h.back, bl, q, live[q]);
    }
  }

  predicate PowerOfTwo(n: nat) {
    n == 1 || (n > 1 && n % 2 == 0 && PowerOfTwo(n / 2))
  }

  lemma {:induction false} Accepted(k: nat)
    ensures PowerOfTwo(Pow2(k))
  {
    if k > 0 { Accepted(k - 1); }
  }

  lemma {:induction false} Exponent(n: nat) returns (k: nat)
    requires PowerOfTwo(n)
    ensures n == Pow2(k)
    decreases n
  {
    k := 0;
    if n > 1 {
      var j := Exponent(n / 2);
      k := j + 1;
    }
  }

  /** The alignments that are accepted are the powers of two. */
  lemma PowerOfTwoMeans(n: nat)
    ensures PowerOfTwo(n) <==> exists k: nat :: n == Pow2(k)
  {
    if PowerOfTwo(n) { var k := Exponent(n); }
    forall k: nat | n == Pow2(k) ensures PowerOfTwo(n) { Accepted(k); }
  }

  /** The first multiple of `alignment` from x on. */
  function AlignUp(x: nat, alignment: nat): (r: nat)
    requires alignment > 0
    ensures x <= r < x + alignment && r % alignment == 0
  {
    AlignUpFacts(x, alignment);
    (x + alignment - 1) / alignment * alignment
  }

  lemma AlignUpFacts(x: nat, alignment: nat)
    requires alignment > 0
    ensures var r := (x + alignment - 1) / alignment * alignment; x <= r < x + alignment && r % alignment == 0
  {
    var q := (x + alignment - 1) / alignment;
    assert x + alignment - 1 == q * alignment + (x + alignment - 1) % alignment;
    DivModUnique(q * alignment, alignment, q, 0);
  }

  /** khaligned_alloc: an aligned payload inside a block that is large enough for the shift. */
  method AlignedAlloc(h: Heap, alignment: nat, size: nat, ghost bl: seq<Block>, ghost live: map<nat, Claim>)
    returns (r: Option<nat>, h': Heap, ghost bl': seq<Block>, ghost live': map<nat, Claim>)
    requires HeapOk(h, bl, live) && size + alignment + WORD + 16 <= SIZES
    ensures HeapOk(h', bl', live') && h'.start == h.start && h'.stats.total == h.stats.total
    ensures r.None? <==>
        size == 0 || !PowerOfTwo(alignment) || forall k | 0 <= k < |bl| ::
          !(bl[k].free && bl[k].size >= Required(size + alignment + WORD))
    ensures r.None? ==> h' == h && bl' == bl && live' == live
    ensures r.Some? ==>
        r.value !in live && r.value in live' && live'[r.value].bytes == size && live' == live[r.value := live'[r.value]]
    ensures r.Some? ==> alignment > 0 && r.value % alignment == 0
    ensures r.Some? ==> exists i: nat :: TookAt(bl, bl', i, Required(size + alignment + WORD)) &&
                          bl[i].addr + HEADER + WORD <= r.value < bl[i].addr + HEADER + WORD + alignment
  {
    hide Rep, Claims, TookAt, Calm, Required, Fits;
    h', bl', live', r := h, bl, live, None;
    if size == 0 || alignment == 0 { return; }
    if !PowerOfTwo(alignment) { return; }
    var total := (size + alignment + WORD) % SIZES;
    var a;
    ghost var i;
    a, h', bl', i := TakeBlock(h, total, bl, live);
    if a.None? { return; }
    var p := AlignUp(a.value + HEADER + WORD, alignment);
    RequiredExact(total);
    TookUsed(bl, bl', i, Required(total));
    ghost var before := h';
    h' := h'.(back := h'.back[p := h'.back[a.value + HEADER + WORD]]);
    SameRep(before, h', bl');
    live' := live[p := Claim(bl[i].addr, bl'[i].size, size)];
    BackKept(h, bl, live, h'.back, i, Required(total), p);
    NewClaim(h, bl, live, bl', h'.back, i, Required(total), p, size, live');
    r := Some(p);
  }

  // Freeing.

  /** Every pair of neighbours but (i - 1, i) is calm. */
  ghost predicate CalmButLeft(bl: seq<Block>, i: nat) {
    forall k | 0 <= k < |bl| - 1 && k + 1 != i :: !(bl[k].free && bl[k + 1].free)
  }

  lemma FlagCalm(bl: seq<Block>, i: nat)
    requires Calm(bl) && i < |bl|
    ensures i + 1 < |bl| && bl[i + 1].free ==> CalmButLeft(Joined(Flagged(bl, i, true), i), i)
    ensures i + 1 == |bl| || !bl[i + 1].free ==> CalmButLeft(Flagged(bl, i, true), i)
  {
    var t := Flagged(bl, i, true);
    if i + 1 < |bl| && bl[i + 1].free {
      var u := Joined(t, i);
      forall k | 0 <= k < |u| - 1 && k + 1 != i ensures !(u[k].free && u[k + 1].free) {
        if k < i { assert !(bl[k].free && bl[k + 1].free); } else { assert !(bl[k + 1].free && bl[k + 2].free); }
      }
    } else {
      forall k | 0 <= k < |t| - 1 && k + 1 != i
        ensures !(t[k].free && t[k + 1].free)
      {
        assert !(bl[k].free && bl[k + 1].free);
      }
    }
  }

  lemma JoinCalm(bl: seq<Block>, i: nat)
    requires CalmButLeft(bl, i) && i < |bl| && bl[i].free
    ensures i > 0 && bl[i - 1].free ==> Calm(Joined(bl, i - 1))
    ensures i == 0 || !bl[i - 1].free ==> Calm(bl)
  {
    if i > 0 && bl[i - 1].free {
      var u := Joined(bl, i - 1);
      forall k | 0 <= k < |u| - 1 ensures !(u[k].free && u[k + 1].free) {
        if k < i - 1 { assert !(bl[k].free && bl[k + 1].free); } else { assert !(bl[k + 1].free && bl[k + 2].free); }
      }
    }
  }

  /** Joining free blocks changes no used block. */
  lemma JoinUsed(bl: seq<Block>, i: nat)
    requires i + 1 < |bl| && bl[i].free && bl[i + 1].free
    ensures forall b: Block | !b.free :: b in Joined(bl, i) <==> b in bl
  {
    var t := Joined(bl, i);
    forall b: Block | !b.free ensures b in t <==> b in bl {
      if b in bl { var k :| 0 <= k < |bl| && bl[k] == b; assert t[if k < i then k else k - 1] == b; }
      if b in t { var k :| 0 <= k < |t| && t[k] == b; assert bl[if k < i then k else k + 1] == b; }
    }
  }

  lemma FlagUsed(bl: seq<Block>, start: nat, end: nat, i: nat)
    requires Tiled(bl, start, end) && i < |bl| && !bl[i].free
    ensures forall b: Block | !b.free :: b in Flagged(bl, i, true) <==> b in bl && b != bl[i]
  {
    hide Tiled;
    var t := Flagged(bl, i, true);
    forall b: Block | !b.free ensures b in t <==> b in bl && b != bl[i] {
      if b in bl && b != bl[i] { var k :| 0 <= k < |bl| && bl[k] == b; assert t[k] == b; }
      if b in t {
        var k :| 0 <= k < |t| && t[k] == b;
        assert k != i && bl[k] == b;
        Elsewhere(bl, start, end, i, k);
      }
    }
  }

  /** Set the flag, then join with a free successor and a free predecessor. */
  method Release(h: Heap, a: nat, ghost bl: seq<Block>, ghost i: nat) returns (h': Heap, ghost bl': seq<Block>)
    requires Rep(h, bl) && Calm(bl) && i < |bl| && bl[i].addr == a && !bl[i].free
    ensures Rep(h', bl') && Calm(bl') && h'.start == h.start && h'.stats.total == h.stats.total && h'.back == h.back
    ensures forall b: Block | !b.free :: b in bl' <==> b in bl && b != bl[i]
  {
    hide Tiled, FreeBytes, UsedBytes, Linked, Calm, CalmButLeft;
    FlagUsed(bl, h.start, h.start + h.stats.total, i);
    FlagCalm(bl, i);
    h' := SetFree(h, a, true, bl, i);
    bl' := Flagged(bl, i, true);
    HeaderAt(h', bl', i);
    if i + 1 < |bl'| { HeaderAt(h', bl', i + 1); }
    if h'.hdr[a].next.Some? && h'.hdr[h'.hdr[a].next.value].free {
      JoinUsed(bl', i);
      h' := JoinNext(h', a, bl', i);
      bl' := Joined(bl', i);
    }
    HeaderAt(h', bl', i);
    JoinCalm(bl', i);
    if i > 0 { HeaderAt(h', bl', i - 1); }
    if h'.hdr[a].prev.Some? && h'.hdr[h'.hdr[a].prev.value].free {
      JoinUsed(bl', i - 1);
      h' := JoinNext(h', h'.hdr[a].prev.value, bl', i - 1);
      bl' := Joined(bl', i - 1);
    }
  }

  /** khfree of a live payload, plain or aligned, or of null. */
  method Free(h: Heap, ptr: Option<nat>, ghost bl: seq<Block>, ghost live: map<nat, Claim>)
    returns (h': Heap, ghost bl': seq<Block>, ghost live': map<nat, Claim>)
    requires HeapOk(h, bl, live) && (ptr.Some? ==> ptr.value in live)
    ensures HeapOk(h', bl', live') && h'.start == h.start && h'.stats.total == h.stats.total
    ensures live' == if ptr.Some? then live - {ptr.value} else live
  {
    hide Rep, Claims, Calm;
    h', bl', live' := h, bl, live;
    if ptr.None? { return; }
    var p := ptr.value;
    ghost var i := ClaimBlock(h, bl, live, p);
    var a := h.back[p];
    HeaderAt(h, bl, i);
    if h.hdr[a].magic != MAGIC || h.hdr[a].free { return; }
    h', bl' := Release(h, a, bl, i);
    live' := live - {p};
    DropClaim(h, bl, live, bl', i, p);
  }

  lemma ClaimBlock(h: Heap, bl: seq<Block>, live: map<nat, Claim>, p: nat) returns (i: nat)
    requires HeapOk(h, bl, live) && p in live
    ensures i < |bl| && bl[i] == Block(live[p].block, live[p].size, false) && p in h.back && h.back[p] == bl[i].addr
  {
    hide Rep, Calm;
    assert ClaimOk(h.back, bl, p, live[p]);
    i :| i < |bl| && bl[i] == Block(live[p].block, live[p].size, false);
  }

  lemma DropClaim(h: Heap, bl: seq<Block>, live: map<nat, Claim>, bl': seq<Block>, i: nat, p: nat)
    requires HeapOk(h, bl, live) && p in live && i < |bl| && bl[i] == Block(live[p].block, live[p].size, false)
    requires forall b: Block | !b.free :: b in bl' <==> b in bl && b != bl[i]
    ensures Claims(h.back, bl', live - {p})
  {
    hide Rep, Calm, ClaimOk;
    var live' := live - {p};
    forall q | q in live' ensures ClaimOk(h.back, bl', q, live'[q]) {
      var k := ClaimBlock(h, bl, live, q);
      ClaimMoves(h.back, h.back, bl, bl', q, live[q]);
    }
    forall b | b in bl' && !b.free ensures exists q :: q in live' && live'[q].block == b.addr {
      var q :| q in live && live[q].block == b.addr;
      SameBlock(h, bl, b, bl[i]);
      assert q in live';
    }
  }

  lemma SameBlock(h: Heap, bl: seq<Block>, b: Block, c: Block)
    requires Rep(h, bl) && b in bl && c in bl && b != c
    ensures b.addr != c.addr
  {
    hide Linked, FreeBytes, UsedBytes;
    var i: nat :| i < |bl| && bl[i] == b;
    var j: nat :| j < |bl| && bl[j] == c;
    Elsewhere(bl, h.start, h.start + h.stats.total, i, j);
    Elsewhere(bl, h.start, h.start + h.stats.total, j, i);
  }

  // The heap as an object.

  /** Every run of allocations and frees keeps the blocks, the counters and the payloads in order. */
  class KernelHeap {
    var heap: Heap
    ghost var blocks: seq<Block>
    ghost var live: map<nat, Claim>

    ghost predicate Valid()
      reads this
    {
      HeapOk(heap, blocks, live)
    }

    constructor (start: nat, total: nat, hdr: map<nat, Header>, back: map<nat, nat>)
      requires total >= HEADER
      ensures Valid() && live == map[] && heap.start == start && heap.stats.total == total
    {
      var h;
      ghost var bl;
      h, bl := Init(start, total, hdr, back);
      heap, blocks, live := h, bl, map[];
    }

    method Alloc(size: nat) returns (r: Option<nat>)
      requires Valid() && size + 16 <= SIZES
      modifies this
      ensures Valid() && heap.start == old(heap.start) && heap.stats.total == old(heap.stats.total)
      ensures r.None? <==>
          size == 0 || forall k | 0 <= k < |old(blocks)| ::
            !(old(blocks)[k].free && old(blocks)[k].size >= Required(size))
      ensures r.None? ==> unchanged(this)
      ensures r.Some? ==>
          r.value !in old(live) && r.value in live && live[r.value].bytes == size &&
          live == old(live)[r.value := live[r.value]]
      ensures r.Some? ==> exists i: nat :: TookAt(old(blocks), blocks, i, Required(size)) &&
                            r.value == old(blocks)[i].addr + HEADER + WORD
    {
      hide Rep, Claims, Calm, Fits, Required;
      var h;
      ghost var bl, lv;
      r, h, bl, lv := Malloc(heap, size, blocks, live);
      heap, blocks, live := h, bl, lv;
    }

    method AllocAligned(alignment: nat, size: nat) returns (r: Option<nat>)
      requires Valid() && size + alignment + WORD + 16 <= SIZES
      modifies this
      ensures Valid() && heap.start == old(heap.start) && heap.stats.total == old(heap.stats.total)
      ensures r.None? <==>
          size == 0 || !PowerOfTwo(alignment) || forall k | 0 <= k < |old(blocks)| ::
            !(old(blocks)[k].free && old(blocks)[k].size >= Required(size + alignment + WORD))
      ensures r.None? ==> unchanged(this)
      ensures r.Some? ==>
          r.value !in old(live) && r.value in live && live[r.value].bytes == size &&
          live == old(live)[r.value := live[r.value]]
      ensures r.Some? ==> alignment > 0 && r.value % alignment == 0
    {
      hide Rep, Claims, Calm, Fits, Required;
      var h;
      ghost var bl, lv;
      r, h, bl, lv := AlignedAlloc(heap, alignment, size, blocks, live);
      heap, blocks, live := h, bl, lv;
    }

    /** Freeing the last payload leaves one free block. */
    method Dealloc(ptr: Option<nat>)
      requires Valid() && (ptr.Some? ==> ptr.value in live)
      modifies this
      ensures Valid() && heap.start == old(heap.start) && heap.stats.total == old(heap.stats.total)
      ensures live == if ptr.Some? then old(live) - {ptr.value} else old(live)
      ensures live == map[] ==>
          heap.stats.total >= HEADER && blocks == [Block(heap.start, heap.stats.total - HEADER, true)]
    {
      hide Rep, Claims, Calm;
      var h;
      ghost var bl, lv;
      h, bl, lv := Free(heap, ptr, blocks, live);
      heap, blocks, live := h, bl, lv;
      if live == map[] { NothingLive(heap, blocks, live); }
    }

    /** The owner of a payload writes inside it: whatever then reads as a header or as a block pointer
        there, or partly there, means nothing to the heap. */
    method Scribble(p: nat, hdr: map<nat, Header>, back: map<nat, nat>)
      requires Valid() && p in live && SameAround(heap, hdr, back, p, live[p].bytes)
      modifies this`heap
      ensures Valid() && heap == old(heap).(hdr := hdr, back := back)
    {
      hide Rep, Claims, Calm, SameAround;
      ghost var before := heap;
      heap := heap.(hdr := hdr, back := back);
      Scribbled(before, heap, blocks, live, p);
    }
  }

  /** Memory changed only in the n bytes from p on: headers and block pointers that lie wholly outside
      them are the same. A block pointer is the word before the payload address. */
  ghost predicate SameAround(h: Heap, hdr: map<nat, Header>, back: map<nat, nat>, p: nat, n: nat) {
    && (forall x | x in h.hdr && (x + HEADER <= p || p + n <= x) :: x in hdr && hdr[x] == h.hdr[x])
    && (forall q | q in h.back && (q <= p || p + n + WORD <= q) :: q in back && back[q] == h.back[q])
  }

  lemma Scribbled(h: Heap, h': Heap, bl: seq<Block>, live: map<nat, Claim>, p: nat)
    requires HeapOk(h, bl, live) && p in live && h' == h.(hdr := h'.hdr, back := h'.back)
    requires SameAround(h, h'.hdr, h'.back, p, live[p].bytes)
    ensures HeapOk(h', bl, live)
  {
    hide FreeBytes, UsedBytes, Calm, Linked, Tiled, Claims;
    ScribbledHeaders(h, h', bl, live, p);
    ScribbledClaims(h, h', bl, live, p);
  }

  lemma ScribbledHeaders(h: Heap, h': Heap, bl: seq<Block>, live: map<nat, Claim>, p: nat)
    requires HeapOk(h, bl, live) && p in live && SameAround(h, h'.hdr, h'.back, p, live[p].bytes)
    ensures Linked(h'.hdr, bl)
  {
    hide FreeBytes, UsedBytes, Calm, Linked, Tiled, Claims;
    var i := ClaimBlock(h, bl, live, p);
    ClaimRange(h, bl, live, p);
    forall k | 0 <= k < |bl| ensures bl[k].addr in h'.hdr && h'.hdr[bl[k].addr] == HeaderOf(bl, k) {
      HeaderAt(h, bl, k);
      if k < i { Ordered(bl, h.start, h.start + h.stats.total, k, i); }
      if k > i { Ordered(bl, h.start, h.start + h.stats.total, i, k); }
    }
    LinkedIf(h'.hdr, bl);
  }

  lemma ScribbledClaims(h: Heap, h': Heap, bl: seq<Block>, live: map<nat, Claim>, p: nat)
    requires HeapOk(h, bl, live) && p in live && SameAround(h, h'.hdr, h'.back, p, live[p].bytes)
    ensures Claims(h'.back, bl, live)
  {
    hide Rep, Calm;
    forall q | q in live ensures ClaimOk(h'.back, bl, q, live[q]) {
      assert ClaimOk(h.back, bl, q, live[q]);
      if q != p { DisjointPayloads(h, bl, live, p, q); }
    }
  }

  lemma ClaimRange(h: Heap, bl: seq<Block>, live: map<nat, Claim>, p: nat)
    requires HeapOk(h, bl, live) && p in live
    ensures live[p].block + HEADER + WORD <= p && p + live[p].bytes <= live[p].block + HEADER + live[p].size
  {
    hide Rep, Calm;
    assert ClaimOk(h.back, bl, p, live[p]);
  }

  lemma LinkedIf(hdr: map<nat, Header>, bl: seq<Block>)
    requires forall k | 0 <= k < |bl| :: bl[k].addr in hdr && hdr[bl[k].addr] == HeaderOf(bl, k)
    ensures Linked(hdr, bl)
  {
  }
}
