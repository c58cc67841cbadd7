/** The kernel heap as an address-ordered sequence of blocks. */
module HeapBlocks {

  const HEADER: nat := 32

  /** A block: where its header lies, how many bytes follow the header, and whether it is free. */
  datatype Block = Block(addr: nat, size: nat, free: bool)

  function EndOf(b: Block): nat {
    b.addr + HEADER + b.size
  }

  /** Each block ends where the next begins; together they fill [start, end). */
  ghost predicate Tiled(bl: seq<Block>, start: nat, end: nat) {
    && |bl| > 0 && bl[0].addr == start && EndOf(bl[|bl| - 1]) == end
    && forall i | 0 <= i < |bl| - 1 :: EndOf(bl[i]) == bl[i + 1].addr
  }

  /** No two neighbours are both free. */
  ghost predicate Calm(bl: seq<Block>) {
    forall i | 0 <= i < |bl| - 1 :: !(bl[i].free && bl[i + 1].free)
  }

  function FreeBytes(bl: seq<Block>): nat {
    if bl == [] then 0 else (if bl[0].free then bl[0].size else 0) + FreeBytes(bl[1..])
  }

  /** The bytes of used blocks, and every header. */
  function UsedBytes(bl: seq<Block>): nat {
    if bl == [] then 0 else (if bl[0].free then 0 else bl[0].size) + HEADER + UsedBytes(bl[1..])
  }

  lemma {:induction false} BytesConcat(a: seq<Block>, b: seq<Block>)
    ensures FreeBytes(a + b) == FreeBytes(a) + FreeBytes(b) && UsedBytes(a + b) == UsedBytes(a) + UsedBytes(b)
  {
    if a == [] {
      assert a + b == b;
    } else {
      BytesConcat(a[1..], b);
      assert (a + b)[1..] == a[1..] + b;
    }
  }

  lemma BytesOne(b: Block)
    ensures FreeBytes([b]) == if b.free then b.size else 0
    ensures UsedBytes([b]) == HEADER + if b.free then 0 else b.size
  {
    assert [b][1..] == [];
  }

  /** Free and used bytes add up to the heap. */
  lemma {:induction false} BytesTotal(bl: seq<Block>, start: nat, end: nat)
    requires Tiled(bl, start, end)
    ensures start + FreeBytes(bl) + UsedBytes(bl) == end
  {
    if |bl| == 1 {
      BytesOne(bl[0]);
      assert bl == [bl[0]];
    } else {
      BytesTotal(bl[1..], bl[1].addr, end);
    }
  }

  /** Blocks lie in address order without overlap. */
  lemma {:induction false} Ordered(bl: seq<Block>, start: nat, end: nat, i: nat, j: nat)
    requires Tiled(bl, start, end) && i < j < |bl|
    ensures EndOf(bl[i]) <= bl[j].addr
    decreases j
  {
    if i + 1 < j { Ordered(bl, start, end, i, j - 1); }
  }

  // The three changes.

  /** Block i with another free flag. */
  function Flagged(bl: seq<Block>, i: nat, free: bool): seq<Block>
    requires i < |bl|
  {
    bl[..i] + [bl[i].(free := free)] + bl[i + 1..]
  }

  /** Block i cut to `size` bytes, the rest a free block. */
  function Cut(bl: seq<Block>, i: nat, size: nat): seq<Block>
    requires i < |bl| && size + HEADER <= bl[i].size
  {
    bl[..i] + [Block(bl[i].addr, size, bl[i].free),
        Block(bl[i].addr + HEADER + size, bl[i].size - size - HEADER, true)] + bl[i + 1..]
  }

  /** Blocks i and i + 1 joined. */
  function Joined(bl: seq<Block>, i: nat): seq<Block>
    requires i + 1 < |bl|
  {
    bl[..i] + [Block(bl[i].addr, bl[i].size + HEADER + bl[i + 1].size, bl[i].free)] + bl[i + 2..]
  }

  lemma Pieces(bl: seq<Block>, i: nat, n: nat, mid: seq<Block>)
    requires i + n <= |bl|
    ensures FreeBytes(bl) == FreeBytes(bl[..i]) + FreeBytes(bl[i..i + n]) + FreeBytes(bl[i + n..])
    ensures UsedBytes(bl) == UsedBytes(bl[..i]) + UsedBytes(bl[i..i + n]) + UsedBytes(bl[i + n..])
    ensures FreeBytes(bl[..i] + mid + bl[i + n..]) == FreeBytes(bl[..i]) + FreeBytes(mid) + FreeBytes(bl[i + n..])
    ensures UsedBytes(bl[..i] + mid + bl[i + n..]) == UsedBytes(bl[..i]) + UsedBytes(mid) + UsedBytes(bl[i + n..])
  {
    assert bl == bl[..i] + bl[i..i + n] + bl[i + n..];
    BytesConcat(bl[..i] + bl[i..i + n], bl[i + n..]);
    BytesConcat(bl[..i], bl[i..i + n]);
    BytesConcat(bl[..i] + mid, bl[i + n..]);
    BytesConcat(bl[..i], mid);
  }

  lemma FlaggedBytes(bl: seq<Block>, i: nat, free: bool)
    requires i < |bl| && bl[i].free != free
    ensures var d: int := if free then bl[i].size else 0 - bl[i].size;
            FreeBytes(Flagged(bl, i, free)) == FreeBytes(bl) + d && UsedBytes(Flagged(bl, i, free)) == UsedBytes(bl) - d
  {
    hide FreeBytes, UsedBytes;
    Pieces(bl, i, 1, [bl[i].(free := free)]);
    assert bl[i..i + 1] == [bl[i]];
    BytesOne(bl[i]);
    BytesOne(bl[i].(free := free));
  }

  lemma BytesTwo(a: Block, b: Block)
    ensures FreeBytes([a, b]) == FreeBytes([a]) + FreeBytes([b]) && UsedBytes([a, b]) == UsedBytes([a]) + UsedBytes([b])
  {
    BytesConcat([a], [b]);
    assert [a] + [b] == [a, b];
  }

  lemma CutBytes(bl: seq<Block>, i: nat, size: nat)
    requires i < |bl| && size + HEADER <= bl[i].size && bl[i].free
    ensures FreeBytes(Cut(bl, i, size)) == FreeBytes(bl) - HEADER
    ensures UsedBytes(Cut(bl, i, size)) == UsedBytes(bl) + HEADER
  {
    var x, y := Block(bl[i].addr, size, bl[i].free), Block(bl[i].addr + HEADER + size, bl[i].size - size - HEADER,
        true);
    Pieces(bl, i, 1, [x, y]);
    assert bl[i..i + 1] == [bl[i]];
    BytesTwo(x, y);
    BytesOne(x);
    BytesOne(y);
    BytesOne(bl[i]);
  }

  lemma JoinedBytes(bl: seq<Block>, i: nat)
    requires i + 1 < |bl| && bl[i].free && bl[i + 1].free
    ensures FreeBytes(Joined(bl, i)) == FreeBytes(bl) + HEADER && UsedBytes(Joined(bl, i)) == UsedBytes(bl) - HEADER
  {
    var x := Block(bl[i].addr, bl[i].size + HEADER + bl[i + 1].size, bl[i].free);
    Pieces(bl, i, 2, [x]);
    assert bl[i..i + 2] == [bl[i], bl[i + 1]];
    BytesTwo(bl[i], bl[i + 1]);
    BytesOne(x);
    BytesOne(bl[i]);
    BytesOne(bl[i + 1]);
  }

  lemma FlaggedTiled(bl: seq<Block>, start: nat, end: nat, i: nat, free: bool)
    requires Tiled(bl, start, end) && i < |bl|
    ensures Tiled(Flagged(bl, i, free), start, end)
  {
  }

  lemma CutTiled(bl: seq<Block>, start: nat, end: nat, i: nat, size: nat)
    requires Tiled(bl, start, end) && i < |bl| && size + HEADER <= bl[i].size
    ensures Tiled(Cut(bl, i, size), start, end)
  {
    var t := Cut(bl, i, size);
    forall k | 0 <= k < |t| - 1 ensures EndOf(t[k]) == t[k + 1].addr {
      if k < i { assert EndOf(bl[k]) == bl[k + 1].addr; } else if k > i { assert EndOf(bl[k - 1]) == bl[k].addr; }
    }
  }

  lemma JoinedTiled(bl: seq<Block>, start: nat, end: nat, i: nat)
    requires Tiled(bl, start, end) && i + 1 < |bl|
    ensures Tiled(Joined(bl, i), start, end)
  {
    var t := Joined(bl, i);
    assert EndOf(bl[i]) == bl[i + 1].addr;
    forall k | 0 <= k < |t| - 1 ensures EndOf(t[k]) == t[k + 1].addr {
      if k < i { assert EndOf(bl[k]) == bl[k + 1].addr; } else { assert EndOf(bl[k + 1]) == bl[k + 2].addr; }
    }
  }

  /** With every block free and no two neighbours free there is one block: the whole heap. */
  lemma AllFree(bl: seq<Block>, start: nat, end: nat)
    requires Tiled(bl, start, end) && Calm(bl) && forall b | b in bl :: b.free
    ensures end >= start + HEADER && bl == [Block(start, end - start - HEADER, true)]
  {
    assert bl[0] in bl && (|bl| > 1 ==> bl[1] in bl);
    assert |bl| > 1 ==> !(bl[0].free && bl[1].free);
    assert bl == [bl[0]];
  }
}
