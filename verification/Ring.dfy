/** The ring buffer: a fixed array, a write position, a read position and a count. Writing into a full
    ring overwrites the oldest bytes. */
module Ring {
  import opened Words

  /** The last n elements of s, or all of them. */
  function Last(s: seq<byte>, n: nat): (r: seq<byte>)
    ensures |r| == if |s| <= n then |s| else n
  {
    if |s| <= n then s else s[|s| - n..]
  }

  /** Keeping the last n elements at every step is the same as keeping them at the end. */
  lemma LastLast(s: seq<byte>, t: seq<byte>, n: nat)
    ensures Last(Last(s, n) + t, n) == Last(s + t, n)
  {
    var u := Last(s, n);
    if |s| > n {
      assert u + t == (s + t)[|s| - n..];
    }
  }

  /** Within the free space the overwriting write is an append; beyond it bytes are lost. */
  lemma NoLoss(s: seq<byte>, data: seq<byte>, n: nat)
    ensures Last(s + data, n) == s + data <==> |s| + |data| <= n
  {
  }

  function Wrap(i: nat, n: nat): nat
    requires i < 2 * n
  {
    if i < n then i else i - n
  }

  lemma WrapMod(i: nat, n: nat)
    requires i < 2 * n
    ensures i % n == Wrap(i, n)
  {
    if i >= n { assert i % n == (i - n) % n; }
  }

  /** The bytes in the ring, oldest first. */
  ghost function Held(buf: seq<byte>, tail: nat, count: nat): (s: seq<byte>)
    requires tail < |buf| && count <= |buf|
    ensures |s| == count
  {
    if tail + count <= |buf| then buf[tail..tail + count] else buf[tail..] + buf[..tail + count - |buf|]
  }

  lemma HeldPut(buf: seq<byte>, tail: nat, count: nat, b: byte, buf': seq<byte>)
    requires tail < |buf| && count <= |buf| && buf' == buf[Wrap(tail + count, |buf|) := b]
    ensures count < |buf| ==> Held(buf', tail, count + 1) == Held(buf, tail, count) + [b]
    ensures count == |buf| ==> Held(buf', Wrap(tail + 1, |buf|), count) == Held(buf, tail, count)[1..] + [b]
  {
    if count == |buf| {
      assert Held(buf', Wrap(tail + 1, |buf|), count) == buf'[tail + 1..] + buf'[..tail + 1];
    }
  }

  lemma HeldGet(buf: seq<byte>, tail: nat, count: nat)
    requires tail < |buf| && 0 < count <= |buf|
    ensures Held(buf, tail, count) == [buf[tail]] + Held(buf, Wrap(tail + 1, |buf|), count - 1)
  {
  }

  class RingBuffer {
    const buffer: array<byte>
    var head: nat
    var tail: nat
    var count: nat

    ghost predicate Valid()
      reads this
    {
      tail < buffer.Length && count <= buffer.Length && head == Wrap(tail + count, buffer.Length)
    }

    ghost function Contents(): (s: seq<byte>)
      requires Valid()
      reads this, buffer
      ensures |s| == count
    {
      Held(buffer[..], tail, count)
    }

    constructor (size: nat)
      requires size > 0
      ensures Valid() && Contents() == [] && buffer.Length == (size + 0xFFF) / 0x1000 * 0x1000 && fresh(buffer)
    {
      buffer := new byte[(size + 0xFFF) / 0x1000 * 0x1000](_ => 0);
      head, tail, count := 0, 0, 0;
    }

    /** One turn of the write loop. */
    method Put(b: byte)
      requires Valid()
      modifies this, buffer
      ensures Valid() && Contents() == Last(old(Contents()) + [b], buffer.Length)
    {
      hide Held;
      ghost var was := buffer[..];
      HeldPut(was, tail, count, b, was[head := b]);
      buffer[head] := b;
      assert buffer[..] == was[head := b];
      WrapMod(head + 1, buffer.Length);
      head := (head + 1) % buffer.Length;
      if count < buffer.Length {
        count := count + 1;
      } else {
        WrapMod(tail + 1, buffer.Length);
        tail := (tail + 1) % buffer.Length;
      }
    }

    /** Write: the ring keeps the newest bytes of what it held followed by the data. */
    method Write(data: seq<byte>) returns (n: nat)
      requires Valid()
      modifies this, buffer
      ensures Valid() && Contents() == Last(old(Contents()) + data, buffer.Length)
      ensures n == if |data| <= buffer.Length then |data| else buffer.Length
    {
      hide Contents, Last;
      var d := data;
      if |d| > buffer.Length { d := d[|d| - buffer.Length..]; }
      ghost var before := Contents();
      WriteStart(before, data, d, buffer.Length);
      for i := 0 to |d|
        invariant Valid() && Contents() == Last(before + d[..i], buffer.Length)
      {
        LastLast(before + d[..i], [d[i]], buffer.Length);
        assert before + d[..i] + [d[i]] == before + d[..i + 1];
        Put(d[i]);
      }
      assert d[..|d|] == d;
      n := |d|;
    }

    /** Read: the oldest bytes leave the ring in order. */
    method Read(len: nat) returns (data: seq<byte>)
      requires Valid()
      modifies this
      ensures Valid() && old(Contents()) == data + Contents()
      ensures |data| == if len <= old(count) then len else old(count)
    {
      hide Held;
      data := [];
      ghost var before := Contents();
      while |data| < len && count > 0
        invariant Valid() && |data| <= len && |data| + count == |before| && before == data + Contents()
        decreases count
      {
        HeldGet(buffer[..], tail, count);
        assert data + Contents() == data + [buffer[tail]] + Held(buffer[..], Wrap(tail + 1, buffer.Length), count - 1);
        data := data + [buffer[tail]];
        WrapMod(tail + 1, buffer.Length);
        tail := (tail + 1) % buffer.Length;
        count := count - 1;
      }
    }

    method Available() returns (n: nat, space: nat)
      requires Valid()
      ensures n == |Contents()| && space == buffer.Length - |Contents()|
    {
      n, space := count, buffer.Length - count;
    }

    method Clear()
      requires Valid()
      modifies this
      ensures Valid() && Contents() == []
    {
      head, tail, count := 0, 0, 0;
    }
  }

  /** Only the newest bytes of the data can survive, and with nothing written the contents are kept. */
  lemma WriteStart(before: seq<byte>, data: seq<byte>, d: seq<byte>, n: nat)
    requires |before| <= n && d == if |data| > n then data[|data| - n..] else data
    ensures before == Last(before + d[..0], n) && Last(before + d, n) == Last(before + data, n)
  {
    assert before + d[..0] == before;
    if |data| > n {
      assert Last(before + data, n) == d && Last(before + d, n) == d;
    }
  }
}
