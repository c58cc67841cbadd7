/** Little-endian words stored in byte blocks, as the x86-64 casts of the kernel see them. */
module Words {
  type byte = x: int | 0 <= x < 256

  const U16 := 0x1_0000
  const U32 := 0x1_0000_0000

  function Zeros(n: nat): (r: seq<byte>)
    ensures |r| == n && forall i :: 0 <= i < n ==> r[i] == 0
  {
    seq(n, _ => 0)
  }

  function Word(b: seq<byte>, at: nat): (v: nat)
    requires at + 4 <= |b|
    ensures v < U32
  {
    b[at] as int + 0x100 * (b[at + 1] as int) + 0x1_0000 * (b[at + 2] as int) + 0x100_0000 * (b[at + 3] as int)
  }

  function WordBytes(v: nat): (r: seq<byte>)
    requires v < U32
    ensures |r| == 4 && Word(r, 0) == v
  {
    var a, b, c := v / 0x100, v / 0x100 / 0x100, v / 0x100 / 0x100 / 0x100;
    [v % 0x100, a % 0x100, b % 0x100, c]
  }

  function PutWord(b: seq<byte>, at: nat, v: nat): (r: seq<byte>)
    requires at + 4 <= |b| && v < U32
    ensures |r| == |b|
  {
    b[..at] + WordBytes(v) + b[at + 4..]
  }

  /** A block read as an array of 32-bit pointers. */
  function Table(b: seq<byte>): (t: seq<nat>)
    ensures |t| == |b| / 4
    ensures forall i :: 0 <= i < |t| ==> t[i] == Word(b, 4 * i)
  {
    seq(|b| / 4, i requires 0 <= i < |b| / 4 => Word(b, 4 * i))
  }

  lemma TablePut(b: seq<byte>, i: nat, v: nat)
    requires i < |b| / 4 && v < U32
    ensures Table(PutWord(b, 4 * i, v)) == Table(b)[i := v]
  {
    var r := PutWord(b, 4 * i, v);
    forall j | 0 <= j < |b| / 4
      ensures Word(r, 4 * j) == Table(b)[i := v][j]
    {
      if i == j {
        assert r[4 * i..4 * i + 4] == WordBytes(v);
        assert Word(r, 4 * i) == Word(r[4 * i..4 * i + 4], 0);
      } else {
        assert forall k :: 4 * j <= k < 4 * j + 4 ==> r[k] == b[k];
      }
    }
  }

  lemma TableZeros(n: nat)
    ensures Table(Zeros(n)) == seq(n / 4, _ => 0)
  {
  }

  function Half(b: seq<byte>, at: nat): (v: nat)
    requires at + 2 <= |b|
    ensures v < U16
  {
    b[at] as int + 0x100 * (b[at + 1] as int)
  }

  function HalfBytes(v: nat): (r: seq<byte>)
    requires v < U16
    ensures |r| == 2 && Half(r, 0) == v
  {
    [v % 0x100, v / 0x100]
  }

  lemma BytesBack(p: nat, q: nat, r: nat, t: nat)
    requires p < 0x100 && q < 0x100 && r < 0x100 && t < 0x100
    ensures var v := p + 0x100 * q + 0x1_0000 * r + 0x100_0000 * t;
            && v % 0x100 == p && v / 0x100 % 0x100 == q && v / 0x100 / 0x100 % 0x100 == r
            && v / 0x100 / 0x100 / 0x100 == t
  {
    var v := p + 0x100 * q + 0x1_0000 * r + 0x100_0000 * t;
    assert v == p + 0x100 * (q + 0x100 * (r + 0x100 * t));
    assert v / 0x100 == q + 0x100 * (r + 0x100 * t);
    assert v / 0x100 / 0x100 == r + 0x100 * t;
  }

  /** Byte i of a word in memory is its i-th lowest byte. */
  lemma WordOrder(b: seq<byte>, at: nat)
    requires at + 4 <= |b|
    ensures var v := Word(b, at);
            && v % 0x100 == b[at] && v / 0x100 % 0x100 == b[at + 1] && v / 0x1_0000 % 0x100 == b[at + 2]
            && v / 0x100_0000 == b[at + 3]
            && v / 0x100 / 0x100 % 0x100 == b[at + 2] && v / 0x100 / 0x100 / 0x100 == b[at + 3]
  {
    var v := Word(b, at);
    BytesBack(b[at], b[at + 1], b[at + 2], b[at + 3]);
    assert v / 0x1_0000 == v / 0x100 / 0x100 && v / 0x100_0000 == v / 0x100 / 0x100 / 0x100;
  }

  lemma HalfOrder(b: seq<byte>, at: nat)
    requires at + 2 <= |b|
    ensures Half(b, at) % 0x100 == b[at] && Half(b, at) / 0x100 == b[at + 1]
  {
  }
}
