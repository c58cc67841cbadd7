/** SHA-256: the split into blocks and the padding, over the compression function of FIPS 180-4. */
module Sha256 {
  import opened Words

  const BLOCK: nat := 64

  // The compression function, section 6.2.2 of FIPS 180-4.

  function Rotr(x: bv32, n: bv6): bv32
    requires 0 < n < 32
  {
    (x >> n) | (x << (32 - n))
  }

  function Ch(x: bv32, y: bv32, z: bv32): bv32 {
    (x & y) ^ (!x & z)
  }

  function Maj(x: bv32, y: bv32, z: bv32): bv32 {
    (x & y) ^ (x & z) ^ (y & z)
  }

  function Big0(x: bv32): bv32 {
    Rotr(x, 2) ^ Rotr(x, 13) ^ Rotr(x, 22)
  }

  function Big1(x: bv32): bv32 {
    Rotr(x, 6) ^ Rotr(x, 11) ^ Rotr(x, 25)
  }

  function Small0(x: bv32): bv32 {
    Rotr(x, 7) ^ Rotr(x, 18) ^ (x >> 3)
  }

  function Small1(x: bv32): bv32 {
    Rotr(x, 17) ^ Rotr(x, 19) ^ (x >> 10)
  }

  function Constants(): (k: seq<bv32>)
    ensures |k| == 64
  {
    [0x428a2f98, 0x71374491, 0xb5c0fbcf, 0xe9b5dba5, 0x3956c25b, 0x59f111f1, 0x923f82a4, 0xab1c5ed5] +
    [0xd807aa98, 0x12835b01, 0x243185be, 0x550c7dc3, 0x72be5d74, 0x80deb1fe, 0x9bdc06a7, 0xc19bf174] +
    [0xe49b69c1, 0xefbe4786, 0x0fc19dc6, 0x240ca1cc, 0x2de92c6f, 0x4a7484aa, 0x5cb0a9dc, 0x76f988da] +
    [0x983e5152, 0xa831c66d, 0xb00327c8, 0xbf597fc7, 0xc6e00bf3, 0xd5a79147, 0x06ca6351, 0x14292967] +
    [0x27b70a85, 0x2e1b2138, 0x4d2c6dfc, 0x53380d13, 0x650a7354, 0x766a0abb, 0x81c2c92e, 0x92722c85] +
    [0xa2bfe8a1, 0xa81a664b, 0xc24b8b70, 0xc76c51a3, 0xd192e819, 0xd6990624, 0xf40e3585, 0x106aa070] +
    [0x19a4c116, 0x1e376c08, 0x2748774c, 0x34b0bcb5, 0x391c0cb3, 0x4ed8aa4a, 0x5b9cca4f, 0x682e6ff3] +
    [0x748f82ee, 0x78a5636f, 0x84c87814, 0x8cc70208, 0x90befffa, 0xa4506ceb, 0xbef9a3f7, 0xc67178f2]
  }

  /** The eight working variables, or the eight words of the hash value. */
  datatype Vars = Vars(a: bv32, b: bv32, c: bv32, d: bv32, e: bv32, f: bv32, g: bv32, h: bv32)

  const INITIAL: Vars := Vars(0x6a09e667, 0xbb67ae85, 0x3c6ef372, 0xa54ff53a, 0x510e527f, 0x9b05688c, 0x1f83d9ab,
      0x5be0cd19)

  function BigEndian(block: seq<byte>, t: nat): bv32
    requires |block| == BLOCK && t < 16
  {
    ((block[4 * t] as bv32) << 24) | ((block[4 * t + 1] as bv32) << 16) | ((block[4 * t + 2] as bv32) << 8) |
        (block[4 * t + 3] as bv32)
  }

  /** One word of the message schedule from four earlier ones. */
  function Mix(w2: bv32, w7: bv32, w15: bv32, w16: bv32): bv32 {
    Small1(w2) + w7 + Small0(w15) + w16
  }

  /** The message schedule. */
  function Schedule(block: seq<byte>, t: nat): bv32
    requires |block| == BLOCK && t < 64
  {
    if t < 16 then BigEndian(block, t)
    else Mix(Schedule(block, t - 2), Schedule(block, t - 7), Schedule(block, t - 15), Schedule(block, t - 16))
  }

  function Round(v: Vars, k: bv32, w: bv32): Vars {
    var t1 := v.h + Big1(v.e) + Ch(v.e, v.f, v.g) + k + w;
    var t2 := Big0(v.a) + Maj(v.a, v.b, v.c);
    Vars(t1 + t2, v.a, v.b, v.c, v.d + t1, v.e, v.f, v.g)
  }

  function Rounds(v: Vars, block: seq<byte>, t: nat): Vars
    requires |block| == BLOCK && t <= 64
  {
    if t == 0 then v else Round(Rounds(v, block, t - 1), Constants()[t - 1], Schedule(block, t - 1))
  }

  function Add(x: Vars, y: Vars): Vars {
    Vars(x.a + y.a, x.b + y.b, x.c + y.c, x.d + y.d, x.e + y.e, x.f + y.f, x.g + y.g, x.h + y.h)
  }

  function Compress(h: Vars, block: seq<byte>): Vars
    requires |block| == BLOCK
  {
    Add(h, Rounds(h, block, 64))
  }

  /** process_block: the schedule is filled first, then the rounds run over it. */
  method ProcessBlock(block: seq<byte>, h: Vars) returns (h': Vars)
    requires |block| == BLOCK
    ensures h' == Compress(h, block)
  {
    hide Mix, Round, Add, BigEndian, Constants;
    var w: seq<bv32> := [];
    for i := 0 to 16
      invariant |w| == i && forall t: nat | t < i :: w[t] == Schedule(block, t)
    {
      w := w + [BigEndian(block, i)];
    }
    for i := 16 to 64
      invariant |w| == i && forall t: nat | t < i :: w[t] == Schedule(block, t)
    {
      w := w + [Mix(w[i - 2], w[i - 7], w[i - 15], w[i - 16])];
    }
    var v := h;
    for i := 0 to 64
      invariant v == Rounds(h, block, i)
    {
      v := Round(v, Constants()[i], w[i]);
    }
    h' := Add(h, v);
  }

  // The hash of a padded message: the blocks in order.

  function Fold(h: Vars, m: seq<byte>): Vars
    decreases |m|
  {
    if |m| < BLOCK then h else Fold(Compress(h, m[..BLOCK]), m[BLOCK..])
  }

  lemma {:induction false} FoldConcat(h: Vars, a: seq<byte>, b: seq<byte>)
    requires |a| % BLOCK == 0
    ensures Fold(h, a + b) == Fold(Fold(h, a), b)
    decreases |a|
  {
    hide Compress;
    if |a| == 0 {
      assert a + b == b;
    } else {
      assert (a + b)[..BLOCK] == a[..BLOCK] && (a + b)[BLOCK..] == a[BLOCK..] + b;
      FoldConcat(Compress(h, a[..BLOCK]), a[BLOCK..], b);
    }
  }

  lemma FoldOne(h: Vars, a: seq<byte>)
    requires |a| == BLOCK
    ensures Fold(h, a) == Compress(h, a)
  {
    hide Compress;
    assert a[..BLOCK] == a && a[BLOCK..] == [];
  }

  // Padding, section 5.1.1 of FIPS 180-4.

  const LENGTHS: nat := 0x1_0000_0000_0000_0000

  function Bytes(n: nat, value: nat): (r: seq<byte>)
    ensures |r| == n
  {
    if n == 0 then [] else Bytes(n - 1, value / 256) + [value % 256]
  }

  /** The number of zero bytes after the 0x80 byte. */
  function Filler(len: nat): (k: nat)
    ensures (len + 1 + k + 8) % BLOCK == 0 && k < BLOCK
  {
    (119 - len % BLOCK) % BLOCK
  }

  /** A message, the byte 0x80, zero bytes, and its length in bits as a 64-bit number. */
  function Pad(m: seq<byte>, bits: nat): (r: seq<byte>)
    ensures |r| == |m| + 1 + Filler(|m|) + 8
  {
    m + [0x80] + seq(Filler(|m|), _ => 0) + Bytes(8, bits)
  }

  /** The standard's padding, for messages shorter than 2^64 bits. */
  function Padded(m: seq<byte>): seq<byte> {
    Pad(m, 8 * |m|)
  }

  /** The 64-bit length field of the code is the standard's exactly below 2^61 bytes. */
  lemma LengthExact(len: nat)
    ensures 8 * len % LENGTHS == 8 * len <==> len < LENGTHS / 8
  {
  }

  // Padding is injective.

  lemma {:induction false} BytesInjective(n: nat, x: nat, y: nat)
    requires Bytes(n, x) == Bytes(n, y)
    ensures x < Power256(n) && y < Power256(n) ==> x == y
    decreases n
  {
    if n > 0 {
      var a, b := Bytes(n - 1, x / 256), Bytes(n - 1, y / 256);
      assert Bytes(n, x)[..n - 1] == a && Bytes(n, y)[..n - 1] == b;
      assert Bytes(n, x)[n - 1] == x % 256 && Bytes(n, y)[n - 1] == y % 256;
      BytesInjective(n - 1, x / 256, y / 256);
      assert x < Power256(n) ==> x / 256 < Power256(n - 1);
      assert y < Power256(n) ==> y / 256 < Power256(n - 1);
    }
  }

  function Power256(n: nat): nat {
    if n == 0 then 1 else 256 * Power256(n - 1)
  }

  lemma PowerEight()
    ensures Power256(8) == LENGTHS
  {
    assert Power256(4) == 0x1_0000_0000;
    assert Power256(5) == 256 * Power256(4) && Power256(6) == 256 * Power256(5) && Power256(7) == 256 * Power256(6);
  }

  /** Different messages have different paddings. */
  lemma PaddingInjective(a: seq<byte>, b: seq<byte>)
    requires |a| < LENGTHS / 8 && |b| < LENGTHS / 8 && Padded(a) == Padded(b)
    ensures a == b
  {
    hide Bytes, Filler;
    var p, q := Padded(a), Padded(b);
    assert p[|p| - 8..] == Bytes(8, 8 * |a|) && q[|q| - 8..] == Bytes(8, 8 * |b|);
    BytesInjective(8, 8 * |a|, 8 * |b|);
    PowerEight();
    assert p[..|a|] == a && q[..|b|] == b;
  }

  // The code.

  function Digest(h: Vars): seq<bv8> {
    Four(h.a) + Four(h.b) + Four(h.c) + Four(h.d) + Four(h.e) + Four(h.f) + Four(h.g) + Four(h.h)
  }

  function Four(x: bv32): (r: seq<bv8>)
    ensures |r| == 4
  {
    [((x >> 24) & 0xff) as bv8, ((x >> 16) & 0xff) as bv8, ((x >> 8) & 0xff) as bv8, (x & 0xff) as bv8]
  }

  /** The last one or two blocks: the rest of the message, 0x80, zeros, the length. */
  method Tail(rest: seq<byte>, len: nat) returns (pad: seq<byte>, blocks: nat)
    requires |rest| == len % BLOCK
    ensures 1 <= blocks <= 2 && |pad| == 128
    ensures pad[..blocks * BLOCK] == rest + [0x80] + seq(Filler(len), _ => 0) + Bytes(8, 8 * len % LENGTHS)
  {
    hide Bytes;
    var n := |rest|;
    pad := rest + seq(128 - n, _ => 0);
    pad := pad[..n] + [0x80] + pad[n + 1..];
    blocks := if n < 56 then 1 else 2;
    var at := blocks * BLOCK - 8;
    FillerIs(len, at);
    pad := pad[..at] + Bytes(8, 8 * len % LENGTHS) + pad[at + 8..];
    assert pad[..blocks * BLOCK] == rest + [0x80] + seq(at - n - 1, _ => 0) + Bytes(8, 8 * len % LENGTHS);
  }

  lemma FillerIs(len: nat, at: nat)
    requires at == if len % BLOCK < 56 then 56 else 120
    ensures Filler(len) == at - len % BLOCK - 1
  {
  }

  /** sha256: the digest of the blocks of the padded message. */
  method Hash(data: seq<byte>) returns (out: seq<bv8>)
    ensures out == Digest(Fold(INITIAL, Pad(data, 8 * |data| % LENGTHS)))
    ensures |data| < LENGTHS / 8 ==> out == Digest(Fold(INITIAL, Padded(data)))
  {
    hide Compress, Bytes, Filler, Fold, Digest;
    var full := |data| / BLOCK;
    var h := INITIAL;
    FoldNone(h);
    assert data[..0] == [];
    for i := 0 to full
      invariant h == Fold(INITIAL, data[..i * BLOCK])
    {
      var block := data[i * BLOCK..(i + 1) * BLOCK];
      FoldNext(INITIAL, data, i);
      h := ProcessBlock(block, h);
    }
    var pad, blocks := Tail(data[full * BLOCK..], |data|);
    PadSplit(data, full, pad, blocks);
    FoldConcat(INITIAL, data[..full * BLOCK], pad[..blocks * BLOCK]);
    ghost var start := h;
    FoldNone(start);
    assert pad[..0] == [];
    for i := 0 to blocks
      invariant h == Fold(start, pad[..i * BLOCK])
    {
      var block := pad[i * BLOCK..(i + 1) * BLOCK];
      FoldNext(start, pad, i);
      h := ProcessBlock(block, h);
    }
    out := Digest(h);
  }

  lemma FoldNone(h: Vars)
    ensures Fold(h, []) == h
  {
  }

  lemma FoldNext(h: Vars, m: seq<byte>, i: nat)
    requires (i + 1) * BLOCK <= |m|
    ensures Fold(h, m[..(i + 1) * BLOCK]) == Compress(Fold(h, m[..i * BLOCK]), m[i * BLOCK..(i + 1) * BLOCK])
  {
    hide Compress, Fold;
    var a, b := m[..i * BLOCK], m[i * BLOCK..(i + 1) * BLOCK];
    assert m[..(i + 1) * BLOCK] == a + b;
    FoldConcat(h, a, b);
    FoldOne(Fold(h, a), b);
  }

  lemma PadSplit(data: seq<byte>, full: nat, pad: seq<byte>, blocks: nat)
    requires full == |data| / BLOCK && 1 <= blocks <= 2 && |pad| == 128
    requires pad[..blocks * BLOCK] == data[full * BLOCK..] + [0x80] + seq(Filler(|data|), _ => 0) +
        Bytes(8, 8 * |data| % LENGTHS)
    ensures data[..full * BLOCK] + pad[..blocks * BLOCK] == Pad(data, 8 * |data| % LENGTHS)
    ensures |data[..full * BLOCK]| % BLOCK == 0
    ensures |data| < LENGTHS / 8 ==> Pad(data, 8 * |data| % LENGTHS) == Padded(data)
  {
    hide Bytes, Filler;
    var a, r := data[..full * BLOCK], data[full * BLOCK..];
    var z, l := seq(Filler(|data|), _ => 0 as byte), Bytes(8, 8 * |data| % LENGTHS);
    assert data == a + r;
    Regroup(a, r, z, l);
    LengthExact(|data|);
  }

  lemma Regroup(a: seq<byte>, r: seq<byte>, z: seq<byte>, l: seq<byte>)
    ensures a + (r + [0x80] + z + l) == a + r + [0x80] + z + l
  {
  }
}
