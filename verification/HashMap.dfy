/** The string hash map: FNV-1a hashes, chained buckets, doubling when three quarters full. */
module HashMap {
  import opened Options

  type Key = seq<bv8>

  const DEFAULT_CAPACITY: nat := 16

  /** One step of FNV-1a. */
  function Mix(h: bv32, b: bv8): bv32 {
    (h ^ (b as bv32)) * 16777619
  }

  /** The hash of the first n bytes. */
  function Fnv(key: Key, n: nat): bv32
    requires n <= |key|
  {
    if n == 0 then 2166136261 else Mix(Fnv(key, n - 1), key[n - 1])
  }

  function Hash(key: Key): nat {
    Fnv(key, |key|) as nat
  }

  /** The published values of FNV-1a for the empty string, "a" and "foobar". */
  lemma FnvValues()
    ensures Fnv([], 0) == 0x811c9dc5 && Fnv([0x61], 1) == 0xe40c292c
    ensures Fnv([0x66, 0x6f, 0x6f, 0x62, 0x61, 0x72], 6) == 0xbf9cf968
  {
    var k: Key := [0x66, 0x6f, 0x6f, 0x62, 0x61, 0x72];
    assert Fnv(k, 2) == Mix(Mix(0x811c9dc5, 0x66), 0x6f);
    assert Fnv(k, 4) == Mix(Mix(Fnv(k, 2), 0x6f), 0x62);
    assert Fnv(k, 6) == Mix(Mix(Fnv(k, 4), 0x61), 0x72);
  }

  /** hash_str. */
  method HashStr(key: Key) returns (h: nat)
    ensures h == Hash(key)
  {
    hide Mix;
    var x: bv32 := 2166136261;
    for i := 0 to |key|
      invariant x == Fnv(key, i)
    {
      x := Mix(x, key[i]);
    }
    h := x as nat;
  }

  datatype Entry = Entry(key: Key, value: nat, hash: nat)
  type Buckets = seq<seq<Entry>>

  // Buckets as a finite map.

  ghost predicate EntryOk(cap: nat, i: nat, e: Entry, m: map<Key, nat>) {
    cap > 0 && e.hash == Hash(e.key) && e.hash % cap == i && e.key in m && m[e.key] == e.value
  }

  ghost predicate KeysApart(b: seq<Entry>) {
    forall j, k | 0 <= j < k < |b| :: b[j].key != b[k].key
  }

  /** Bucket b holds the entry of the key. */
  ghost predicate Holds(b: seq<Entry>, key: Key) {
    exists j :: 0 <= j < |b| && b[j].key == key
  }

  /** Every entry lies in the bucket of its hash, once, and the entries are those of the map. */
  ghost predicate Rep(bs: Buckets, m: map<Key, nat>) {
    && |bs| > 0
    && (forall i, j {:trigger bs[i][j]} | 0 <= i < |bs| && 0 <= j < |bs[i]| :: EntryOk(|bs|, i, bs[i][j], m))
    && (forall i {:trigger bs[i]} | 0 <= i < |bs| :: KeysApart(bs[i]))
    && (forall key {:trigger key in m} | key in m :: Holds(bs[Hash(key) % |bs|], key))
  }

  lemma HomeBucket(bs: Buckets, m: map<Key, nat>, key: Key)
    requires Rep(bs, m)
    ensures Hash(key) % |bs| < |bs| && (Holds(bs[Hash(key) % |bs|], key) <==> key in m)
  {
    hide Hash;
    var i := Hash(key) % |bs|;
    if Holds(bs[i], key) {
      var j :| 0 <= j < |bs[i]| && bs[i][j].key == key;
      assert EntryOk(|bs|, i, bs[i][j], m);
    }
  }

  /** The loop over a chain that set, get, has and remove share. */
  method Find(b: seq<Entry>, key: Key, h: nat) returns (r: Option<nat>)
    requires h == Hash(key) && forall j | 0 <= j < |b| :: b[j].hash == Hash(b[j].key)
    ensures r.Some? ==> r.value < |b| && b[r.value].key == key
    ensures r.None? <==> !Holds(b, key)
  {
    hide Hash;
    for i := 0 to |b|
      invariant forall j | 0 <= j < i :: b[j].key != key
    {
      if b[i].hash == h && b[i].key == key { return Some(i); }
    }
    r := None;
  }

  lemma ChainHashes(bs: Buckets, m: map<Key, nat>, i: nat)
    requires Rep(bs, m) && i < |bs|
    ensures forall j | 0 <= j < |bs[i]| :: bs[i][j].hash == Hash(bs[i][j].key)
  {
    forall j | 0 <= j < |bs[i]| ensures bs[i][j].hash == Hash(bs[i][j].key) { assert EntryOk(|bs|, i, bs[i][j], m); }
  }

  /** A new key at the front of its chain. */
  lemma Insert(bs: Buckets, m: map<Key, nat>, e: Entry, bs': Buckets)
    requires Rep(bs, m) && e.hash == Hash(e.key) && e.key !in m && bs' == bs[e.hash % |bs| := [e] + bs[e.hash % |bs|]]
    ensures Rep(bs', m[e.key := e.value])
  {
    hide Hash;
    var x, m' := e.hash % |bs|, m[e.key := e.value];
    HomeBucket(bs, m, e.key);
    forall i, j | 0 <= i < |bs'| && 0 <= j < |bs'[i]| ensures EntryOk(|bs'|, i, bs'[i][j], m') {
      if i != x {
        assert EntryOk(|bs|, i, bs[i][j], m);
      } else if j > 0 {
        assert bs'[i][j] == bs[i][j - 1];
        assert EntryOk(|bs|, i, bs[i][j - 1], m);
      }
    }
    forall i | 0 <= i < |bs'| ensures KeysApart(bs'[i]) {
      assert KeysApart(bs[i]);
      if i == x { ApartPush(bs[x], e); }
    }
    forall key | key in m' ensures Holds(bs'[Hash(key) % |bs'|], key) {
      var i := Hash(key) % |bs|;
      if key == e.key {
        assert bs'[x][0].key == key;
      } else {
        assert key in m;
        var j :| 0 <= j < |bs[i]| && bs[i][j].key == key;
        assert bs'[i][if i == x then j + 1 else j].key == key;
      }
    }
  }

  lemma ApartPush(b: seq<Entry>, e: Entry)
    requires KeysApart(b) && !Holds(b, e.key)
    ensures KeysApart([e] + b)
  {
  }

  /** A new value for a key that is there. */
  lemma Update(bs: Buckets, m: map<Key, nat>, x: nat, k: nat, value: nat, bs': Buckets)
    requires Rep(bs, m) && x < |bs| && k < |bs[x]| && bs' == bs[x := bs[x][k := bs[x][k].(value := value)]]
    ensures bs[x][k].key in m && Rep(bs', m[bs[x][k].key := value])
  {
    hide Hash;
    var key := bs[x][k].key;
    var m' := m[key := value];
    assert EntryOk(|bs|, x, bs[x][k], m);
    forall i, j | 0 <= i < |bs'| && 0 <= j < |bs'[i]| ensures EntryOk(|bs'|, i, bs'[i][j], m') {
      assert EntryOk(|bs|, i, bs[i][j], m);
      if i == x && j != k { assert KeysApart(bs[x]); }
    }
    forall i | 0 <= i < |bs'| ensures KeysApart(bs'[i]) { assert KeysApart(bs[i]); }
    forall y | y in m' ensures Holds(bs'[Hash(y) % |bs'|], y) {
      var i := Hash(y) % |bs|;
      assert y in m;
      var j :| 0 <= j < |bs[i]| && bs[i][j].key == y;
      assert bs'[i][j].key == y;
    }
  }

  /** An entry leaves its chain. */
  lemma Delete(bs: Buckets, m: map<Key, nat>, x: nat, k: nat, bs': Buckets)
    requires Rep(bs, m) && x < |bs| && k < |bs[x]| && bs' == bs[x := bs[x][..k] + bs[x][k + 1..]]
    ensures bs[x][k].key in m && Rep(bs', m - {bs[x][k].key})
  {
    hide Hash;
    var key := bs[x][k].key;
    var m' := m - {key};
    assert EntryOk(|bs|, x, bs[x][k], m);
    forall i, j | 0 <= i < |bs'| && 0 <= j < |bs'[i]| ensures EntryOk(|bs'|, i, bs'[i][j], m') {
      var j' := if i == x && j >= k then j + 1 else j;
      assert bs'[i][j] == bs[i][j'];
      assert EntryOk(|bs|, i, bs[i][j'], m);
      if i == x { assert KeysApart(bs[x]); }
    }
    forall i | 0 <= i < |bs'| ensures KeysApart(bs'[i]) {
      assert KeysApart(bs[i]);
      if i == x { ApartCut(bs[x], k); }
    }
    forall y | y in m' ensures Holds(bs'[Hash(y) % |bs'|], y) {
      var i := Hash(y) % |bs|;
      assert y in m;
      var j :| 0 <= j < |bs[i]| && bs[i][j].key == y;
      assert bs'[i][if i == x && j > k then j - 1 else j].key == y;
    }
  }

  lemma ApartCut(b: seq<Entry>, k: nat)
    requires KeysApart(b) && k < |b|
    ensures KeysApart(b[..k] + b[k + 1..])
  {
    var c := b[..k] + b[k + 1..];
    forall i, j | 0 <= i < j < |c|
      ensures c[i].key != c[j].key
    {
      assert c[i] == b[if i < k then i else i + 1] && c[j] == b[if j < k then j else j + 1];
    }
  }

  // Rehashing.

  /** The entries before position (i, j) of the old buckets are those of the part that was moved. */
  ghost predicate MovedTo(bs: Buckets, m: map<Key, nat>, part: map<Key, nat>, i: nat, j: nat) {
    && (forall a, b {:trigger bs[a][b]} | 0 <= a < |bs| && 0 <= b < |bs[a]| ::
          bs[a][b].key in part <==> (a < i || (a == i && b < j)))
    && (forall key {:trigger key in part} | key in part :: key in m && part[key] == m[key])
  }

  /** rehash: every entry goes to the front of its chain among the new buckets; the map is the same. */
  method Rehash(bs: Buckets, cap: nat, ghost m: map<Key, nat>) returns (bs': Buckets)
    requires Rep(bs, m) && cap > 0
    ensures Rep(bs', m) && |bs'| == cap
  {
    hide Rep, MovedTo, Hash;
    bs' := seq(cap, _ => []);
    ghost var part: map<Key, nat> := map[];
    EmptyRep(cap);
    MoveStart(bs, m);
    for i := 0 to |bs|
      invariant Rep(bs', part) && |bs'| == cap && MovedTo(bs, m, part, i, 0)
    {
      for j := 0 to |bs[i]|
        invariant Rep(bs', part) && |bs'| == cap && MovedTo(bs, m, part, i, j)
      {
        var e := bs[i][j];
        var idx := e.hash % cap;
        MoveStep(bs, m, part, i, j);
        Insert(bs', part, e, bs'[idx := [e] + bs'[idx]]);
        bs' := bs'[idx := [e] + bs'[idx]];
        part := part[e.key := e.value];
      }
      MoveRow(bs, m, part, i);
    }
    MoveEnd(bs, m, part);
  }

  lemma EmptyRep(cap: nat)
    requires cap > 0
    ensures Rep(seq(cap, _ => []), map[])
  {
  }

  lemma MoveStart(bs: Buckets, m: map<Key, nat>)
    ensures MovedTo(bs, m, map[], 0, 0)
  {
  }

  lemma MoveStep(bs: Buckets, m: map<Key, nat>, part: map<Key, nat>, i: nat, j: nat)
    requires Rep(bs, m) && MovedTo(bs, m, part, i, j) && i < |bs| && j < |bs[i]|
    ensures var e := bs[i][j];
            && e.hash == Hash(e.key) && e.key !in part && MovedTo(bs, m, part[e.key := e.value], i, j + 1)
  {
    hide Hash;
    var e := bs[i][j];
    assert EntryOk(|bs|, i, e, m);
    forall a, b | 0 <= a < |bs| && 0 <= b < |bs[a]| && bs[a][b].key == e.key ensures a == i && b == j {
      assert EntryOk(|bs|, a, bs[a][b], m);
      assert KeysApart(bs[i]);
    }
  }

  lemma MoveRow(bs: Buckets, m: map<Key, nat>, part: map<Key, nat>, i: nat)
    requires i < |bs| && MovedTo(bs, m, part, i, |bs[i]|)
    ensures MovedTo(bs, m, part, i + 1, 0)
  {
  }

  lemma MoveEnd(bs: Buckets, m: map<Key, nat>, part: map<Key, nat>)
    requires Rep(bs, m) && MovedTo(bs, m, part, |bs|, 0)
    ensures part == m
  {
    hide Hash;
    forall key | key in m ensures key in part {
      HomeBucket(bs, m, key);
      var i := Hash(key) % |bs|;
      var j :| 0 <= j < |bs[i]| && bs[i][j].key == key;
    }
  }

  // The map as an object.

  class StringMap {
    var buckets: Buckets
    var size: nat
    ghost var contents: map<Key, nat>

    ghost predicate Valid()
      reads this
    {
      Rep(buckets, contents) && size == |contents|
    }

    constructor (capacity: nat)
      ensures Valid() && contents == map[] && |buckets| == if capacity == 0 then 16 else capacity
    {
      var cap := if capacity == 0 then DEFAULT_CAPACITY else capacity;
      buckets := seq(cap, _ => []);
      size, contents := 0, map[];
      EmptyRep(cap);
    }

    /** hashmap_set; `grow` and `room` say whether memory for the buckets and for the entry can be had.
        It fails exactly for a new key without room. */
    method Set(key: Key, value: nat, grow: bool, room: bool) returns (ok: bool)
      requires Valid()
      modifies this
      ensures Valid() && (ok <==> key in old(contents) || room)
      ensures contents == if ok then old(contents)[key := value] else old(contents)
      ensures |buckets| ==
                if 4 * old(size) + 3 >= 3 * |old(buckets)| && grow then 2 * |old(buckets)| else |old(buckets)|
    {
      hide Rep, Hash;
      HasBuckets(buckets, contents);
      if size >= |buckets| * 3 / 4 && grow {
        buckets := Rehash(buckets, |buckets| * 2, contents);
      }
      HasBuckets(buckets, contents);
      var h := HashStr(key);
      var idx := h % |buckets|;
      HomeBucket(buckets, contents, key);
      ChainHashes(buckets, contents, idx);
      var r := Find(buckets[idx], key, h);
      if r.Some? {
        var e: Entry := buckets[idx][r.value];
        var chain := buckets[idx][r.value := e.(value := value)];
        Update(buckets, contents, idx, r.value, value, buckets[idx := chain]);
        SameKeys(contents, key, value);
        buckets := buckets[idx := chain];
        contents := contents[key := value];
        return true;
      }
      if !room { return false; }
      var e := Entry(key, value, h);
      Insert(buckets, contents, e, buckets[idx := [e] + buckets[idx]]);
      buckets := buckets[idx := [e] + buckets[idx]];
      size := size + 1;
      contents := contents[key := value];
      ok := true;
    }

    /** hashmap_get: the value, or null. */
    method Get(key: Key) returns (value: nat)
      requires Valid()
      ensures value == if key in contents then contents[key] else 0
    {
      hide Rep, Hash;
      HasBuckets(buckets, contents);
      var h := HashStr(key);
      HomeBucket(buckets, contents, key);
      ChainHashes(buckets, contents, h % |buckets|);
      var r := Find(buckets[h % |buckets|], key, h);
      if r.None? { return 0; }
      ValueAt(buckets, contents, h % |buckets|, r.value);
      value := buckets[h % |buckets|][r.value].value;
    }

    method Has(key: Key) returns (found: bool)
      requires Valid()
      ensures found <==> key in contents
    {
      hide Rep, Hash;
      HasBuckets(buckets, contents);
      var h := HashStr(key);
      HomeBucket(buckets, contents, key);
      ChainHashes(buckets, contents, h % |buckets|);
      var r := Find(buckets[h % |buckets|], key, h);
      found := r.Some?;
    }

    method Remove(key: Key) returns (value: nat)
      requires Valid()
      modifies this
      ensures Valid() && contents == old(contents) - {key}
      ensures value == if key in old(contents) then old(contents)[key] else 0
    {
      hide Rep, Hash;
      HasBuckets(buckets, contents);
      var h := HashStr(key);
      var idx := h % |buckets|;
      HomeBucket(buckets, contents, key);
      ChainHashes(buckets, contents, idx);
      var r := Find(buckets[idx], key, h);
      if r.None? {
        assert contents - {key} == contents;
        return 0;
      }
      ValueAt(buckets, contents, idx, r.value);
      value := buckets[idx][r.value].value;
      Delete(buckets, contents, idx, r.value, buckets[idx := buckets[idx][..r.value] + buckets[idx][r.value + 1..]]);
      OneLess(contents, key);
      buckets := buckets[idx := buckets[idx][..r.value] + buckets[idx][r.value + 1..]];
      size := size - 1;
      contents := contents - {key};
    }
  }

  lemma HasBuckets(bs: Buckets, m: map<Key, nat>)
    requires Rep(bs, m)
    ensures |bs| > 0
  {
  }

  lemma ValueAt(bs: Buckets, m: map<Key, nat>, i: nat, j: nat)
    requires Rep(bs, m) && i < |bs| && j < |bs[i]|
    ensures bs[i][j].key in m && m[bs[i][j].key] == bs[i][j].value
  {
    assert EntryOk(|bs|, i, bs[i][j], m);
  }

  lemma SameKeys(m: map<Key, nat>, key: Key, value: nat)
    requires key in m
    ensures |m[key := value]| == |m|
  {
    assert m[key := value].Keys == m.Keys;
  }

  lemma OneLess(m: map<Key, nat>, key: Key)
    requires key in m
    ensures |m - {key}| == |m| - 1
  {
    assert (m - {key}).Keys == m.Keys - {key};
    assert |m| == |m.Keys|;
  }
}
