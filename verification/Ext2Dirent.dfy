/** Directory blocks: a chain of records, each giving its own length, that is split and merged in
    place. */
module Ext2Dirent {
  import opened Words

  datatype Entry = Entry(name: seq<byte>, ino: nat, kind: byte)

  /** The space a record with a name of n bytes needs: header plus name, rounded up to 4. */
  function Needed(n: nat): (r: nat)
    ensures r % 4 == 0 && 8 + n <= r <= 8 + n + 3
  {
    8 + (n + 3) / 4 * 4
  }

  function Ino(b: seq<byte>, pos: nat): nat
    requires pos + 8 <= |b|
  {
    Word(b, pos)
  }

  function RecLen(b: seq<byte>, pos: nat): (r: nat)
    requires pos + 8 <= |b|
    ensures r < U16
  {
    Half(b, pos + 4)
  }

  function NameLen(b: seq<byte>, pos: nat): nat
    requires pos + 8 <= |b|
  {
    b[pos + 6]
  }

  /** A well-formed record starts at pos: it has room for its name and stays inside the block. */
  predicate Record(b: seq<byte>, pos: nat) {
    && pos + 8 <= |b|
    && RecLen(b, pos) % 4 == 0
    && Needed(NameLen(b, pos)) <= RecLen(b, pos)
    && pos + RecLen(b, pos) <= |b|
  }

  function EntryAt(b: seq<byte>, pos: nat): Entry
    requires Record(b, pos)
  {
    Entry(b[pos + 8..pos + 8 + NameLen(b, pos)], Ino(b, pos), b[pos + 7])
  }

  /** Where the bytes of a record lie: number, length of the record, length of the name, kind, name. */
  lemma RecordLayout(b: seq<byte>, pos: nat)
    requires Record(b, pos)
    ensures var e, rec := EntryAt(b, pos), RecLen(b, pos);
            && e.ino % 0x100 == b[pos] && e.ino / 0x100 % 0x100 == b[pos + 1]
            && e.ino / 0x1_0000 % 0x100 == b[pos + 2] && e.ino / 0x100_0000 == b[pos + 3]
            && rec % 0x100 == b[pos + 4] && rec / 0x100 == b[pos + 5]
            && |e.name| == b[pos + 6] && e.kind == b[pos + 7]
            && forall i | 0 <= i < |e.name| :: e.name[i] == b[pos + 8 + i]
  {
    WordOrder(b, pos);
    HalfOrder(b, pos + 4);
  }

  /** From pos on, the block is exactly tiled by well-formed records. */
  predicate Chain(b: seq<byte>, pos: nat)
    decreases |b| - pos
  {
    pos == |b| || (Record(b, pos) && Chain(b, pos + RecLen(b, pos)))
  }

  /** The entries in use from pos on. */
  ghost function Bag(b: seq<byte>, pos: nat): multiset<Entry>
    requires Chain(b, pos)
    decreases |b| - pos
  {
    if pos == |b| then multiset{}
    else (if Ino(b, pos) != 0 then multiset{EntryAt(b, pos)} else multiset{}) + Bag(b, pos + RecLen(b, pos))
  }

  /** Following the chain from `from` leads to the record at `to`. */
  predicate Leads(b: seq<byte>, from: nat, to: nat)
    decreases |b| - from
  {
    from == to || (Record(b, from) && from + RecLen(b, from) <= to && Leads(b, from + RecLen(b, from), to))
  }

  /** The entries in use between from and to. */
  ghost function Segment(b: seq<byte>, from: nat, to: nat): multiset<Entry>
    requires Leads(b, from, to)
    decreases |b| - from
  {
    if from == to then multiset{}
    else (if Ino(b, from) != 0 then multiset{EntryAt(b, from)} else multiset{}) + Segment(b, from + RecLen(b, from), to)
  }

  lemma {:induction false} BagSplit(b: seq<byte>, from: nat, to: nat)
    requires Leads(b, from, to) && Chain(b, to)
    ensures Chain(b, from) && Bag(b, from) == Segment(b, from, to) + Bag(b, to)
    decreases |b| - from
  {
    if from != to { BagSplit(b, from + RecLen(b, from), to); }
  }

  lemma {:induction false} LeadsStep(b: seq<byte>, from: nat, to: nat)
    requires Leads(b, from, to) && Record(b, to)
    ensures Leads(b, from, to + RecLen(b, to))
    ensures Segment(b, from, to + RecLen(b, to)) ==
            Segment(b, from, to) + if Ino(b, to) != 0 then multiset{EntryAt(b, to)} else multiset{}
    decreases |b| - from
  {
    if from == to { assert Leads(b, to + RecLen(b, to), to + RecLen(b, to)); }
    else { LeadsStep(b, from + RecLen(b, from), to); }
  }

  predicate Agree(b: seq<byte>, b': seq<byte>, lo: nat, hi: nat) {
    |b'| == |b| && hi <= |b| && forall i | lo <= i < hi :: b'[i] == b[i]
  }

  /** A record that lies where the blocks agree is the same in both. */
  lemma RecordFrame(b: seq<byte>, b': seq<byte>, pos: nat, hi: nat)
    requires Agree(b, b', pos, hi) && pos + 8 <= hi
    ensures RecLen(b', pos) == RecLen(b, pos) && NameLen(b', pos) == NameLen(b, pos) && Ino(b', pos) == Ino(b, pos)
    ensures Record(b', pos) == Record(b, pos)
    ensures Record(b, pos) && pos + RecLen(b, pos) <= hi ==> EntryAt(b', pos) == EntryAt(b, pos)
  {
  }

  /** What comes before a change is untouched. */
  lemma {:induction false} LeadsFrame(b: seq<byte>, b': seq<byte>, from: nat, to: nat)
    requires Leads(b, from, to) && Agree(b, b', from, to)
    ensures Leads(b', from, to) && Segment(b', from, to) == Segment(b, from, to)
    decreases |b| - from
  {
    if from != to {
      RecordFrame(b, b', from, to);
      LeadsFrame(b, b', from + RecLen(b, from), to);
    }
  }

  /** What comes after a change is untouched. */
  lemma {:induction false} ChainFrame(b: seq<byte>, b': seq<byte>, pos: nat)
    requires Chain(b, pos) && Agree(b, b', pos, |b|)
    ensures Chain(b', pos) && Bag(b', pos) == Bag(b, pos)
    decreases |b| - pos
  {
    if pos != |b| {
      RecordFrame(b, b', pos, |b|);
      ChainFrame(b, b', pos + RecLen(b, pos));
    }
  }

  // The three ways a block is changed.

  /** Writes a whole record header and name at pos. */
  function PutEntry(b: seq<byte>, pos: nat, e: Entry, rec: nat): (r: seq<byte>)
    requires |e.name| < 256 && pos + 8 + |e.name| <= |b| && e.ino < U32 && rec < U16
    ensures |r| == |b|
  {
    var len: byte := |e.name|;
    b[..pos] + WordBytes(e.ino) + HalfBytes(rec) + [len, e.kind] + e.name + b[pos + 8 + |e.name|..]
  }

  function SetRec(b: seq<byte>, pos: nat, rec: nat): (r: seq<byte>)
    requires pos + 8 <= |b| && rec < U16
    ensures |r| == |b|
  {
    b[..pos + 4] + HalfBytes(rec) + b[pos + 6..]
  }

  lemma PutEntryReads(b: seq<byte>, pos: nat, e: Entry, rec: nat)
    requires |e.name| < 256 && pos + 8 + |e.name| <= |b| && e.ino < U32 && rec < U16
    ensures var r := PutEntry(b, pos, e, rec);
            && Agree(b, r, 0, pos) && Agree(b, r, pos + 8 + |e.name|, |b|)
            && Ino(r, pos) == e.ino && RecLen(r, pos) == rec && NameLen(r, pos) == |e.name| && r[pos + 7] == e.kind
            && r[pos + 8..pos + 8 + |e.name|] == e.name
  {
    var r := PutEntry(b, pos, e, rec);
    assert r[pos..pos + 4] == WordBytes(e.ino);
    assert Word(r, pos) == Word(r[pos..pos + 4], 0);
    assert r[pos + 4..pos + 6] == HalfBytes(rec);
    assert Half(r, pos + 4) == Half(r[pos + 4..pos + 6], 0);
  }

  lemma SetRecReads(b: seq<byte>, pos: nat, rec: nat)
    requires pos + 8 <= |b| && rec < U16
    ensures var r := SetRec(b, pos, rec);
            && Agree(b, r, 0, pos + 4) && Agree(b, r, pos + 6, |b|)
            && Ino(r, pos) == Ino(b, pos) && RecLen(r, pos) == rec && NameLen(r, pos) == NameLen(b, pos)
  {
    var r := SetRec(b, pos, rec);
    assert r[pos + 4..pos + 6] == HalfBytes(rec);
    assert Half(r, pos + 4) == Half(r[pos + 4..pos + 6], 0);
  }

  // Their effect on the entries of the block.

  /** Two blocks that agree outside [pos, next) differ by the entries in between. */
  lemma Rewritten(b: seq<byte>, r: seq<byte>, pos: nat, next: nat, was: multiset<Entry>, now: multiset<Entry>)
    requires Leads(b, 0, pos) && Agree(b, r, 0, pos) && next <= |b| && Agree(b, r, next, |b|)
    requires Chain(b, pos) && Chain(b, next) && Bag(b, pos) == was + Bag(b, next)
    requires Chain(r, next) ==> Chain(r, pos) && Bag(r, pos) == now + Bag(r, next)
    ensures Chain(b, 0) && Chain(r, 0) && Bag(r, 0) + was == Bag(b, 0) + now
  {
    hide Bag, Segment, Chain, Leads;
    ChainFrame(b, r, next);
    LeadsFrame(b, r, 0, pos);
    BagSplit(b, 0, pos);
    BagSplit(r, 0, pos);
  }

  lemma Cancel(x: multiset<Entry>, y: multiset<Entry>, a: multiset<Entry>, c: multiset<Entry>)
    requires x + a == y + (a + c)
    ensures x == y + c
  {
    forall e ensures x[e] == (y + c)[e] { assert (x + a)[e] == (y + (a + c))[e]; }
  }

  ghost function Here(b: seq<byte>, pos: nat): multiset<Entry>
    requires Record(b, pos)
  {
    if Ino(b, pos) != 0 then multiset{EntryAt(b, pos)} else multiset{}
  }

  lemma BagHere(b: seq<byte>, pos: nat)
    requires pos < |b|
    ensures Chain(b, pos) <==> Record(b, pos) && Chain(b, pos + RecLen(b, pos))
    ensures Chain(b, pos) ==> Bag(b, pos) == Here(b, pos) + Bag(b, pos + RecLen(b, pos))
  {
  }

  /** An unused record takes the new entry. */
  lemma ReuseEffect(b: seq<byte>, pos: nat, e: Entry, r: seq<byte>)
    requires Leads(b, 0, pos) && Chain(b, pos) && pos < |b| && Ino(b, pos) == 0
    requires |e.name| < 256 && 0 < e.ino < U32 && Needed(|e.name|) <= RecLen(b, pos)
    requires r == PutEntry(b, pos, e, RecLen(b, pos))
    ensures Chain(b, 0) && Chain(r, 0) && Bag(r, 0) == Bag(b, 0) + multiset{e}
  {
    hide PutEntry, Bag, Chain, Leads, Ino, RecLen, NameLen, Needed, Agree;
    BagHere(b, pos);
    BagHere(r, pos);
    PutEntryReads(b, pos, e, RecLen(b, pos));
    NeededRoom(|e.name|);
    AgreeShrink(b, r, pos + 8 + |e.name|, pos + RecLen(b, pos), |b|);
    assert Record(r, pos) && Here(r, pos) == multiset{e};
    Rewritten(b, r, pos, pos + RecLen(b, pos), multiset{}, multiset{e});
  }

  lemma NeededRoom(n: nat)
    ensures Needed(n) >= 8 + n
  {
  }

  lemma AgreeShrink(b: seq<byte>, r: seq<byte>, lo: nat, lo': nat, hi: nat)
    requires Agree(b, r, lo, hi) && lo <= lo'
    ensures Agree(b, r, lo', hi)
  {
  }

  /** A record in use gives up its slack to the new entry. */
  lemma SplitEffect(b: seq<byte>, pos: nat, e: Entry, b1: seq<byte>, r: seq<byte>)
    requires Leads(b, 0, pos) && Chain(b, pos) && pos < |b| && Ino(b, pos) != 0
    requires |e.name| < 256 && 0 < e.ino < U32 && Needed(NameLen(b, pos)) + Needed(|e.name|) <= RecLen(b, pos)
    requires b1 == SetRec(b, pos, Needed(NameLen(b, pos)))
    requires r == PutEntry(b1, pos + Needed(NameLen(b, pos)), e, RecLen(b, pos) - Needed(NameLen(b, pos)))
    ensures Chain(b, 0) && Chain(r, 0) && Bag(r, 0) == Bag(b, 0) + multiset{e}
  {
    hide PutEntry, SetRec, Bag, Chain, Leads, Ino, RecLen, NameLen, Needed;
    BagHere(b, pos);
    var own, rec := Needed(NameLen(b, pos)), RecLen(b, pos);
    BagHere(r, pos);
    BagHere(r, pos + own);
    NeededRoom(NameLen(b, pos));
    NeededRoom(|e.name|);
    SetRecReads(b, pos, own);
    PutEntryReads(b1, pos + own, e, rec - own);
    RecordFrame(b1, r, pos, pos + own);
    SplitRecords(b, b1, r, pos, own, e);
    Rewritten(b, r, pos, pos + rec, Here(b, pos), Here(b, pos) + multiset{e});
    Cancel(Bag(r, 0), Bag(b, 0), Here(b, pos), multiset{e});
  }

  /** After a split both records are well formed; the first keeps its entry, the second holds e. */
  lemma SplitRecords(b: seq<byte>, b1: seq<byte>, r: seq<byte>, pos: nat, own: nat, e: Entry)
    requires Record(b, pos) && own == Needed(NameLen(b, pos)) && own + Needed(|e.name|) <= RecLen(b, pos) && e.ino != 0
    requires Agree(b, b1, pos + 6, |b|) && Agree(b, b1, 0, pos + 4) && Agree(b1, r, 0, pos + own)
    requires pos + 8 <= pos + own && RecLen(r, pos) == own && Ino(r, pos) == Ino(b, pos)
    requires NameLen(r, pos) == NameLen(b, pos)
    requires pos + own + 8 + |e.name| <= |b| && NameLen(r, pos + own) == |e.name|
    requires RecLen(r, pos + own) == RecLen(b, pos) - own
    requires Ino(r, pos + own) == e.ino && r[pos + own + 7] == e.kind
    requires r[pos + own + 8..pos + own + 8 + |e.name|] == e.name
    ensures Record(r, pos) && Here(r, pos) == Here(b, pos)
    ensures Record(r, pos + own) && Here(r, pos + own) == multiset{e}
  {
    hide Ino, RecLen, NameLen;
    assert EntryAt(r, pos).name == EntryAt(b, pos).name;
  }

  /** A removed record is merged into the one before it. */
  lemma MergeEffect(b: seq<byte>, prev: nat, pos: nat, r: seq<byte>)
    requires Leads(b, 0, prev) && Record(b, prev) && pos == prev + RecLen(b, prev) && Chain(b, pos) && pos < |b| < U16
    requires Ino(b, pos) != 0 && r == SetRec(b, prev, RecLen(b, prev) + RecLen(b, pos))
    ensures Chain(b, 0) && Chain(r, 0) && Bag(b, 0) == Bag(r, 0) + multiset{EntryAt(b, pos)}
  {
    hide SetRec, Bag, Chain, Leads, Ino, RecLen, NameLen, Needed;
    BagHere(b, pos);
    var rec := RecLen(b, prev) + RecLen(b, pos);
    BagHere(b, prev);
    BagHere(r, prev);
    NeededRoom(NameLen(b, prev));
    SetRecReads(b, prev, rec);
    assert Record(r, prev) && EntryAt(r, prev).name == EntryAt(b, prev).name;
    Rewritten(b, r, prev, prev + rec, Here(b, prev) + Here(b, pos), Here(b, prev));
    Cancel(Bag(b, 0), Bag(r, 0), Here(b, prev), Here(b, pos));
  }

  /** The first record of a block has none before it, so it is marked unused. */
  lemma ClearEffect(b: seq<byte>, r: seq<byte>)
    requires Chain(b, 0) && 0 < |b| && Ino(b, 0) != 0 && r == PutWord(b, 0, 0)
    ensures Chain(r, 0) && Bag(b, 0) == Bag(r, 0) + multiset{EntryAt(b, 0)}
  {
    hide Bag, Chain, Needed, RecLen, Ino, NameLen, PutWord, Agree;
    BagHere(b, 0);
    BagHere(r, 0);
    ClearedHead(b, r);
    AgreeShrink(b, r, 4, RecLen(b, 0), |b|);
    ChainFrame(b, r, RecLen(b, 0));
  }

  /** Clearing the inode number leaves the rest of the record as it was. */
  lemma ClearedHead(b: seq<byte>, r: seq<byte>)
    requires 8 <= |b| && r == PutWord(b, 0, 0)
    ensures |r| == |b| && Agree(b, r, 4, |b|) && Ino(r, 0) == 0 && RecLen(r, 0) == RecLen(b, 0)
    ensures NameLen(r, 0) == NameLen(b, 0)
    ensures Record(r, 0) == Record(b, 0)
  {
    assert r[0..4] == WordBytes(0);
    assert Word(r, 0) == Word(r[0..4], 0);
  }

  // The scans of the driver.

  /** Names are stored with an 8-bit length: what is kept of a name. */
  function Short(name: seq<byte>): (r: seq<byte>)
    ensures |r| < 256 && r <= name && (|name| - |r|) % 256 == 0
    ensures r == name <==> |name| < 256
  {
    name[..|name| % 256]
  }

  /** The record at pos can take a name that needs `needed` bytes. */
  predicate HasRoom(b: seq<byte>, pos: nat, needed: nat)
    requires pos + 8 <= |b|
  {
    if Ino(b, pos) == 0 then RecLen(b, pos) >= needed else RecLen(b, pos) - Needed(NameLen(b, pos)) >= needed
  }

  /** No record from pos on has room. */
  predicate Crowded(b: seq<byte>, pos: nat, needed: nat)
    requires Chain(b, pos)
    decreases |b| - pos
  {
    pos == |b| || (!HasRoom(b, pos, needed) && Crowded(b, pos + RecLen(b, pos), needed))
  }

  /** Entry e went into the record at pos, the first with room, and nothing outside that record changed: an unused
      record takes it whole, one in use keeps its entry and gives up its slack. */
  ghost predicate PlacedAt(b: seq<byte>, b': seq<byte>, pos: nat, e: Entry) {
    && Leads(b, 0, pos) && Record(b, pos) && CrowdTo(b, 0, pos, Needed(|e.name|)) && HasRoom(b, pos, Needed(|e.name|))
    && Agree(b, b', 0, pos) && Agree(b, b', pos + RecLen(b, pos), |b|)
    && var at := if Ino(b, pos) == 0 then pos else pos + Needed(NameLen(b, pos));
       && Record(b', at) && EntryAt(b', at) == e && at + RecLen(b', at) == pos + RecLen(b, pos)
       && (at != pos ==> Record(b', pos) && EntryAt(b', pos) == EntryAt(b, pos) && pos + RecLen(b', pos) == at)
  }

  lemma ReusePlaced(b: seq<byte>, pos: nat, e: Entry, r: seq<byte>)
    requires Leads(b, 0, pos) && Record(b, pos) && Ino(b, pos) == 0 && CrowdTo(b, 0, pos, Needed(|e.name|))
    requires |e.name| < 256 && 0 < e.ino < U32 && Needed(|e.name|) <= RecLen(b, pos)
    requires r == PutEntry(b, pos, e, RecLen(b, pos))
    ensures PlacedAt(b, r, pos, e)
  {
    hide PutEntry, Leads, Ino, RecLen, NameLen, Needed, CrowdTo;
    PutEntryReads(b, pos, e, RecLen(b, pos));
    NeededRoom(|e.name|);
    AgreeShrink(b, r, pos + 8 + |e.name|, pos + RecLen(b, pos), |b|);
  }

  lemma SplitPlaced(b: seq<byte>, pos: nat, e: Entry, b1: seq<byte>, r: seq<byte>)
    requires Leads(b, 0, pos) && Record(b, pos) && Ino(b, pos) != 0 && CrowdTo(b, 0, pos, Needed(|e.name|))
    requires |e.name| < 256 && 0 < e.ino < U32 && Needed(NameLen(b, pos)) + Needed(|e.name|) <= RecLen(b, pos)
    requires b1 == SetRec(b, pos, Needed(NameLen(b, pos)))
    requires r == PutEntry(b1, pos + Needed(NameLen(b, pos)), e, RecLen(b, pos) - Needed(NameLen(b, pos)))
    ensures PlacedAt(b, r, pos, e)
  {
    hide PutEntry, SetRec, Leads, Ino, RecLen, NameLen, Needed, CrowdTo;
    var own, rec := Needed(NameLen(b, pos)), RecLen(b, pos);
    NeededRoom(NameLen(b, pos));
    NeededRoom(|e.name|);
    SetRecReads(b, pos, own);
    PutEntryReads(b1, pos + own, e, rec - own);
    RecordFrame(b1, r, pos, pos + own);
    SplitRecords(b, b1, r, pos, own, e);
  }

  lemma CrowdNone(b: seq<byte>, needed: nat)
    ensures Leads(b, 0, 0) && CrowdTo(b, 0, 0, needed)
  {
  }

  lemma {:induction false} CrowdToStep(b: seq<byte>, from: nat, to: nat, needed: nat)
    requires Leads(b, from, to) && Record(b, to) && CrowdTo(b, from, to, needed) && !HasRoom(b, to, needed)
    ensures Leads(b, from, to + RecLen(b, to)) && CrowdTo(b, from, to + RecLen(b, to), needed)
    decreases |b| - from
  {
    LeadsStep(b, from, to);
    if from != to { CrowdToStep(b, from + RecLen(b, from), to, needed); }
  }

  /** The inner loop of dir_append_entry: put the entry into the first record with room. */
  method AppendInBlock(b: seq<byte>, ino: nat, name: seq<byte>, kind: byte) returns (done: bool, b': seq<byte>)
    requires Chain(b, 0) && |b| < U16 && 0 < ino < U32
    ensures |b'| == |b| && Chain(b', 0)
    ensures done ==> Bag(b', 0) == Bag(b, 0) + multiset{Entry(Short(name), ino, kind)}
    ensures !done ==> b' == b
    ensures done <==> !Crowded(b, 0, Needed(|Short(name)|))
    ensures done ==> exists pos: nat :: PlacedAt(b, b', pos, Entry(Short(name), ino, kind))
  {
    hide PlacedAt, CrowdTo;
    hide PutEntry, SetRec, Bag, Chain, RecLen, Ino, NameLen, Crowded, Needed, Short;
    var e := Entry(Short(name), ino, kind);
    var needed := Needed(|e.name|);
    var pos := 0;
    CrowdNone(b, needed);
    while pos < |b|
      invariant pos <= |b| && Leads(b, 0, pos) && Chain(b, pos)
      invariant Crowded(b, 0, needed) <==> Crowded(b, pos, needed)
      invariant CrowdTo(b, 0, pos, needed)
      decreases |b| - pos
    {
      ScanStep(b, pos, []);
      CrowdStep(b, pos, needed);
      var own := Needed(NameLen(b, pos));
      if Ino(b, pos) == 0 {
        if RecLen(b, pos) >= needed {
          b' := PutEntry(b, pos, e, RecLen(b, pos));
          ReuseEffect(b, pos, e, b');
          ReusePlaced(b, pos, e, b');
          return true, b';
        }
      } else if RecLen(b, pos) - own >= needed {
        var b1 := SetRec(b, pos, own);
        b' := PutEntry(b1, pos + own, e, RecLen(b, pos) - own);
        SplitEffect(b, pos, e, b1, b');
        SplitPlaced(b, pos, e, b1, b');
        return true, b';
      }
      CrowdToStep(b, 0, pos, needed);
      pos := pos + RecLen(b, pos);
    }
    CrowdStep(b, pos, needed);
    return false, b;
  }

  lemma CrowdStep(b: seq<byte>, pos: nat, needed: nat)
    requires Chain(b, pos)
    ensures pos >= |b| ==> Crowded(b, pos, needed)
    ensures pos < |b| ==> Record(b, pos) && Chain(b, pos + RecLen(b, pos))
    ensures pos < |b| ==>
        (Crowded(b, pos, needed) <==> !HasRoom(b, pos, needed) && Crowded(b, pos + RecLen(b, pos), needed))
    ensures pos < |b| ==> pos + 8 + (RecLen(b, pos) - 8) <= |b| && 8 <= Needed(NameLen(b, pos)) <= RecLen(b, pos)
  {
  }

  /** The name at pos is the one looked for. */
  predicate Matches(b: seq<byte>, pos: nat, name: seq<byte>)
    requires Record(b, pos)
  {
    Ino(b, pos) != 0 && NameLen(b, pos) == |name| && b[pos + 8..pos + 8 + NameLen(b, pos)] == name
  }

  ghost predicate NameIn(bag: multiset<Entry>, name: seq<byte>) {
    exists e :: e in bag && e.name == name
  }

  /** Looking at the record at pos: it is the entry looked for, or the search goes on behind it. */
  lemma ScanStep(b: seq<byte>, pos: nat, name: seq<byte>)
    requires Leads(b, 0, pos) && Chain(b, pos) && pos < |b|
    ensures Record(b, pos) && Chain(b, pos + RecLen(b, pos)) && Leads(b, 0, pos + RecLen(b, pos))
    ensures RecLen(b, pos) > 0 && pos + RecLen(b, pos) <= |b|
    ensures Chain(b, 0)
    ensures Matches(b, pos, name) ==>
        EntryAt(b, pos) in Bag(b, 0) && EntryAt(b, pos).name == name && NameIn(Bag(b, pos), name)
    ensures !Matches(b, pos, name) ==> (NameIn(Bag(b, pos), name) <==> NameIn(Bag(b, pos + RecLen(b, pos)), name))
  {
    hide Leads, Segment, Chain, Bag, RecLen, Ino, NameIn;
    BagSplit(b, 0, pos);
    BagHere(b, pos);
    LeadsStep(b, 0, pos);
    NeededRoom(NameLen(b, pos));
    NameInSum(Here(b, pos), Bag(b, pos + RecLen(b, pos)), name);
    HereName(b, pos, name);
  }

  lemma NameInSum(x: multiset<Entry>, y: multiset<Entry>, name: seq<byte>)
    ensures NameIn(x + y, name) <==> NameIn(x, name) || NameIn(y, name)
  {
    if NameIn(x, name) {
      var e :| e in x && e.name == name;
      assert e in x + y;
    }
    if NameIn(y, name) {
      var e :| e in y && e.name == name;
      assert e in x + y;
    }
  }

  lemma HereName(b: seq<byte>, pos: nat, name: seq<byte>)
    requires Record(b, pos)
    ensures NameIn(Here(b, pos), name) <==> Matches(b, pos, name)
    ensures Matches(b, pos, name) ==> EntryAt(b, pos) in Here(b, pos) && EntryAt(b, pos).name == name
  {
    hide Ino, RecLen, NameLen;
    if Matches(b, pos, name) { assert EntryAt(b, pos) in Here(b, pos); }
  }

  /** The block without the first record, from pos on, that has the name; prev is the record before pos. */
  function CutFrom(b: seq<byte>, prev: nat, pos: nat, name: seq<byte>): (r: seq<byte>)
    requires Chain(b, pos) && |b| < U16
    requires pos > 0 ==> prev + 8 <= |b| && prev + RecLen(b, prev) == pos
    ensures |r| == |b|
    decreases |b| - pos
  {
    if pos == |b| then b
    else if !Matches(b, pos, name) then CutFrom(b, pos, pos + RecLen(b, pos), name)
    else if pos == 0 then PutWord(b, 0, 0)
    else SetRec(b, prev, RecLen(b, prev) + RecLen(b, pos))
  }

  /** The block after dir_remove_entry: the record with the name is merged into the one before it, or
      marked unused when it is the first. */
  function Cut(b: seq<byte>, name: seq<byte>): (r: seq<byte>)
    requires Chain(b, 0) && |b| < U16
    ensures |r| == |b|
  {
    CutFrom(b, 0, 0, name)
  }

  /** The inner loop of dir_remove_entry: drop the first record with the name. */
  method RemoveInBlock(b: seq<byte>, name: seq<byte>) returns (found: bool, b': seq<byte>, ino: nat, ghost e: Entry)
    requires Chain(b, 0) && |b| < U16
    ensures |b'| == |b| && Chain(b', 0)
    ensures found <==> NameIn(Bag(b, 0), Short(name))
    ensures found ==> e.name == Short(name) && e.ino == ino != 0 && Bag(b, 0) == Bag(b', 0) + multiset{e}
    ensures !found ==> b' == b
    ensures b' == Cut(b, Short(name))
  {
    hide Chain, Bag, NameIn, RecLen, PutWord, SetRec, Short, Ino, NameLen, Needed, CutFrom;
    var short := Short(name);
    var pos: nat, prev: nat, first := 0, 0, true;
    e := Entry([], 0, 0);
    while pos < |b|
      invariant pos <= |b| && Leads(b, 0, pos) && Chain(b, pos)
      invariant first <==> pos == 0
      invariant !first ==> Leads(b, 0, prev) && Record(b, prev) && pos == prev + RecLen(b, prev)
      invariant NameIn(Bag(b, 0), short) <==> NameIn(Bag(b, pos), short)
      invariant CutFrom(b, prev, pos, short) == Cut(b, short)
      decreases |b| - pos
    {
      ScanStep(b, pos, short);
      CutStep(b, prev, pos, short);
      if Matches(b, pos, short) {
        e, ino := EntryAt(b, pos), Ino(b, pos);
        if !first {
          b' := SetRec(b, prev, RecLen(b, prev) + RecLen(b, pos));
          MergeEffect(b, prev, pos, b');
        } else {
          b' := PutWord(b, 0, 0);
          ClearEffect(b, b');
        }
        return true, b', ino, e;
      }
      prev, first := pos, false;
      pos := pos + RecLen(b, pos);
    }
    EmptyEnd(b, pos, short);
    CutStep(b, prev, pos, short);
    return false, b, 0, e;
  }

  lemma CutStep(b: seq<byte>, prev: nat, pos: nat, name: seq<byte>)
    requires Chain(b, pos) && |b| < U16 && pos <= |b| && (pos > 0 ==> prev + 8 <= |b| && prev + RecLen(b, prev) == pos)
    ensures pos == |b| ==> CutFrom(b, prev, pos, name) == b
    ensures pos < |b| ==> Record(b, pos) && Chain(b, pos + RecLen(b, pos)) && pos + RecLen(b, pos) <= |b|
    ensures pos < |b| && !Matches(b, pos, name) ==>
        CutFrom(b, prev, pos, name) == CutFrom(b, pos, pos + RecLen(b, pos), name)
    ensures pos < |b| && Matches(b, pos, name) ==>
            CutFrom(b, prev, pos, name) == if pos == 0 then PutWord(b, 0, 0)
                else SetRec(b, prev, RecLen(b, prev) + RecLen(b, pos))
  {
  }

  // Removing a record never takes room away, and leaves room for a name as long as the removed one.

  /** No record between from and to has room. */
  predicate CrowdTo(b: seq<byte>, from: nat, to: nat, needed: nat)
    requires Leads(b, from, to)
    decreases |b| - from
  {
    from == to || (!HasRoom(b, from, needed) && CrowdTo(b, from + RecLen(b, from), to, needed))
  }

  lemma {:induction false} CrowdSplit(b: seq<byte>, from: nat, to: nat, needed: nat)
    requires Leads(b, from, to) && Chain(b, to)
    ensures Chain(b, from) && (Crowded(b, from, needed) <==> CrowdTo(b, from, to, needed) && Crowded(b, to, needed))
    decreases |b| - from
  {
    if from != to { CrowdSplit(b, from + RecLen(b, from), to, needed); }
  }

  lemma {:induction false} CrowdToFrame(b: seq<byte>, b': seq<byte>, from: nat, to: nat, needed: nat)
    requires Leads(b, from, to) && Agree(b, b', from, to)
    ensures Leads(b', from, to) && (CrowdTo(b', from, to, needed) <==> CrowdTo(b, from, to, needed))
    decreases |b| - from
  {
    if from != to {
      RecordFrame(b, b', from, to);
      CrowdToFrame(b, b', from + RecLen(b, from), to, needed);
    }
  }

  lemma {:induction false} CrowdFrame(b: seq<byte>, b': seq<byte>, pos: nat, needed: nat)
    requires Chain(b, pos) && Agree(b, b', pos, |b|)
    ensures Chain(b', pos) && (Crowded(b', pos, needed) <==> Crowded(b, pos, needed))
    decreases |b| - pos
  {
    if pos != |b| {
      RecordFrame(b, b', pos, |b|);
      CrowdFrame(b, b', pos + RecLen(b, pos), needed);
    }
  }

  lemma {:induction false} CrowdMore(b: seq<byte>, pos: nat, needed: nat, more: nat)
    requires Chain(b, pos) && Crowded(b, pos, needed) && needed <= more
    ensures Crowded(b, pos, more)
    decreases |b| - pos
  {
    if pos != |b| { CrowdMore(b, pos + RecLen(b, pos), needed, more); }
  }

  /** Room after a merge: only the record merged into has changed, and it gained the whole removed record. */
  lemma MergeRoom(b: seq<byte>, prev: nat, pos: nat, r: seq<byte>, needed: nat)
    requires Leads(b, 0, prev) && Record(b, prev) && pos == prev + RecLen(b, prev) && Chain(b, pos) && pos < |b| < U16
    requires Ino(b, pos) != 0 && r == SetRec(b, prev, RecLen(b, prev) + RecLen(b, pos))
    ensures Chain(b, 0) && Chain(r, 0)
    ensures Crowded(r, 0, needed) ==> Crowded(b, 0, needed) && RecLen(b, pos) < needed
  {
    hide SetRec, Chain, Leads, Ino, RecLen, NameLen, Needed, Crowded, CrowdTo, Bag, Agree, HasRoom;
    BagHere(b, prev);
    CrowdStep(b, prev, needed);
    CrowdStep(b, pos, needed);
    var next := pos + RecLen(b, pos);
    CrowdSplit(b, 0, prev, needed);
    SetRecReads(b, prev, RecLen(b, prev) + RecLen(b, pos));
    AgreeCut(b, r, 0, prev, prev + 4);
    AgreeShrink(b, r, prev + 6, next, |b|);
    CrowdToFrame(b, r, 0, prev, needed);
    CrowdFrame(b, r, next, needed);
    BagHere(r, prev);
    CrowdStep(r, prev, needed);
    CrowdSplit(r, 0, prev, needed);
    MergedRoom(b, prev, pos, r, needed);
  }

  lemma MergedRoom(b: seq<byte>, prev: nat, pos: nat, r: seq<byte>, needed: nat)
    requires Record(b, prev) && Record(b, pos) && |r| == |b| && Ino(b, pos) != 0
    requires Ino(r, prev) == Ino(b, prev) && NameLen(r, prev) == NameLen(b, prev)
    requires RecLen(r, prev) == RecLen(b, prev) + RecLen(b, pos)
    ensures HasRoom(b, prev, needed) || HasRoom(b, pos, needed) || needed <= RecLen(b, pos) ==> HasRoom(r, prev, needed)
  {
    hide Ino, RecLen, NameLen, Needed;
  }

  lemma AgreeCut(b: seq<byte>, r: seq<byte>, lo: nat, hi: nat, hi': nat)
    requires Agree(b, r, lo, hi') && hi <= hi'
    ensures Agree(b, r, lo, hi)
  {
  }

  /** Room after the first record was marked unused: it has its whole length to offer. */
  lemma ClearRoom(b: seq<byte>, r: seq<byte>, needed: nat)
    requires Chain(b, 0) && 0 < |b| && Ino(b, 0) != 0 && r == PutWord(b, 0, 0)
    ensures Chain(r, 0)
    ensures Crowded(r, 0, needed) ==> Crowded(b, 0, needed) && RecLen(b, 0) < needed
  {
    hide Chain, Needed, Crowded, Bag, RecLen, Ino, NameLen, PutWord, Agree;
    ClearEffect(b, r);
    CrowdStep(b, 0, needed);
    ClearedHead(b, r);
    CrowdStep(r, 0, needed);
    AgreeShrink(b, r, 4, RecLen(b, 0), |b|);
    CrowdFrame(b, r, RecLen(b, 0), needed);
  }

  lemma {:induction false} CutFromRoom(b: seq<byte>, prev: nat, pos: nat, name: seq<byte>, needed: nat)
    requires Leads(b, 0, pos) && Chain(b, pos) && |b| < U16 && pos <= |b|
    requires pos > 0 ==> Leads(b, 0, prev) && Record(b, prev) && prev + RecLen(b, prev) == pos
    ensures Chain(b, 0) && Chain(CutFrom(b, prev, pos, name), 0)
    ensures Crowded(CutFrom(b, prev, pos, name), 0, needed) ==> Crowded(b, 0, needed)
    ensures NameIn(Bag(b, pos), name) && needed <= Needed(|name|) ==> !Crowded(CutFrom(b, prev, pos, name), 0, needed)
    decreases |b| - pos
  {
    hide SetRec, PutWord, Chain, Leads, Ino, RecLen, NameLen, Needed, Crowded, Bag, NameIn, CutFrom;
    BagSplit(b, 0, pos);
    CutStep(b, prev, pos, name);
    EmptyFrom(b, pos, name);
    if pos < |b| {
      ScanStep(b, pos, name);
      if !Matches(b, pos, name) {
        CutFromRoom(b, pos, pos + RecLen(b, pos), name, needed);
      } else if pos == 0 {
        ClearRoom(b, CutFrom(b, prev, pos, name), needed);
      } else {
        MergeRoom(b, prev, pos, CutFrom(b, prev, pos, name), needed);
      }
    }
  }

  lemma EmptyFrom(b: seq<byte>, pos: nat, name: seq<byte>)
    requires Chain(b, pos)
    ensures pos >= |b| ==> !NameIn(Bag(b, pos), name)
  {
  }

  lemma {:induction false} CutFromElse(b: seq<byte>, prev: nat, pos: nat, name: seq<byte>)
    requires Leads(b, 0, pos) && Chain(b, pos) && |b| < U16 && pos <= |b|
    requires pos > 0 ==> prev + 8 <= |b| && prev + RecLen(b, prev) == pos
    requires !NameIn(Bag(b, pos), name)
    ensures CutFrom(b, prev, pos, name) == b
    decreases |b| - pos
  {
    hide Chain, Leads, RecLen, Bag, NameIn, CutFrom;
    CutStep(b, prev, pos, name);
    if pos < |b| {
      ScanStep(b, pos, name);
      CutFromElse(b, pos, pos + RecLen(b, pos), name);
    }
  }

  lemma CutElse(b: seq<byte>, name: seq<byte>)
    requires Chain(b, 0) && |b| < U16 && !NameIn(Bag(b, 0), name)
    ensures Cut(b, name) == b
  {
    hide Chain, Bag, NameIn, CutFrom;
    CutFromElse(b, 0, 0, name);
  }

  /** Cutting a name out of a block takes no room away, and where the name was there is now room for it. */
  lemma CutRoom(b: seq<byte>, name: seq<byte>, needed: nat)
    requires Chain(b, 0) && |b| < U16
    ensures Chain(Cut(b, name), 0)
    ensures Crowded(Cut(b, name), 0, needed) ==> Crowded(b, 0, needed)
    ensures NameIn(Bag(b, 0), name) && needed <= Needed(|name|) ==> !Crowded(Cut(b, name), 0, needed)
  {
    hide Chain, Crowded, Bag, NameIn, CutFrom;
    CutFromRoom(b, 0, 0, name, needed);
  }

  lemma EmptyEnd(b: seq<byte>, pos: nat, name: seq<byte>)
    requires Chain(b, pos) && pos >= |b|
    ensures !NameIn(Bag(b, pos), name)
  {
  }

  /** foreach_dirent with finddir's callback, on one block: the first entry with the name. */
  method FindInBlock(b: seq<byte>, name: seq<byte>) returns (found: bool, ino: nat, kind: byte)
    requires Chain(b, 0)
    ensures found <==> NameIn(Bag(b, 0), name)
    ensures found ==> Entry(name, ino, kind) in Bag(b, 0) && ino != 0
  {
    hide Chain, Bag, NameIn, RecLen;
    var pos := 0;
    while pos < |b|
      invariant pos <= |b| && Leads(b, 0, pos) && Chain(b, pos)
      invariant NameIn(Bag(b, 0), name) <==> NameIn(Bag(b, pos), name)
      decreases |b| - pos
    {
      ScanStep(b, pos, name);
      if Matches(b, pos, name) {
        return true, Ino(b, pos), b[pos + 7];
      }
      pos := pos + RecLen(b, pos);
    }
    EmptyEnd(b, pos, name);
    return false, 0, 0;
  }

  /** A fresh block holding one entry that spans it. */
  lemma FreshBlock(bs: nat, e: Entry)
    requires |e.name| < 256 && 0 < e.ino < U32 && 1024 <= bs < U16 && bs % 4 == 0
    ensures var r := PutEntry(Zeros(bs), 0, e, bs);
            Chain(r, 0) && Bag(r, 0) == multiset{e}
  {
    var r := PutEntry(Zeros(bs), 0, e, bs);
    PutEntryReads(Zeros(bs), 0, e, bs);
    assert EntryAt(r, 0) == e;
    assert Chain(r, bs);
  }
}
