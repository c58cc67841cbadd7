/** The names that lead to an inode against its link count. */
module Ext2Links {
  import opened Options
  import opened Words
  import opened Ext2State
  import opened Ext2Names

  /** Directories with their maps of names. */
  type Dirs = map<nat, NameMap>

  /** Inode numbers in use with their link counts. */
  type Counts = map<nat, nat>

  ghost function LinksOf(s: Fs): Counts {
    map t | t in s.inodes :: s.inodes[t].links
  }

  /** The names that lead to inode t, each with its directory. */
  ghost function Refs(dirs: Dirs, t: nat): set<(nat, Name)> {
    set d, n | d in dirs && n in dirs[d] && dirs[d][n].0 == t :: (d, n)
  }

  ghost function HeldOf(held: Option<nat>, t: nat): nat {
    if held == Some(t) then 1 else 0
  }

  ghost predicate Leads(c: Counts, dirs: Dirs) {
    forall d, n | d in dirs && n in dirs[d] :: dirs[d][n].0 in c
  }

  ghost predicate Enough(c: Counts, dirs: Dirs, held: Option<nat>) {
    forall t {:trigger Refs(dirs, t)} | t in c :: |Refs(dirs, t)| + HeldOf(held, t) <= c[t]
  }

  /** Every name leads to an inode in use, and no inode has more names than links; of the held one a link
      is kept for a name that is being moved. */
  ghost predicate Covered(c: Counts, dirs: Dirs, held: Option<nat>) {
    Leads(c, dirs) && Enough(c, dirs, held) && (held.Some? ==> held.value in c)
  }

  ghost predicate Linked(s: Fs, dirs: Dirs) {
    Covered(LinksOf(s), dirs, None)
  }

  lemma EnoughAt(c: Counts, dirs: Dirs, t: nat)
    requires Enough(c, dirs, None) && t in c
    ensures |Refs(dirs, t)| <= c[t]
  {
    hide Refs;
  }

  // What happens to the counts when names come and go.

  /** The names of dirs' are names of dirs, with the same targets. */
  ghost predicate Within(dirs': Dirs, dirs: Dirs) {
    forall d, n | d in dirs' && n in dirs'[d] :: d in dirs && n in dirs[d] && dirs'[d][n].0 == dirs[d][n].0
  }

  lemma RefsWithin(dirs: Dirs, dirs': Dirs, t: nat)
    requires Within(dirs', dirs)
    ensures Refs(dirs', t) <= Refs(dirs, t) && |Refs(dirs', t)| <= |Refs(dirs, t)|
  {
    SubsetSize(Refs(dirs', t), Refs(dirs, t));
  }

  lemma SubsetSize(a: set<(nat, Name)>, b: set<(nat, Name)>)
    requires a <= b
    ensures |a| <= |b|
  {
    assert b == a + (b - a);
  }

  /** Fewer names, or inodes that no name leads to, change nothing. */
  lemma FewerNames(c: Counts, dirs: Dirs, c': Counts, dirs': Dirs)
    requires Covered(c, dirs, None) && Within(dirs', dirs)
    requires forall t | t in c :: t in c' && c'[t] >= c[t]
    ensures Covered(c', dirs', None)
  {
    hide Refs;
    forall t | t in c' ensures |Refs(dirs', t)| <= c'[t] {
      RefsWithin(dirs, dirs', t);
      if t !in c { NoRefs(c, dirs, t); }
    }
  }

  /** The held link has no name after all. */
  lemma Released(c: Counts, dirs: Dirs, dirs': Dirs, held: nat)
    requires Covered(c, dirs, Some(held)) && Within(dirs', dirs)
    ensures Covered(c, dirs', None)
  {
    hide Refs;
    forall t | t in c ensures |Refs(dirs', t)| <= c[t] {
      RefsWithin(dirs, dirs', t);
      assert |Refs(dirs, t)| + HeldOf(Some(held), t) <= c[t];
    }
  }

  lemma NoRefs(c: Counts, dirs: Dirs, t: nat)
    requires Leads(c, dirs) && t !in c
    ensures Refs(dirs, t) == {}
  {
  }

  /** A new inode has one link, which is held for its name. */
  lemma InodeAdded(c: Counts, dirs: Dirs, i: nat)
    requires Covered(c, dirs, None) && i !in c
    ensures Covered(c[i := 1], dirs, Some(i))
  {
    hide Refs;
    forall t | t in c[i := 1] ensures |Refs(dirs, t)| + HeldOf(Some(i), t) <= c[i := 1][t] {
      if t == i { NoRefs(c, dirs, t); }
    }
  }

  /** The held link gets its name. */
  lemma NameAdded(c: Counts, dirs: Dirs, d: nat, n: Name, e: (nat, byte))
    requires Covered(c, dirs, Some(e.0)) && d in dirs && n !in dirs[d]
    ensures Covered(c, dirs[d := dirs[d][n := e]], None)
  {
    hide Refs;
    var dirs' := dirs[d := dirs[d][n := e]];
    forall t | t in c ensures |Refs(dirs', t)| <= c[t] {
      RefsAdded(dirs, d, n, e, t);
      assert |Refs(dirs, t)| + HeldOf(Some(e.0), t) <= c[t];
    }
  }

  ghost predicate Leading(dirs: Dirs, t: nat, p: (nat, Name)) {
    p.0 in dirs && p.1 in dirs[p.0] && dirs[p.0][p.1].0 == t
  }

  lemma RefsHas(dirs: Dirs, t: nat, p: (nat, Name))
    ensures p in Refs(dirs, t) <==> Leading(dirs, t, p)
  {
    assert p == (p.0, p.1);
  }

  lemma RefsAdded(dirs: Dirs, d: nat, n: Name, e: (nat, byte), t: nat)
    requires d in dirs && n !in dirs[d]
    ensures |Refs(dirs[d := dirs[d][n := e]], t)| == |Refs(dirs, t)| + if t == e.0 then 1 else 0
  {
    hide Refs;
    var more := dirs[d := dirs[d][n := e]];
    forall p ensures p in Refs(more, t) <==> p in Refs(dirs, t) || (t == e.0 && p == (d, n)) {
      RefsHas(dirs, t, p);
      RefsHas(more, t, p);
    }
    RefsHas(dirs, t, (d, n));
    OneMore(Refs(dirs, t), Refs(more, t), (d, n), t == e.0);
  }

  lemma RefsDropped(dirs: Dirs, d: nat, n: Name, t: nat)
    requires d in dirs && n in dirs[d]
    ensures |Refs(dirs[d := dirs[d] - {n}], t)| == |Refs(dirs, t)| - if t == dirs[d][n].0 then 1 else 0
  {
    hide Refs;
    var less := dirs[d := dirs[d] - {n}];
    forall p ensures p in Refs(dirs, t) <==> p in Refs(less, t) || (t == dirs[d][n].0 && p == (d, n)) {
      RefsHas(dirs, t, p);
      RefsHas(less, t, p);
    }
    RefsHas(less, t, (d, n));
    OneMore(Refs(less, t), Refs(dirs, t), (d, n), t == dirs[d][n].0);
  }

  lemma OneMore(a: set<(nat, Name)>, b: set<(nat, Name)>, p: (nat, Name), more: bool)
    requires p !in a && forall q :: q in b <==> q in a || (more && q == p)
    ensures |b| == |a| + if more then 1 else 0
  {
    assert b == if more then a + {p} else a;
  }

  /** A name goes and its link stays: the link is held. */
  lemma NameHeld(c: Counts, dirs: Dirs, d: nat, n: Name)
    requires Covered(c, dirs, None) && d in dirs && n in dirs[d]
    ensures Covered(c, dirs[d := dirs[d] - {n}], Some(dirs[d][n].0))
  {
    hide Refs;
    var less := dirs[d := dirs[d] - {n}];
    forall t | t in c ensures |Refs(less, t)| + HeldOf(Some(dirs[d][n].0), t) <= c[t] {
      RefsDropped(dirs, d, n, t);
      assert |Refs(dirs, t)| <= c[t];
    }
  }

  /** One link less, and with the last one the inode is gone. */
  ghost function Less(c: Counts, t: nat): Counts
    requires t in c
  {
    if c[t] <= 1 then c - {t} else c[t := c[t] - 1]
  }

  /** The directories without the name n of d, and without the inode it leads to when that is gone. */
  ghost function WithoutName(c: Counts, dirs: Dirs, d: nat, n: Name): Dirs
    requires d in dirs && n in dirs[d] && dirs[d][n].0 in c
  {
    dirs[d := dirs[d] - {n}] - if c[dirs[d][n].0] <= 1 then {dirs[d][n].0} else {}
  }

  /** A name goes with its link. When that was the last link no other name leads to the inode. */
  lemma NameDropped(c: Counts, dirs: Dirs, d: nat, n: Name, held: Option<nat>)
    requires Covered(c, dirs, held) && d in dirs && n in dirs[d]
    ensures dirs[d][n].0 in c && Covered(Less(c, dirs[d][n].0), WithoutName(c, dirs, d, n), held)
  {
    hide Refs;
    var v := dirs[d][n].0;
    var less := dirs[d := dirs[d] - {n}];
    var c', dirs' := Less(c, v), WithoutName(c, dirs, d, n);
    RefsDropped(dirs, d, n, v);
    assert |Refs(dirs, v)| + HeldOf(held, v) <= c[v];
    forall t | t in c' ensures |Refs(dirs', t)| + HeldOf(held, t) <= c'[t] {
      RefsDropped(dirs, d, n, t);
      RefsWithin(less, dirs', t);
      assert |Refs(dirs, t)| + HeldOf(held, t) <= c[t];
    }
    if c[v] <= 1 {
      Unnamed(less, v);
      assert Leads(c', dirs');
    }
  }

  lemma Unnamed(dirs: Dirs, t: nat)
    requires |Refs(dirs, t)| == 0
    ensures forall d, n | d in dirs && n in dirs[d] :: dirs[d][n].0 != t
  {
    forall d, n | d in dirs && n in dirs[d] ensures dirs[d][n].0 != t {
      assert dirs[d][n].0 == t ==> (d, n) in Refs(dirs, t);
    }
  }
}
