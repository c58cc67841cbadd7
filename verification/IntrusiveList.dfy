/** Doubly linked lists threaded through their nodes, as the buddy and slab allocators keep them. */
module IntrusiveList {
  import opened Options

  /** The link fields of a node. */
  datatype Link = Link(next: Option<nat>, prev: Option<nat>)
  type Links = map<nat, Link>

  function At(s: seq<nat>, i: int): Option<nat> {
    if 0 <= i < |s| then Some(s[i]) else None
  }

  /** From head the links spell out s, forwards and backwards. */
  ghost predicate Listed(ls: Links, head: Option<nat>, s: seq<nat>) {
    && head == At(s, 0)
    && (forall i | 0 <= i < |s| :: s[i] in ls && ls[s[i]] == Link(At(s, i + 1), At(s, i - 1)))
    && (forall i, j | 0 <= i < j < |s| :: s[i] != s[j])
  }

  lemma ListedFrame(ls: Links, ls': Links, head: Option<nat>, s: seq<nat>)
    requires Listed(ls, head, s) && forall u | u in s :: u in ls' && ls'[u] == ls[u]
    ensures Listed(ls', head, s)
  {
  }

  method Add(ls: Links, head: Option<nat>, b: nat, ghost s: seq<nat>) returns (ls': Links, head': Option<nat>)
    requires Listed(ls, head, s) && b in ls && b !in s
    ensures Listed(ls', head', [b] + s) && ls'.Keys == ls.Keys && head' == Some(b)
    ensures forall u | u in ls && u != b && u !in s :: ls'[u] == ls[u]
  {
    ls' := ls[b := Link(head, None)];
    if head.Some? {
      assert s[0] == head.value;
      ls' := ls'[head.value := ls'[head.value].(prev := Some(b))];
    }
    head' := Some(b);
  }

  /** Node i of a list and its neighbours. */
  lemma Around(ls: Links, head: Option<nat>, s: seq<nat>, i: nat)
    requires Listed(ls, head, s) && i < |s|
    ensures s[i] in ls && ls[s[i]] == Link(At(s, i + 1), At(s, i - 1))
    ensures forall j | 0 <= j < |s| && j != i :: s[j] != s[i]
    ensures head == Some(s[i]) <==> i == 0
  {
    assert head == Some(s[0]);
  }

  method Remove(ls: Links, head: Option<nat>, b: nat, ghost s: seq<nat>, ghost i: nat)
    returns (ls': Links, head': Option<nat>)
    requires Listed(ls, head, s) && i < |s| && s[i] == b
    ensures Listed(ls', head', s[..i] + s[i + 1..]) && ls'.Keys == ls.Keys
    ensures forall u | u in ls && u !in s :: ls'[u] == ls[u]
  {
    hide Listed;
    Around(ls, head, s, i);
    if i > 0 { Around(ls, head, s, i - 1); }
    if i + 1 < |s| { Around(ls, head, s, i + 1); }
    ls', head' := ls, head;
    var link := ls[b];
    if link.prev.Some? {
      ls' := ls'[link.prev.value := ls'[link.prev.value].(next := link.next)];
    }
    if link.next.Some? {
      ls' := ls'[link.next.value := ls'[link.next.value].(prev := link.prev)];
    }
    if head == Some(b) { head' := link.next; }
    ls' := ls'[b := Link(None, None)];
    RemoveLists(ls, ls', head, head', s, i);
  }

  /** Where the nodes of s stand once node i is unlinked. */
  lemma RemoveLists(ls: Links, ls': Links, head: Option<nat>, head': Option<nat>, s: seq<nat>, i: nat)
    requires Listed(ls, head, s) && i < |s| && ls'.Keys == ls.Keys
    requires forall j | 0 <= j < |s| && j != i && j != i - 1 && j != i + 1 :: ls'[s[j]] == ls[s[j]]
    requires i > 0 ==> ls'[s[i - 1]] == Link(At(s, i + 1), At(s, i - 2))
    requires i + 1 < |s| ==> ls'[s[i + 1]] == Link(At(s, i + 2), At(s, i - 1))
    requires head' == if i == 0 then At(s, 1) else head
    ensures Listed(ls', head', s[..i] + s[i + 1..])
  {
    hide At;
    var t := s[..i] + s[i + 1..];
    forall j: nat | j < |t| ensures t[j] in ls' && ls'[t[j]] == Link(At(t, j + 1), At(t, j - 1)) {
      Shifted(s, i, j, t);
      var k := if j < i then j else j + 1;
      assert t[j] == s[k] && s[k] in ls && ls[s[k]] == Link(At(s, k + 1), At(s, k - 1));
    }
    forall j, k | 0 <= j < k < |t| ensures t[j] != t[k] {
      assert t[j] == s[if j < i then j else j + 1] && t[k] == s[if k < i then k else k + 1];
    }
    Shifted(s, i, 0, t);
  }

  /** Where the elements of s stand once element i is gone. */
  lemma Shifted(s: seq<nat>, i: nat, j: nat, t: seq<nat>)
    requires i < |s| && t == s[..i] + s[i + 1..]
    ensures At(t, j) == if j < i then At(s, j) else At(s, j + 1)
    ensures At(t, j + 1) == if j + 1 < i then At(s, j + 1) else At(s, j + 2)
    ensures At(t, j - 1) == if j <= i then At(s, j - 1) else At(s, j)
  {
  }

  // A family of such lists over the same nodes.

  ghost function Members(s: seq<nat>): set<nat> {
    set u | u in s
  }

  ghost predicate Family(ls: Links, heads: seq<Option<nat>>, lists: seq<seq<nat>>) {
    && |heads| == |lists|
    && (forall k | 0 <= k < |lists| :: Listed(ls, heads[k], lists[k]))
    && (forall j, k | 0 <= j < k < |lists| :: Members(lists[j]) !! Members(lists[k]))
  }

  /** Node b is on no list. */
  ghost predicate Loose(lists: seq<seq<nat>>, b: nat) {
    forall k | 0 <= k < |lists| :: b !in Members(lists[k])
  }

  /** The lists after a change to list k alone. */
  ghost predicate Relisted(lists: seq<seq<nat>>, lists': seq<seq<nat>>, k: nat, now: set<nat>) {
    && |lists'| == |lists| && k < |lists|
    && (forall j | 0 <= j < |lists| && j != k :: lists'[j] == lists[j])
    && Members(lists'[k]) == now
  }

  /** Data that is on no list may change freely. */
  lemma FamilyFrame(ls: Links, ls': Links, heads: seq<Option<nat>>, lists: seq<seq<nat>>)
    requires Family(ls, heads, lists)
    requires forall u | u in ls && !Loose(lists, u) :: u in ls' && ls'[u] == ls[u]
    ensures Family(ls', heads, lists)
  {
    forall k | 0 <= k < |lists| ensures Listed(ls', heads[k], lists[k]) {
      forall u | u in lists[k] ensures u in ls' && ls'[u] == ls[u] {
        assert u in Members(lists[k]);
        var i :| 0 <= i < |lists[k]| && lists[k][i] == u;
        assert Listed(ls, heads[k], lists[k]);
      }
      ListedFrame(ls, ls', heads[k], lists[k]);
    }
  }

  lemma FamilyPut(ls: Links, ls': Links, heads: seq<Option<nat>>, lists: seq<seq<nat>>, k: nat, head': Option<nat>,
        s': seq<nat>, b: nat)
    requires Family(ls, heads, lists) && k < |lists| && Listed(ls', head', s') && ls'.Keys == ls.Keys
    requires forall u | u in ls && u !in lists[k] && u != b :: ls'[u] == ls[u]
    requires Members(s') <= Members(lists[k]) + {b} && forall j | 0 <= j < |lists| && j != k :: b !in Members(lists[j])
    ensures Family(ls', heads[k := head'], lists[k := s'])
  {
    var lists' := lists[k := s'];
    forall j | 0 <= j < |lists| && j != k ensures Listed(ls', heads[j], lists[j]) {
      assert Members(lists[j]) !! Members(lists[k]);
      forall u | u in lists[j] ensures u in ls' && ls'[u] == ls[u] {
        assert u in Members(lists[j]);
        var i :| 0 <= i < |lists[j]| && lists[j][i] == u;
        assert Listed(ls, heads[j], lists[j]);
      }
      ListedFrame(ls, ls', heads[j], lists[j]);
    }
    forall i, j | 0 <= i < j < |lists'| ensures Members(lists'[i]) !! Members(lists'[j]) {
      assert Members(lists[i]) !! Members(lists[j]);
    }
  }

  /** list_add on list k. */
  method Push(ls: Links, heads: seq<Option<nat>>, k: nat, b: nat, ghost lists: seq<seq<nat>>)
    returns (ls': Links, heads': seq<Option<nat>>, ghost lists': seq<seq<nat>>)
    requires Family(ls, heads, lists) && k < |lists| && b in ls && Loose(lists, b)
    ensures Family(ls', heads', lists') && Relisted(lists, lists', k, Members(lists[k]) + {b}) && ls'.Keys == ls.Keys
    ensures k < |heads| && heads' == heads[k := Some(b)] && lists' == lists[k := [b] + lists[k]]
  {
    hide Listed;
    assert Listed(ls, heads[k], lists[k]);
    var head';
    assert b !in Members(lists[k]);
    ls', head' := Add(ls, heads[k], b, lists[k]);
    ghost var s' := [b] + lists[k];
    FamilyPut(ls, ls', heads, lists, k, head', s', b);
    heads', lists' := heads[k := head'], lists[k := s'];
  }

  /** list_remove on list k. */
  method Detach(ls: Links, heads: seq<Option<nat>>, k: nat, b: nat, ghost lists: seq<seq<nat>>)
    returns (ls': Links, heads': seq<Option<nat>>, ghost lists': seq<seq<nat>>)
    requires Family(ls, heads, lists) && k < |lists| && b in Members(lists[k])
    ensures Family(ls', heads', lists') && Relisted(lists, lists', k, Members(lists[k]) - {b}) && ls'.Keys == ls.Keys
    ensures Loose(lists', b)
  {
    ghost var i: nat :| i < |lists[k]| && lists[k][i] == b;
    assert Listed(ls, heads[k], lists[k]);
    var head';
    ls', head' := Remove(ls, heads[k], b, lists[k], i);
    ghost var s' := lists[k][..i] + lists[k][i + 1..];
    Cut(lists[k], i, s');
    FamilyPut(ls, ls', heads, lists, k, head', s', b);
    heads', lists' := heads[k := head'], lists[k := s'];
    forall j | 0 <= j < |lists'| ensures b !in Members(lists'[j]) {
      assert j != k ==> Members(lists[j]) !! Members(lists[k]);
    }
  }

  lemma Cut(s: seq<nat>, i: nat, t: seq<nat>)
    requires i < |s| && t == s[..i] + s[i + 1..] && forall i, j | 0 <= i < j < |s| :: s[i] != s[j]
    ensures Members(t) == Members(s) - {s[i]}
  {
    forall u ensures u in Members(t) <==> u in Members(s) && u != s[i] {
      if u in Members(s) && u != s[i] {
        var j :| 0 <= j < |s| && s[j] == u;
        assert t[if j < i then j else j - 1] == u;
      }
    }
  }

  /** A list is empty exactly when its head is null; otherwise the head is on it. */
  lemma HeadOf(ls: Links, heads: seq<Option<nat>>, lists: seq<seq<nat>>, k: nat)
    requires Family(ls, heads, lists) && k < |lists|
    ensures heads[k].None? <==> Members(lists[k]) == {}
    ensures heads[k].Some? ==> heads[k].value in Members(lists[k])
  {
    assert Listed(ls, heads[k], lists[k]);
    if |lists[k]| > 0 { assert lists[k][0] in Members(lists[k]); }
  }
}
