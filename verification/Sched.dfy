/** The scheduler: a ring of threads linked by `next`, the running thread, and the reaping of children. */
module Sched {
  import opened Options
  import opened Seqs

  datatype Status = RUNNING | WAITING | ZOMBIE | DEAD

  datatype Thread = Thread(id: nat, parent: nat, status: Status, code: int, next: nat)

  /** Threads by address, the head of the ring, the running thread, and the next thread number. */
  datatype Sched = Sched(threads: map<nat, Thread>, queue: Option<nat>, current: Option<nat>, nextTid: nat)

  /** The ring in order from its head; the parent of every thread ever made; who reaped which thread. */
  datatype View = View(ring: seq<nat>, born: map<nat, nat>, reaped: map<nat, nat>)

  function Next(i: nat, n: nat): nat
    requires i < n
  {
    if i + 1 == n then 0 else i + 1
  }

  ghost predicate Link(s: Sched, ring: seq<nat>, i: nat) {
    i < |ring| && ring[i] in s.threads && s.threads[ring[i]].next == ring[Next(i, |ring|)]
  }

  /** One cycle that holds exactly the threads. */
  ghost predicate Ring(s: Sched, ring: seq<nat>) {
    && s.queue == (if ring == [] then None else Some(ring[0])) && Distinct(ring)
    && (forall i: nat {:trigger Link(s, ring, i)} | i < |ring| :: Link(s, ring, i))
    && (forall t {:trigger t in s.threads} | t in s.threads :: t in ring)
    && (s.current.Some? ==> s.current.value in s.threads)
  }

  /** Every thread has a number below the next, was born with its parent, and was not reaped. */
  ghost predicate Known(s: Sched, v: View) {
    forall t {:trigger s.threads[t].id} | t in s.threads ::
      && s.threads[t].parent < s.threads[t].id < s.nextTid && s.threads[t].id in v.born
      && v.born[s.threads[t].id] == s.threads[t].parent
      && s.threads[t].id !in v.reaped
  }

  ghost predicate Unique(s: Sched) {
    forall t, u {:trigger s.threads[t].id, s.threads[u].id} | t in s.threads && u in s.threads &&
        s.threads[t].id == s.threads[u].id :: t == u
  }

  /** Whoever was born and not reaped is a thread. */
  ghost predicate Cover(s: Sched, v: View) {
    forall id {:trigger id in v.born} | id in v.born && id !in v.reaped :: exists t ::
        t in s.threads && s.threads[t].id == id
  }

  /** Numbers are used in order; a reaper is the parent. */
  ghost predicate Records(s: Sched, v: View) {
    && (forall id {:trigger id in v.born} | id in v.born :: id < s.nextTid)
    && (forall id {:trigger id in v.reaped} | id in v.reaped :: id in v.born && v.reaped[id] == v.born[id])
  }

  /** Thread numbers are never used twice; the threads are those born and not reaped. */
  ghost predicate Ids(s: Sched, v: View) {
    Known(s, v) && Unique(s) && Cover(s, v) && Records(s, v)
  }

  ghost predicate Inv(s: Sched, v: View) {
    Ring(s, v.ring) && Ids(s, v)
  }

  lemma RingAt(s: Sched, ring: seq<nat>, i: nat)
    requires Ring(s, ring) && i < |ring|
    ensures ring[i] in s.threads && s.threads[ring[i]].next == ring[Next(i, |ring|)]
    ensures s.queue == Some(ring[0]) && (ring[i] == ring[0] <==> i == 0)
    ensures ring[Next(i, |ring|)] == ring[0] <==> i + 1 == |ring|
  {
    assert Link(s, ring, i);
    assert i > 0 ==> ring[0] != ring[i];
    assert i + 1 < |ring| ==> ring[0] != ring[i + 1];
  }

  // Adding threads.

  /** The walk to the last thread of the ring. */
  method FindTail(s: Sched, head: nat, ghost ring: seq<nat>) returns (tail: nat)
    requires Ring(s, ring) && ring != [] && head == ring[0]
    ensures tail == ring[|ring| - 1] && tail in s.threads
  {
    hide Ring;
    tail := head;
    ghost var i := 0;
    RingAt(s, ring, 0);
    while s.threads[tail].next != head
      invariant 0 <= i < |ring| && tail == ring[i] && tail in s.threads && s.threads[tail].next == ring[Next(i, |ring|)]
      invariant ring[Next(i, |ring|)] == head <==> i + 1 == |ring|
      decreases |ring| - i
    {
      tail := s.threads[tail].next;
      i := i + 1;
      RingAt(s, ring, i);
    }
  }

  /** The common end of sched_add_thread and sched_fork: the new thread goes to the end of the ring. */
  method Append(s: Sched, a: nat, parent: nat, ghost v: View) returns (s': Sched, ghost v': View)
    requires Inv(s, v) && a !in s.threads && parent < s.nextTid
    ensures Inv(s', v') && v' == View(v.ring + [a], v.born[s.nextTid := parent], v.reaped)
    ensures s'.current == s.current && s'.nextTid == s.nextTid + 1 && s'.threads.Keys == s.threads.Keys + {a}
    ensures s'.threads[a].id == s.nextTid && s'.threads[a].parent == parent && s'.threads[a].status == RUNNING
    ensures forall t | t in s.threads :: s'.threads[t] == s.threads[t].(next := s'.threads[t].next)
  {
    hide Ring, Ids;
    var t := Thread(s.nextTid, parent, RUNNING, 0, a);
    if s.queue.None? {
      Empty(s, v.ring);
      s' := s.(threads := s.threads[a := t], queue := Some(a), nextTid := s.nextTid + 1);
    } else {
      Nonempty(s, v.ring);
      var tail := FindTail(s, s.queue.value, v.ring);
      var threads := s.threads[tail := s.threads[tail].(next := a)];
      s' := s.(threads := threads[a := t.(next := s.queue.value)], nextTid := s.nextTid + 1);
    }
    v' := View(v.ring + [a], v.born[s.nextTid := parent], v.reaped);
    AppendRing(s, v.ring, a, s');
    AppendIds(s, v, a, parent, s', v');
  }

  lemma Nonempty(s: Sched, ring: seq<nat>)
    requires Ring(s, ring) && s.queue.Some?
    ensures ring != [] && s.queue.value == ring[0]
  {
  }

  lemma Empty(s: Sched, ring: seq<nat>)
    requires Ring(s, ring) && s.queue.None?
    ensures ring == []
  {
  }

  lemma AppendRing(s: Sched, ring: seq<nat>, a: nat, s': Sched)
    requires Ring(s, ring) && a !in s.threads && a in s'.threads && s'.current == s.current
    requires s'.threads.Keys == s.threads.Keys + {a}
    requires s'.queue == (if s.queue.None? then Some(a) else s.queue) && s'.threads[a].next == s'.queue.value
    requires ring != [] ==>
        forall t | t in s.threads :: s'.threads[t].next == if t == ring[|ring| - 1] then a else s.threads[t].next
    ensures Ring(s', ring + [a])
  {
    var r := ring + [a];
    forall i: nat | i < |ring| ensures ring[i] in s.threads { assert Link(s, ring, i); }
    forall i: nat | i < |r| ensures Link(s', r, i) {
      if i < |ring| {
        assert Link(s, ring, i);
        assert i < |ring| - 1 ==> ring[i] != ring[|ring| - 1];
      }
    }
    forall t | t in s'.threads
      ensures t in r
    {
      if t in s.threads { assert t in ring; } else { assert r[|ring|] == a; }
    }
  }

  lemma AppendIds(s: Sched, v: View, a: nat, parent: nat, s': Sched, v': View)
    requires Ids(s, v) && a !in s.threads && parent < s.nextTid && s'.nextTid == s.nextTid + 1
    requires v' == View(v'.ring, v.born[s.nextTid := parent], v.reaped) && s'.threads.Keys == s.threads.Keys + {a}
    requires a in s'.threads
    requires s'.threads[a].id == s.nextTid && s'.threads[a].parent == parent
    requires forall t | t in s.threads :: s'.threads[t] == s.threads[t].(next := s'.threads[t].next)
    ensures Ids(s', v')
  {
    hide Known, Unique, Cover, Records;
    FreshId(s, v);
    AppendKnown(s, v, a, parent, s', v');
    AppendCover(s, v, a, s', v');
    assert Records(s', v') by { AppendRecords(s, v, parent, s', v'); }
  }

  lemma AppendKnown(s: Sched, v: View, a: nat, parent: nat, s': Sched, v': View)
    requires Known(s, v) && Unique(s) && a !in s.threads && parent < s.nextTid && s'.nextTid == s.nextTid + 1
    requires s.nextTid !in v.reaped
    requires v' == View(v'.ring, v.born[s.nextTid := parent], v.reaped) && s'.threads.Keys == s.threads.Keys + {a}
    requires a in s'.threads
    requires s'.threads[a].id == s.nextTid && s'.threads[a].parent == parent
    requires forall t | t in s.threads :: s'.threads[t] == s.threads[t].(next := s'.threads[t].next)
    ensures Known(s', v') && Unique(s')
  {
    forall t | t in s'.threads && t != a
      ensures t in s.threads && s'.threads[t].id == s.threads[t].id && s'.threads[t].parent == s.threads[t].parent
    {
    }
  }

  lemma AppendCover(s: Sched, v: View, a: nat, s': Sched, v': View)
    requires Cover(s, v) && a in s'.threads && s'.threads[a].id == s.nextTid && v'.reaped == v.reaped
    requires v'.born.Keys == v.born.Keys + {s.nextTid}
    requires forall t | t in s.threads :: t in s'.threads && s'.threads[t].id == s.threads[t].id
    ensures Cover(s', v')
  {
    forall id | id in v'.born && id !in v'.reaped ensures exists t :: t in s'.threads && s'.threads[t].id == id {
      if id == s.nextTid {
        assert s'.threads[a].id == id;
      } else {
        var t :| t in s.threads && s.threads[t].id == id;
        assert s'.threads[t].id == id;
      }
    }
  }

  lemma AppendRecords(s: Sched, v: View, parent: nat, s': Sched, v': View)
    requires Records(s, v) && s.nextTid !in v.reaped && s'.nextTid == s.nextTid + 1
    requires v'.born == v.born[s.nextTid := parent] && v'.reaped == v.reaped
    ensures Records(s', v')
  {
  }

  /** A new running thread with that number, beside the old ones as they were. */
  ghost predicate Joined(s: Sched, s': Sched, a: nat, id: nat) {
    && s'.threads.Keys == s.threads.Keys + {a} && s'.threads[a].id == id && s'.threads[a].status == RUNNING
    && forall t | t in s.threads && t != a :: s'.threads[t].(next := s.threads[t].next) == s.threads[t]
  }

  /** sched_add_thread: the parent is the running thread, or 0. */
  method AddThread(s: Sched, a: nat, ghost v: View) returns (id: nat, s': Sched, ghost v': View)
    requires Inv(s, v) && a !in s.threads && s.nextTid > 0
    ensures Inv(s', v') && id == s.nextTid && id !in v.born && v'.ring == v.ring + [a] && v'.reaped == v.reaped
    ensures s'.current == s.current
    ensures id in v'.born && v'.born == v.born[id := v'.born[id]]
    ensures s.current.Some? ==> s.current.value in s.threads && v'.born[id] == s.threads[s.current.value].id
    ensures s.current.None? ==> v'.born[id] == 0
    ensures s'.nextTid > 0 && Joined(s, s', a, id)
  {
    hide Ring;
    CurrentIn(s, v);
    var parent := if s.current.Some? then s.threads[s.current.value].id else 0;
    s', v' := Append(s, a, parent, v);
    id := s.nextTid;
  }

  lemma CurrentIn(s: Sched, v: View)
    requires Inv(s, v)
    ensures s.current.Some? ==> s.current.value in s.threads && s.threads[s.current.value].id < s.nextTid
  {
    assert s.current.Some? ==> s.threads[s.current.value].id == s.threads[s.current.value].id;
  }

  /** sched_fork_internal: a is the block for the new thread, `rest` tells whether the address space and
      the stack could be allocated too. Without a stack of its own, or without the block, nothing
      happens; when only the rest fails, the number is used up but no thread is made. */
  method Fork(s: Sched, stacked: bool, a: Option<nat>, rest: bool, ghost v: View)
    returns (id: Option<nat>, s': Sched, ghost v': View)
    requires Inv(s, v) && (a.Some? ==> a.value !in s.threads)
    ensures Inv(s', v') && s'.current == s.current && v'.reaped == v.reaped
    ensures s'.nextTid == if s.current.Some? && stacked && a.Some? then s.nextTid + 1 else s.nextTid
    ensures id.Some? <==> s.current.Some? && stacked && a.Some? && rest
    ensures id.None? ==> v' == v && s' == s.(nextTid := s'.nextTid)
    ensures id.Some? ==>
        id.value !in v.born && v'.ring == v.ring + [a.value] && s.current.value in s.threads &&
        v'.born == v.born[id.value := s.threads[s.current.value].id] && id.value == s.nextTid &&
        Joined(s, s', a.value, id.value)
  {
    hide Ring, Ids;
    CurrentIn(s, v);
    s', v', id := s, v, None;
    if s.current.None? || !stacked || a.None? { return; }
    if !rest {
      s' := s.(nextTid := s.nextTid + 1);
      SkipNumber(s, v, s');
      return;
    }
    s', v' := Append(s, a.value, s.threads[s.current.value].id, v);
    FreshId(s, v);
    id := Some(s.nextTid);
  }

  lemma FreshId(s: Sched, v: View)
    requires Ids(s, v)
    ensures s.nextTid !in v.born && s.nextTid !in v.reaped
  {
  }

  lemma SkipNumber(s: Sched, v: View, s': Sched)
    requires Inv(s, v) && s' == s.(nextTid := s.nextTid + 1)
    ensures Inv(s', v)
  {
    RingFrame(s, v.ring, s');
    IdsFrame(s, v, s');
  }

  /** Links, head and members are the same; the running thread is still a thread. */
  lemma RingFrame(s: Sched, ring: seq<nat>, s': Sched)
    requires Ring(s, ring) && s'.threads.Keys == s.threads.Keys && s'.queue == s.queue
    requires s'.current.Some? ==> s'.current.value in s'.threads
    requires forall t | t in s.threads :: s'.threads[t].next == s.threads[t].next
    ensures Ring(s', ring)
  {
    forall i: nat | i < |ring| ensures Link(s', ring, i) { assert Link(s, ring, i); }
    forall t | t in s'.threads ensures t in ring { assert t in s.threads; }
  }

  lemma IdsFrame(s: Sched, v: View, s': Sched)
    requires Ids(s, v) && s'.threads.Keys == s.threads.Keys && s'.nextTid >= s.nextTid
    requires forall t | t in s.threads ::
        s'.threads[t].id == s.threads[t].id && s'.threads[t].parent == s.threads[t].parent
    ensures Ids(s', v)
  {
    forall id | id in v.born && id !in v.reaped ensures exists t :: t in s'.threads && s'.threads[t].id == id {
      var t :| t in s.threads && s.threads[t].id == id;
      assert s'.threads[t].id == id;
    }
    forall t | t in s'.threads
      ensures s'.threads[t].parent < s'.threads[t].id < s'.nextTid && s'.threads[t].id in v.born
      ensures v.born[s'.threads[t].id] == s'.threads[t].parent && s'.threads[t].id !in v.reaped
    {
      assert s.threads[t].id == s'.threads[t].id;
    }
  }

  // Ending threads.

  /** A thread's status and exit code change. */
  function Mark(s: Sched, t: nat, status: Status, code: int): Sched
    requires t in s.threads
  {
    s.(threads := s.threads[t := s.threads[t].(status := status, code := code)])
  }

  lemma MarkKeeps(s: Sched, v: View, t: nat, status: Status, code: int)
    requires Inv(s, v) && t in s.threads
    ensures Inv(Mark(s, t, status, code), v)
  {
    hide Ring, Ids;
    CurrentIn(s, v);
    var s' := Mark(s, t, status, code);
    assert s'.threads.Keys == s.threads.Keys;
    RingFrame(s, v.ring, s');
    IdsFrame(s, v, s');
  }

  /** sched_exit, up to the switch to another thread. */
  method Exit(s: Sched, code: int, ghost v: View) returns (s': Sched)
    requires Inv(s, v)
    ensures Inv(s', v)
    ensures s'.threads.Keys == s.threads.Keys && s'.queue == s.queue
    ensures s'.current == s.current && s'.nextTid == s.nextTid
    ensures forall t | t in s.threads :: s'.threads[t] ==
              if s.current == Some(t) then s.threads[t].(status := ZOMBIE, code := code) else s.threads[t]
  {
    hide Ring, Ids;
    CurrentIn(s, v);
    if s.current.None? { return s; }
    MarkKeeps(s, v, s.current.value, ZOMBIE, code);
    s' := Mark(s, s.current.value, ZOMBIE, code);
  }

  /** The search of waitpid and kill: the thread of that number, with that parent if one is asked for. */
  method Search(s: Sched, pid: nat, parent: Option<nat>, ghost v: View) returns (r: Option<nat>)
    requires Inv(s, v)
    ensures r.Some? ==>
        r.value in s.threads && s.threads[r.value].id == pid &&
        (parent.Some? ==> s.threads[r.value].parent == parent.value)
    ensures r.None? ==>
        forall t | t in s.threads :: !(s.threads[t].id == pid && (parent.Some? ==> s.threads[t].parent == parent.value))
  {
    hide Ring, Ids;
    if s.queue.None? {
      Empty(s, v.ring);
      AllIn(s, v.ring);
      return None;
    }
    Nonempty(s, v.ring);
    AllIn(s, v.ring);
    var t := s.queue.value;
    ghost var i := 0;
    RingAt(s, v.ring, 0);
    while true
      invariant 0 <= i < |v.ring| && t == v.ring[i] && t in s.threads && s.threads[t].next == v.ring[Next(i, |v.ring|)]
      invariant v.ring[Next(i, |v.ring|)] == v.ring[0] <==> i + 1 == |v.ring|
      invariant forall k | 0 <= k < i ::
          v.ring[k] in s.threads &&
          !(s.threads[v.ring[k]].id == pid && (parent.Some? ==> s.threads[v.ring[k]].parent == parent.value))
      decreases |v.ring| - i
    {
      if s.threads[t].id == pid && (parent.None? || s.threads[t].parent == parent.value) { return Some(t); }
      t := s.threads[t].next;
      if t == s.queue.value { break; }
      i := i + 1;
      RingAt(s, v.ring, i);
    }
    r := None;
  }

  lemma AllIn(s: Sched, ring: seq<nat>)
    requires Ring(s, ring)
    ensures forall t | t in s.threads :: exists i :: 0 <= i < |ring| && ring[i] == t
  {
    forall t | t in s.threads ensures exists i :: 0 <= i < |ring| && ring[i] == t { assert t in ring; }
  }

  /** sched_kill: the thread of that number becomes a zombie, unless it is one or there is none. */
  method Kill(s: Sched, pid: nat, sig: nat, ghost v: View) returns (ok: bool, s': Sched)
    requires Inv(s, v)
    ensures Inv(s', v)
    ensures ok <==> exists t :: t in s.threads && s.threads[t].id == pid
    ensures forall t | t in s.threads :: t in s'.threads && s'.threads[t] ==
              if s.threads[t].id == pid && s.threads[t].status in {RUNNING, WAITING}
              then s.threads[t].(status := ZOMBIE, code := 128 + sig) else s.threads[t]
    ensures s'.threads.Keys == s.threads.Keys && s'.current == s.current && s'.queue == s.queue
    ensures s'.nextTid == s.nextTid
  {
    hide Ring, Ids;
    var r := Search(s, pid, None, v);
    if r.None? { return false, s; }
    s' := s;
    forall t | t in s.threads && s.threads[t].id == pid ensures t == r.value { SameId(s, v, t, r.value); }
    if s.threads[r.value].status != ZOMBIE && s.threads[r.value].status != DEAD {
      MarkKeeps(s, v, r.value, ZOMBIE, 128 + sig);
      s' := Mark(s, r.value, ZOMBIE, 128 + sig);
    }
    ok := true;
  }

  lemma SameId(s: Sched, v: View, t: nat, u: nat)
    requires Ids(s, v) && t in s.threads && u in s.threads && s.threads[t].id == s.threads[u].id
    ensures t == u
  {
  }

  // Reaping.

  datatype Outcome = NoChild | Reaped(code: int) | Blocked

  /** The thread before `target` in the ring. */
  method FindPrev(s: Sched, target: nat, ghost ring: seq<nat>) returns (prev: nat, ghost j: nat)
    requires Ring(s, ring) && target in s.threads
    ensures j < |ring| && ring[j] == target && prev in s.threads && prev == if j == 0 then ring[|ring| - 1]
          else ring[j - 1]
  {
    hide Ring;
    AllIn(s, ring);
    j :| 0 <= j < |ring| && ring[j] == target;
    RingAt(s, ring, 0);
    RingAt(s, ring, j);
    prev := s.queue.value;
    ghost var i := 0;
    while s.threads[prev].next != target
      invariant 0 <= i < |ring| && prev == ring[i] && prev in s.threads && s.threads[prev].next == ring[Next(i, |ring|)]
      invariant j == 0 || i < j
      decreases |ring| - i
    {
      OnlyOnce(s, ring, j, Next(i, |ring|));
      i := i + 1;
      prev := s.threads[prev].next;
      RingAt(s, ring, i);
    }
    OnlyOnce(s, ring, j, Next(i, |ring|));
  }

  lemma OnlyOnce(s: Sched, ring: seq<nat>, i: nat, j: nat)
    requires Ring(s, ring) && i < |ring| && j < |ring|
    ensures ring[i] == ring[j] <==> i == j
  {
  }

  /** t is the child with number pid of the running thread. */
  ghost predicate IsChild(s: Sched, pid: nat, t: nat) {
    && t in s.threads && s.threads[t].id == pid && s.current.Some? && s.current.value in s.threads
    && s.threads[t].parent == s.threads[s.current.value].id
  }

  /** The thread at place j of the ring is gone, and its exit code is code; all others stay as they are, in the
      same order. */
  ghost predicate GoneAt(s: Sched, s': Sched, ring: seq<nat>, ring': seq<nat>, j: nat, code: int) {
    && j < |ring| && ring[j] in s.threads && s.threads[ring[j]].code == code && ring' == ring[..j] + ring[j + 1..]
    && s'.threads.Keys == s.threads.Keys - {ring[j]}
    && forall u | u in s'.threads :: s'.threads[u].(next := s.threads[u].next) == s.threads[u]
  }

  /** One pass of the loop in sched_waitpid: the child is reaped if it is a zombie. */
  method Waitpid(s: Sched, pid: nat, ghost v: View) returns (r: Outcome, s': Sched, ghost v': View)
    requires Inv(s, v)
    ensures Inv(s', v') && s'.current == s.current && v'.born == v.born && s'.nextTid == s.nextTid
    ensures r.NoChild? <==> !exists t :: IsChild(s, pid, t)
    ensures r.Reaped? <==> exists t :: IsChild(s, pid, t) && s.threads[t].status == ZOMBIE
    ensures r.Blocked? <==> exists t :: IsChild(s, pid, t) && s.threads[t].status != ZOMBIE
    ensures !r.Reaped? ==> s' == s && v' == v
    ensures r.Reaped? ==>
        pid in v.born && pid !in v.reaped && s.current.value in s.threads &&
        v'.reaped == v.reaped[pid := s.threads[s.current.value].id]
    ensures r.Reaped? ==> exists j: nat :: GoneAt(s, s', v.ring, v'.ring, j, r.code) && IsChild(s, pid, v.ring[j])
  {
    hide Ring, Ids;
    s', v' := s, v;
    CurrentIn(s, v);
    if s.current.None? { return NoChild, s, v; }
    var me := s.threads[s.current.value].id;
    var target := Search(s, pid, Some(me), v);
    if target.None? { return NoChild, s, v; }
    var t := target.value;
    assert IsChild(s, pid, t);
    forall u | IsChild(s, pid, u) ensures u == t { SameId(s, v, t, u); }
    if s.threads[t].status == ZOMBIE {
      var prev, j := FindPrev(s, t, v.ring);
      ReapFacts(s, v, t, me);
      s' := Unlink(s, t, prev);
      v' := View(v.ring[..j] + v.ring[j + 1..], v.born, v.reaped[pid := me]);
      UnlinkRing(s, v.ring, j, prev, s');
      UnlinkIds(s, v, t, s', v');
      assert GoneAt(s, s', v.ring, v'.ring, j, s.threads[t].code);
      r := Reaped(s.threads[t].code);
    } else {
      r := Blocked;
    }
  }

  /** Take t out of the ring and free it. */
  function Unlink(s: Sched, t: nat, prev: nat): Sched
    requires t in s.threads && prev in s.threads
  {
    if prev == t then s.(threads := s.threads - {t}, queue := None)
    else s.(threads := s.threads[prev := s.threads[prev].(next := s.threads[t].next)] - {t},
            queue := if s.queue == Some(t) then Some(s.threads[t].next) else s.queue)
  }

  /** A child is not the running thread, and was not reaped before. */
  lemma ReapFacts(s: Sched, v: View, t: nat, me: nat)
    requires Ids(s, v) && t in s.threads && s.current.Some? && s.current.value in s.threads
    requires me == s.threads[s.current.value].id && s.threads[t].parent == me
    ensures t != s.current.value && s.threads[t].id in v.born && s.threads[t].id !in v.reaped
    ensures v.born[s.threads[t].id] == me
  {
    assert s.threads[t].parent < s.threads[t].id;
  }

  lemma UnlinkRing(s: Sched, ring: seq<nat>, j: nat, prev: nat, s': Sched)
    requires Ring(s, ring) && j < |ring| && prev in s.threads
    requires prev == (if j == 0 then ring[|ring| - 1] else ring[j - 1])
    requires ring[j] in s.threads && s' == Unlink(s, ring[j], prev) && s.current != Some(ring[j])
    ensures Ring(s', ring[..j] + ring[j + 1..])
  {
    hide Ring;
    var r, n := ring[..j] + ring[j + 1..], |ring|;
    RingAt(s, ring, j);
    forall i: nat | i < |r| ensures Link(s', r, i) { UnlinkAt(s, ring, j, prev, s', r, i); }
    UnlinkRest(s, ring, j, prev, s', r);
  }

  lemma UnlinkAt(s: Sched, ring: seq<nat>, j: nat, prev: nat, s': Sched, r: seq<nat>, i: nat)
    requires Ring(s, ring) && j < |ring| && prev in s.threads
    requires prev == (if j == 0 then ring[|ring| - 1] else ring[j - 1])
    requires ring[j] in s.threads && s' == Unlink(s, ring[j], prev) && r == ring[..j] + ring[j + 1..] && i < |r|
    ensures Link(s', r, i)
  {
    hide Ring;
    var k := if i < j then i else i + 1;
    var p := if j == 0 then |ring| - 1 else j - 1;
    assert r[i] == ring[k];
    RingAt(s, ring, k);
    RingAt(s, ring, j);
    OnlyOnce(s, ring, j, k);
    OnlyOnce(s, ring, p, k);
    OnlyOnce(s, ring, p, j);
  }

  lemma UnlinkRest(s: Sched, ring: seq<nat>, j: nat, prev: nat, s': Sched, r: seq<nat>)
    requires Ring(s, ring) && j < |ring| && prev in s.threads
    requires prev == (if j == 0 then ring[|ring| - 1] else ring[j - 1])
    requires ring[j] in s.threads && s' == Unlink(s, ring[j], prev) && r == ring[..j] + ring[j + 1..]
    requires s.current != Some(ring[j])
    requires forall i: nat | i < |r| :: Link(s', r, i)
    ensures Ring(s', r)
  {
    hide Link, Distinct;
    RingAt(s, ring, j);
    RingAt(s, ring, 0);
    forall t | t in s'.threads ensures t in r {
      assert t in s.threads && t in ring;
      var k :| 0 <= k < |ring| && ring[k] == t;
      assert r[if k < j then k else k - 1] == t;
    }
    DistinctWithout(ring, j, r);
    OnlyOnce(s, ring, 0, j);
    OnlyOnce(s, ring, if j == 0 then |ring| - 1 else j - 1, j);
    assert r == [] <==> |ring| == 1;
  }

  lemma DistinctWithout(ring: seq<nat>, j: nat, r: seq<nat>)
    requires Distinct(ring) && j < |ring| && r == ring[..j] + ring[j + 1..]
    ensures Distinct(r)
  {
    forall a, b | 0 <= a < b < |r|
      ensures r[a] != r[b]
    {
      assert r[a] == ring[if a < j then a else a + 1] && r[b] == ring[if b < j then b else b + 1];
    }
  }

  lemma UnlinkIds(s: Sched, v: View, t: nat, s': Sched, v': View)
    requires Ids(s, v) && t in s.threads && s'.threads.Keys == s.threads.Keys - {t} && s'.nextTid == s.nextTid
    requires forall u | u in s'.threads ::
        s'.threads[u].id == s.threads[u].id && s'.threads[u].parent == s.threads[u].parent
    requires v'.born == v.born && s.threads[t].id in v.born
    requires v'.reaped == v.reaped[s.threads[t].id := v.born[s.threads[t].id]]
    ensures Ids(s', v')
  {
    forall u | u in s'.threads
      ensures s'.threads[u].parent < s'.threads[u].id < s'.nextTid && s'.threads[u].id in v.born
      ensures v.born[s'.threads[u].id] == s'.threads[u].parent && s'.threads[u].id !in v'.reaped
    {
      assert s.threads[u].id == s'.threads[u].id;
      assert s.threads[t].id == s.threads[u].id ==> t == u;
    }
    forall id | id in v'.born && id !in v'.reaped ensures exists u :: u in s'.threads && s'.threads[u].id == id {
      var u :| u in s.threads && s.threads[u].id == id;
      assert s'.threads[u].id == id;
    }
  }

  // The tick.

  /** The place k steps after place c. */
  function Ahead(c: nat, k: nat, n: nat): (r: nat)
    requires c < n && k <= n
    ensures r < n
  {
    if c + k < n then c + k else c + k - n
  }

  ghost predicate Runs(s: Sched, t: nat) {
    t in s.threads && s.threads[t].status == RUNNING
  }

  /** Where the search begins: at the running thread, or before the head when none has run yet. */
  ghost predicate Cursor(s: Sched, ring: seq<nat>, c: nat) {
    c < |ring| && (s.current == Some(ring[c]) || (s.current == None && c + 1 == |ring|))
  }

  /** What a tick does: the first running thread after the cursor runs next. When none is running, some
      thread is picked all the same. */
  ghost predicate Picked(s: Sched, s': Sched, ring: seq<nat>, c: nat, k: nat) {
    && c < |ring| && 1 <= k <= |ring| && s' == s.(current := Some(ring[Ahead(c, k, |ring|)]))
    && (Runs(s, ring[Ahead(c, k, |ring|)]) || forall t | t in s.threads :: !Runs(s, t))
    && (Runs(s, ring[Ahead(c, k, |ring|)]) ==> forall m: nat {:trigger Ahead(c, m, |ring|)} | 1 <= m < k ::
          !Runs(s, ring[Ahead(c, m, |ring|)]))
  }

  /** The scan found the first running thread m steps after place b, or no thread is running. */
  ghost predicate Found(s: Sched, ring: seq<nat>, b: nat, m: nat) {
    && b < |ring| && 1 <= m <= |ring|
    && (if Runs(s, ring[Ahead(b, m, |ring|)]) then forall j: nat {:trigger Ahead(b, j, |ring|)} | 1 <= j < m ::
          !Runs(s, ring[Ahead(b, j, |ring|)])
        else m == 1 && forall t | t in s.threads :: !Runs(s, t))
  }

  /** The loop of sched_tick from the thread at place b. */
  method Scan(s: Sched, cur: nat, ghost v: View, ghost b: nat) returns (next: nat, ghost m: nat)
    requires Inv(s, v) && b < |v.ring| && cur == v.ring[b] && cur in s.threads
    ensures Found(s, v.ring, b, m) && next in s.threads && next == v.ring[Ahead(b, m, |v.ring|)]
  {
    hide Ring, Ids, Distinct;
    ghost var n := |v.ring|;
    RingAt(s, v.ring, b);
    next := s.threads[cur].next;
    var start := next;
    m := 1;
    assert Ahead(b, 1, n) == Next(b, n);
    RingAt(s, v.ring, Ahead(b, 1, n));
    while s.threads[next].status != RUNNING
      invariant 1 <= m <= n && next == v.ring[Ahead(b, m, n)] && next in s.threads
      invariant forall j: nat {:trigger Ahead(b, j, n)} | 1 <= j < m :: !Runs(s, v.ring[Ahead(b, j, n)])
      decreases n - m
    {
      RingAt(s, v.ring, Ahead(b, m, n));
      if m < n {
        assert Next(Ahead(b, m, n), n) == Ahead(b, m + 1, n);
        OnlyOnce(s, v.ring, Ahead(b, m + 1, n), Ahead(b, 1, n));
      } else {
        assert Next(Ahead(b, m, n), n) == Ahead(b, 1, n);
      }
      next := s.threads[next].next;
      if next == start {
        NoneRuns(s, v, b);
        m := 1;
        return;
      }
      m := m + 1;
      RingAt(s, v.ring, Ahead(b, m, n));
    }
  }

  /** Every place is some number of steps ahead. */
  lemma NoneRuns(s: Sched, v: View, b: nat)
    requires Ring(s, v.ring) && b < |v.ring|
    requires forall j: nat {:trigger Ahead(b, j, |v.ring|)} | 1 <= j <= |v.ring| ::
        !Runs(s, v.ring[Ahead(b, j, |v.ring|)])
    ensures forall t | t in s.threads :: !Runs(s, t)
  {
    hide Ring;
    AllIn(s, v.ring);
    forall t | t in s.threads ensures !Runs(s, t) {
      var i: nat :| 0 <= i < |v.ring| && v.ring[i] == t;
      var j: nat := if b < i then i - b else i + |v.ring| - b;
      assert Ahead(b, j, |v.ring|) == i;
    }
  }

  /** sched_tick. */
  method Tick(s: Sched, ghost v: View) returns (s': Sched, ghost c: nat, ghost k: nat)
    requires Inv(s, v)
    ensures Inv(s', v)
    ensures v.ring == [] ==> s' == s
    ensures v.ring != [] ==> Cursor(s, v.ring, c) && Picked(s, s', v.ring, c, k)
    ensures v.ring != [] && (forall t | t in s.threads :: !Runs(s, t)) ==>
              var t := if s.current.Some? then s.current.value else v.ring[0];
              t in s.threads && s'.current == Some(s.threads[t].next)
  {
    hide Ring, Ids, Distinct, Found;
    s', c, k := s, 0, 0;
    CurrentIn(s, v);
    ghost var n := |v.ring|;
    ghost var m: nat;
    var next;
    if s.current.None? {
      if s.queue.None? {
        Empty(s, v.ring);
        return;
      }
      Nonempty(s, v.ring);
      RingAt(s, v.ring, 0);
      c, next := n - 1, s.queue.value;
      if s.threads[next].status == RUNNING {
        assert Runs(s, next);
        k := 1;
      } else {
        next, m := Scan(s, next, v, 0);
        FoundNext(s, v.ring, 0, m);
        k := FromHead(s, v.ring, m);
      }
    } else {
      AllIn(s, v.ring);
      c :| 0 <= c < n && v.ring[c] == s.current.value;
      next, k := Scan(s, s.current.value, v, c);
      FoundNext(s, v.ring, c, k);
      FoundMeans(s, v.ring, c, k);
    }
    s' := s.(current := Some(next));
    RingFrame(s, v.ring, s');
    IdsFrame(s, v, s');
  }

  /** Without a running thread the scan ends where it began, at the next one. */
  lemma FoundNext(s: Sched, ring: seq<nat>, b: nat, m: nat)
    requires Found(s, ring, b, m) && Ring(s, ring)
    ensures ring[b] in s.threads
    ensures (forall t | t in s.threads :: !Runs(s, t)) ==> ring[Ahead(b, m, |ring|)] == s.threads[ring[b]].next
  {
    hide Ring;
    RingAt(s, ring, b);
    assert Ahead(b, 1, |ring|) == Next(b, |ring|);
    RingAt(s, ring, Ahead(b, m, |ring|));
  }

  lemma FoundMeans(s: Sched, ring: seq<nat>, b: nat, m: nat)
    requires Found(s, ring, b, m)
    ensures Runs(s, ring[Ahead(b, m, |ring|)]) || forall t | t in s.threads :: !Runs(s, t)
    ensures Runs(s, ring[Ahead(b, m, |ring|)]) ==>
        forall j: nat {:trigger Ahead(b, j, |ring|)} | 1 <= j < m :: !Runs(s, ring[Ahead(b, j, |ring|)])
    ensures 1 <= m <= |ring|
  {
  }

  /** A scan from the head, when the head itself is not running, seen from the place before the head. */
  lemma FromHead(s: Sched, ring: seq<nat>, m: nat) returns (k: nat)
    requires Found(s, ring, 0, m) && ring[0] in s.threads && !Runs(s, ring[0])
    ensures 1 <= k <= |ring| && Ahead(|ring| - 1, k, |ring|) == Ahead(0, m, |ring|)
    ensures Runs(s, ring[Ahead(0, m, |ring|)]) || forall t | t in s.threads :: !Runs(s, t)
    ensures Runs(s, ring[Ahead(0, m, |ring|)]) ==>
        forall j: nat {:trigger Ahead(|ring| - 1, j, |ring|)} | 1 <= j < k ::
          !Runs(s, ring[Ahead(|ring| - 1, j, |ring|)])
  {
    var n := |ring|;
    k := if m == n then 1 else m + 1;
    if Runs(s, ring[Ahead(0, m, n)]) {
      forall j: nat {:trigger Ahead(n - 1, j, n)} | 1 <= j < k ensures !Runs(s, ring[Ahead(n - 1, j, n)]) {
        if j > 1 { assert Ahead(n - 1, j, n) == Ahead(0, j - 1, n); }
      }
    }
  }

  // Fairness.

  /** A tick brings the running thread closer to x, or runs x. */
  lemma Closer(s: Sched, s': Sched, ring: seq<nat>, c: nat, k: nat, d: nat)
    requires Picked(s, s', ring, c, k) && 1 <= d <= |ring| && ring[Ahead(c, d, |ring|)] in s.threads
    requires Runs(s, ring[Ahead(c, d, |ring|)])
    ensures k <= d
    ensures k == d ==> s'.current == Some(ring[Ahead(c, d, |ring|)])
    ensures k < d ==> Ahead(Ahead(c, k, |ring|), d - k, |ring|) == Ahead(c, d, |ring|)
  {
  }

  /** A step of a trace in which the ring stays the same: a tick, or anything else that lets the running
      thread be. */
  ghost predicate Moves(s: Sched, s': Sched, ring: seq<nat>, tick: bool) {
    if tick then exists c: nat, k: nat :: Cursor(s, ring, c) && Picked(s, s', ring, c, k) else s'.current == s.current
  }

  ghost predicate Trace(states: seq<Sched>, ticks: seq<bool>, ring: seq<nat>, x: nat) {
    && |states| == |ticks| + 1
    && (forall i {:trigger states[i]} | 0 <= i < |states| :: Ring(states[i], ring) && Runs(states[i], x))
    && (forall i {:trigger ticks[i]} | 0 <= i < |ticks| :: Moves(states[i], states[i + 1], ring, ticks[i]))
  }

  function Ticks(ticks: seq<bool>): nat {
    if ticks == [] then 0 else (if ticks[0] then 1 else 0) + Ticks(ticks[1..])
  }

  /** x is picked by some tick of the trace. */
  ghost predicate Chosen(states: seq<Sched>, ticks: seq<bool>, x: nat) {
    exists i :: 0 <= i < |ticks| && i + 1 < |states| && ticks[i] && states[i + 1].current == Some(x)
  }

  lemma {:induction false} FairFrom(states: seq<Sched>, ticks: seq<bool>, ring: seq<nat>, x: nat, c: nat, d: nat)
    requires Trace(states, ticks, ring, x) && c < |ring| && 1 <= d <= |ring| && Cursor(states[0], ring, c)
    requires ring[Ahead(c, d, |ring|)] == x
    requires Ticks(ticks) >= d
    ensures Chosen(states, ticks, x)
    decreases |ticks|
  {
    hide Ring;
    assert Moves(states[0], states[1], ring, ticks[0]);
    TraceTail(states, ticks, ring, x);
    if ticks[0] {
      var c': nat, k: nat :| Cursor(states[0], ring, c') && Picked(states[0], states[1], ring, c', k);
      SameCursor(states[0], ring, c, c');
      Closer(states[0], states[1], ring, c, k, d);
      if k < d {
        FairFrom(states[1..], ticks[1..], ring, x, Ahead(c, k, |ring|), d - k);
        Later(states, ticks, x);
      }
    } else {
      FairFrom(states[1..], ticks[1..], ring, x, c, d);
      Later(states, ticks, x);
    }
  }

  lemma SameCursor(s: Sched, ring: seq<nat>, c: nat, c': nat)
    requires Ring(s, ring) && Cursor(s, ring, c) && Cursor(s, ring, c')
    ensures c == c'
  {
    hide Ring;
    OnlyOnce(s, ring, c, c');
  }

  lemma TraceTail(states: seq<Sched>, ticks: seq<bool>, ring: seq<nat>, x: nat)
    requires Trace(states, ticks, ring, x) && |ticks| > 0
    ensures Trace(states[1..], ticks[1..], ring, x) && Ring(states[0], ring) && Runs(states[0], x)
  {
    hide Ring, Runs, Moves;
    var t, u := states[1..], ticks[1..];
    forall i | 0 <= i < |u| ensures Moves(t[i], t[i + 1], ring, u[i]) { assert ticks[i + 1] == u[i]; }
  }

  lemma Later(states: seq<Sched>, ticks: seq<bool>, x: nat)
    requires |states| == |ticks| + 1 && |ticks| > 0 && Chosen(states[1..], ticks[1..], x)
    ensures Chosen(states, ticks, x)
  {
    var i :| 0 <= i < |ticks[1..]| && i + 1 < |states[1..]| && ticks[1..][i] && states[1..][i + 1].current == Some(x);
    assert ticks[i + 1] && states[i + 2].current == Some(x);
  }

  /** While the ring stays the same, a thread that stays running is picked within as many ticks as there are threads. */
  lemma Fair(states: seq<Sched>, ticks: seq<bool>, ring: seq<nat>, x: nat)
    requires Trace(states, ticks, ring, x) && Ticks(ticks) >= |ring|
    ensures Chosen(states, ticks, x)
  {
    hide Link, Distinct;
    assert Ring(states[0], ring) && Runs(states[0], x);
    assert x in ring;
    var i: nat :| i < |ring| && ring[i] == x;
    var c: nat;
    if states[0].current.Some? {
      assert states[0].current.value in ring;
      c :| c < |ring| && ring[c] == states[0].current.value;
    } else {
      c := |ring| - 1;
    }
    var d: nat := if c < i then i - c else i + |ring| - c;
    assert Ahead(c, d, |ring|) == i;
    FairFrom(states, ticks, ring, x, c, d);
  }

  // The scheduler as an object.

  /** Every run keeps one cycle of the threads that were born and not reaped; nobody is reaped twice. */
  class Scheduler {
    var sched: Sched
    ghost var view: View

    ghost predicate Valid()
      reads this
    {
      Inv(sched, view) && sched.nextTid > 0
    }

    constructor ()
      ensures Valid() && view == View([], map[], map[]) && sched.current.None? && sched.nextTid == 1
    {
      sched := Sched(map[], None, None, 1);
      view := View([], map[], map[]);
    }

    method Add(a: nat) returns (id: nat)
      requires Valid() && a !in sched.threads
      modifies this
      ensures Valid() && id !in old(view.born) && id in view.born && view.ring == old(view.ring) + [a]
      ensures id == old(sched.nextTid) && view.reaped == old(view.reaped)
      ensures view.born == old(view.born)[id := view.born[id]] && sched.current == old(sched.current)
      ensures old(sched.current).Some? ==>
          old(sched.current).value in old(sched.threads) &&
          view.born[id] == old(sched.threads)[old(sched.current).value].id
      ensures old(sched.current).None? ==> view.born[id] == 0
      ensures Joined(old(sched), sched, a, id)
    {
      hide Ring, Ids;
      var s;
      ghost var v;
      id, s, v := AddThread(sched, a, view);
      sched, view := s, v;
    }

    method Spawn(stacked: bool, a: Option<nat>, rest: bool) returns (id: Option<nat>)
      requires Valid() && (a.Some? ==> a.value !in sched.threads)
      modifies this
      ensures Valid() && view.reaped == old(view.reaped)
      ensures id.Some? <==> old(sched.current).Some? && stacked && a.Some? && rest
      ensures id.None? ==> view == old(view) && sched == old(sched).(nextTid := sched.nextTid)
      ensures id.None? && a.None? ==> sched == old(sched)
      ensures id.Some? ==> id.value !in old(view.born) && view.ring == old(view.ring) + [a.value]
      ensures id.Some? ==>
          old(sched.current).value in old(sched.threads) &&
          view.born == old(view.born)[id.value := old(sched.threads)[old(sched.current).value].id] &&
          Joined(old(sched), sched, a.value, id.value)
    {
      hide Ring, Ids;
      var s;
      ghost var v;
      id, s, v := Fork(sched, stacked, a, rest, view);
      sched, view := s, v;
    }

    method End(code: int)
      requires Valid()
      modifies this`sched
      ensures Valid() && sched.threads.Keys == old(sched.threads.Keys) && sched.queue == old(sched.queue)
      ensures sched.current == old(sched.current) && sched.nextTid == old(sched.nextTid)
      ensures forall t | t in sched.threads :: sched.threads[t] ==
                if sched.current == Some(t) then old(sched.threads)[t].(status := ZOMBIE, code := code)
                else old(sched.threads)[t]
    {
      hide Ring, Ids;
      sched := Exit(sched, code, view);
    }

    method Signal(pid: nat, sig: nat) returns (ok: bool)
      requires Valid()
      modifies this`sched
      ensures Valid() && sched.current == old(sched.current) && sched.threads.Keys == old(sched.threads.Keys)
      ensures ok <==> exists t :: t in old(sched.threads) && old(sched.threads)[t].id == pid
      ensures forall t | t in sched.threads :: sched.threads[t] ==
                if old(sched.threads)[t].id == pid && old(sched.threads)[t].status in {RUNNING, WAITING}
                then old(sched.threads)[t].(status := ZOMBIE, code := 128 + sig) else old(sched.threads)[t]
    {
      hide Ring, Ids;
      var s;
      ok, s := Kill(sched, pid, sig, view);
      sched := s;
    }

    /** A child is reaped by its parent, and only if it was not reaped before. */
    method Wait(pid: nat) returns (r: Outcome)
      requires Valid()
      modifies this
      ensures Valid() && view.born == old(view.born)
      ensures !r.Reaped? ==> view == old(view) && sched == old(sched)
      ensures r.NoChild? <==> !exists t :: IsChild(old(sched), pid, t)
      ensures r.Reaped? <==> exists t :: IsChild(old(sched), pid, t) && old(sched).threads[t].status == ZOMBIE
      ensures r.Reaped? ==>
                exists j: nat :: GoneAt(old(sched), sched, old(view.ring), view.ring, j, r.code) &&
                                 IsChild(old(sched), pid, old(view.ring)[j])
      ensures r.Reaped? ==>
          pid !in old(view.reaped) && pid in view.born && view.reaped == old(view.reaped)[pid := view.born[pid]]
    {
      hide Ring, Ids;
      var s;
      ghost var v;
      r, s, v := Waitpid(sched, pid, view);
      ReapedByParent(s, v);
      sched, view := s, v;
    }

    method Switch() returns (ghost c: nat, ghost k: nat)
      requires Valid()
      modifies this`sched
      ensures Valid() && sched.threads == old(sched.threads) && sched.queue == old(sched.queue)
      ensures view.ring == [] ==> sched == old(sched)
      ensures view.ring != [] ==> Cursor(old(sched), view.ring, c) && Picked(old(sched), sched, view.ring, c, k)
      ensures view.ring != [] && (forall t | t in old(sched).threads :: !Runs(old(sched), t)) ==>
                var t := if old(sched).current.Some? then old(sched).current.value else view.ring[0];
                t in old(sched).threads && sched.current == Some(old(sched).threads[t].next)
    {
      hide Ring, Ids;
      var s;
      s, c, k := Tick(sched, view);
      sched := s;
    }
  }

  lemma ReapedByParent(s: Sched, v: View)
    requires Inv(s, v)
    ensures forall id | id in v.reaped :: id in v.born && v.reaped[id] == v.born[id]
  {
  }
}
