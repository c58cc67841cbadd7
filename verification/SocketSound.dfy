/** Every step of the socket machine, in every interleaving, keeps the invariant of all runs. */
module SocketSound {
  import opened Options
  import opened Ring
  import opened SocketState
  import opened Words

  // What each part of the invariant depends on.

  ghost predicate SameHistory(s: State, s': State, a: nat) {
    && Get(s'.h.sent, a) == Get(s.h.sent, a) && Nums(s'.h.tags, a) == Nums(s.h.tags, a)
    && Get(s'.h.got, a) == Get(s.h.got, a) && Get(s'.h.recv, a) == Get(s.h.recv, a)
  }

  ghost predicate NoHistory(s: State, a: nat) {
    Get(s.h.sent, a) == [] && Nums(s.h.tags, a) == [] && Get(s.h.got, a) == [] && Get(s.h.recv, a) == []
  }

  /** Rings and their histories are the same; a new socket has an empty ring and no history. */
  ghost predicate RingsSame(s: State, s': State) {
    && s.socks.Keys <= s'.socks.Keys && s.h.calls <= s'.h.calls
    && (forall a {:trigger SameHistory(s, s', a)} | a in s.socks ::
          SameHistory(s, s', a) && s'.socks[a].rx == s.socks[a].rx && (s.socks[a].status == CLOSED ==>
              s'.socks[a].status == CLOSED))
    && (forall a {:trigger NoHistory(s', a)} | a in s'.socks && a !in s.socks ::
          NoHistory(s', a) && s'.socks[a].rx == [])
  }

  lemma RingsFrame(s: State, s': State)
    requires Rings(s) && RingsSame(s, s')
    ensures Rings(s')
  {
    forall a | a in s'.socks ensures RingOk(s', a) {
      if a in s.socks { assert RingOk(s, a) && SameHistory(s, s', a); } else { assert NoHistory(s', a); }
    }
  }

  lemma LinksFrame(s: State, s': State)
    requires Links(s) && s.socks.Keys <= s'.socks.Keys
    requires forall a | a in s.socks :: s'.socks[a].peer == s.socks[a].peer || s'.socks[a].peer.None?
    requires forall a | a in s'.socks && a !in s.socks :: s'.socks[a].peer.None?
    ensures Links(s')
  {
    forall a | a in s'.socks ensures LinkOk(s', a) {
      if a in s.socks { assert LinkOk(s, a); }
    }
  }

  lemma BoundsFrame(s: State, s': State)
    requires Bounds(s) && s'.bound == s.bound && s.socks.Keys <= s'.socks.Keys
    requires forall a | a in s.socks && s.socks[a].status in {BOUND, LISTENING, CONNECTED} ::
               s'.socks[a].path == s.socks[a].path && s'.socks[a].status in {BOUND, LISTENING, CONNECTED}
    ensures Bounds(s')
  {
  }

  /** Queues and their history are the same, and no socket reopens; a new socket has an empty queue. */
  ghost predicate QueuesSame(s: State, s': State) {
    && s.socks.Keys <= s'.socks.Keys
    && (forall x | x in s.socks ::
          s'.socks[x].queue == s.socks[x].queue && s'.socks[x].head == s.socks[x].head &&
              s'.socks[x].tail == s.socks[x].tail)
    && (forall x | x in s.socks && s.socks[x].status == CLOSED :: s'.socks[x].status == CLOSED)
    && (forall x | x in s.socks ::
          Nums(s'.h.asked, x) == Nums(s.h.asked, x) && Nums(s'.h.taken, x) == Nums(s.h.taken, x))
    && (forall x | x in s'.socks && x !in s.socks ::
          QueueOk(s'.socks[x]) && Pending(s'.socks[x]) == [] && Nums(s'.h.asked, x) == [] && Nums(s'.h.taken, x) == [])
  }

  lemma QueueFrame(s: State, s': State, x: nat)
    requires QueuesSame(s, s') && x in s'.socks && (x in s.socks ==> QueueAt(s, x))
    ensures QueueAt(s', x)
  {
  }

  lemma QueuedFrame(s: State, s': State, x: nat, c: nat)
    requires QueuesSame(s, s')
    ensures Queued(s', x, c) ==> Queued(s, x, c)
    ensures Queued(s, x, c) && s'.socks[x].status != CLOSED ==> Queued(s', x, c)
  {
  }

  lemma QueuesFrame(s: State, s': State)
    requires Queues(s) && QueuesSame(s, s') && forall x, c {:trigger Queued(s, x, c)} | Queued(s, x, c) &&
          Waiter(s, c) :: Waiter(s', c)
    ensures Queues(s')
  {
    hide QueueAt, Queued, Waiter, QueuesSame;
    forall x | x in s'.socks ensures QueueAt(s', x) { QueueFrame(s, s', x); }
    forall x, c | Queued(s', x, c) ensures Waiter(s', c) {
      QueuedFrame(s, s', x, c);
      assert Waiter(s, c);
    }
  }

  lemma WriterFrame(s: State, s': State, t: nat)
    requires WriterAt(s, t) && t in s'.writing && s'.writing[t] == s.writing[t] && s.h.calls <= s'.h.calls
    requires var a := s.writing[t].sock;
             && a in s'.socks && s'.socks[a].peer.Some? && s'.socks[a].status == CONNECTED
             && Get(s'.h.sent, a) == Get(s.h.sent, a) && Nums(s'.h.tags, a) == Nums(s.h.tags, a)
    ensures WriterAt(s', t)
  {
  }

  /** Sockets that are written on keep their link and the record of what was sent. */
  lemma WritersFrame(s: State, s': State)
    requires Writers(s) && s'.writing == s.writing && s.h.calls <= s'.h.calls && s.socks.Keys <= s'.socks.Keys
    requires forall a | a in s.socks && s.socks[a].status == CONNECTED && s.socks[a].peer.Some? && (exists t ::
          t in s.writing && s.writing[t].sock == a) ::
               s'.socks[a].peer.Some? && s'.socks[a].status == CONNECTED
    requires forall a {:trigger SameHistory(s, s', a)} | a in s.socks :: SameHistory(s, s', a)
    ensures Writers(s')
  {
    forall t | t in s'.writing ensures WriterAt(s', t) {
      assert WriterAt(s, t);
      var a := s.writing[t].sock;
      assert SameHistory(s, s', a);
      WriterFrame(s, s', t);
    }
  }

  lemma Whole(s: State)
    requires Rings(s) && Links(s) && Bounds(s) && Queues(s) && Writers(s) && Waits(s)
    ensures Sound(s)
  {
  }

  lemma Parts(s: State)
    requires Sound(s)
    ensures Rings(s) && Links(s) && Bounds(s) && Queues(s) && Writers(s) && Waits(s)
    ensures forall a | a in s.socks :: QueueOk(s.socks[a]) && |s.socks[a].rx| <= CAPACITY
  {
    hide By, Pending;
    forall a | a in s.socks
      ensures QueueOk(s.socks[a]) && |s.socks[a].rx| <= CAPACITY
    {
      assert QueueAt(s, a) && RingOk(s, a);
    }
  }

  // Steps that move no byte and touch no queue.

  /** Sockets may be added and may change path, status and link within the given limits. */
  ghost predicate Relabelled(s: State, s': State) {
    && RingsSame(s, s') && QueuesSame(s, s') && s'.writing == s.writing
    && (forall c {:trigger Waiter(s, c)} | Waiter(s, c) :: Waiter(s', c))
    && (forall a | a in s.socks && s.socks[a].status == CONNECTED && s.socks[a].peer.Some? && (exists t ::
        t in s.writing && s.writing[t].sock == a) ::
          s'.socks[a].peer.Some? && s'.socks[a].status == CONNECTED)
    && (forall t | t in s'.waiting :: s'.waiting[t] in s'.socks)
  }

  lemma RelabelKeeps(s: State, s': State)
    requires Rings(s) && Queues(s) && Writers(s) && Relabelled(s, s')
    ensures Rings(s') && Queues(s') && Writers(s') && Waits(s')
  {
    hide Rings, Queues, Writers, Waiter, QueuesSame;
    RingsFrame(s, s');
    QueuesFrame(s, s');
    forall a | a in s.socks ensures SameHistory(s, s', a) {}
    WritersFrame(s, s');
  }

  lemma SocketKeeps(s: State, id: nat, s': State)
    requires Sound(s) && id !in s.socks && s' == AddSock(s, id)
    ensures Sound(s')
  {
    hide Sound, Rings, Links, Bounds, Queues, Writers, Waits, Relabelled, AddSock;
    Parts(s);
    AddSame(s, id, s');
    RelabelKeeps(s, s');
    LinksFrame(s, s');
    BoundsFrame(s, s');
    Whole(s');
  }

  lemma AddSame(s: State, id: nat, s': State)
    requires id !in s.socks && s' == AddSock(s, id) && Waits(s)
    ensures Relabelled(s, s') && s'.bound == s.bound && s'.socks == s.socks[id := NewSock()] && s'.waiting == s.waiting
    ensures s'.writing == s.writing
    ensures s'.h == s.h.(sent := s'.h.sent, tags := s'.h.tags, got := s'.h.got, recv := s'.h.recv,
        asked := s'.h.asked, taken := s'.h.taken)
    ensures RingsSame(s, s') && QueuesSame(s, s')
  {
    AddQueues(s, id, s');
    AddRings(s, id, s');
    hide QueuesSame, RingsSame;
    forall c | Waiter(s, c) ensures Waiter(s', c) { if Blocked(s, c) { assert Blocked(s', c); } }
  }

  lemma AddQueues(s: State, id: nat, s': State)
    requires id !in s.socks && s' == AddSock(s, id)
    ensures QueuesSame(s, s')
  {
  }

  lemma AddRings(s: State, id: nat, s': State)
    requires id !in s.socks && s' == AddSock(s, id)
    ensures RingsSame(s, s')
  {
  }

  lemma ListenKeeps(s: State, id: nat, s': State)
    requires Sound(s) && id in s.socks && s' == DoListen(s, id)
    ensures Sound(s')
  {
    hide Sound, Rings, Links, Bounds, Queues, Writers, Waits, Relabelled;
    Parts(s);
    if s' != s {
      StatusSame(s, id, s.socks[id].(status := LISTENING), s');
      RelabelKeeps(s, s');
      LinksFrame(s, s');
      BoundsFrame(s, s');
      Whole(s');
    }
  }

  /** One socket that is not connected, and stays open, changes path and status away from unbound. */
  lemma StatusSame(s: State, id: nat, k: Sock, s': State)
    requires id in s.socks && s.socks[id].status != CONNECTED && s.socks[id].status != CLOSED && Waits(s)
    requires k == s.socks[id].(path := k.path, status := k.status) && k.status != UNBOUND && k.status != CLOSED
    requires s'.socks == s.socks[id := k] && s'.waiting == s.waiting && s'.writing == s.writing && s'.h == s.h
    ensures Relabelled(s, s')
  {
    assert QueuesSame(s, s');
    assert RingsSame(s, s');
    forall c | Waiter(s, c) ensures Waiter(s', c) { if Blocked(s, c) { assert Blocked(s', c); } }
  }

  lemma BindKeeps(s: State, id: nat, path: string, s': State)
    requires Sound(s) && id in s.socks && s' == DoBind(s, id, path)
    ensures Sound(s')
  {
    hide Sound, Rings, Links, Bounds, Queues, Writers, Waits, Relabelled, FindPath, FirstEmpty;
    Parts(s);
    if CanBind(s, id, path) {
      StatusSame(s, id, s.socks[id].(path := path, status := BOUND), s');
      RelabelKeeps(s, s');
      LinksFrame(s, s');
      BindBounds(s, id, path, s', FirstEmpty(s.bound, 0).value);
      Whole(s');
    }
  }

  /** A new path joins the table; it is different from all others. */
  lemma BindBounds(s: State, id: nat, path: string, s': State, i: nat)
    requires Bounds(s) && id in s.socks && s.socks[id].status == UNBOUND && i < |s.bound| && s.bound[i].None?
    requires forall k | 0 <= k < |s.bound| && s.bound[k].Some? && s.bound[k].value in s.socks ::
        s.socks[s.bound[k].value].path != path
    requires s'.bound == s.bound[i := Some(id)]
    requires s'.socks == s.socks[id := s.socks[id].(path := path, status := BOUND)]
    ensures Bounds(s')
  {
    forall k | 0 <= k < MAX_SOCKETS && k != i && s'.bound[k].Some?
      ensures s'.bound[k].value in s.socks && s'.bound[k].value != id
      ensures s'.socks[s'.bound[k].value] == s.socks[s.bound[k].value]
    {
      assert s.bound[k] == s'.bound[k];
    }
  }

  /** Steps that only move a thread into or out of a blocking call. */
  lemma ThreadsKeep(s: State, s': State)
    requires Sound(s) && s' == s.(waiting := s'.waiting, writing := s'.writing, h := s'.h)
    requires s'.h == s.h.(calls := s'.h.calls) && s.h.calls <= s'.h.calls
    requires Writers(s') && Waits(s') && forall c {:trigger Waiter(s, c)} | Waiter(s, c) :: Waiter(s', c)
    ensures Sound(s')
  {
    hide Sound, Rings, Links, Bounds, Queues, Writers, Waits, Waiter;
    Parts(s);
    RingsFrame(s, s');
    LinksFrame(s, s');
    BoundsFrame(s, s');
    QueuesFrame(s, s');
    Whole(s');
  }

  lemma ConnectedKeeps(s: State, t: nat, s': State)
    requires Sound(s) && t in s.waiting && s.waiting[t] in s.socks && s.socks[s.waiting[t]].status != UNBOUND
    requires s' == s.(waiting := s.waiting - {t})
    ensures Sound(s')
  {
    hide Sound, Rings, Links, Bounds, Queues, WriterAt;
    Parts(s);
    forall c | Waiter(s, c) ensures Waiter(s', c) {
      if Blocked(s, c) && s.socks[c].status == UNBOUND {
        var u :| u in s.waiting && s.waiting[u] == c;
        assert u in s'.waiting;
      }
    }
    forall u | u in s'.writing ensures WriterAt(s', u) { assert WriterAt(s, u); WriterSame(s, s', u); }
    ThreadsKeep(s, s');
  }

  lemma WriterSame(s: State, s': State, t: nat)
    requires WriterAt(s, t) && t in s'.writing && s'.writing[t] == s.writing[t] && s.h.calls <= s'.h.calls
    requires s'.socks == s.socks && s'.h.sent == s.h.sent && s'.h.tags == s.h.tags
    ensures WriterAt(s', t)
  {
  }

  lemma EndWriteKeeps(s: State, t: nat, s': State)
    requires Sound(s) && s' == s.(writing := s.writing - {t})
    ensures Sound(s')
  {
    hide Sound, Rings, Links, Bounds, Queues, WriterAt;
    Parts(s);
    forall c | Waiter(s, c) ensures Waiter(s', c) { if Blocked(s, c) { assert Blocked(s', c); } }
    forall u | u in s'.writing ensures WriterAt(s', u) { assert WriterAt(s, u); WriterSame(s, s', u); }
    ThreadsKeep(s, s');
  }

  lemma BeginWriteKeeps(s: State, t: nat, id: nat, data: seq<byte>, s': State)
    requires Sound(s) && id in s.socks && t !in s.writing && s' == DoBeginWrite(s, t, id, data)
    ensures Sound(s')
  {
    hide Sound, Rings, Links, Bounds, Queues, WriterAt;
    Parts(s);
    if s' != s {
      forall c | Waiter(s, c) ensures Waiter(s', c) { if Blocked(s, c) { assert Blocked(s', c); } }
      forall u | u in s'.writing ensures WriterAt(s', u) && (u != t ==> s'.writing[u].call < s.h.calls) {
        if u != t { assert WriterAt(s, u); WriterSame(s, s', u); WriterCall(s, u); } else { NewWriter(s, t, s'); }
      }
      ThreadsKeep(s, s');
    }
  }

  lemma WriterCall(s: State, t: nat)
    requires WriterAt(s, t)
    ensures t in s.writing && s.writing[t].call < s.h.calls && s.writing[t].sock in s.socks
  {
  }

  /** A call that was just begun has written nothing: no byte carries its number. */
  lemma NewWriter(s: State, t: nat, s': State)
    requires Rings(s) && t in s'.writing && s'.writing[t].sock in s.socks && s'.writing[t].done == 0
    requires s'.writing[t].call == s.h.calls
    requires s'.socks == s.socks && s'.h == s.h.(calls := s.h.calls + 1)
    requires s.socks[s'.writing[t].sock].status == CONNECTED && s.socks[s'.writing[t].sock].peer.Some?
    ensures WriterAt(s', t)
  {
    var a := s'.writing[t].sock;
    assert RingOk(s, a);
    ByNone(Get(s.h.sent, a), Nums(s.h.tags, a), s.h.calls);
  }

  lemma {:induction false} ByNone(sent: seq<byte>, tags: seq<nat>, c: nat)
    requires |sent| == |tags| && Below(tags, c)
    ensures By(sent, tags, c) == []
  {
    if sent != [] { ByNone(sent[..|sent| - 1], tags[..|sent| - 1], c); }
  }

  // Moving bytes.

  lemma ReadKeeps(s: State, id: nat, n: nat, s': State)
    requires Sound(s) && id in s.socks && s' == DoRead(s, id, n)
    ensures Sound(s')
  {
    hide Sound, Rings, Links, Bounds, Queues, Writers, Waits;
    Parts(s);
    if s.socks[id].status == CONNECTED {
      ReadRings(s, id, n, s');
      LinksFrame(s, s');
      BoundsFrame(s, s');
      FlowQueues(s, s', id);
      ReadWriters(s, id, n, s');
      FlowWaits(s, s');
      Whole(s');
    }
  }

  lemma ReadRings(s: State, id: nat, n: nat, s': State)
    requires Rings(s) && id in s.socks && s.socks[id].status == CONNECTED && s' == DoRead(s, id, n)
    ensures Rings(s')
  {
    hide RingOk;
    forall a | a in s'.socks ensures RingOk(s', a) {
      assert RingOk(s, a);
      ReadRing(s, id, n, s', a);
    }
  }

  lemma ReadRing(s: State, id: nat, n: nat, s': State, a: nat)
    requires id in s.socks && s.socks[id].status == CONNECTED && s' == DoRead(s, id, n) && RingOk(s, a)
    ensures RingOk(s', a)
  {
    hide Below;
    if a == id { TakeFront(Get(s.h.recv, id), s.socks[id].rx, Min(n, |s.socks[id].rx|)); }
  }

  lemma TakeFront(recv: seq<byte>, rx: seq<byte>, w: nat)
    requires w <= |rx|
    ensures recv + rx == (recv + rx[..w]) + rx[w..]
  {
  }

  lemma ReadWriters(s: State, id: nat, n: nat, s': State)
    requires Writers(s) && id in s.socks && s' == DoRead(s, id, n)
    ensures Writers(s')
  {
    hide By;
    forall t | t in s'.writing ensures WriterAt(s', t) { assert WriterAt(s, t); }
  }

  /** Queues do not depend on rings. */
  lemma FlowQueues(s: State, s': State, b: nat)
    requires Queues(s) && b in s.socks && b in s'.socks && s'.socks == s.socks[b := s.socks[b].(rx := s'.socks[b].rx)]
    requires s'.waiting == s.waiting && s'.h.asked == s.h.asked && s'.h.taken == s.h.taken
    ensures Queues(s')
  {
    hide Queues;
    forall c | Waiter(s, c) ensures Waiter(s', c) { if Blocked(s, c) { assert Blocked(s', c); } }
    QueuesFrame(s, s');
  }

  lemma FlowWaits(s: State, s': State)
    requires Waits(s) && s'.waiting == s.waiting && s.socks.Keys <= s'.socks.Keys
    ensures Waits(s')
  {
  }

  lemma WriteTurnKeeps(s: State, t: nat, s': State)
    requires Sound(s) && t in s.writing && s' == DoWriteTurn(s, t)
    ensures Sound(s')
  {
    hide Sound, Rings, Links, Bounds, Queues, Writers, Waits, Piece, DoWriteTurn, CanPut;
    Parts(s);
    if CanPut(s, t) {
      var b := TurnEffect(s, t, s');
      TurnRings(s, t, s', b);
      LinksFrame(s, s');
      BoundsFrame(s, s');
      FlowQueues(s, s', b);
      TurnWriters(s, t, s', b);
      FlowWaits(s, s');
      Whole(s');
    } else {
      NoTurn(s, t, s');
    }
  }

  lemma NoTurn(s: State, t: nat, s': State)
    requires !CanPut(s, t) && s' == DoWriteTurn(s, t)
    ensures s' == s
  {
  }

  /** The ring never overwrites: a turn gives it no more than it has room for. */
  lemma TurnAppends(s: State, t: nat)
    requires CanPut(s, t)
    ensures var rx := s.socks[s.socks[s.writing[t].sock].peer.value].rx;
            Last(rx + Piece(s, t), CAPACITY) == rx + Piece(s, t) && |rx + Piece(s, t)| <= CAPACITY
    ensures s.writing[t].done + |Piece(s, t)| <= |s.writing[t].data|
    ensures Piece(s, t) == s.writing[t].data[s.writing[t].done..s.writing[t].done + |Piece(s, t)|]
    ensures s.writing[t].done < |s.writing[t].data| ==> |Piece(s, t)| > 0
  {
    var rx := s.socks[s.socks[s.writing[t].sock].peer.value].rx;
    NoLoss(rx, Piece(s, t), CAPACITY);
  }

  /** What a turn does, in terms of the appended piece. */
  lemma TurnEffect(s: State, t: nat, s': State) returns (b: nat)
    requires Links(s) && CanPut(s, t) && s' == DoWriteTurn(s, t)
    ensures var a, j, piece := s.writing[t].sock, s.writing[t], Piece(s, t);
            && a in s.socks && s.socks[a].peer == Some(b) && b in s.socks && b != a && s.socks[b].status != CLOSED
            && |s.socks[b].rx + piece| <= CAPACITY && s'.bound == s.bound && s'.waiting == s.waiting
            && s'.socks == s.socks[b := s.socks[b].(rx := s.socks[b].rx + piece)]
            && j.done + |piece| <= |j.data| && piece == j.data[j.done..j.done + |piece|]
            && s'.writing == s.writing[t := j.(done := j.done + |piece|)]
            && s'.h == s.h.(sent := s.h.sent[a := Get(s.h.sent, a) + piece],
                            tags := s.h.tags[a := Nums(s.h.tags, a) + seq(|piece|, _ => j.call)],
                            got := s.h.got[b := Get(s.h.got, b) + piece])
  {
    hide Piece;
    TurnAppends(s, t);
    b := s.socks[s.writing[t].sock].peer.value;
    assert LinkOk(s, s.writing[t].sock);
  }

  lemma TurnRings(s: State, t: nat, s': State, b: nat)
    requires Rings(s) && Writers(s) && CanPut(s, t)
    requires var a, j, piece := s.writing[t].sock, s.writing[t], Piece(s, t);
             && a in s.socks && b in s.socks && b != a && s.socks[b].status != CLOSED
             && |s.socks[b].rx + piece| <= CAPACITY
             && s'.socks == s.socks[b := s.socks[b].(rx := s.socks[b].rx + piece)]
             && s'.h == s.h.(sent := s.h.sent[a := Get(s.h.sent, a) + piece],
                             tags := s.h.tags[a := Nums(s.h.tags, a) + seq(|piece|, _ => j.call)],
                             got := s.h.got[b := Get(s.h.got, b) + piece])
    ensures Rings(s')
  {
    hide Piece, RingOk, By;
    var a, j, piece := s.writing[t].sock, s.writing[t], Piece(s, t);
    assert WriterAt(s, t);
    forall c | c in s'.socks ensures RingOk(s', c) {
      assert RingOk(s, c);
      if c == b {
        RingFilled(s, s', b, piece);
      } else if c == a {
        RingSent(s, s', a, piece, j.call);
      } else {
        RingElse(s, s', c);
      }
    }
  }

  lemma RingFilled(s: State, s': State, b: nat, piece: seq<byte>)
    requires RingOk(s, b) && b in s'.socks && s'.socks[b] == s.socks[b].(rx := s.socks[b].rx + piece)
    requires |s.socks[b].rx + piece| <= CAPACITY
    requires s.socks[b].status != CLOSED && s'.h.calls == s.h.calls && Get(s'.h.got, b) == Get(s.h.got, b) + piece
    requires Get(s'.h.recv, b) == Get(s.h.recv, b) && Get(s'.h.sent, b) == Get(s.h.sent, b)
    requires Nums(s'.h.tags, b) == Nums(s.h.tags, b)
    ensures RingOk(s', b)
  {
    assert Get(s.h.recv, b) + s.socks[b].rx + piece == Get(s.h.recv, b) + (s.socks[b].rx + piece);
  }

  lemma RingSent(s: State, s': State, a: nat, piece: seq<byte>, call: nat)
    requires RingOk(s, a) && a in s'.socks && s'.socks[a] == s.socks[a] && s'.h.calls == s.h.calls && call < s.h.calls
    requires Get(s'.h.got, a) == Get(s.h.got, a) && Get(s'.h.recv, a) == Get(s.h.recv, a)
    requires Get(s'.h.sent, a) == Get(s.h.sent, a) + piece
    requires Nums(s'.h.tags, a) == Nums(s.h.tags, a) + seq(|piece|, _ => call)
    ensures RingOk(s', a)
  {
  }

  lemma RingElse(s: State, s': State, c: nat)
    requires RingOk(s, c) && c in s'.socks && s'.socks[c] == s.socks[c] && s'.h.calls == s.h.calls
    requires SameHistory(s, s', c)
    ensures RingOk(s', c)
  {
  }

  /** Appending a piece of call j adds it to the bytes of that call and to no other's. */
  lemma {:induction false} ByAppend(sent: seq<byte>, tags: seq<nat>, piece: seq<byte>, j: nat, c: nat)
    requires |sent| == |tags|
    ensures By(sent + piece, tags + seq(|piece|, _ => j), c) == if c == j then By(sent, tags, c) + piece
          else By(sent, tags, c)
    decreases |piece|
  {
    var n := |piece|;
    if n == 0 {
      assert sent + piece == sent && tags + seq(n, _ => j) == tags;
    } else {
      var most := piece[..n - 1];
      ByAppend(sent, tags, most, j, c);
      var s, g := sent + piece, tags + seq(n, _ => j);
      assert s[..|s| - 1] == sent + most && g[..|s| - 1] == tags + seq(n - 1, _ => j);
      assert piece == most + [piece[n - 1]];
    }
  }

  lemma TurnWriters(s: State, t: nat, s': State, b: nat)
    requires Writers(s) && CanPut(s, t)
    requires var a, j, piece := s.writing[t].sock, s.writing[t], Piece(s, t);
             && a in s.socks && b in s.socks && b != a
             && s'.socks == s.socks[b := s.socks[b].(rx := s.socks[b].rx + piece)]
             && j.done + |piece| <= |j.data| && piece == j.data[j.done..j.done + |piece|]
             && s'.writing == s.writing[t := j.(done := j.done + |piece|)]
             && s'.h == s.h.(sent := s.h.sent[a := Get(s.h.sent, a) + piece],
                             tags := s.h.tags[a := Nums(s.h.tags, a) + seq(|piece|, _ => j.call)],
                             got := s.h.got[b := Get(s.h.got, b) + piece])
    ensures Writers(s')
  {
    hide Piece, By;
    var a, j, piece := s.writing[t].sock, s.writing[t], Piece(s, t);
    assert WriterAt(s, t);
    forall u | u in s'.writing ensures WriterAt(s', u) {
      assert WriterAt(s, u);
      if s.writing[u].sock == a {
        ByAppend(Get(s.h.sent, a), Nums(s.h.tags, a), piece, j.call, s.writing[u].call);
        if u == t { assert j.data[..j.done + |piece|] == j.data[..j.done] + piece; }
      }
    }
  }

  // Joining and leaving the queue.

  lemma PendingPush(k: Sock, id: nat)
    requires QueueOk(k) && (k.tail + 1) % QUEUE != k.head
    ensures Pending(k.(queue := k.queue[k.tail := id], tail := (k.tail + 1) % QUEUE)) == Pending(k) + [id]
  {
    var q, q', h, t := k.queue, k.queue[k.tail := id], k.head, k.tail;
    if h <= t {
      PutAtEnd(q, h, t, id);
      assert t + 1 == QUEUE ==> q'[h..] + q'[..0] == q'[h..t + 1];
    } else {
      PutAtEnd(q, 0, t, id);
      Associate(q[h..], q[..t], id);
      assert q'[h..] == q[h..];
    }
  }

  lemma Associate(a: seq<nat>, b: seq<nat>, id: nat)
    ensures a + (b + [id]) == a + b + [id]
  {
  }

  lemma PutAtEnd(q: seq<nat>, h: nat, t: nat, id: nat)
    requires h <= t < |q|
    ensures q[t := id][h..t + 1] == q[h..t] + [id]
  {
  }

  lemma PendingPop(k: Sock)
    requires QueueOk(k) && k.head != k.tail
    ensures Pending(k) == [k.queue[k.head]] + Pending(k.(head := (k.head + 1) % QUEUE))
  {
    var next: nat := if k.head + 1 == QUEUE then 0 else k.head + 1;
    assert (k.head + 1) % QUEUE == next;
    PopTo(k, next, k.(head := next));
  }

  lemma PopTo(k: Sock, next: nat, k': Sock)
    requires QueueOk(k) && k.head != k.tail && next == (if k.head + 1 == QUEUE then 0 else k.head + 1)
    requires k' == k.(head := next)
    ensures Pending(k) == [k.queue[k.head]] + Pending(k')
  {
    if k.head < k.tail { PopStraight(k.queue, k.head, k.tail); } else { PopRound(k.queue, k.head, k.tail); }
  }

  lemma PopStraight(q: seq<nat>, h: nat, t: nat)
    requires h < t < |q|
    ensures q[h..t] == [q[h]] + q[h + 1..t]
  {
  }

  lemma PopRound(q: seq<nat>, h: nat, t: nat)
    requires t < h < |q|
    ensures q[h..] + q[..t] == [q[h]] + (if h + 1 == |q| then q[0..t] else q[h + 1..] + q[..t])
  {
    assert q[h..] == [q[h]] + q[h + 1..];
  }

  /** Only the queue of x and its history changed; sockets may have begun to wait. */
  ghost predicate Shifted(s: State, s': State, x: nat) {
    && x in s.socks && x in s'.socks && s'.bound == s.bound && s'.writing == s.writing
    && s'.socks == s.socks[x := s.socks[x].(queue := s'.socks[x].queue, head := s'.socks[x].head,
        tail := s'.socks[x].tail)]
    && s'.h == s.h.(asked := s'.h.asked, taken := s'.h.taken)
    && (forall y | y in s.socks && y != x ::
          Nums(s'.h.asked, y) == Nums(s.h.asked, y) && Nums(s'.h.taken, y) == Nums(s.h.taken, y))
  }

  lemma ShiftedKeeps(s: State, s': State, x: nat)
    requires Sound(s) && Shifted(s, s', x) && Queues(s') && Waits(s')
    ensures Sound(s')
  {
    hide Sound, Rings, Links, Bounds, Queues, Writers, Waits, QueueOk;
    Parts(s);
    ShiftedRings(s, s', x);
    RingsFrame(s, s');
    LinksFrame(s, s');
    BoundsFrame(s, s');
    forall a | a in s.socks ensures SameHistory(s, s', a) {}
    WritersFrame(s, s');
    Whole(s');
  }

  lemma ShiftedRings(s: State, s': State, x: nat)
    requires Shifted(s, s', x)
    ensures RingsSame(s, s')
  {
  }

  /** The other queues. */
  lemma ShiftedElse(s: State, s': State, x: nat, y: nat, c: nat)
    requires Shifted(s, s', x) && y != x
    ensures Queued(s', y, c) <==> Queued(s, y, c)
    ensures QueueAt(s, y) ==> QueueAt(s', y)
  {
  }

  lemma ConnectKeeps(s: State, t: nat, id: nat, path: string, s': State)
    requires Sound(s) && id in s.socks && t !in s.waiting && s' == DoConnect(s, t, id, path)
    ensures Sound(s')
  {
    hide Sound, Rings, Links, Bounds, Queues, Writers, Waits, FindPath, Enqueue;
    Parts(s);
    if Joins(s, id, path) {
      var x := s.bound[FindPath(s, path, 0).value].value;
      ConnectShifts(s, t, id, x, s');
      ConnectQueues(s, t, id, x, s');
      ConnectWaits(s, t, id, x, s');
      ShiftedKeeps(s, s', x);
    }
  }

  lemma ConnectWaits(s: State, t: nat, id: nat, x: nat, s': State)
    requires Waits(s) && id in s.socks && x in s.socks && QueueOk(s.socks[x])
    requires var s1 := Enqueue(s, x, id); s' == s1.(waiting := s1.waiting[t := id])
    ensures Waits(s')
  {
  }

  lemma ConnectShifts(s: State, t: nat, id: nat, x: nat, s': State)
    requires x in s.socks && QueueOk(s.socks[x]) && (s.socks[x].tail + 1) % QUEUE != s.socks[x].head
    requires var s1 := Enqueue(s, x, id); s' == s1.(waiting := s1.waiting[t := id])
    ensures Shifted(s, s', x) && Pending(s'.socks[x]) == Pending(s.socks[x]) + [id] && QueueOk(s'.socks[x])
    ensures Nums(s'.h.asked, x) == Nums(s.h.asked, x) + [id] && Nums(s'.h.taken, x) == Nums(s.h.taken, x)
    ensures s'.waiting == s.waiting[t := id]
    ensures forall a | a in s.socks :: s'.socks[a].status == s.socks[a].status && s'.socks[a].peer == s.socks[a].peer
  {
    PendingPush(s.socks[x], id);
    hide Pending;
  }

  lemma ConnectQueues(s: State, t: nat, id: nat, x: nat, s': State)
    requires Queues(s) && id in s.socks && s.socks[id].status == UNBOUND && t !in s.waiting && Shifted(s, s', x)
    requires Open(s, x)
    requires QueueOk(s.socks[x]) && QueueOk(s'.socks[x]) && Pending(s'.socks[x]) == Pending(s.socks[x]) + [id]
    requires Nums(s'.h.asked, x) == Nums(s.h.asked, x) + [id] && Nums(s'.h.taken, x) == Nums(s.h.taken, x)
    requires s'.waiting == s.waiting[t := id]
    requires forall a | a in s.socks :: s'.socks[a].status == s.socks[a].status
    ensures Queues(s')
  {
    hide QueueAt, Queued, Pending, Shifted, Waiter;
    ShiftedKeys(s, s', x);
    assert Waiter(s', id) by { NewWaiter(s', t, id); }
    forall y | y in s'.socks ensures QueueAt(s', y) {
      assert QueueAt(s, y);
      if y == x { PushAt(s, id, x, s'); } else { ShiftedElse(s, s', x, y, 0); }
    }
    forall y, c | Queued(s', y, c) ensures Waiter(s', c) {
      if y == x { PushQueued(s, id, x, s', c); } else { ShiftedElse(s, s', x, y, c); }
      if c != id { assert Waiter(s, c); WaiterStays(s, s', t, id, c); }
    }
  }

  lemma ShiftedKeys(s: State, s': State, x: nat)
    requires Shifted(s, s', x)
    ensures s'.socks.Keys == s.socks.Keys && x in s.socks && s'.socks[x].status == s.socks[x].status
  {
  }

  lemma NewWaiter(s: State, t: nat, id: nat)
    requires id in s.socks && s.socks[id].status == UNBOUND && t in s.waiting && s.waiting[t] == id
    ensures Waiter(s, id)
  {
    assert Blocked(s, id);
  }

  lemma WaiterStays(s: State, s': State, t: nat, id: nat, c: nat)
    requires Waiter(s, c) && s'.socks.Keys >= s.socks.Keys && t !in s.waiting && s'.waiting == s.waiting[t := id]
    requires c in s.socks ==> s'.socks[c].status == s.socks[c].status
    ensures Waiter(s', c)
  {
    if Blocked(s, c) {
      var u :| u in s.waiting && s.waiting[u] == c;
      assert u in s'.waiting && s'.waiting[u] == c;
    }
  }

  lemma PushAt(s: State, id: nat, x: nat, s': State)
    requires QueueAt(s, x) && x in s'.socks && QueueOk(s'.socks[x])
    requires Pending(s'.socks[x]) == Pending(s.socks[x]) + [id]
    requires Nums(s'.h.asked, x) == Nums(s.h.asked, x) + [id] && Nums(s'.h.taken, x) == Nums(s.h.taken, x)
    ensures QueueAt(s', x)
  {
    hide Pending;
  }

  lemma PushQueued(s: State, id: nat, x: nat, s': State, c: nat)
    requires Open(s, x) && Open(s', x) && QueueOk(s.socks[x]) && QueueOk(s'.socks[x])
    requires Pending(s'.socks[x]) == Pending(s.socks[x]) + [id]
    ensures Queued(s', x, c) <==> Queued(s, x, c) || c == id
  {
    hide Pending;
  }

  lemma DequeueShifts(s: State, x: nat, s': State, c: nat)
    requires Open(s, x) && QueueOk(s.socks[x]) && s.socks[x].head != s.socks[x].tail && s' == Dequeue(s, x)
    requires c == s.socks[x].queue[s.socks[x].head]
    ensures Shifted(s, s', x) && Pending(s.socks[x]) == [c] + Pending(s'.socks[x]) && QueueOk(s'.socks[x])
    ensures Nums(s'.h.asked, x) == Nums(s.h.asked, x) && Nums(s'.h.taken, x) == Nums(s.h.taken, x) + [c]
    ensures s'.waiting == s.waiting
    ensures s'.socks.Keys == s.socks.Keys && Queued(s, x, c)
    ensures forall a | a in s.socks :: s'.socks[a].status == s.socks[a].status && s'.socks[a].peer == s.socks[a].peer
  {
    hide Pending, QueueOk, Dequeue;
    PendingPop(s.socks[x]);
    DequeueFields(s, x, s', c);
    FirstQueued(s, x, c, Pending(s'.socks[x]));
  }

  lemma FirstQueued(s: State, x: nat, c: nat, rest: seq<nat>)
    requires Open(s, x) && QueueOk(s.socks[x]) && Pending(s.socks[x]) == [c] + rest
    ensures Queued(s, x, c)
  {
    hide Pending;
    assert Pending(s.socks[x])[0] == c;
  }

  lemma DequeueFields(s: State, x: nat, s': State, c: nat)
    requires x in s.socks && QueueOk(s.socks[x]) && s' == Dequeue(s, x) && c == s.socks[x].queue[s.socks[x].head]
    ensures Shifted(s, s', x) && QueueOk(s'.socks[x])
    ensures s'.socks[x] == s.socks[x].(head := (s.socks[x].head + 1) % QUEUE)
    ensures Nums(s'.h.asked, x) == Nums(s.h.asked, x) && Nums(s'.h.taken, x) == Nums(s.h.taken, x) + [c]
    ensures s'.waiting == s.waiting
    ensures s'.socks.Keys == s.socks.Keys
    ensures forall a | a in s.socks :: s'.socks[a].status == s.socks[a].status && s'.socks[a].peer == s.socks[a].peer
  {
  }

  lemma DequeueQueues(s: State, x: nat, s': State, c: nat)
    requires Queues(s) && Open(s, x) && Shifted(s, s', x) && QueueOk(s.socks[x]) && QueueOk(s'.socks[x])
    requires Pending(s.socks[x]) == [c] + Pending(s'.socks[x])
    requires Nums(s'.h.asked, x) == Nums(s.h.asked, x) && Nums(s'.h.taken, x) == Nums(s.h.taken, x) + [c]
    requires s'.waiting == s.waiting
    requires s'.socks.Keys == s.socks.Keys && forall a | a in s.socks :: s'.socks[a].status == s.socks[a].status
    ensures Queues(s')
  {
    hide QueueAt, Queued, Pending, Shifted, Waiter;
    ShiftedKeys(s, s', x);
    forall y | y in s'.socks ensures QueueAt(s', y) {
      assert QueueAt(s, y);
      if y == x { PopAt(s, x, s', c); } else { ShiftedElse(s, s', x, y, 0); }
    }
    forall y, d | Queued(s', y, d) ensures Waiter(s', d) {
      if y == x { PopQueued(s, x, s', c, d); } else { ShiftedElse(s, s', x, y, d); }
      assert Waiter(s, d);
      WaiterSame(s, s', d);
    }
  }

  lemma WaiterSame(s: State, s': State, c: nat)
    requires Waiter(s, c) && s'.socks.Keys >= s.socks.Keys && s'.waiting == s.waiting
    requires c in s.socks ==> s'.socks[c].status == s.socks[c].status
    ensures Waiter(s', c)
  {
    if Blocked(s, c) { assert Blocked(s', c); }
  }

  lemma PopAt(s: State, x: nat, s': State, c: nat)
    requires QueueAt(s, x) && x in s'.socks && QueueOk(s'.socks[x]) && Pending(s.socks[x]) == [c] + Pending(s'.socks[x])
    requires Nums(s'.h.asked, x) == Nums(s.h.asked, x) && Nums(s'.h.taken, x) == Nums(s.h.taken, x) + [c]
    ensures QueueAt(s', x)
  {
    hide Pending;
    var p, p' := Pending(s.socks[x]), Pending(s'.socks[x]);
    assert Nums(s.h.taken, x) + p == Nums(s.h.taken, x) + [c] + p';
  }

  lemma PopQueued(s: State, x: nat, s': State, c: nat, d: nat)
    requires Open(s, x) && Open(s', x) && QueueOk(s.socks[x]) && QueueOk(s'.socks[x])
    requires Pending(s.socks[x]) == [c] + Pending(s'.socks[x])
    ensures Queued(s, x, d) <==> Queued(s', x, d) || d == c
  {
    hide Pending;
  }

  lemma DequeueKeeps(s: State, x: nat, s': State, c: nat)
    requires Sound(s) && Open(s, x) && QueueOk(s.socks[x]) && s.socks[x].head != s.socks[x].tail
    requires s' == Dequeue(s, x) && c == s.socks[x].queue[s.socks[x].head]
    ensures Sound(s') && c in s'.socks && s'.socks[c].status != CLOSED
  {
    hide Sound, Rings, Links, Bounds, Queues, Writers, Waits, Queued, QueueAt, Dequeue;
    Parts(s);
    DequeueShifts(s, x, s', c);
    DequeueQueues(s, x, s', c);
    QueuedWaits(s, x, c);
    FlowWaits(s, s');
    ShiftedKeeps(s, s', x);
  }

  lemma QueuedWaits(s: State, x: nat, c: nat)
    requires Queues(s) && Queued(s, x, c)
    ensures Waiter(s, c) && c in s.socks && s.socks[c].status != CLOSED
  {
    hide QueueAt, Queued;
  }

  /** Connecting two open sockets keeps the invariant, even if one of them was bound or connected before. */
  lemma LinkKeeps(s: State, a: nat, c: nat, s': State)
    requires Sound(s) && a in s.socks && c in s.socks && a != c && s.socks[a].status != CLOSED
    requires s.socks[c].status != CLOSED && s' == Link(s, a, c)
    ensures Sound(s')
  {
    hide Sound, Rings, Links, Bounds, Queues, Writers, Waits, Relabelled, Link;
    Parts(s);
    LinkSame(s, a, c, s');
    RelabelKeeps(s, s');
    LinkLinks(s, a, c, s');
    LinkBounds(s, a, c, s');
    Whole(s');
  }

  lemma LinkLinks(s: State, a: nat, c: nat, s': State)
    requires Links(s) && a in s.socks && c in s.socks && a != c && s' == Link(s, a, c)
    ensures Links(s')
  {
    forall d | d in s'.socks ensures LinkOk(s', d) { assert LinkOk(s, d); }
  }

  lemma LinkBounds(s: State, a: nat, c: nat, s': State)
    requires Bounds(s) && a in s.socks && c in s.socks && a != c && s' == Link(s, a, c)
    ensures Bounds(s')
  {
    hide Bounds;
    BoundsFrame(s, s');
  }

  lemma LinkSame(s: State, a: nat, c: nat, s': State)
    requires Waits(s) && a in s.socks && c in s.socks && a != c && s.socks[a].status != CLOSED
    requires s.socks[c].status != CLOSED && s' == Link(s, a, c)
    ensures Relabelled(s, s') && s'.bound == s.bound && s'.socks.Keys == s.socks.Keys
  {
    hide QueuesSame, RingsSame;
    LinkQueues(s, a, c, s');
    LinkRings(s, a, c, s');
    forall d | Waiter(s, d) ensures Waiter(s', d) { if Blocked(s, d) { assert Blocked(s', d); } }
  }

  lemma LinkQueues(s: State, a: nat, c: nat, s': State)
    requires Open(s, a) && Open(s, c) && s' == Link(s, a, c)
    ensures QueuesSame(s, s')
  {
  }

  lemma LinkRings(s: State, a: nat, c: nat, s': State)
    requires Open(s, a) && Open(s, c) && s' == Link(s, a, c)
    ensures RingsSame(s, s')
  {
  }

  lemma AcceptKeeps(s: State, id: nat, made: Option<nat>, s': State)
    requires Sound(s) && Open(s, id) && (made.Some? ==> made.value !in s.socks) && s' == DoAccept(s, id, made)
    ensures Sound(s')
  {
    hide Sound, AddSock, Dequeue, Link, Pending;
    if Served(s, id) {
      var c, s1 := s.socks[id].queue[s.socks[id].head], Dequeue(s, id);
      DequeueKeeps(s, id, s1, c);
      DequeueKeys(s, id, s1);
      if made.Some? {
        var s2 := AddSock(s1, made.value);
        SocketKeeps(s1, made.value, s2);
        Added(s1, made.value, s2);
        LinkKeeps(s2, made.value, c, s');
      }
    }
  }

  lemma DequeueKeys(s: State, x: nat, s': State)
    requires x in s.socks && QueueOk(s.socks[x]) && s' == Dequeue(s, x)
    ensures s'.socks.Keys == s.socks.Keys
  {
  }

  lemma Added(s: State, id: nat, s': State)
    requires s' == AddSock(s, id)
    ensures s'.socks == s.socks[id := NewSock()]
  {
  }

  // Closing.

  lemma CloseKeeps(s: State, id: nat, s': State)
    requires Sound(s) && Open(s, id) && Released(s, id) && s' == DoClose(s, id)
    ensures Sound(s')
  {
    hide Sound, Rings, Links, Bounds, Queues, Writers, Waits, Unbind, DoClose, Released;
    Parts(s);
    CloseFields(s, id, s');
    CloseRings(s, id, s');
    LinksFrame(s, s');
    CloseBounds(s, id, s');
    CloseQueues(s, id, s');
    CloseWriters(s, id, s');
    FlowWaits(s, s');
    Whole(s');
  }

  lemma CloseFields(s: State, id: nat, s': State)
    requires id in s.socks && s' == DoClose(s, id)
    ensures s'.socks.Keys == s.socks.Keys && s'.waiting == s.waiting && s'.writing == s.writing && s'.h == s.h
    ensures forall a | a in s.socks :: s'.socks[a].peer == s.socks[a].peer || s'.socks[a].peer.None?
    ensures forall a | a in s.socks && s'.socks[a].peer != s.socks[a].peer :: a == id || s.socks[id].peer == Some(a)
    ensures forall a | a in s.socks && a != id :: s'.socks[a] == s.socks[a].(peer := s'.socks[a].peer)
    ensures s'.socks[id].status == CLOSED && s'.socks[id].rx == [] && s'.socks[id].peer.None?
    ensures s'.socks[id].queue == s.socks[id].queue && s'.socks[id].head == s.socks[id].head
    ensures s'.socks[id].tail == s.socks[id].tail
  {
    hide Unbind;
  }

  lemma CloseRings(s: State, id: nat, s': State)
    requires Rings(s) && id in s.socks && s'.socks.Keys == s.socks.Keys && s'.h == s.h && s'.socks[id].status == CLOSED
    requires s'.socks[id].rx == []
    requires forall a | a in s.socks && a != id :: s'.socks[a] == s.socks[a].(peer := s'.socks[a].peer)
    ensures Rings(s')
  {
    forall a | a in s'.socks ensures RingOk(s', a) { assert RingOk(s, a); }
  }

  lemma CloseBounds(s: State, id: nat, s': State)
    requires Bounds(s) && id in s.socks && s' == DoClose(s, id)
    ensures Bounds(s')
  {
    forall i | 0 <= i < MAX_SOCKETS && s'.bound[i].Some?
      ensures s.bound[i] == s'.bound[i] && s'.bound[i].value != id && s'.bound[i].value in s'.socks
      ensures s'.bound[i].value in s.socks
      ensures s'.socks[s'.bound[i].value].path == s.socks[s.bound[i].value].path
      ensures s'.socks[s'.bound[i].value].status == s.socks[s.bound[i].value].status
    {
    }
  }

  lemma CloseQueues(s: State, id: nat, s': State)
    requires Queues(s) && id in s.socks && Released(s, id) && s'.socks.Keys == s.socks.Keys && s'.waiting == s.waiting
    requires s'.h == s.h
    requires forall a | a in s.socks && a != id :: s'.socks[a] == s.socks[a].(peer := s'.socks[a].peer)
    requires s'.socks[id].queue == s.socks[id].queue && s'.socks[id].head == s.socks[id].head
    requires s'.socks[id].tail == s.socks[id].tail && s'.socks[id].status == CLOSED
    ensures Queues(s')
  {
    hide Queues, Pending, QueuesSame;
    CloseSame(s, id, s');
    forall x, c | Queued(s, x, c) && Waiter(s, c) ensures Waiter(s', c) {
      assert c != id;
      WaiterSame(s, s', c);
    }
    QueuesFrame(s, s');
  }

  lemma CloseSame(s: State, id: nat, s': State)
    requires id in s.socks && s'.socks.Keys == s.socks.Keys && s'.h == s.h
    requires forall a | a in s.socks && a != id :: s'.socks[a] == s.socks[a].(peer := s'.socks[a].peer)
    requires s'.socks[id].queue == s.socks[id].queue && s'.socks[id].head == s.socks[id].head
    requires s'.socks[id].tail == s.socks[id].tail && s'.socks[id].status == CLOSED
    ensures QueuesSame(s, s')
  {
  }

  lemma CloseWriters(s: State, id: nat, s': State)
    requires Writers(s) && id in s.socks && Released(s, id) && s'.socks.Keys == s.socks.Keys && s'.h == s.h
    requires s'.writing == s.writing
    requires forall a | a in s.socks && a != id :: s'.socks[a] == s.socks[a].(peer := s'.socks[a].peer)
    requires forall a | a in s.socks && s'.socks[a].peer != s.socks[a].peer :: a == id || s.socks[id].peer == Some(a)
    ensures Writers(s')
  {
    hide By, InNoQueue;
    forall t | t in s'.writing ensures WriterAt(s', t) { assert WriterAt(s, t); }
  }

  // Every step.

  lemma StepSound(s: State, op: Op)
    requires Sound(s) && Enabled(s, op)
    ensures Sound(Step(s, op))
  {
    hide Sound, AddSock, DoBind, DoListen, DoConnect, DoAccept, DoBeginWrite, DoWriteTurn, DoRead, DoClose, Released;
    match op
    case Socket(id) => SocketKeeps(s, id, Step(s, op));
    case Bind(id, path) => BindKeeps(s, id, path, Step(s, op));
    case Listen(id) => ListenKeeps(s, id, Step(s, op));
    case Connect(t, id, path) => ConnectKeeps(s, t, id, path, Step(s, op));
    case Connected(t) => ConnectedKeeps(s, t, Step(s, op));
    case Accept(id, made) => AcceptKeeps(s, id, made, Step(s, op));
    case BeginWrite(t, id, data) => BeginWriteKeeps(s, t, id, data, Step(s, op));
    case WriteTurn(t) => WriteTurnKeeps(s, t, Step(s, op));
    case EndWrite(t) => EndWriteKeeps(s, t, Step(s, op));
    case Read(id, n) => ReadKeeps(s, id, n, Step(s, op));
    case Close(id) => CloseKeeps(s, id, Step(s, op));
  }
}
