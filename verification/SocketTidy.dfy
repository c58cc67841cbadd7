/** Which steps keep connections exclusive: exactly those that do not use a socket that is being connected. */
module SocketTidy {
  import opened Options
  import opened Seqs
  import opened SocketSound
  import opened SocketState
  import opened Words

  // What each part depends on.

  lemma OnceFrame(s: State, s': State)
    requires Once(s) && QueuesSame(s, s')
    requires forall x, c {:trigger Queued(s, x, c)} | Queued(s, x, c) && c in s.socks ::
        s'.socks[c].status == s.socks[c].status
    requires forall x, c {:trigger Queued(s, x, c)} | Queued(s, x, c) :: c in s.socks
    ensures Once(s')
  {
    hide Queued, Pending, QueuesSame;
    forall x, c | Queued(s', x, c) ensures Queued(s, x, c) { QueuedFrame(s, s', x, c); }
    forall x | x in s'.socks && QueueOk(s'.socks[x]) ensures Distinct(Pending(s'.socks[x])) { PendingFrame(s, s', x); }
  }

  lemma PendingFrame(s: State, s': State, x: nat)
    requires QueuesSame(s, s') && x in s'.socks && QueueOk(s'.socks[x])
    ensures x in s.socks ==> QueueOk(s.socks[x]) && Pending(s'.socks[x]) == Pending(s.socks[x])
    ensures x !in s.socks ==> Pending(s'.socks[x]) == []
  {
  }

  lemma PeersFrame(s: State, s': State)
    requires Peers(s) && s.socks.Keys <= s'.socks.Keys
    requires forall a | a in s.socks ::
        s'.socks[a].peer == s.socks[a].peer && (s.socks[a].peer.Some? ==> s'.socks[a].status == s.socks[a].status)
    requires forall a | a in s'.socks && a !in s.socks :: s'.socks[a].peer.None?
    ensures Peers(s')
  {
    forall a | a in s'.socks && s'.socks[a].peer.Some?
      ensures var b := s'.socks[a].peer.value;
              b in s'.socks && s'.socks[b].peer == Some(a) && s'.socks[a].status == CONNECTED &&
                  s'.socks[b].status == CONNECTED
    {
      assert s.socks[a].peer == s'.socks[a].peer;
      var b := s.socks[a].peer.value;
      assert s.socks[b].peer == Some(a);
    }
  }

  lemma StreamFrame(s: State, s': State, a: nat)
    requires Stream(s, a) && a in s'.h.mate && s'.h.mate[a] == s.h.mate[a]
    requires var b := s.h.mate[a];
             && b in s'.socks && b in s'.h.mate && s'.h.mate[b] == a
             && Get(s'.h.sent, a) == Get(s.h.sent, a) && Get(s'.h.got, b) == Get(s.h.got, b)
             && a in s'.socks && s'.socks[a].status in {CONNECTED, CLOSED}
    ensures Stream(s', a)
  {
  }

  /** Connections and what was sent over them are the same; a link may be cleared; a new socket has none. */
  ghost predicate StreamsSame(s: State, s': State) {
    && s'.h.mate == s.h.mate && s.socks.Keys <= s'.socks.Keys
    && (forall a | a in s.socks :: Get(s'.h.sent, a) == Get(s.h.sent, a) && Get(s'.h.got, a) == Get(s.h.got, a))
    && (forall a | a in s.socks && a in s.h.mate ::
          s'.socks[a].status == s.socks[a].status || s'.socks[a].status == CLOSED)
    && (forall a | a in s.socks :: s'.socks[a].peer == s.socks[a].peer || s'.socks[a].peer.None?)
    && (forall a | a in s'.socks && a !in s.socks ::
          Get(s'.h.sent, a) == [] && Get(s'.h.got, a) == [] && s'.socks[a].peer.None?)
  }

  lemma StreamsFrame(s: State, s': State)
    requires Streams(s) && StreamsSame(s, s')
    ensures Streams(s')
  {
    hide Stream;
    forall a | a in s'.h.mate ensures Stream(s', a) {
      assert Stream(s, a);
      StreamFields(s, a);
      StreamFrame(s, s', a);
    }
    forall a | a in s'.socks
      ensures s'.socks[a].peer.Some? ==> a in s'.h.mate && s'.h.mate[a] == s'.socks[a].peer.value
      ensures a !in s'.h.mate ==> Get(s'.h.sent, a) == [] && Get(s'.h.got, a) == []
    {
      if a in s.socks { assert s.socks[a].peer == s.socks[a].peer && Get(s.h.sent, a) == Get(s'.h.sent, a); }
    }
  }

  lemma StreamFields(s: State, a: nat)
    requires Stream(s, a)
    ensures a in s.h.mate && a in s.socks && s.h.mate[a] in s.socks && s.h.mate[a] in s.h.mate && s.h.mate[a] != a
    ensures s.h.mate[s.h.mate[a]] == a
    ensures Get(s.h.sent, a) == Get(s.h.got, s.h.mate[a]) && s.socks[a].status in {CONNECTED, CLOSED}
  {
  }

  lemma TableFrame(s: State, s': State)
    requires Listeners(s) && Bounds(s) && s'.bound == s.bound && s.socks.Keys <= s'.socks.Keys
    requires forall a | a in s.socks && s.socks[a].status in {BOUND, LISTENING} ::
        s'.socks[a].status in {BOUND, LISTENING}
    ensures Listeners(s')
  {
  }

  lemma TidyParts(s: State)
    requires Tidy(s)
    ensures Once(s) && Peers(s) && Streams(s) && Listeners(s)
  {
  }

  lemma TidyWhole(s: State)
    requires Once(s) && Peers(s) && Streams(s) && Listeners(s)
    ensures Tidy(s)
  {
  }

  lemma QueuedKnown(s: State)
    requires Sound(s)
    ensures forall x, c {:trigger Queued(s, x, c)} | Queued(s, x, c) :: c in s.socks
  {
    hide Rings, Links, Bounds, Writers, Waits, Queued, QueueAt;
    forall x, c | Queued(s, x, c) ensures c in s.socks { assert Waiter(s, c); }
  }

  /** A socket that was never connected. */
  lemma Unlinked(s: State, id: nat)
    requires Tidy(s) && id in s.socks && s.socks[id].status != CONNECTED && s.socks[id].status != CLOSED
    ensures s.socks[id].peer.None? && id !in s.h.mate && Get(s.h.sent, id) == [] && Get(s.h.got, id) == []
  {
    hide Once, Listeners;
    assert s.socks[id].peer == s.socks[id].peer;
    assert id in s.h.mate ==> Stream(s, id);
    assert Get(s.h.sent, id) == Get(s.h.sent, id);
  }

  // Steps.

  lemma SocketTidies(s: State, id: nat, s': State)
    requires Sound(s) && Tidy(s) && id !in s.socks && s' == AddSock(s, id)
    ensures Tidy(s')
  {
    hide Sound, Once, Peers, Streams, Listeners, Tidy, AddSock, QueuesSame, StreamsSame;
    Parts(s);
    TidyParts(s);
    QueuedKnown(s);
    AddSame(s, id, s');
    OnceFrame(s, s');
    PeersFrame(s, s');
    AddStreams(s, id, s');
    StreamsFrame(s, s');
    TableFrame(s, s');
    TidyWhole(s');
  }

  lemma AddStreams(s: State, id: nat, s': State)
    requires id !in s.socks && s' == AddSock(s, id)
    ensures StreamsSame(s, s')
  {
  }

  /** A socket that is not connected and in no queue changes path and status, and stays unconnected and open. */
  lemma RelabelTidies(s: State, id: nat, k: Sock, s': State)
    requires Sound(s) && Tidy(s) && id in s.socks && s.socks[id].status != CONNECTED && s.socks[id].status != CLOSED
    requires InNoQueue(s, id)
    requires k == s.socks[id].(path := k.path, status := k.status) && s'.socks == s.socks[id := k] && s'.h == s.h
    ensures Once(s') && Peers(s') && Streams(s')
  {
    hide Sound, Once, Peers, Streams, Listeners, Tidy, QueuesSame, StreamsSame, QueueOk, Pending;
    TidyParts(s);
    Unlinked(s, id);
    QueuedKnown(s);
    RelabelQueues(s, id, k, s');
    OnceFrame(s, s');
    PeersFrame(s, s');
    RelabelStreams(s, id, k, s');
    StreamsFrame(s, s');
  }

  lemma RelabelQueues(s: State, id: nat, k: Sock, s': State)
    requires Open(s, id) && k == s.socks[id].(path := k.path, status := k.status) && s'.socks == s.socks[id := k]
    requires s'.h == s.h
    ensures QueuesSame(s, s')
  {
  }

  lemma RelabelStreams(s: State, id: nat, k: Sock, s': State)
    requires id in s.socks && id !in s.h.mate && k == s.socks[id].(path := k.path, status := k.status)
    requires s'.socks == s.socks[id := k] && s'.h == s.h
    ensures StreamsSame(s, s')
  {
  }

  lemma ListenTidies(s: State, id: nat, s': State)
    requires Sound(s) && Tidy(s) && id in s.socks && s' == DoListen(s, id)
    ensures Tidy(s')
  {
    hide Sound, Once, Peers, Streams, Listeners, Tidy, Queued;
    if s' != s {
      Parts(s);
      TidyParts(s);
      BoundNotQueued(s, id);
      RelabelTidies(s, id, s.socks[id].(status := LISTENING), s');
      TableFrame(s, s');
      TidyWhole(s');
    }
  }

  lemma BoundNotQueued(s: State, id: nat)
    requires Once(s) && id in s.socks && s.socks[id].status != UNBOUND
    ensures InNoQueue(s, id)
  {
    hide Queued, Pending, QueueOk;
  }

  /** A bind keeps connections exclusive exactly when it fails or its socket is in no queue. */
  lemma BindTidies(s: State, id: nat, path: string, s': State)
    requires Sound(s) && Tidy(s) && Open(s, id) && s' == DoBind(s, id, path)
    ensures Tidy(s') <==> Guarded(s, Bind(id, path))
  {
    hide Sound, Once, Peers, Streams, Listeners, Tidy, FindPath, FirstEmpty, InNoQueue;
    if CanBind(s, id, path) {
      Parts(s);
      TidyParts(s);
      if InNoQueue(s, id) {
        RelabelTidies(s, id, s.socks[id].(path := path, status := BOUND), s');
        BindTable(s, id, path, s', FirstEmpty(s.bound, 0).value);
        TidyWhole(s');
      } else {
        BoundWhileQueued(s, id, s');
      }
    }
  }

  lemma BindTable(s: State, id: nat, path: string, s': State, i: nat)
    requires Listeners(s) && Bounds(s) && id in s.socks && i < |s.bound| && s'.bound == s.bound[i := Some(id)]
    requires s'.socks == s.socks[id := s.socks[id].(path := path, status := BOUND)]
    ensures Listeners(s')
  {
    forall k | 0 <= k < |s'.bound| && k != i && s'.bound[k].Some?
      ensures s.bound[k] == s'.bound[k] && s'.bound[k].value in s.socks
    {
    }
  }

  lemma BoundWhileQueued(s: State, id: nat, s': State)
    requires Open(s, id) && !InNoQueue(s, id) && Open(s', id) && s'.socks[id].status != UNBOUND && s'.h == s.h
    requires s'.socks == s.socks[id := s'.socks[id]]
    requires s'.socks[id] == s.socks[id].(path := s'.socks[id].path, status := s'.socks[id].status)
    ensures !Tidy(s')
  {
    hide Peers, Streams, Listeners, Pending, QueuesSame;
    var x :| x in s.socks && Queued(s, x, id);
    RelabelQueues(s, id, s'.socks[id], s');
    QueuedFrame(s, s', x, id);
  }

  /** Threads that enter or leave a call. */
  lemma ThreadsTidy(s: State, s': State)
    requires Tidy(s) && s' == s.(waiting := s'.waiting, writing := s'.writing, h := s'.h)
    requires s'.h == s.h.(calls := s'.h.calls)
    ensures Tidy(s')
  {
    hide Once, Streams;
    ThreadsOnce(s, s');
    ThreadsStreams(s, s');
  }

  lemma ThreadsOnce(s: State, s': State)
    requires Once(s) && s'.socks == s.socks
    ensures Once(s')
  {
    hide Pending, Distinct;
    forall x, c ensures Queued(s', x, c) <==> Queued(s, x, c) {}
    forall x | x in s'.socks && QueueOk(s'.socks[x]) ensures Distinct(Pending(s'.socks[x])) {
      assert QueueOk(s.socks[x]);
    }
  }

  lemma ThreadsStreams(s: State, s': State)
    requires Streams(s) && s'.socks == s.socks && s'.h == s.h.(calls := s'.h.calls)
    ensures Streams(s')
  {
    hide Stream;
    forall a | a in s'.h.mate ensures Stream(s', a) { assert Stream(s, a); StreamFields(s, a); StreamFrame(s, s', a); }
    forall a | a in s'.socks && a !in s'.h.mate ensures Get(s'.h.sent, a) == [] && Get(s'.h.got, a) == [] {
      assert Get(s.h.sent, a) == [];
    }
  }

  lemma ReadTidies(s: State, id: nat, n: nat, s': State)
    requires Sound(s) && Tidy(s) && id in s.socks && s' == DoRead(s, id, n)
    ensures Tidy(s')
  {
    hide Sound, Once, Peers, Streams, Listeners, Tidy, QueuesSame, StreamsSame, Min;
    if s.socks[id].status == CONNECTED {
      Parts(s);
      TidyParts(s);
      QueuedKnown(s);
      RxQueues(s, id, s');
      OnceFrame(s, s');
      PeersFrame(s, s');
      ReadStreams(s, id, n, s');
      StreamsFrame(s, s');
      TableFrame(s, s');
      TidyWhole(s');
    }
  }

  lemma RxQueues(s: State, b: nat, s': State)
    requires b in s.socks && b in s'.socks && s'.socks == s.socks[b := s.socks[b].(rx := s'.socks[b].rx)]
    requires s'.h.asked == s.h.asked && s'.h.taken == s.h.taken
    ensures QueuesSame(s, s')
  {
  }

  lemma ReadStreams(s: State, id: nat, n: nat, s': State)
    requires id in s.socks && s' == DoRead(s, id, n)
    ensures StreamsSame(s, s')
  {
  }

  lemma WriteTurnTidies(s: State, t: nat, s': State)
    requires Sound(s) && Tidy(s) && t in s.writing && s' == DoWriteTurn(s, t)
    ensures Tidy(s')
  {
    hide Sound, Once, Peers, Streams, Listeners, Tidy, QueuesSame, Piece, DoWriteTurn, CanPut;
    if CanPut(s, t) {
      Parts(s);
      TidyParts(s);
      QueuedKnown(s);
      var b := TurnEffect(s, t, s');
      RxQueues(s, b, s');
      OnceFrame(s, s');
      PeersFrame(s, s');
      TurnStreams(s, s', s.writing[t].sock, b, Piece(s, t));
      TableFrame(s, s');
      TidyWhole(s');
    } else {
      NoTurn(s, t, s');
    }
  }

  /** Bytes written on a go to the ring of its mate, and the mate hears nobody else. */
  lemma TurnStreams(s: State, s': State, a: nat, b: nat, piece: seq<byte>)
    requires Streams(s) && a in s.socks && b in s.socks && s.socks[a].peer == Some(b)
    requires s'.socks == s.socks[b := s.socks[b].(rx := s.socks[b].rx + piece)] && s'.h.mate == s.h.mate
    requires s'.h.sent == s.h.sent[a := Get(s.h.sent, a) + piece] && s'.h.got == s.h.got[b := Get(s.h.got, b) + piece]
    ensures Streams(s')
  {
    hide Stream;
    assert s.socks[a].peer.Some?;
    assert Stream(s, a);
    StreamFields(s, a);
    assert Stream(s, b);
    StreamFields(s, b);
    forall c | c in s'.h.mate ensures Stream(s', c) {
      assert Stream(s, c);
      StreamFields(s, c);
      if c == a { StreamIf(s', a); } else { StreamFrame(s, s', c); }
    }
    forall c | c in s'.socks
      ensures s'.socks[c].peer.Some? ==> c in s'.h.mate && s'.h.mate[c] == s'.socks[c].peer.value
      ensures c !in s'.h.mate ==> Get(s'.h.sent, c) == [] && Get(s'.h.got, c) == []
    {
      assert s.socks[c].peer == s'.socks[c].peer && Get(s.h.sent, c) == Get(s.h.sent, c);
    }
  }

  lemma StreamIf(s: State, a: nat)
    requires a in s.h.mate && s.h.mate[a] in s.socks && s.h.mate[a] in s.h.mate && s.h.mate[s.h.mate[a]] == a
    requires s.h.mate[a] != a
    requires Get(s.h.sent, a) == Get(s.h.got, s.h.mate[a]) && a in s.socks && s.socks[a].status in {CONNECTED, CLOSED}
    ensures Stream(s, a)
  {
  }

  /** A connect keeps connections exclusive exactly when it joins no queue or its socket is in none. */
  lemma ConnectTidies(s: State, t: nat, id: nat, path: string, s': State)
    requires Sound(s) && Tidy(s) && Open(s, id) && t !in s.waiting && s' == DoConnect(s, t, id, path)
    ensures Tidy(s') <==> Guarded(s, Connect(t, id, path))
  {
    hide Sound, Once, Peers, Streams, Listeners, Tidy, FindPath, InNoQueue, Enqueue, Pending, Shifted;
    if Joins(s, id, path) {
      var x := s.bound[FindPath(s, path, 0).value].value;
      ConnectShifts(s, t, id, x, s');
      if InNoQueue(s, id) {
        ShiftedRest(s, s', x);
        TidyParts(s);
        ConnectOnce(s, id, x, s');
        TidyWhole(s');
      } else {
        ConnectTwice(s, id, x, s');
      }
    }
  }

  /** A change of one queue leaves the connections alone. */
  lemma ShiftedRest(s: State, s': State, x: nat)
    requires Sound(s) && Tidy(s) && Shifted(s, s', x)
    ensures Peers(s') && Streams(s') && Listeners(s')
  {
    hide Sound, Once, Peers, Streams, Listeners, Tidy, StreamsSame, QueueOk;
    Parts(s);
    TidyParts(s);
    PeersFrame(s, s');
    ShiftedStreams(s, s', x);
    StreamsFrame(s, s');
    TableFrame(s, s');
  }

  lemma ShiftedStreams(s: State, s': State, x: nat)
    requires Shifted(s, s', x)
    ensures StreamsSame(s, s')
  {
  }

  lemma ConnectOnce(s: State, id: nat, x: nat, s': State)
    requires Open(s, x) && Once(s) && InNoQueue(s, id) && id in s.socks && s.socks[id].status == UNBOUND
    requires Shifted(s, s', x)
    requires QueueOk(s.socks[x]) && QueueOk(s'.socks[x]) && Pending(s'.socks[x]) == Pending(s.socks[x]) + [id]
    requires forall a | a in s.socks :: s'.socks[a].status == s.socks[a].status
    ensures Once(s')
  {
    hide Queued, Pending, Shifted;
    ShiftedKeys(s, s', x);
    forall y, c ensures Queued(s', y, c) <==> Queued(s, y, c) || (y == x && c == id) {
      if y == x { PushQueued(s, id, x, s', c); } else { ShiftedElse(s, s', x, y, c); }
    }
    assert forall y :: !Queued(s, y, id) by { NoQueueAt(s, id); }
    forall y | y in s'.socks && QueueOk(s'.socks[y]) ensures Distinct(Pending(s'.socks[y])) {
      if y == x { DistinctPush(s, x, id); } else { ShiftedPending(s, s', x, y); assert QueueOk(s.socks[y]); }
    }
  }

  lemma NoQueueAt(s: State, c: nat)
    requires InNoQueue(s, c)
    ensures forall y :: !Queued(s, y, c)
  {
  }

  lemma DistinctPush(s: State, x: nat, id: nat)
    requires Open(s, x) && QueueOk(s.socks[x]) && Distinct(Pending(s.socks[x])) && !Queued(s, x, id)
    ensures Distinct(Pending(s.socks[x]) + [id])
  {
    hide Pending;
    var p := Pending(s.socks[x]);
    forall i | 0 <= i < |p| ensures p[i] != id { assert p[i] in p; }
  }

  lemma ShiftedPending(s: State, s': State, x: nat, y: nat)
    requires Shifted(s, s', x) && y != x && y in s'.socks && QueueOk(s'.socks[y])
    ensures y in s.socks && QueueOk(s.socks[y]) && Pending(s'.socks[y]) == Pending(s.socks[y])
  {
  }

  lemma ConnectTwice(s: State, id: nat, x: nat, s': State)
    requires Open(s, x) && !InNoQueue(s, id) && Shifted(s, s', x)
    requires QueueOk(s.socks[x]) && QueueOk(s'.socks[x]) && Pending(s'.socks[x]) == Pending(s.socks[x]) + [id]
    ensures !Tidy(s')
  {
    hide Peers, Streams, Listeners, Pending, Shifted;
    ShiftedKeys(s, s', x);
    var y :| y in s.socks && Queued(s, y, id);
    PushQueued(s, id, x, s', id);
    if y != x {
      ShiftedElse(s, s', x, y, id);
    } else {
      var p, p' := Pending(s.socks[x]), Pending(s'.socks[x]);
      var i :| 0 <= i < |p| && p[i] == id;
      assert p'[i] == id && p'[|p|] == id;
    }
  }

  lemma DequeueTidies(s: State, x: nat, s': State, c: nat)
    requires Sound(s) && Tidy(s) && Open(s, x) && QueueOk(s.socks[x]) && s.socks[x].head != s.socks[x].tail
    requires s' == Dequeue(s, x) && c == s.socks[x].queue[s.socks[x].head]
    ensures Tidy(s') && c in s'.socks && s'.socks[c].status == UNBOUND && InNoQueue(s', c) && Blocked(s', c)
  {
    hide Sound, Once, Peers, Streams, Listeners, Tidy, Dequeue, Pending, Shifted, Queued, InNoQueue;
    DequeueShifts(s, x, s', c);
    ShiftedRest(s, s', x);
    TidyParts(s);
    QueuedKnown(s);
    PopOnce(s, x, s', c);
    TidyWhole(s');
    Parts(s);
    FirstBlocked(s, x, c);
    StillBlocked(s, s', c);
  }

  lemma FirstBlocked(s: State, x: nat, c: nat)
    requires Queues(s) && Once(s) && Queued(s, x, c)
    ensures c in s.socks && s.socks[c].status == UNBOUND && Blocked(s, c)
  {
    hide QueueAt, Queued, Blocked;
    assert Waiter(s, c);
  }

  lemma StillBlocked(s: State, s': State, c: nat)
    requires Blocked(s, c) && s'.waiting == s.waiting
    ensures Blocked(s', c)
  {
  }

  lemma PopOnce(s: State, x: nat, s': State, c: nat)
    requires Once(s) && Shifted(s, s', x) && QueueOk(s.socks[x]) && QueueOk(s'.socks[x])
    requires Pending(s.socks[x]) == [c] + Pending(s'.socks[x])
    requires Open(s, x) && Queued(s, x, c)
    requires forall a | a in s.socks :: a in s'.socks && s'.socks[a].status == s.socks[a].status
    ensures Once(s') && InNoQueue(s', c)
  {
    hide Queued, Pending, Shifted;
    ShiftedKeys(s, s', x);
    var p, p' := Pending(s.socks[x]), Pending(s'.socks[x]);
    assert p[0] == c;
    forall i | 0 <= i < |p'| ensures p'[i] == p[i + 1] && p'[i] != c {}
    forall y, d | Queued(s', y, d) ensures Queued(s, y, d) && d != c {
      if y == x { PopQueued(s, x, s', c, d); PendingHas(s', x, d); } else { ShiftedElse(s, s', x, y, d); }
    }
    forall y | y in s'.socks && QueueOk(s'.socks[y]) ensures Distinct(Pending(s'.socks[y])) {
      if y != x { ShiftedPending(s, s', x, y); assert QueueOk(s.socks[y]); }
    }
  }

  lemma PendingHas(s: State, x: nat, d: nat)
    requires Queued(s, x, d)
    ensures x in s.socks && QueueOk(s.socks[x]) && d in Pending(s.socks[x])
  {
  }

  lemma LinkTidies(s: State, a: nat, c: nat, s': State)
    requires Sound(s) && Tidy(s) && a in s.socks && c in s.socks && a != c && s.socks[a].status == UNBOUND
    requires s.socks[c].status == UNBOUND
    requires InNoQueue(s, a) && InNoQueue(s, c) && s' == Link(s, a, c)
    ensures Tidy(s')
  {
    hide Sound, Once, Peers, Streams, Listeners, Tidy, QueuesSame, InNoQueue, Link;
    Parts(s);
    TidyParts(s);
    Unlinked(s, a);
    Unlinked(s, c);
    QueuedKnown(s);
    LinkOnce(s, a, c, s');
    LinkPeers(s, a, c, s');
    LinkStreams(s, a, c, s');
    LinkTable(s, a, c, s');
    TidyWhole(s');
  }

  lemma LinkOnce(s: State, a: nat, c: nat, s': State)
    requires Once(s) && Open(s, a) && Open(s, c) && InNoQueue(s, a) && InNoQueue(s, c) && s' == Link(s, a, c)
    requires forall x, d {:trigger Queued(s, x, d)} | Queued(s, x, d) :: d in s.socks
    ensures Once(s')
  {
    hide Once, Queued, QueuesSame, InNoQueue;
    LinkQueues(s, a, c, s');
    NoQueueAt(s, a);
    NoQueueAt(s, c);
    OnceFrame(s, s');
  }

  lemma LinkPeers(s: State, a: nat, c: nat, s': State)
    requires Peers(s) && a in s.socks && c in s.socks && a != c && s.socks[a].peer.None? && s.socks[c].peer.None?
    requires s' == Link(s, a, c)
    ensures Peers(s')
  {
    forall d | d in s'.socks && s'.socks[d].peer.Some?
      ensures var b := s'.socks[d].peer.value;
              b in s'.socks && s'.socks[b].peer == Some(d) && s'.socks[d].status == CONNECTED &&
                  s'.socks[b].status == CONNECTED
    {
      if d != a && d != c {
        assert s.socks[d].peer == s'.socks[d].peer;
        var b := s.socks[d].peer.value;
        assert s.socks[b].peer == Some(d);
      }
    }
  }

  lemma LinkStreams(s: State, a: nat, c: nat, s': State)
    requires Streams(s) && a in s.socks && c in s.socks && a != c && a !in s.h.mate && c !in s.h.mate
    requires s' == Link(s, a, c)
    requires Get(s.h.sent, a) == Get(s.h.got, a) == [] && Get(s.h.sent, c) == Get(s.h.got, c) == []
    ensures Streams(s')
  {
    hide Stream;
    StreamIf(s', a);
    StreamIf(s', c);
    forall d | d in s'.h.mate ensures Stream(s', d) {
      if d != a && d != c {
        assert Stream(s, d);
        StreamFields(s, d);
        StreamFrame(s, s', d);
      }
    }
    forall d | d in s'.socks
      ensures s'.socks[d].peer.Some? ==> d in s'.h.mate && s'.h.mate[d] == s'.socks[d].peer.value
      ensures d !in s'.h.mate ==> Get(s'.h.sent, d) == [] && Get(s'.h.got, d) == []
    {
      assert s.socks[d].peer == s.socks[d].peer && Get(s.h.sent, d) == Get(s.h.sent, d);
    }
  }

  lemma LinkTable(s: State, a: nat, c: nat, s': State)
    requires Listeners(s) && Bounds(s) && a in s.socks && c in s.socks && s.socks[a].status == UNBOUND
    requires s.socks[c].status == UNBOUND && s' == Link(s, a, c)
    ensures Listeners(s')
  {
    hide Listeners, Bounds;
    TableFrame(s, s');
  }

  lemma AcceptTidies(s: State, id: nat, made: Option<nat>, s': State)
    requires Sound(s) && Tidy(s) && Open(s, id) && (made.Some? ==> made.value !in s.socks)
    requires s' == DoAccept(s, id, made)
    ensures Tidy(s')
  {
    hide Sound, Tidy, AddSock, Dequeue, Link, Pending, InNoQueue;
    if Served(s, id) {
      var c, s1 := s.socks[id].queue[s.socks[id].head], Dequeue(s, id);
      DequeueKeeps(s, id, s1, c);
      DequeueKeys(s, id, s1);
      DequeueTidies(s, id, s1, c);
      if made.Some? {
        var s2 := AddSock(s1, made.value);
        SocketKeeps(s1, made.value, s2);
        SocketTidies(s1, made.value, s2);
        Added(s1, made.value, s2);
        AddedQueued(s1, made.value, s2, c);
        LinkTidies(s2, made.value, c, s');
      }
    }
  }

  lemma AddedQueued(s: State, id: nat, s': State, c: nat)
    requires Sound(s) && id !in s.socks && s' == AddSock(s, id) && InNoQueue(s, c)
    ensures InNoQueue(s', c) && InNoQueue(s', id)
  {
    hide Sound, QueuesSame, AddSock, Queued;
    QueuedKnown(s);
    AddQueues(s, id, s');
    forall y, d | Queued(s', y, d) ensures Queued(s, y, d) { QueuedFrame(s, s', y, d); }
    NoQueueAt(s, c);
  }

  lemma CloseTidies(s: State, id: nat, s': State)
    requires Sound(s) && Tidy(s) && Open(s, id) && Released(s, id) && s' == DoClose(s, id)
    ensures Tidy(s')
  {
    hide Sound, Once, Peers, Streams, Listeners, Tidy, QueuesSame, StreamsSame, DoClose, Released, InNoQueue, Unbind;
    Parts(s);
    TidyParts(s);
    QueuedKnown(s);
    CloseFields(s, id, s');
    CloseSame(s, id, s');
    ReleasedQueue(s, id);
    NoQueueAt(s, id);
    OnceFrame(s, s');
    ClosePeers(s, id, s');
    CloseStreams(s, id, s');
    StreamsFrame(s, s');
    CloseTable(s, id, s');
    TidyWhole(s');
  }

  lemma ReleasedQueue(s: State, id: nat)
    requires id in s.socks && Released(s, id)
    ensures InNoQueue(s, id)
  {
  }

  lemma CloseStreams(s: State, id: nat, s': State)
    requires id in s.socks && s'.socks.Keys == s.socks.Keys && s'.h == s.h && s'.socks[id].status == CLOSED
    requires forall a | a in s.socks :: s'.socks[a].peer == s.socks[a].peer || s'.socks[a].peer.None?
    requires forall a | a in s.socks && a != id :: s'.socks[a] == s.socks[a].(peer := s'.socks[a].peer)
    ensures StreamsSame(s, s')
  {
  }

  lemma ClosePeers(s: State, id: nat, s': State)
    requires Peers(s) && id in s.socks && s' == DoClose(s, id)
    ensures Peers(s')
  {
    hide Unbind;
    forall d | d in s'.socks && s'.socks[d].peer.Some?
      ensures var b := s'.socks[d].peer.value;
              b in s'.socks && s'.socks[b].peer == Some(d) && s'.socks[d].status == CONNECTED &&
                  s'.socks[b].status == CONNECTED
    {
      assert s.socks[d].peer == s'.socks[d].peer;
      var b := s.socks[d].peer.value;
      assert s.socks[b].peer == Some(d);
      assert s.socks[id].peer.Some? ==> s.socks[s.socks[id].peer.value].peer == Some(id);
    }
  }

  lemma CloseTable(s: State, id: nat, s': State)
    requires Listeners(s) && Bounds(s) && id in s.socks && s' == DoClose(s, id)
    ensures Listeners(s')
  {
    forall i | 0 <= i < |s'.bound| && s'.bound[i].Some?
      ensures s.bound[i] == s'.bound[i] && s'.bound[i].value in s.socks
      ensures s'.socks[s'.bound[i].value].status == s.socks[s.bound[i].value].status
    {
    }
  }

  /** In a state with exclusive connections, a step keeps them exclusive if and only if it is guarded. */
  lemma StepTidy(s: State, op: Op)
    requires Sound(s) && Tidy(s) && Enabled(s, op)
    ensures Tidy(Step(s, op)) <==> Guarded(s, op)
  {
    hide Sound, Tidy, AddSock, DoBind, DoListen, DoConnect, DoAccept;
    hide DoWriteTurn, DoRead, DoClose, Released, InNoQueue, Joins, CanBind;
    match op
    case Socket(id) => SocketTidies(s, id, Step(s, op));
    case Bind(id, path) => BindTidies(s, id, path, Step(s, op));
    case Listen(id) => ListenTidies(s, id, Step(s, op));
    case Connect(t, id, path) => ConnectTidies(s, t, id, path, Step(s, op));
    case Connected(t) => ThreadsTidy(s, Step(s, op));
    case Accept(id, made) => AcceptTidies(s, id, made, Step(s, op));
    case BeginWrite(t, id, data) => ThreadsTidy(s, Step(s, op));
    case WriteTurn(t) => WriteTurnTidies(s, t, Step(s, op));
    case EndWrite(t) => ThreadsTidy(s, Step(s, op));
    case Read(id, n) => ReadTidies(s, id, n, Step(s, op));
    case Close(id) => CloseTidies(s, id, Step(s, op));
  }
}
