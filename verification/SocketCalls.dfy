/** What each socket call achieves, told on the states before and after its steps, and how a write reaches its
    reader. */
module SocketCalls {
  import opened Options
  import opened Words
  import opened SocketState
  import opened SocketSound
  import opened Socket

  // Reading and writing.

  /** A read takes the first bytes of the ring, as many as it asks for and there are, and nothing else changes. */
  lemma ReadDelivers(s: State, id: nat, n: nat)
    requires Enabled(s, Read(id, n)) && s.socks[id].status == CONNECTED
    ensures var s', rx := Step(s, Read(id, n)), s.socks[id].rx;
            var w := if n < |rx| then n else |rx|;
            && s'.socks == s.socks[id := s.socks[id].(rx := rx[w..])]
            && s'.h == s.h.(recv := s.h.recv[id := Get(s.h.recv, id) + rx[..w]])
            && s'.bound == s.bound && s'.waiting == s.waiting && s'.writing == s.writing
  {
  }

  /** The thread's socket has the open socket b at its other end. */
  ghost predicate WritesTo(s: State, t: nat, b: nat) {
    && t in s.writing && s.writing[t].sock in s.socks && s.socks[s.writing[t].sock].peer == Some(b)
    && s.writing[t].done <= |s.writing[t].data| && b in s.socks && s.socks[b].status != CLOSED
    && |s.socks[b].rx| <= CAPACITY
  }

  /** A turn of the write loop moves as much of what is left as the other end has room for. */
  lemma TurnDelivers(s: State, t: nat, b: nat)
    requires Sound(s) && WritesTo(s, t, b)
    ensures var s', j, a, rx := Step(s, WriteTurn(t)), s.writing[t], s.writing[t].sock, s.socks[b].rx;
            var left, room := |j.data| - j.done, CAPACITY - |rx|;
            var k := if left < room then left else room;
            var piece := j.data[j.done..j.done + k];
            && s'.socks == s.socks[b := s.socks[b].(rx := rx + piece)]
            && s'.writing == s.writing[t := j.(done := j.done + k)]
            && Get(s'.h.sent, a) == Get(s.h.sent, a) + piece && Get(s'.h.got, b) == Get(s.h.got, b) + piece
            && s'.h.recv == s.h.recv && s'.bound == s.bound && s'.waiting == s.waiting
  {
    hide Rings, Bounds, Queues, Writers, Waits;
    var s' := Step(s, WriteTurn(t));
    assert LinkOk(s, s.writing[t].sock);
    if |s.socks[b].rx| == CAPACITY {
      assert s.writing[t].data[s.writing[t].done..s.writing[t].done] == [];
      assert s.socks[b].rx + [] == s.socks[b].rx;
    } else {
      var c := TurnEffect(s, t, s');
    }
  }

  /** A write on a connected socket begins with nothing written, under a number of its own. */
  lemma WriteBegins(s: State, t: nat, id: nat, data: seq<byte>)
    requires Enabled(s, BeginWrite(t, id, data))
    ensures var s' := Step(s, BeginWrite(t, id, data));
            && s'.socks == s.socks && s'.bound == s.bound && s'.waiting == s.waiting
            && s'.writing == (if s.socks[id].status == CONNECTED && s.socks[id].peer.Some?
                              then s.writing[t := Job(id, data, 0, s.h.calls)] else s.writing)
  {
  }

  /** A write may end when all is written or the other end is closed, and then the thread is out of the call. */
  lemma WriteEnds(s: State, t: nat)
    requires t in s.writing
    ensures Enabled(s, EndWrite(t)) <==>
              || s.writing[t].done == |s.writing[t].data|
              || (s.writing[t].sock in s.socks && s.socks[s.writing[t].sock].peer.Some? &&
                  s.socks[s.writing[t].sock].peer.value in s.socks &&
                  s.socks[s.socks[s.writing[t].sock].peer.value].status == CLOSED)
    ensures Enabled(s, EndWrite(t)) ==> Step(s, EndWrite(t)) == s.(writing := s.writing - {t})
  {
  }

  // A write of any length.

  /** Turns of the writer, each followed by a read of the other end. */
  function Pump(t: nat, b: nat, k: nat): seq<Op> {
    if k == 0 then [] else [WriteTurn(t)] + [Read(b, CAPACITY)] + Pump(t, b, k - 1)
  }

  /** One round: what the ring has room for is moved, and the ring is emptied. */
  lemma PumpOnce(s: State, t: nat, b: nat) returns (s1: State, s2: State)
    requires Sound(s) && WritesTo(s, t, b) && s.socks[b].status == CONNECTED
    ensures Enabled(s, WriteTurn(t)) && s1 == Step(s, WriteTurn(t))
    ensures Enabled(s1, Read(b, CAPACITY)) && s2 == Step(s1, Read(b, CAPACITY))
    ensures Sound(s2) && WritesTo(s2, t, b) && s2.socks[b].status == CONNECTED && s2.h.mate == s.h.mate
    ensures s2.writing[t] == s.writing[t].(done := s2.writing[t].done) && s2.socks[b].rx == []
    ensures var left, room := |s.writing[t].data| - s.writing[t].done, CAPACITY - |s.socks[b].rx|;
            s2.writing[t].done == s.writing[t].done + if left < room then left else room
  {
    hide Sound, DoWriteTurn, DoRead;
    s1 := Step(s, WriteTurn(t));
    TurnDelivers(s, t, b);
    TurnMates(s, t);
    StepSound(s, WriteTurn(t));
    s2 := Step(s1, Read(b, CAPACITY));
    ReadDelivers(s1, b, CAPACITY);
    StepSound(s1, Read(b, CAPACITY));
  }

  lemma TurnMates(s: State, t: nat)
    ensures DoWriteTurn(s, t).h.mate == s.h.mate
  {
    hide CanPut, Piece;
  }

  /** After more rounds than bytes are left, all is written and all of it is read. */
  lemma {:induction false} Pumped(s: State, t: nat, b: nat, k: nat)
    requires Sound(s) && WritesTo(s, t, b) && s.socks[b].status == CONNECTED
    ensures Run(s, Pump(t, b, k)).Some?
    ensures var s', j := Run(s, Pump(t, b, k)).value, s.writing[t];
            && Sound(s') && WritesTo(s', t, b) && s'.socks[b].status == CONNECTED && s'.h.mate == s.h.mate
            && s'.writing[t] == j.(done := s'.writing[t].done)
            && (k > |j.data| - j.done || (k >= |j.data| - j.done && s.socks[b].rx == []) ==>
                  s'.writing[t].done == |j.data| && s'.socks[b].rx == [])
    decreases k
  {
    hide Sound, Step, Enabled;
    if k > 0 {
      var s1, s2 := PumpOnce(s, t, b);
      RunOne(s, WriteTurn(t));
      RunOne(s1, Read(b, CAPACITY));
      RunAppend(s, [WriteTurn(t)], [Read(b, CAPACITY)]);
      RunAppend(s, [WriteTurn(t)] + [Read(b, CAPACITY)], Pump(t, b, k - 1));
      Pumped(s2, t, b, k - 1);
    }
  }

  predicate Quiet(ops: seq<Op>) {
    forall i | 0 <= i < |ops| :: !ops[i].Bind? && !ops[i].Connect?
  }

  lemma {:induction false} PumpQuiet(t: nat, b: nat, k: nat)
    ensures Quiet(Pump(t, b, k))
  {
    if k > 0 { PumpQuiet(t, b, k - 1); }
  }

  lemma {:induction false} QuietGuarded(s: State, ops: seq<Op>)
    requires Run(s, ops).Some? && Quiet(ops)
    ensures GuardedRun(s, ops)
    decreases |ops|
  {
    hide Step, Enabled;
    if ops != [] {
      forall i | 0 <= i < |ops[1..]| ensures !ops[1..][i].Bind? && !ops[1..][i].Connect? {
        assert ops[1..][i] == ops[i + 1];
      }
      QuietGuarded(Step(s, ops[0]), ops[1..]);
    }
  }

  lemma WriterMates(s: State, t: nat, b: nat)
    requires Tidy(s) && WritesTo(s, t, b)
    ensures s.socks[b].status == CONNECTED && s.writing[t].sock in s.h.mate && s.h.mate[s.writing[t].sock] == b
  {
    hide Once, Listeners, Stream;
    assert s.socks[s.writing[t].sock].peer.Some?;
  }

  /** In every state of a guarded run, a thread that writes to an open socket can be served: some more turns and
      reads complete the write, everything sent is then received, and the received bytes of this call are its
      data. */
  lemma Delivered(ops: seq<Op>, t: nat, b: nat)
    requires Run(EMPTY, ops).Some? && GuardedRun(EMPTY, ops) && WritesTo(Run(EMPTY, ops).value, t, b)
    ensures var j := Run(EMPTY, ops).value.writing[t];
            var r := Run(EMPTY, ops + Pump(t, b, |j.data| - j.done + 1));
            && r.Some? && t in r.value.writing && r.value.writing[t] == j.(done := |j.data|)
            && Enabled(r.value, EndWrite(t))
            && Get(r.value.h.recv, b) == Get(r.value.h.sent, j.sock)
            && |Get(r.value.h.recv, b)| == |Nums(r.value.h.tags, j.sock)|
            && By(Get(r.value.h.recv, b), Nums(r.value.h.tags, j.sock), j.call) == j.data
  {
    hide Run, Sound, Tidy, GuardedRun, AlwaysTidy, Pump, By, Step;
    EmptyOk();
    RunSound(EMPTY, ops);
    RunTidy(EMPTY, ops);
    var s := Run(EMPTY, ops).value;
    var j := s.writing[t];
    var k := |j.data| - j.done + 1;
    WriterMates(s, t, b);
    Pumped(s, t, b, k);
    PumpQuiet(t, b, k);
    QuietGuarded(s, Pump(t, b, k));
    RunTidy(s, Pump(t, b, k));
    RunAppend(EMPTY, ops, Pump(t, b, k));
    var s' := Run(s, Pump(t, b, k)).value;
    StreamLaw(s', j.sock);
    RingLaw(s', b);
    WriteComplete(s', t);
  }

  /** In every state of a guarded run, a read that asks for all there is leaves everything sent on the other end
      received; so do the bytes of every call that has finished there. */
  lemma ReadDrains(ops: seq<Op>, a: nat, b: nat, n: nat)
    requires Run(EMPTY, ops).Some? && GuardedRun(EMPTY, ops)
    requires var s := Run(EMPTY, ops).value;
             a in s.h.mate && s.h.mate[a] == b && b in s.socks && s.socks[b].status == CONNECTED && |s.socks[b].rx| <= n
    ensures var s := Run(EMPTY, ops).value;
            && Enabled(s, Read(b, n))
            && var s' := Step(s, Read(b, n));
               Get(s'.h.recv, b) == Get(s'.h.sent, a) == Get(s.h.sent, a) && s'.socks[b].rx == []
  {
    hide Run, Sound, Tidy, GuardedRun, DoRead;
    NothingLost(ops, a, b);
    ReadDelivers(Run(EMPTY, ops).value, b, n);
  }

  // Setting up a connection.

  lemma SocketMade(s: State, id: nat)
    requires Enabled(s, Socket(id))
    ensures var s' := Step(s, Socket(id));
            && s'.socks.Keys == s.socks.Keys + {id} && (forall a | a in s.socks :: s'.socks[a] == s.socks[a])
            && s'.socks[id].status == UNBOUND && s'.socks[id].peer.None? && s'.socks[id].rx == []
            && QueueOk(s'.socks[id]) && Pending(s'.socks[id]) == []
            && s'.bound == s.bound && s'.waiting == s.waiting && s'.writing == s.writing
  {
  }

  /** A bound socket listens, any other stays as it is. */
  lemma ListenMeans(s: State, id: nat)
    requires Enabled(s, Listen(id))
    ensures Step(s, Listen(id)) ==
              s.(socks := s.socks[id := s.socks[id].(status := if s.socks[id].status == BOUND then LISTENING
                                                               else s.socks[id].status)])
  {
    assert s.socks[id := s.socks[id]] == s.socks;
  }

  /** A connect to the socket in slot i of the table: an unbound socket joins the queue of a listener that has
      fewer than 15 waiting, as its last, and its thread blocks; otherwise nothing happens. */
  lemma ConnectMeans(s: State, t: nat, id: nat, path: string, i: nat)
    requires Sound(s) && Enabled(s, Connect(t, id, path))
    requires i < |s.bound| && s.bound[i].Some? && s.bound[i].value in s.socks && s.socks[s.bound[i].value].path == path
    ensures var s', x := Step(s, Connect(t, id, path)), s.bound[i].value;
            && QueueOk(s.socks[x])
            && (if s.socks[id].status == UNBOUND && s.socks[x].status == LISTENING && |Pending(s.socks[x])| < 15 then
                  && s'.socks.Keys == s.socks.Keys && QueueOk(s'.socks[x])
                  && Pending(s'.socks[x]) == Pending(s.socks[x]) + [id]
                  && (forall a | a in s.socks && a != x :: s'.socks[a] == s.socks[a])
                  && s'.socks[x].status == LISTENING
                  && s'.waiting == s.waiting[t := id] && s'.writing == s.writing && s'.bound == s.bound
                else s' == s)
  {
    hide Rings, Links, Queues, Writers, Waits, FindPath, Pending, Enqueue;
    OnlySlot(s, path, i);
    var x := s.bound[i].value;
    assert QueueOk(s.socks[x]) by { Parts(s); QueueLaw(s, x); }
    RoomLeft(s.socks[x]);
    if Joins(s, id, path) {
      var s' := Step(s, Connect(t, id, path));
      ConnectShifts(s, t, id, x, s');
    }
  }

  lemma OnlySlot(s: State, path: string, i: nat)
    requires Sound(s) && i < |s.bound| && s.bound[i].Some? && s.bound[i].value in s.socks
    requires s.socks[s.bound[i].value].path == path
    ensures FindPath(s, path, 0) == Some(i)
  {
    hide Rings, Links, Queues, Writers, Waits, FindPath;
    FindPathMeans(s, path);
  }

  /** The ring of 16 places is full with 15 in it. */
  lemma RoomLeft(k: Sock)
    requires QueueOk(k)
    ensures (k.tail + 1) % QUEUE != k.head <==> |Pending(k)| < 15
  {
  }

  /** Without a socket of that path in the table a connect does nothing. */
  lemma ConnectNobody(s: State, t: nat, id: nat, path: string)
    requires Enabled(s, Connect(t, id, path))
    requires forall i | 0 <= i < |s.bound| && s.bound[i].Some? && s.bound[i].value in s.socks ::
               s.socks[s.bound[i].value].path != path
    ensures Step(s, Connect(t, id, path)) == s
  {
    hide FindPath;
    FindPathMeans(s, path);
  }

  /** An accept connects the first in the queue to the new socket, and every thread blocked on that one may go
      on. */
  lemma AcceptPairs(s: State, id: nat, m: nat)
    requires Sound(s) && Enabled(s, Accept(id, Some(m)))
    ensures QueueOk(s.socks[id])
    ensures var s' := Step(s, Accept(id, Some(m)));
            if Pending(s.socks[id]) == [] then s' == s
            else
              var c := Pending(s.socks[id])[0];
              && c in s.socks && s'.socks.Keys == s.socks.Keys + {m} && QueueOk(s'.socks[id])
              && (c != id ==> s'.socks[id].status == s.socks[id].status)
              && Pending(s'.socks[id]) == Pending(s.socks[id])[1..]
              && s'.socks[m].status == CONNECTED && s'.socks[m].peer == Some(c) && s'.socks[m].rx == []
              && s'.socks[c].status == CONNECTED && s'.socks[c].peer == Some(m)
              && (forall a | a in s.socks && a != id && a != c :: s'.socks[a] == s.socks[a])
              && s'.waiting == s.waiting && s'.bound == s.bound
              && (forall t | t in s.waiting && s.waiting[t] == c :: Enabled(s', Connected(t)))
  {
    hide Sound, Dequeue, AddSock, Pending, Link, Step, Enabled, DoAccept, NewSock;
    Parts(s);
    AcceptStep(s, id, m);
    QueueLaw(s, id);
    PendingEmpty(s.socks[id]);
    if Served(s, id) {
      var c, s1, s' := s.socks[id].queue[s.socks[id].head], Dequeue(s, id), Step(s, Accept(id, Some(m)));
      DequeueShifts(s, id, s1, c);
      assert Pending(s.socks[id])[0] == c && Pending(s.socks[id])[1..] == Pending(s1.socks[id]);
      QueuedWaits(s, id, c);
      var s2 := AddSock(s1, m);
      AddedFields(s1, m, s2);
      PopSocks(s, id, s1);
      LinkPending(s2, m, c, id, s');
      Linked(s2, m, c, s');
      forall t | t in s.waiting && s.waiting[t] == c ensures Enabled(s', Connected(t)) { ConnectReturns(s', t); }
    }
  }

  lemma AcceptStep(s: State, id: nat, m: nat)
    requires Enabled(s, Accept(id, Some(m)))
    ensures Open(s, id) && m !in s.socks
    ensures !Served(s, id) ==> Step(s, Accept(id, Some(m))) == s
    ensures Served(s, id) ==>
              var c, s1 := s.socks[id].queue[s.socks[id].head], Dequeue(s, id);
              var s2 := AddSock(s1, m);
              c in s1.socks ==> m in s2.socks && c in s2.socks && Step(s, Accept(id, Some(m))) == Link(s2, m, c)
  {
    hide Dequeue, Link;
  }

  lemma Linked(s: State, a: nat, c: nat, s': State)
    requires a in s.socks && c in s.socks && a != c && s' == Link(s, a, c)
    ensures s'.bound == s.bound && s'.waiting == s.waiting && s'.socks.Keys == s.socks.Keys
    ensures s'.socks[a] == s.socks[a].(status := CONNECTED, peer := Some(c))
    ensures s'.socks[c] == s.socks[c].(status := CONNECTED, peer := Some(a))
    ensures forall x | x in s.socks && x != a && x != c :: s'.socks[x] == s.socks[x]
  {
  }

  lemma AddedFields(s: State, id: nat, s': State)
    requires s' == AddSock(s, id)
    ensures s'.socks == s.socks[id := NewSock()] && s'.bound == s.bound && s'.waiting == s.waiting
    ensures NewSock().rx == []
  {
  }

  lemma PopSocks(s: State, x: nat, s': State)
    requires x in s.socks && QueueOk(s.socks[x]) && s' == Dequeue(s, x)
    ensures s'.bound == s.bound && forall a | a in s.socks && a != x :: s'.socks[a] == s.socks[a]
  {
  }

  lemma LinkPending(s: State, a: nat, c: nat, x: nat, s': State)
    requires a in s.socks && c in s.socks && s' == Link(s, a, c) && x in s.socks && QueueOk(s.socks[x])
    ensures QueueOk(s'.socks[x]) && Pending(s'.socks[x]) == Pending(s.socks[x])
  {
  }

  /** A blocked connect returns as soon as its socket is no longer unbound. */
  lemma ConnectReturns(s: State, t: nat)
    requires t in s.waiting && s.waiting[t] in s.socks
    ensures Enabled(s, Connected(t)) <==> s.socks[s.waiting[t]].status != UNBOUND
    ensures Enabled(s, Connected(t)) ==> Step(s, Connected(t)) == s.(waiting := s.waiting - {t})
  {
  }

  /** A closed socket has no bytes and no peer, is nobody's peer where it had one, and is out of the table. */
  lemma CloseMeans(s: State, id: nat)
    requires Enabled(s, Close(id))
    ensures var s' := Step(s, Close(id));
            && s'.socks.Keys == s.socks.Keys && s'.socks[id].status == CLOSED && s'.socks[id].peer.None?
            && (forall i | 0 <= i < |s.bound| :: i < |s'.bound| &&
                  s'.bound[i] == if s.bound[i] == Some(id) then None else s.bound[i])
            && (forall a | a in s.socks && a != id ::
                  s'.socks[a] == if s.socks[id].peer == Some(a) then s.socks[a].(peer := None) else s.socks[a])
            && s'.waiting == s.waiting && s'.writing == s.writing
  {
    hide Released;
  }
}
