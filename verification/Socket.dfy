/** The socket calls with their loops over the table, and what runs of any interleaving keep. */
module Socket {
  import opened Options
  import opened SocketSound
  import opened SocketState
  import opened SocketTidy
  import opened Words

  // The calls that search the table.

  method FindSlot(s: State, path: string) returns (r: Option<nat>)
    requires |s.bound| == MAX_SOCKETS
    ensures r == FindPath(s, path, 0)
  {
    for i := 0 to MAX_SOCKETS
      invariant FindPath(s, path, 0) == FindPath(s, path, i)
    {
      if s.bound[i].Some? && s.bound[i].value in s.socks && s.socks[s.bound[i].value].path == path { return Some(i); }
    }
    r := None;
  }

  /** sys_bind: refused for a socket that is not unbound, a path in use, or a full table. */
  method SysBind(s: State, id: nat, path: string) returns (ok: bool, s': State)
    requires Sound(s) && Enabled(s, Bind(id, path))
    ensures s' == Step(s, Bind(id, path)) && Sound(s') && (ok <==> CanBind(s, id, path))
    ensures ok <==>
      && s.socks[id].status == UNBOUND
      && (forall i | 0 <= i < MAX_SOCKETS && s.bound[i].Some? && s.bound[i].value in s.socks ::
            s.socks[s.bound[i].value].path != path)
      && exists i :: 0 <= i < MAX_SOCKETS && s.bound[i].None?
    ensures ok ==> exists i: nat ::
      i < MAX_SOCKETS && s.bound[i].None? && s'.bound == s.bound[i := Some(id)] && s'.socks[id].path == path &&
          s'.socks[id].status == BOUND
  {
    hide Rings, Links, Queues, Writers, Waits, FindPath, FirstEmpty;
    StepSound(s, Bind(id, path));
    TableSize(s);
    FindPathMeans(s, path);
    EmptyMeans(s.bound);
    if s.socks[id].status != UNBOUND { return false, s; }
    var r := FindSlot(s, path);
    if r.Some? { return false, s; }
    for i := 0 to MAX_SOCKETS
      invariant FirstEmpty(s.bound, 0) == FirstEmpty(s.bound, i) && forall k | 0 <= k < i :: s.bound[k].Some?
    {
      EmptyFrom(s.bound, i);
      if s.bound[i].None? {
        return true, s.(bound := s.bound[i := Some(id)],
            socks := s.socks[id := s.socks[id].(path := path, status := BOUND)]);
      }
    }
    EmptyFrom(s.bound, MAX_SOCKETS);
    return false, s;
  }

  lemma TableSize(s: State)
    requires Sound(s)
    ensures |s.bound| == MAX_SOCKETS
  {
    hide Rings, Links, Queues, Writers, Waits;
  }

  lemma FindPathMeans(s: State, path: string)
    ensures var r := FindPath(s, path, 0);
            && (r.Some? ==>
                  r.value < |s.bound| && s.bound[r.value].Some? && s.bound[r.value].value in s.socks &&
                  s.socks[s.bound[r.value].value].path == path)
            && (r.None? ==> forall k | 0 <= k < |s.bound| && s.bound[k].Some? && s.bound[k].value in s.socks ::
                  s.socks[s.bound[k].value].path != path)
  {
  }

  lemma EmptyMeans(bound: seq<Option<nat>>)
    ensures FirstEmpty(bound, 0).None? ==> forall k | 0 <= k < |bound| :: bound[k].Some?
    ensures FirstEmpty(bound, 0).Some? ==>
        FirstEmpty(bound, 0).value < |bound| && bound[FirstEmpty(bound, 0).value].None?
  {
  }

  lemma EmptyFrom(bound: seq<Option<nat>>, i: nat)
    requires i <= |bound|
    ensures i == |bound| ==> FirstEmpty(bound, i).None?
    ensures i < |bound| ==> FirstEmpty(bound, i) == if bound[i].None? then Some(i) else FirstEmpty(bound, i + 1)
  {
  }

  /** socket_close: out of the table wherever it is; and where links are symmetric, nobody's peer. */
  method SocketClose(s: State, id: nat) returns (s': State)
    requires Sound(s) && Enabled(s, Close(id))
    ensures s' == Step(s, Close(id)) && Sound(s') && Some(id) !in s'.bound
    ensures Tidy(s) ==> Tidy(s') && forall a | a in s'.socks :: s'.socks[a].peer != Some(id)
  {
    hide Sound, Tidy, Released;
    StepSound(s, Close(id));
    if Tidy(s) { StepTidy(s, Close(id)); }
    var socks := s.socks[id := s.socks[id].(status := CLOSED, peer := None, rx := [])];
    if s.socks[id].peer.Some? && s.socks[id].peer.value in socks {
      var b := s.socks[id].peer.value;
      socks := socks[b := socks[b].(peer := None)];
    }
    var bound := s.bound;
    for i := 0 to |s.bound|
      invariant |bound| == |s.bound| && forall k | 0 <= k < |bound| ::
          bound[k] == if k < i && s.bound[k] == Some(id) then None else s.bound[k]
    {
      if bound[i] == Some(id) { bound := bound[i := None]; }
    }
    assert bound == Unbind(s.bound, id);
    s' := s.(socks := socks, bound := bound);
    if Tidy(s) { Alone(s', id); }
  }

  lemma Alone(s: State, id: nat)
    requires Tidy(s) && id in s.socks && s.socks[id].status == CLOSED
    ensures forall a | a in s.socks :: s.socks[a].peer != Some(id)
  {
    hide Once, Streams, Listeners;
  }

  // Runs.

  const EMPTY: State :=
    State(map[], seq(MAX_SOCKETS, _ => None), map[], map[], History(map[], map[], map[], map[], map[], map[], map[], 0))

  /** The state after the steps of ops, or None where one of them was not possible. */
  function Run(s: State, ops: seq<Op>): Option<State>
    decreases |ops|
  {
    if ops == [] then Some(s)
    else if !Enabled(s, ops[0]) then None
    else Run(Step(s, ops[0]), ops[1..])
  }

  /** Every step of the run is guarded. */
  predicate GuardedRun(s: State, ops: seq<Op>)
    decreases |ops|
  {
    ops == [] || (Enabled(s, ops[0]) && Guarded(s, ops[0]) && GuardedRun(Step(s, ops[0]), ops[1..]))
  }

  /** Connections are exclusive in every state of the run. */
  ghost predicate AlwaysTidy(s: State, ops: seq<Op>)
    decreases |ops|
  {
    Tidy(s) && (ops == [] || (Enabled(s, ops[0]) && AlwaysTidy(Step(s, ops[0]), ops[1..])))
  }

  lemma EmptyOk()
    ensures Sound(EMPTY) && Tidy(EMPTY)
  {
  }

  lemma {:induction false} RunSound(s: State, ops: seq<Op>)
    requires Sound(s) && Run(s, ops).Some?
    ensures Sound(Run(s, ops).value)
    decreases |ops|
  {
    hide Sound, Step, Enabled;
    if ops != [] {
      StepSound(s, ops[0]);
      RunSound(Step(s, ops[0]), ops[1..]);
    }
  }

  /** A run keeps connections exclusive throughout if and only if each of its steps is guarded. */
  lemma {:induction false} RunTidy(s: State, ops: seq<Op>)
    requires Sound(s) && Tidy(s) && Run(s, ops).Some?
    ensures AlwaysTidy(s, ops) <==> GuardedRun(s, ops)
    ensures GuardedRun(s, ops) ==> Tidy(Run(s, ops).value)
    decreases |ops|
  {
    hide Sound, Tidy, Step, Enabled, Guarded;
    if ops != [] {
      StepSound(s, ops[0]);
      StepTidy(s, ops[0]);
      if Guarded(s, ops[0]) { RunTidy(Step(s, ops[0]), ops[1..]); }
    }
  }

  /** In every reachable state, whoever writes and whoever reads: what was put into the ring of an open
      socket is what was read from it followed by what is in it. */
  lemma RingsConserve(ops: seq<Op>, b: nat)
    requires Run(EMPTY, ops).Some? && b in Run(EMPTY, ops).value.socks
    ensures var s := Run(EMPTY, ops).value;
            && Get(s.h.recv, b) <= Get(s.h.got, b)
            && (s.socks[b].status != CLOSED ==> Get(s.h.got, b) == Get(s.h.recv, b) + s.socks[b].rx)
  {
    hide Run, Sound;
    EmptyOk();
    RunSound(EMPTY, ops);
    RingLaw(Run(EMPTY, ops).value, b);
  }

  lemma RingLaw(s: State, b: nat)
    requires Sound(s) && b in s.socks
    ensures RingOk(s, b)
  {
    hide Links, Bounds, Queues, Writers, Waits;
  }

  /** In every state reached by guarded steps, for every open socket b that was ever connected to a: what was
      written on a is what was read from b followed by what is in b's ring. */
  lemma NothingLost(ops: seq<Op>, a: nat, b: nat)
    requires Run(EMPTY, ops).Some? && GuardedRun(EMPTY, ops)
    requires var s := Run(EMPTY, ops).value; a in s.h.mate && s.h.mate[a] == b
    ensures var s := Run(EMPTY, ops).value;
            && b in s.socks && Get(s.h.recv, b) <= Get(s.h.sent, a)
            && (s.socks[b].status != CLOSED ==> Get(s.h.sent, a) == Get(s.h.recv, b) + s.socks[b].rx)
  {
    hide Run, Sound, Tidy, GuardedRun, AlwaysTidy;
    EmptyOk();
    RunSound(EMPTY, ops);
    RunTidy(EMPTY, ops);
    var s := Run(EMPTY, ops).value;
    StreamLaw(s, a);
    RingLaw(s, b);
  }

  lemma StreamLaw(s: State, a: nat)
    requires Tidy(s) && a in s.h.mate
    ensures Stream(s, a)
  {
    hide Once, Peers, Listeners;
  }

  /** In every state reached by guarded steps the peer relation is symmetric. */
  lemma PeersSymmetric(ops: seq<Op>, a: nat, b: nat)
    requires Run(EMPTY, ops).Some? && GuardedRun(EMPTY, ops)
    requires var s := Run(EMPTY, ops).value; a in s.socks && s.socks[a].peer == Some(b)
    ensures var s := Run(EMPTY, ops).value;
            && b in s.socks && s.socks[b].peer == Some(a) && a in s.h.mate && s.h.mate[a] == b
  {
    hide Run, Sound, Tidy, GuardedRun, AlwaysTidy;
    EmptyOk();
    RunSound(EMPTY, ops);
    RunTidy(EMPTY, ops);
    PeerLaw(Run(EMPTY, ops).value, a, b);
  }

  lemma PeerLaw(s: State, a: nat, b: nat)
    requires Tidy(s) && a in s.socks && s.socks[a].peer == Some(b)
    ensures b in s.socks && s.socks[b].peer == Some(a) && a in s.h.mate && s.h.mate[a] == b
  {
    hide Once, Listeners, Stream;
    assert s.socks[a].peer.Some?;
  }

  /** In every reachable state the sockets taken from a listener's queue are the first that asked, in order. */
  lemma FirstComeFirstServed(ops: seq<Op>, x: nat)
    requires Run(EMPTY, ops).Some? && x in Run(EMPTY, ops).value.socks
    ensures var s := Run(EMPTY, ops).value;
            && QueueOk(s.socks[x]) && Nums(s.h.asked, x) == Nums(s.h.taken, x) + Pending(s.socks[x])
            && |Pending(s.socks[x])| < QUEUE
  {
    hide Run, Sound, Pending;
    EmptyOk();
    RunSound(EMPTY, ops);
    QueueLaw(Run(EMPTY, ops).value, x);
  }

  lemma QueueLaw(s: State, x: nat)
    requires Sound(s) && x in s.socks
    ensures QueueAt(s, x) && |Pending(s.socks[x])| < QUEUE
  {
    hide Rings, Links, Bounds, Writers, Waits;
    assert QueueAt(s, x);
  }

  /** A write that was not cut off by a closed peer has put exactly its bytes, in order, on the socket. */
  lemma WriteComplete(s: State, t: nat)
    requires Sound(s) && t in s.writing && s.writing[t].done == |s.writing[t].data|
    ensures var j := s.writing[t];
            && |Get(s.h.sent, j.sock)| == |Nums(s.h.tags, j.sock)|
            && By(Get(s.h.sent, j.sock), Nums(s.h.tags, j.sock), j.call) == j.data
  {
    hide Rings, Links, Bounds, Queues, Waits, By;
    assert WriterAt(s, t);
    assert s.writing[t].data[..s.writing[t].done] == s.writing[t].data;
  }

  /** When no other call wrote in between, the bytes of the call stand together at the end of what was sent. */
  lemma {:induction false} Contiguous(sent: seq<byte>, tags: seq<nat>, c: nat, n: nat)
    requires |sent| == |tags| && n <= |sent| && |By(sent, tags, c)| == n
    ensures By(sent, tags, c) == sent[|sent| - n..] <== forall i | |sent| - n <= i < |sent| :: tags[i] == c
    decreases |sent|
  {
    if n > 0 && forall i | |sent| - n <= i < |sent| :: tags[i] == c {
      var m := |sent| - 1;
      assert tags[m] == c;
      assert By(sent, tags, c) == By(sent[..m], tags[..m], c) + [sent[m]];
      hide By;
      Contiguous(sent[..m], tags[..m], c, n - 1);
      assert sent[|sent| - n..] == sent[..m][m - (n - 1)..] + [sent[m]];
    }
  }

  // An accept that fails.

  /** Thread t is blocked in connect on c, which is unbound and in no queue: nobody can accept it. */
  ghost predicate Stuck(s: State, t: nat, c: nat) {
    c in s.socks && s.socks[c].status == UNBOUND && InNoQueue(s, c) && t in s.waiting && s.waiting[t] == c
  }

  /** No open socket but x has c in its queue. */
  ghost predicate OnlyIn(s: State, x: nat, c: nat) {
    forall y | y in s.socks && y != x :: !Queued(s, y, c)
  }

  /** An accept without memory or a descriptor changes something exactly when someone waits in the queue. The
      first is then out of the queue, and a thread is stuck on it exactly when it was unbound and queued
      nowhere else, as it always is where connections are exclusive. */
  lemma FailedAccept(s: State, id: nat)
    requires Sound(s) && Enabled(s, Accept(id, None))
    ensures QueueOk(s.socks[id])
    ensures Step(s, Accept(id, None)) != s <==> Pending(s.socks[id]) != []
    ensures Pending(s.socks[id]) != [] ==>
              var c, rest := Pending(s.socks[id])[0], Pending(s.socks[id])[1..];
              && c in s.socks
              && ((exists t :: Stuck(Step(s, Accept(id, None)), t, c)) <==>
                    s.socks[c].status == UNBOUND && c !in rest && OnlyIn(s, id, c))
              && (Tidy(s) ==> exists t :: Stuck(Step(s, Accept(id, None)), t, c))
  {
    hide Sound, Tidy, Dequeue, InNoQueue, Pending, Shifted, Queued, OnlyIn, Stuck;
    Parts(s);
    PendingEmpty(s.socks[id]);
    if Served(s, id) {
      var c, s' := s.socks[id].queue[s.socks[id].head], Dequeue(s, id);
      DequeueShifts(s, id, s', c);
      assert Pending(s.socks[id])[0] == c && Pending(s.socks[id])[1..] == Pending(s'.socks[id]);
      assert |Pending(s'.socks[id])| < |Pending(s.socks[id])|;
      QueuedWaits(s, id, c);
      WaiterStuck(s, s', c);
      PoppedQueues(s, id, s', c);
      if Tidy(s) {
        DequeueTidies(s, id, s', c);
        var t :| t in s'.waiting && s'.waiting[t] == c;
        assert Stuck(s', t, c) by { StuckIf(s', t, c); }
      }
    }
  }

  /** A socket on which someone waits while it is unbound: a thread is stuck on it exactly when it is unbound
      and in no queue. */
  lemma WaiterStuck(s: State, s': State, c: nat)
    requires Waiter(s, c) && s'.waiting == s.waiting && s'.socks.Keys == s.socks.Keys
    requires s'.socks[c].status == s.socks[c].status
    ensures (exists t :: Stuck(s', t, c)) <==> s'.socks[c].status == UNBOUND && InNoQueue(s', c)
  {
    hide InNoQueue;
    if s'.socks[c].status == UNBOUND && InNoQueue(s', c) {
      var t :| t in s.waiting && s.waiting[t] == c;
      assert Stuck(s', t, c);
    }
  }

  lemma StuckIf(s: State, t: nat, c: nat)
    requires c in s.socks && s.socks[c].status == UNBOUND && InNoQueue(s, c) && t in s.waiting && s.waiting[t] == c
    ensures Stuck(s, t, c)
  {
  }

  /** The queues after the first one of x was taken. */
  lemma PoppedQueues(s: State, x: nat, s': State, c: nat)
    requires Open(s, x) && Shifted(s, s', x) && Open(s', x) && QueueOk(s'.socks[x])
    ensures InNoQueue(s', c) <==> c !in Pending(s'.socks[x]) && OnlyIn(s, x, c)
  {
    hide Pending, Shifted;
    ShiftedKeys(s, s', x);
    forall y | y != x ensures Queued(s', y, c) <==> Queued(s, y, c) { ShiftedElse(s, s', x, y, c); }
    assert Queued(s', x, c) <==> c in Pending(s'.socks[x]);
  }

  /** Closing a listener: a thread is stuck on a socket of its queue exactly when that one is unbound and in
      no other queue, as it always is where connections are exclusive. */
  lemma ClosedListener(s: State, id: nat, c: nat)
    requires Sound(s) && Enabled(s, Close(id)) && Queued(s, id, c)
    ensures c in s.socks
    ensures (exists t :: Stuck(Step(s, Close(id)), t, c)) <==> s.socks[c].status == UNBOUND && OnlyIn(s, id, c)
    ensures Tidy(s) ==> exists t :: Stuck(Step(s, Close(id)), t, c)
  {
    hide Sound, Tidy, DoClose, InNoQueue, Pending, Queued, OnlyIn, Stuck, Released;
    var s' := Step(s, Close(id));
    Parts(s);
    QueuedWaits(s, id, c);
    CloseFields(s, id, s');
    ReleasedQueue(s, id);
    assert c != id by { NoQueueAt(s, id); }
    WaiterStuck(s, s', c);
    ClosedQueues(s, id, s', c);
    if Tidy(s) { TidyOnlyIn(s, id, c); }
  }

  lemma ClosedQueues(s: State, id: nat, s': State, c: nat)
    requires id in s.socks && s'.socks.Keys == s.socks.Keys && s'.socks[id].status == CLOSED
    requires forall a | a in s.socks && a != id :: s'.socks[a] == s.socks[a].(peer := s'.socks[a].peer)
    ensures InNoQueue(s', c) <==> OnlyIn(s, id, c)
  {
    forall y | y in s.socks && y != id ensures Queued(s', y, c) <==> Queued(s, y, c) {}
  }

  lemma TidyOnlyIn(s: State, x: nat, c: nat)
    requires Tidy(s) && Queued(s, x, c) && c in s.socks
    ensures s.socks[c].status == UNBOUND && OnlyIn(s, x, c)
  {
    hide Peers, Streams, Listeners, Queued, Pending;
  }

  lemma PendingEmpty(k: Sock)
    requires QueueOk(k)
    ensures Pending(k) == [] <==> k.head == k.tail
  {
  }

  /** The only steps that free the thread: another connect on the same socket that joins a queue, or a bind of it. */
  predicate Rescues(s: State, op: Op, c: nat) {
    match op
    case Connect(_, id, path) => id == c && Joins(s, c, path)
    case Bind(id, path) => id == c && CanBind(s, c, path)
    case _ => false
  }

  /** Whatever happens, the thread stays stuck if and only if the step is not one of those. */
  lemma StuckStep(s: State, op: Op, t: nat, c: nat)
    requires Sound(s) && Stuck(s, t, c) && Enabled(s, op)
    ensures Stuck(Step(s, op), t, c) <==> !Rescues(s, op, c)
  {
    hide Sound, Queued, InNoQueue, Released, FindPath, FirstEmpty, Pending, QueuesSame;
    StuckFields(s, op, t, c);
    match op
    case Connect(u, id, path) =>
      if Joins(s, id, path) { StuckConnect(s, u, id, path, c); }
    case Accept(id, made) => StuckAccept(s, id, made, c);
    case _ => QuietStep(s, op, c);
  }

  /** Nothing but a bind changes the status of an unbound socket in no queue, and nothing ends the wait. */
  lemma StuckFields(s: State, op: Op, t: nat, c: nat)
    requires Sound(s) && Stuck(s, t, c) && Enabled(s, op)
    ensures var s' := Step(s, op);
            && c in s'.socks && t in s'.waiting && s'.waiting[t] == c
            && (s'.socks[c].status == UNBOUND <==> !(op.Bind? && Rescues(s, op, c)))
  {
    hide Sound, Queued, FindPath, FirstEmpty, Pending, InNoQueue, DoAccept, Released, Piece, Unbind;
    if op.Accept? { AcceptStatus(s, op.id, op.made, c); }
    if op.Close? { ReleasedWaits(s, op.id, t); }
  }

  lemma ReleasedWaits(s: State, id: nat, t: nat)
    requires id in s.socks && Released(s, id) && t in s.waiting
    ensures s.waiting[t] != id
  {
  }

  lemma AcceptStatus(s: State, id: nat, made: Option<nat>, c: nat)
    requires Sound(s) && Open(s, id) && (made.Some? ==> made.value !in s.socks) && c in s.socks && InNoQueue(s, c)
    ensures var s' := DoAccept(s, id, made);
            && c in s'.socks && s'.socks[c].status == s.socks[c].status && s'.waiting == s.waiting
  {
    hide Sound, Pending, InNoQueue, Queued;
    if Served(s, id) {
      var d, s1 := s.socks[id].queue[s.socks[id].head], Dequeue(s, id);
      DequeueShifts(s, id, s1, d);
      NoQueueAt(s, c);
    }
  }

  lemma StuckAccept(s: State, id: nat, made: Option<nat>, c: nat)
    requires Sound(s) && Open(s, id) && (made.Some? ==> made.value !in s.socks) && c in s.socks && InNoQueue(s, c)
    ensures InNoQueue(DoAccept(s, id, made), c)
  {
    hide Sound, Pending, Queued, Dequeue, AddSock, Link, QueuesSame, Shifted;
    if Served(s, id) {
      var d, s1 := s.socks[id].queue[s.socks[id].head], Dequeue(s, id);
      DequeueKeeps(s, id, s1, d);
      DequeueShifts(s, id, s1, d);
      NoQueueAt(s, c);
      forall y ensures !Queued(s1, y, c) {
        if y == id { PopQueued(s, id, s1, d, c); } else { ShiftedElse(s, s1, id, y, c); }
      }
      if made.Some? {
        var s2 := AddSock(s1, made.value);
        AddedQueued(s1, made.value, s2, c);
        Added(s1, made.value, s2);
        var s3 := Link(s2, made.value, d);
        LinkQueues(s2, made.value, d, s3);
        QueuelessFrame(s2, s3, c);
      }
    }
  }

  lemma QueuelessFrame(s: State, s': State, c: nat)
    requires QueuesSame(s, s') && InNoQueue(s, c)
    ensures InNoQueue(s', c)
  {
    hide QueuesSame, Queued;
    NoQueueAt(s, c);
    forall y | y in s'.socks ensures !Queued(s', y, c) { QueuedFrame(s, s', y, c); }
  }

  lemma StuckConnect(s: State, u: nat, id: nat, path: string, c: nat)
    requires Joins(s, id, path) && InNoQueue(s, c)
    ensures InNoQueue(DoConnect(s, u, id, path), c) <==> id != c
  {
    hide Queued, Pending, Enqueue, Shifted, FindPath;
    var x, s' := s.bound[FindPath(s, path, 0).value].value, DoConnect(s, u, id, path);
    ConnectShifts(s, u, id, x, s');
    ShiftedKeys(s, s', x);
    NoQueueAt(s, c);
    forall y ensures Queued(s', y, c) <==> y == x && c == id {
      if y == x { PushQueued(s, id, x, s', c); } else { ShiftedElse(s, s', x, y, c); }
    }
  }

  /** Steps other than connect and accept leave every queue alone. */
  lemma QuietStep(s: State, op: Op, c: nat)
    requires Sound(s) && Enabled(s, op) && !op.Connect? && !op.Accept? && InNoQueue(s, c)
    ensures InNoQueue(Step(s, op), c)
  {
    hide Sound, InNoQueue, QueuesSame;
    QuietQueues(s, op);
    QueuelessFrame(s, Step(s, op), c);
  }

  lemma QuietQueues(s: State, op: Op)
    requires Sound(s) && Enabled(s, op) && !op.Connect? && !op.Accept?
    ensures QueuesSame(s, Step(s, op))
  {
    hide Sound, QueuesSame, InNoQueue, AddSock, Released, FindPath, FirstEmpty, Piece, CanPut, DoWriteTurn, DoClose;
    var s' := Step(s, op);
    match op
    case Socket(id) => AddQueues(s, id, s');
    case Bind(id, _) => RelabelQueues(s, id, s'.socks[id], s');
    case Listen(id) => RelabelQueues(s, id, s'.socks[id], s');
    case WriteTurn(t) => TurnQueues(s, t, s');
    case Read(id, _) => RxQueues(s, id, s');
    case Close(id) => CloseFields(s, id, s'); CloseSame(s, id, s');
    case _ => SameQueues(s, s');
  }

  lemma SameQueues(s: State, s': State)
    requires s'.socks == s.socks && s'.h.asked == s.h.asked && s'.h.taken == s.h.taken
    ensures QueuesSame(s, s')
  {
  }

  lemma TurnQueues(s: State, t: nat, s': State)
    requires Sound(s) && s' == DoWriteTurn(s, t)
    ensures QueuesSame(s, s')
  {
    hide Sound, QueuesSame, Piece, CanPut, DoWriteTurn;
    Parts(s);
    if CanPut(s, t) {
      var b := TurnEffect(s, t, s');
      RxQueues(s, b, s');
    } else {
      NoTurn(s, t, s');
      SameQueues(s, s');
    }
  }

  /** Some step of the run frees the thread. */
  predicate Rescued(s: State, ops: seq<Op>, c: nat)
    decreases |ops|
  {
    ops != [] && Enabled(s, ops[0]) && (Rescues(s, ops[0], c) || Rescued(Step(s, ops[0]), ops[1..], c))
  }

  /** Whatever the others do, in every run without such a step the thread is blocked for ever. */
  lemma {:induction false} StuckRun(s: State, ops: seq<Op>, t: nat, c: nat)
    requires Sound(s) && Stuck(s, t, c) && Run(s, ops).Some? && !Rescued(s, ops, c)
    ensures Stuck(Run(s, ops).value, t, c)
    decreases |ops|
  {
    hide Sound, Step, Enabled, Stuck, Rescues;
    if ops != [] {
      StepSound(s, ops[0]);
      StuckStep(s, ops[0], t, c);
      StuckRun(Step(s, ops[0]), ops[1..], t, c);
    }
  }

  // Four runs.

  /** Socket 0 listens on a path; socket 1 is new. */
  ghost predicate Opened(s: State, path: string) {
    && s.socks.Keys == {0, 1} && s.socks[0] == NewSock().(path := path, status := LISTENING) && s.socks[1] == NewSock()
    && s.bound == seq(MAX_SOCKETS, _ => None)[0 := Some(0)] && s.waiting == map[] && s.writing == map[]
  }

  function Opening(path: string): seq<Op> {
    [Socket(0), Bind(0, path), Listen(0), Socket(1)]
  }

  lemma {:induction false} RunAppend(s: State, ops: seq<Op>, more: seq<Op>)
    requires Run(s, ops).Some?
    ensures Run(s, ops + more) == Run(Run(s, ops).value, more)
    decreases |ops|
  {
    hide Step, Enabled;
    if ops == [] {
      assert ops + more == more;
    } else {
      assert (ops + more)[1..] == ops[1..] + more;
      RunAppend(Step(s, ops[0]), ops[1..], more);
    }
  }

  lemma RunOne(s: State, op: Op)
    requires Enabled(s, op)
    ensures Run(s, [op]) == Some(Step(s, op))
  {
    assert [op][1..] == [];
  }

  lemma RunOpening(path: string)
    ensures Run(EMPTY, Opening(path)).Some? && Opened(Run(EMPTY, Opening(path)).value, path)
  {
    hide Run;
    var s1 := Step(EMPTY, Socket(0));
    RunOne(EMPTY, Socket(0));
    BindFirst(s1, path);
    var s2 := Step(s1, Bind(0, path));
    RunOne(s1, Bind(0, path));
    RunAppend(EMPTY, [Socket(0)], [Bind(0, path)]);
    var s3 := Step(s2, Listen(0));
    RunOne(s2, Listen(0));
    RunAppend(EMPTY, [Socket(0)] + [Bind(0, path)], [Listen(0)]);
    var s4 := Step(s3, Socket(1));
    RunOne(s3, Socket(1));
    RunAppend(EMPTY, [Socket(0)] + [Bind(0, path)] + [Listen(0)], [Socket(1)]);
    assert Opening(path) == [Socket(0)] + [Bind(0, path)] + [Listen(0)] + [Socket(1)];
  }

  lemma BindFirst(s: State, path: string)
    requires s.socks == map[0 := NewSock()] && s.bound == seq(MAX_SOCKETS, _ => None)
    ensures CanBind(s, 0, path) && FirstEmpty(s.bound, 0) == Some(0)
  {
  }

  lemma ListenerFound(s: State, path: string)
    requires |s.bound| == MAX_SOCKETS && s.bound[0] == Some(0) && 0 in s.socks && s.socks[0].path == path
    ensures FindPath(s, path, 0) == Some(0)
  {
  }

  /** A thread's connect of socket 1, unbound, to the listener 0. */
  lemma ConnectOne(s: State, t: nat, path: string)
    requires |s.bound| == MAX_SOCKETS && s.bound[0] == Some(0) && 0 in s.socks && 1 in s.socks && t !in s.waiting
    requires t !in s.writing
    requires s.socks[0].path == path && s.socks[0].status == LISTENING && s.socks[1].status == UNBOUND
    requires |s.socks[0].queue| == QUEUE && s.socks[0].head == 0 && s.socks[0].tail < 2
    ensures Enabled(s, Connect(t, 1, path)) && Joins(s, 1, path)
    ensures var s' := Step(s, Connect(t, 1, path)); var k := s.socks[0];
            s' == s.(socks := s.socks[0 := k.(queue := k.queue[k.tail := 1], tail := k.tail + 1)],
                waiting := s.waiting[t := 1], h := s'.h)
  {
    ListenerFound(s, path);
  }

  /** Accepting the first in the queue of listener 0. */
  lemma AcceptOne(s: State, made: Option<nat>, c: nat)
    requires 0 in s.socks && s.socks[0].status == LISTENING && |s.socks[0].queue| == QUEUE
    requires s.socks[0].head < s.socks[0].tail < QUEUE
    requires s.socks[0].queue[s.socks[0].head] == c && c in s.socks && c != 0 && (made.Some? ==> made.value !in s.socks)
    ensures Enabled(s, Accept(0, made))
    ensures var s' := Step(s, Accept(0, made));
            && s'.bound == s.bound && s'.waiting == s.waiting && s'.writing == s.writing
            && s'.socks.Keys == s.socks.Keys + (if made.Some? then {made.value} else {})
            && s'.socks[0] == s.socks[0].(head := s.socks[0].head + 1)
            && (made.None? ==> s'.socks[c] == s.socks[c])
            && (made.Some? ==>
                  s'.socks[made.value].peer == Some(c) && s'.socks[c] == s.socks[c].(status := CONNECTED, peer := made))
            && (forall a | a in s.socks && a != 0 && a != c :: s'.socks[a] == s.socks[a])
  {
  }

  /** Two threads connect the same socket; both connects are accepted. Socket 2 then has peer 1, but the peer
      of 1 is 3: the second accept took the link over. */
  lemma ConnectedTwice(path: string)
    ensures var ops := Opening(path) + [Connect(10, 1, path)] + [Connect(11, 1, path)] + [Accept(0, Some(2))] +
        [Accept(0, Some(3))];
            && Run(EMPTY, ops).Some?
            && var s := Run(EMPTY, ops).value;
               2 in s.socks && 1 in s.socks && s.socks[2].peer == Some(1) && s.socks[1].peer == Some(3) && !Peers(s)
  {
    hide Run, Step, Enabled, Joins;
    var ops0 := Opening(path);
    RunOpening(path);
    var s0 := Run(EMPTY, ops0).value;
    ConnectOne(s0, 10, path);
    var s1 := Extend(ops0, Connect(10, 1, path));
    ConnectOne(s1, 11, path);
    var ops1 := ops0 + [Connect(10, 1, path)];
    var s2 := Extend(ops1, Connect(11, 1, path));
    AcceptOne(s2, Some(2), 1);
    var ops2 := ops1 + [Connect(11, 1, path)];
    var s3 := Extend(ops2, Accept(0, Some(2)));
    AcceptOne(s3, Some(3), 1);
    var ops3 := ops2 + [Accept(0, Some(2))];
    var s4 := Extend(ops3, Accept(0, Some(3)));
    assert s4.socks[2].peer == Some(1) && s4.socks[1].peer == Some(3);
  }

  lemma Extend(ops: seq<Op>, op: Op) returns (s': State)
    requires Run(EMPTY, ops).Some? && Enabled(Run(EMPTY, ops).value, op)
    ensures Run(EMPTY, ops + [op]) == Some(s') && s' == Step(Run(EMPTY, ops).value, op)
  {
    hide Step, Enabled;
    RunAppend(EMPTY, ops, [op]);
    RunOne(Run(EMPTY, ops).value, op);
    s' := Step(Run(EMPTY, ops).value, op);
  }

  /** A socket is bound while another thread connects it; the accept then connects a socket that is in the table. */
  lemma BoundAndConnected(path: string, other: string)
    requires path != other
    ensures var ops := Opening(path) + [Connect(10, 1, path)] + [Bind(1, other)] + [Accept(0, Some(2))];
            && Run(EMPTY, ops).Some?
            && var s := Run(EMPTY, ops).value;
               |s.bound| > 1 && s.bound[1] == Some(1) && 1 in s.socks && s.socks[1].status == CONNECTED &&
                   s.socks[1].path == other && !Listeners(s)
  {
    hide Run, Step, Enabled, Joins;
    var ops0 := Opening(path);
    RunOpening(path);
    var s0 := Run(EMPTY, ops0).value;
    ConnectOne(s0, 10, path);
    var s1 := Extend(ops0, Connect(10, 1, path));
    BindSecond(s1, path, other);
    var ops1 := ops0 + [Connect(10, 1, path)];
    var s2 := Extend(ops1, Bind(1, other));
    AcceptOne(s2, Some(2), 1);
    var ops2 := ops1 + [Bind(1, other)];
    var s3 := Extend(ops2, Accept(0, Some(2)));
    assert s3.bound[1] == Some(1);
  }

  lemma BindSecond(s: State, path: string, other: string)
    requires s.bound == seq(MAX_SOCKETS, _ => None)[0 := Some(0)] && 0 in s.socks && 1 in s.socks
    requires s.socks[0].path == path != other && s.socks[1].status == UNBOUND
    ensures Enabled(s, Bind(1, other))
    ensures Step(s, Bind(1, other)) ==
        s.(bound := s.bound[1 := Some(1)], socks := s.socks[1 := s.socks[1].(path := other, status := BOUND)])
  {
    EmptyFrom(s.bound, 0);
    EmptyFrom(s.bound, 1);
    FindPathMeans(s, other);
  }

  /** An accept fails after it took the client: its thread is stuck. */
  lemma DroppedClient(path: string)
    ensures var ops := Opening(path) + [Connect(10, 1, path)] + [Accept(0, None)];
            Run(EMPTY, ops).Some? && Stuck(Run(EMPTY, ops).value, 10, 1)
  {
    hide Run, Step, Enabled, Joins;
    var ops0 := Opening(path);
    RunOpening(path);
    var s0 := Run(EMPTY, ops0).value;
    ConnectOne(s0, 10, path);
    var s1 := Extend(ops0, Connect(10, 1, path));
    AcceptOne(s1, None, 1);
    var ops1 := ops0 + [Connect(10, 1, path)];
    var s2 := Extend(ops1, Accept(0, None));
    assert s2.socks[0].head == s2.socks[0].tail == 1 && s2.socks[1] == NewSock();
    forall x | x in s2.socks ensures !Queued(s2, x, 1) { PendingEmpty(s2.socks[x]); }
  }

  /** Closing the listener while the client waits in its queue leaves the client's thread stuck too. */
  lemma DeafListener(path: string)
    ensures var ops := Opening(path) + [Connect(10, 1, path)] + [Close(0)];
            Run(EMPTY, ops).Some? && Stuck(Run(EMPTY, ops).value, 10, 1)
  {
    hide Run, Step, Enabled, Joins;
    var ops0 := Opening(path);
    RunOpening(path);
    var s0 := Run(EMPTY, ops0).value;
    ConnectOne(s0, 10, path);
    var s1 := Extend(ops0, Connect(10, 1, path));
    var ops1 := ops0 + [Connect(10, 1, path)];
    CloseZero(s1);
    var s2 := Extend(ops1, Close(0));
    assert s2.socks[1] == NewSock();
    forall x | x in s2.socks ensures !Queued(s2, x, 1) { PendingEmpty(s2.socks[1]); }
  }

  lemma CloseZero(s: State)
    requires s.socks.Keys == {0, 1} && s.socks[0].status == LISTENING && s.socks[0].peer.None?
    requires s.waiting.Keys == {10} && s.waiting[10] == 1 && s.writing == map[] && s.socks[1] == NewSock()
    requires QueueOk(s.socks[0]) && 0 !in Pending(s.socks[0])
    ensures Enabled(s, Close(0))
    ensures var s' := Step(s, Close(0));
            && s'.socks.Keys == s.socks.Keys && s'.socks[0].status == CLOSED && s'.socks[1] == s.socks[1]
            && s'.waiting == s.waiting
  {
    PendingEmpty(NewSock());
  }
}
