/** Local stream sockets as a state machine. The code between two yields is one step; threads that
    share a socket after a fork may all be inside calls on it. */
module SocketState {
  import opened Options
  import opened Ring
  import opened Seqs
  import opened Words

  const MAX_SOCKETS: nat := 64
  const CAPACITY: nat := 4096
  const QUEUE: nat := 16

  datatype Status = UNBOUND | BOUND | LISTENING | CONNECTED | CLOSED

  /** A socket: its path, its state, the bytes in its receive ring, the other end, and the ring of
      sockets that wait to be accepted. */
  datatype Sock = Sock(path: string, status: Status, rx: seq<byte>, peer: Option<nat>, queue: seq<nat>, head: nat,
      tail: nat)

  /** A thread inside socket_write: the socket, what it was given, how much is written, and the number of the call. */
  datatype Job = Job(sock: nat, data: seq<byte>, done: nat, call: nat)

  /** What happened so far. Per socket: the bytes written on it with the call that wrote each, the bytes put
      into its ring, the bytes read from it, and the socket it was last connected to. Per listener: the
      sockets that asked and those taken from its queue. And how many write calls were begun. */
  datatype History = History(
    sent: map<nat, seq<byte>>, tags: map<nat, seq<nat>>, got: map<nat, seq<byte>>, recv: map<nat, seq<byte>>,
    mate: map<nat, nat>, asked: map<nat, seq<nat>>, taken: map<nat, seq<nat>>, calls: nat)

  /** Sockets (closed ones stay, so that numbers are not used twice), the table of bound sockets, the
      threads blocked in connect with their socket, the threads inside write, and the history. */
  datatype State = State(socks: map<nat, Sock>, bound: seq<Option<nat>>, waiting: map<nat, nat>,
      writing: map<nat, Job>, h: History)

  /** The history of socket k; empty where none was begun. */
  function Get(m: map<nat, seq<byte>>, k: nat): seq<byte> {
    if k in m then m[k] else []
  }

  function Nums(m: map<nat, seq<nat>>, k: nat): seq<nat> {
    if k in m then m[k] else []
  }

  predicate Below(s: seq<nat>, n: nat) {
    forall i | 0 <= i < |s| :: s[i] < n
  }

  function Pending(k: Sock): seq<nat>
    requires k.head <= |k.queue| && k.tail <= |k.queue|
  {
    if k.head <= k.tail then k.queue[k.head..k.tail] else k.queue[k.head..] + k.queue[..k.tail]
  }

  predicate QueueOk(k: Sock) {
    |k.queue| == QUEUE && k.head < QUEUE && k.tail < QUEUE
  }

  /** c waits in the queue of x, which is open: closing a socket frees its queue. */
  predicate Queued(s: State, x: nat, c: nat) {
    x in s.socks && s.socks[x].status != CLOSED && QueueOk(s.socks[x]) && c in Pending(s.socks[x])
  }

  predicate InNoQueue(s: State, c: nat) {
    forall x | x in s.socks :: !Queued(s, x, c)
  }

  /** Some thread is blocked in connect on c. */
  predicate Blocked(s: State, c: nat) {
    exists t :: t in s.waiting && s.waiting[t] == c
  }

  // What holds in every run.

  /** The bytes that write call c put on a socket, in order. */
  function By(sent: seq<byte>, tags: seq<nat>, c: nat): seq<byte>
    requires |sent| == |tags|
  {
    if sent == [] then []
    else By(sent[..|sent| - 1], tags[..|sent| - 1], c) + if tags[|sent| - 1] == c then [sent[|sent| - 1]] else []
  }

  /** Whatever was put into the ring of an open socket was read from it or is still in it. */
  ghost predicate RingOk(s: State, a: nat) {
    && a in s.socks && |s.socks[a].rx| <= CAPACITY
    && Get(s.h.recv, a) <= Get(s.h.got, a)
    && (s.socks[a].status != CLOSED ==> Get(s.h.got, a) == Get(s.h.recv, a) + s.socks[a].rx)
    && |Get(s.h.sent, a)| == |Nums(s.h.tags, a)|
    && Below(Nums(s.h.tags, a), s.h.calls)
  }

  ghost predicate LinkOk(s: State, a: nat) {
    a in s.socks && (s.socks[a].peer.Some? ==> s.socks[a].peer.value in s.socks && s.socks[a].peer.value != a)
  }

  /** The table holds sockets that were bound, with different paths. */
  ghost predicate Bounds(s: State) {
    && |s.bound| == MAX_SOCKETS
    && (forall i | 0 <= i < MAX_SOCKETS && s.bound[i].Some? ::
          s.bound[i].value in s.socks && s.socks[s.bound[i].value].status in {BOUND, LISTENING, CONNECTED})
    && (forall i, j | 0 <= i < j < MAX_SOCKETS && s.bound[i].Some? && s.bound[j].Some?
          && s.bound[i].value in s.socks && s.bound[j].value in s.socks ::
          s.socks[s.bound[i].value].path != s.socks[s.bound[j].value].path)
  }

  /** Whoever asked x was taken, or still waits in its queue, in the order of asking. */
  ghost predicate QueueAt(s: State, x: nat) {
    x in s.socks && QueueOk(s.socks[x]) && Nums(s.h.asked, x) == Nums(s.h.taken, x) + Pending(s.socks[x])
  }

  /** A queued socket is open, and while it is unbound some thread is blocked on it. */
  ghost predicate Waiter(s: State, c: nat) {
    c in s.socks && s.socks[c].status != CLOSED && (s.socks[c].status == UNBOUND ==> Blocked(s, c))
  }

  /** A thread inside write has a connected socket, and the bytes of its call are what it has written. */
  ghost predicate WriterAt(s: State, t: nat) {
    && t in s.writing && s.writing[t].sock in s.socks
    && s.socks[s.writing[t].sock].peer.Some? && s.socks[s.writing[t].sock].status == CONNECTED
    && s.writing[t].done <= |s.writing[t].data| && s.writing[t].call < s.h.calls
    && |Get(s.h.sent, s.writing[t].sock)| == |Nums(s.h.tags, s.writing[t].sock)|
    && By(Get(s.h.sent, s.writing[t].sock), Nums(s.h.tags, s.writing[t].sock), s.writing[t].call) ==
        s.writing[t].data[..s.writing[t].done]
  }

  ghost predicate Rings(s: State) {
    forall a {:trigger RingOk(s, a)} | a in s.socks :: RingOk(s, a)
  }

  ghost predicate Links(s: State) {
    forall a {:trigger LinkOk(s, a)} | a in s.socks :: LinkOk(s, a)
  }

  ghost predicate Queues(s: State) {
    && (forall x {:trigger QueueAt(s, x)} | x in s.socks :: QueueAt(s, x))
    && (forall x, c {:trigger Queued(s, x, c)} | Queued(s, x, c) :: Waiter(s, c))
  }

  ghost predicate Writers(s: State) {
    && (forall t {:trigger WriterAt(s, t)} | t in s.writing :: WriterAt(s, t))
    && (forall t, u | t in s.writing && u in s.writing && t != u :: s.writing[t].call != s.writing[u].call)
  }

  ghost predicate Waits(s: State) {
    forall t | t in s.waiting :: s.waiting[t] in s.socks
  }

  /** The invariant of every run. */
  ghost predicate Sound(s: State) {
    Rings(s) && Links(s) && Bounds(s) && Queues(s) && Writers(s) && Waits(s)
  }

  // What holds in runs that do not use a socket twice while it is being connected.

  /** Queued sockets are unbound, and each is queued once. */
  ghost predicate Once(s: State) {
    && (forall x, c {:trigger Queued(s, x, c)} | Queued(s, x, c) && c in s.socks :: s.socks[c].status == UNBOUND)
    && (forall x, y, c {:trigger Queued(s, x, c), Queued(s, y, c)} | Queued(s, x, c) && Queued(s, y, c) :: x == y)
    && (forall x {:trigger QueueOk(s.socks[x])} | x in s.socks && QueueOk(s.socks[x]) :: Distinct(Pending(s.socks[x])))
  }

  /** Links between ends are symmetric, and only connected sockets have one. */
  ghost predicate Peers(s: State) {
    forall a {:trigger s.socks[a].peer} | a in s.socks && s.socks[a].peer.Some? ::
      var b := s.socks[a].peer.value;
      b in s.socks && s.socks[b].peer == Some(a) && s.socks[a].status == CONNECTED && s.socks[b].status == CONNECTED
  }

  /** The bytes written on a are those put into the ring of the socket it is connected to. */
  ghost predicate Stream(s: State, a: nat) {
    && a in s.h.mate && s.h.mate[a] in s.socks && s.h.mate[a] in s.h.mate && s.h.mate[s.h.mate[a]] == a
    && s.h.mate[a] != a
    && Get(s.h.sent, a) == Get(s.h.got, s.h.mate[a])
    && a in s.socks && s.socks[a].status in {CONNECTED, CLOSED}
  }

  ghost predicate Streams(s: State) {
    && (forall a {:trigger Stream(s, a)} | a in s.h.mate :: Stream(s, a))
    && (forall a {:trigger s.socks[a].peer} | a in s.socks && s.socks[a].peer.Some? ::
          a in s.h.mate && s.h.mate[a] == s.socks[a].peer.value)
    && (forall a {:trigger Get(s.h.sent, a)} | a in s.socks && a !in s.h.mate ::
          Get(s.h.sent, a) == [] && Get(s.h.got, a) == [])
  }

  /** The table holds no connected socket. */
  ghost predicate Listeners(s: State) {
    forall i | 0 <= i < |s.bound| && s.bound[i].Some? && s.bound[i].value in s.socks ::
      s.socks[s.bound[i].value].status in {BOUND, LISTENING}
  }

  ghost predicate Tidy(s: State) {
    Once(s) && Peers(s) && Streams(s) && Listeners(s)
  }

  // The steps.

  datatype Op =
    | Socket(id: nat)
    | Bind(id: nat, path: string)
    | Listen(id: nat)
    | Connect(thread: nat, id: nat, path: string)
    | Connected(thread: nat)
    | Accept(id: nat, made: Option<nat>)
    | BeginWrite(thread: nat, id: nat, data: seq<byte>)
    | WriteTurn(thread: nat)
    | EndWrite(thread: nat)
    | Read(id: nat, n: nat)
    | Close(id: nat)

  predicate Open(s: State, id: nat) {
    id in s.socks && s.socks[id].status != CLOSED
  }

  /** The thread is in no blocking call. */
  predicate Ready(s: State, t: nat) {
    t !in s.waiting && t !in s.writing
  }

  /** Close frees the socket, so nothing may still hold on to it: no thread blocked in it or writing to it,
      none writing on the socket whose link it clears, and no queue. */
  predicate Released(s: State, id: nat)
    requires id in s.socks
  {
    && (forall t | t in s.waiting :: s.waiting[t] != id)
    && (forall t | t in s.writing && s.writing[t].sock in s.socks ::
          s.writing[t].sock != id && s.socks[s.writing[t].sock].peer != Some(id) &&
              s.socks[id].peer != Some(s.writing[t].sock))
    && InNoQueue(s, id)
  }

  /** When a step can happen. */
  predicate Enabled(s: State, op: Op) {
    match op
    case Socket(id) => id !in s.socks
    case Bind(id, _) => Open(s, id)
    case Listen(id) => Open(s, id)
    case Connect(t, id, _) => Open(s, id) && Ready(s, t)
    case Connected(t) => t in s.waiting && s.waiting[t] in s.socks && s.socks[s.waiting[t]].status != UNBOUND
    case Accept(id, made) => Open(s, id) && (made.Some? ==> made.value !in s.socks)
    case BeginWrite(t, id, _) => Open(s, id) && Ready(s, t)
    case WriteTurn(t) => t in s.writing
    case EndWrite(t) => t in s.writing && (s.writing[t].done == |s.writing[t].data| || PeerClosed(s, s.writing[t].sock))
    case Read(id, _) => Open(s, id)
    case Close(id) => Open(s, id) && Released(s, id)
  }

  predicate PeerClosed(s: State, a: nat) {
    a in s.socks && s.socks[a].peer.Some? && s.socks[a].peer.value in s.socks &&
        s.socks[s.socks[a].peer.value].status == CLOSED
  }

  function NewSock(): Sock {
    Sock("", UNBOUND, [], None, seq(QUEUE, _ => 0), 0, 0)
  }

  /** The first slot whose socket has the path. */
  function FindPath(s: State, path: string, i: nat): (r: Option<nat>)
    requires i <= |s.bound|
    ensures r.Some? ==>
      && i <= r.value < |s.bound| && s.bound[r.value].Some? && s.bound[r.value].value in s.socks
      && s.socks[s.bound[r.value].value].path == path
    ensures r.None? ==>
      forall k | i <= k < |s.bound| && s.bound[k].Some? && s.bound[k].value in s.socks ::
          s.socks[s.bound[k].value].path != path
    decreases |s.bound| - i
  {
    if i == |s.bound| then None
    else if s.bound[i].Some? && s.bound[i].value in s.socks && s.socks[s.bound[i].value].path == path then Some(i)
    else FindPath(s, path, i + 1)
  }

  function FirstEmpty(bound: seq<Option<nat>>, i: nat): (r: Option<nat>)
    requires i <= |bound|
    ensures r.Some? ==> i <= r.value < |bound| && bound[r.value].None?
    ensures r.None? ==> forall k | i <= k < |bound| :: bound[k].Some?
    decreases |bound| - i
  {
    if i == |bound| then None else if bound[i].None? then Some(i) else FirstEmpty(bound, i + 1)
  }

  function Min(a: nat, b: nat): (r: nat)
    ensures r <= a && r <= b && (r == a || r == b)
  {
    if a < b then a else b
  }

  function Unbind(bound: seq<Option<nat>>, id: nat): seq<Option<nat>> {
    seq(|bound|, i requires 0 <= i < |bound| => if bound[i] == Some(id) then None else bound[i])
  }

  function AddSock(s: State, id: nat): State {
    s.(socks := s.socks[id := NewSock()],
       h := s.h.(sent := s.h.sent[id := []], tags := s.h.tags[id := []], got := s.h.got[id := []],
           recv := s.h.recv[id := []],
                 asked := s.h.asked[id := []], taken := s.h.taken[id := []]))
  }

  /** A bind succeeds. */
  predicate CanBind(s: State, id: nat, path: string) {
    id in s.socks && s.socks[id].status == UNBOUND && FindPath(s, path, 0).None? && FirstEmpty(s.bound, 0).Some?
  }

  function DoBind(s: State, id: nat, path: string): State
    requires id in s.socks
  {
    if !CanBind(s, id, path) then s
    else s.(bound := s.bound[FirstEmpty(s.bound, 0).value := Some(id)],
        socks := s.socks[id := s.socks[id].(path := path, status := BOUND)])
  }

  function DoListen(s: State, id: nat): State
    requires id in s.socks
  {
    if s.socks[id].status != BOUND then s else s.(socks := s.socks[id := s.socks[id].(status := LISTENING)])
  }

  /** A connect joins a queue: the socket is unbound and the path has a listener whose queue is not full. */
  predicate Joins(s: State, id: nat, path: string) {
    && id in s.socks && s.socks[id].status == UNBOUND && FindPath(s, path, 0).Some?
    && var k := s.socks[s.bound[FindPath(s, path, 0).value].value];
       k.status == LISTENING && QueueOk(k) && (k.tail + 1) % QUEUE != k.head
  }

  function Enqueue(s: State, x: nat, id: nat): State
    requires x in s.socks && QueueOk(s.socks[x])
  {
    var k := s.socks[x];
    s.(socks := s.socks[x := k.(queue := k.queue[k.tail := id], tail := (k.tail + 1) % QUEUE)],
       h := s.h.(asked := s.h.asked[x := Nums(s.h.asked, x) + [id]]))
  }

  /** The part of connect before it waits. */
  function DoConnect(s: State, t: nat, id: nat, path: string): State
    requires id in s.socks
  {
    if !Joins(s, id, path) then s
    else
      var s1 := Enqueue(s, s.bound[FindPath(s, path, 0).value].value, id);
      s1.(waiting := s1.waiting[t := id])
  }

  /** The first in the queue is taken. */
  function Dequeue(s: State, x: nat): State
    requires x in s.socks && QueueOk(s.socks[x])
  {
    var k := s.socks[x];
    s.(socks := s.socks[x := k.(head := (k.head + 1) % QUEUE)],
       h := s.h.(taken := s.h.taken[x := Nums(s.h.taken, x) + [k.queue[k.head]]]))
  }

  /** Sockets a and c become the two ends of a connection. */
  function Link(s: State, a: nat, c: nat): State
    requires a in s.socks && c in s.socks
  {
    var socks := s.socks[a := s.socks[a].(status := CONNECTED, peer := Some(c))];
    s.(socks := socks[c := socks[c].(status := CONNECTED, peer := Some(a))],
        h := s.h.(mate := s.h.mate[a := c][c := a]))
  }

  /** Someone can be accepted. That the socket listens is tested when the call begins, not after the wait. */
  predicate Served(s: State, id: nat) {
    id in s.socks && QueueOk(s.socks[id]) && s.socks[id].head != s.socks[id].tail
  }

  /** Accept with someone waiting: the first in the queue is connected to a new socket. Without memory or a
      free descriptor the first in the queue is taken all the same, and stays blocked. */
  function DoAccept(s: State, id: nat, made: Option<nat>): State
    requires id in s.socks
  {
    if !Served(s, id) then s
    else
      var c := s.socks[id].queue[s.socks[id].head];
      var s1 := Dequeue(s, id);
      if made.None? || c !in s1.socks then s1 else Link(AddSock(s1, made.value), made.value, c)
  }

  function DoBeginWrite(s: State, t: nat, id: nat, data: seq<byte>): State
    requires id in s.socks
  {
    if s.socks[id].status != CONNECTED || s.socks[id].peer.None? then s
    else s.(writing := s.writing[t := Job(id, data, 0, s.h.calls)], h := s.h.(calls := s.h.calls + 1))
  }

  /** The thread has a peer with room in its ring. */
  predicate CanPut(s: State, t: nat) {
    && t in s.writing && s.writing[t].sock in s.socks && s.writing[t].done <= |s.writing[t].data|
    && var p := s.socks[s.writing[t].sock].peer;
       p.Some? && p.value in s.socks && s.socks[p.value].status != CLOSED && |s.socks[p.value].rx| < CAPACITY
  }

  /** The bytes of the next turn: as many as the peer's ring has room for. */
  function Piece(s: State, t: nat): seq<byte>
    requires CanPut(s, t)
  {
    var j := s.writing[t];
    j.data[j.done..j.done + Min(|j.data| - j.done, CAPACITY - |s.socks[s.socks[j.sock].peer.value].rx|)]
  }

  /** One turn of the write loop. The ring overwrites its oldest bytes when it is given more than it has room for. */
  function DoWriteTurn(s: State, t: nat): State {
    if !CanPut(s, t) then s
    else
      var j := s.writing[t];
      var b := s.socks[j.sock].peer.value;
      var piece := Piece(s, t);
      s.(socks := s.socks[b := s.socks[b].(rx := Last(s.socks[b].rx + piece, CAPACITY))],
         writing := s.writing[t := j.(done := j.done + |piece|)],
         h := s.h.(sent := s.h.sent[j.sock := Get(s.h.sent, j.sock) + piece],
                   tags := s.h.tags[j.sock := Nums(s.h.tags, j.sock) + seq(|piece|, _ => j.call)],
                   got := s.h.got[b := Get(s.h.got, b) + piece]))
  }

  /** A read that finds bytes, or finds none (and then waits or returns 0). */
  function DoRead(s: State, id: nat, n: nat): State
    requires id in s.socks
  {
    if s.socks[id].status != CONNECTED then s
    else
      var w := Min(n, |s.socks[id].rx|);
      s.(socks := s.socks[id := s.socks[id].(rx := s.socks[id].rx[w..])],
         h := s.h.(recv := s.h.recv[id := Get(s.h.recv, id) + s.socks[id].rx[..w]]))
  }

  /** The ring and the socket are freed. */
  function DoClose(s: State, id: nat): State
    requires id in s.socks
  {
    var k := s.socks[id];
    var socks := s.socks[id := k.(status := CLOSED, peer := None, rx := [])];
    s.(socks := if k.peer.Some? && k.peer.value in socks
        then socks[k.peer.value := socks[k.peer.value].(peer := None)] else socks,
       bound := Unbind(s.bound, id))
  }

  function Step(s: State, op: Op): State
    requires Enabled(s, op)
  {
    match op
    case Socket(id) => AddSock(s, id)
    case Bind(id, path) => DoBind(s, id, path)
    case Listen(id) => DoListen(s, id)
    case Connect(t, id, path) => DoConnect(s, t, id, path)
    case Connected(t) => s.(waiting := s.waiting - {t})
    case Accept(id, made) => DoAccept(s, id, made)
    case BeginWrite(t, id, data) => DoBeginWrite(s, t, id, data)
    case WriteTurn(t) => DoWriteTurn(s, t)
    case EndWrite(t) => s.(writing := s.writing - {t})
    case Read(id, n) => DoRead(s, id, n)
    case Close(id) => DoClose(s, id)
  }

  /** The step does not use a socket that is already being connected: a connect that joins a queue, or a
      bind that succeeds, is of a socket in no queue. */
  predicate Guarded(s: State, op: Op) {
    match op
    case Bind(id, path) => CanBind(s, id, path) ==> InNoQueue(s, id)
    case Connect(_, id, path) => Joins(s, id, path) ==> InNoQueue(s, id)
    case _ => true
  }
}
