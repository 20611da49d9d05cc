/** The send engine: a shared queue, the sender thread and the write handler,
    which hand a partially sent packet back and forth. */
module Sending {
  import opened Common
  import opened Bytes
  import opened Framing
  import Logic

  const QUEUE_LIMIT := 50000
  const BACKLOG_LIMIT := 400

  /** A message: the connection and sequence number it was built for, and the
      packet to send. */
  datatype Msg = Msg(conn: Id, sequence: nat, packet: seq<byte>)

  /** The send side of a pooled connection. psend is what is left to send of
      the packet in hand; pollOut says that EPOLLOUT is registered; posted
      holds inside the write handler between sem_post and the decrement.
      The last four fields are history of the current lease: the octets the
      socket accepted, the packets taken from the queue, the packets that
      msgSend queued, and how many messages of earlier leases it counted. */
  datatype Peer = Peer(
    sequence: nat,
    open: bool,
    sendCount: int,
    throwCount: int,
    psend: Option<seq<byte>>,
    pollOut: bool,
    posted: bool,
    wire: seq<byte>,
    sent: seq<seq<byte>>,
    asked: seq<seq<byte>>,
    stale: nat)

  /** Where the sender thread is; while scanning it holds the queue's mutex. */
  datatype Sender = Waiting | Woken | Scanning(cursor: nat)

  datatype State = State(
    peers: map<Id, Peer>,
    queue: seq<Msg>,
    queueCount: int,
    semaphore: nat,
    discarded: nat,
    sender: Sender)

  // ---------------------------------------------------------------------
  // The steps.

  datatype Event =
    | MsgSend(m: Msg, again: bool)
    | SemWait
    | SemInterrupted
    | TestCount
    | ScanNext(room: nat)
    | WriteSend(conn: Id, room: nat)
    | WriteFinish(conn: Id)
    | Close(conn: Id, again: bool)
    | Recycle(conn: Id)
    | Lease(conn: Id)

  /** zdClosesocketProc, as far as sending goes. The sequence number rises when
      the connection enters the recycle list; again is that choice for one
      that is not open. */
  function Closed(p: Peer, again: bool): Peer {
    p.(open := false,
       throwCount := if p.throwCount > 0 then p.throwCount - 1 else p.throwCount,
       sequence := if p.open || again then p.sequence + 1 else p.sequence)
  }

  /** PutOneToFree. */
  function Recycled(p: Peer): Peer {
    p.(sequence := p.sequence + 1, psend := None, throwCount := 0)
  }

  /** GetOneToUse. */
  function Leased(p: Peer): Peer {
    Peer(p.sequence + 1, true, 0, 0, None, false, false, [], [], [], 0)
  }

  /** The socket takes at most room octets of the packet just dequeued. */
  function Started(p: Peer, packet: seq<byte>, room: nat): Peer {
    var n := Min(room, |packet|);
    var q := p.(sendCount := p.sendCount - 1, sent := p.sent + [packet], wire := p.wire + packet[..n]);
    if n == |packet| then
      q.(psend := None, throwCount := 0)
    else
      q.(psend := Some(packet[n..]), throwCount := p.throwCount + 1, pollOut := true)
  }

  function Rest(p: Peer): seq<byte> {
    if p.psend.Some? then p.psend.value else []
  }

  /** The socket takes at most room octets of the rest. */
  function Resumed(p: Peer, room: nat): Peer {
    var rest := Rest(p);
    var n := Min(room, |rest|);
    var q := p.(psend := Some(rest[n..]), wire := p.wire + rest[..n]);
    if n == |rest| then q.(pollOut := false, posted := true) else q
  }

  function Finished(p: Peer): Peer {
    p.(psend := None, throwCount := p.throwCount - 1, posted := false)
  }

  function Without(q: seq<Msg>, i: nat): seq<Msg>
    requires i < |q|
  {
    q[..i] + q[i + 1..]
  }

  function Queued(p: Peer, m: Msg): Peer {
    p.(sendCount := p.sendCount + 1,
       asked := if m.sequence == p.sequence then p.asked + [m.packet] else p.asked,
       stale := if m.sequence == p.sequence then p.stale else p.stale + 1)
  }

  function MsgSendStep(s: State, m: Msg, again: bool): State
    requires m.conn in s.peers
  {
    var p := s.peers[m.conn];
    if s.queueCount > QUEUE_LIMIT then
      s.(discarded := s.discarded + 1)
    else if p.sendCount > BACKLOG_LIMIT then
      s.(discarded := s.discarded + 1, peers := s.peers[m.conn := Closed(p, again)])
    else
      s.(peers := s.peers[m.conn := Queued(p, m)], queue := s.queue + [m],
         queueCount := s.queueCount + 1, semaphore := s.semaphore + 1)
  }

  function ScanStep(s: State, room: nat): State
    requires s.sender.Scanning? && s.sender.cursor < |s.queue|
  {
    var i := s.sender.cursor;
    var m := s.queue[i];
    if m.conn !in s.peers then s else
    var p := s.peers[m.conn];
    if p.sequence != m.sequence then
      s.(queue := Without(s.queue, i), queueCount := s.queueCount - 1)
    else if p.throwCount > 0 then
      s.(sender := Scanning(i + 1))
    else
      s.(queue := Without(s.queue, i), queueCount := s.queueCount - 1,
         peers := s.peers[m.conn := Started(p, m.packet, room)])
  }

  predicate Enabled(s: State, e: Event) {
    match e
    case MsgSend(m, _) =>
      // msgSend takes the mutex; replies carry the header of a packet received
      // during a lease.
      && !s.sender.Scanning? && m.conn in s.peers && IsPacket(m.packet)
      && m.sequence <= s.peers[m.conn].sequence
      && (m.sequence == s.peers[m.conn].sequence ==> s.peers[m.conn].open)
    case SemWait => s.sender == Waiting && s.semaphore > 0
    case SemInterrupted => s.sender == Waiting
    case TestCount => s.sender == Woken
    case ScanNext(_) => s.sender.Scanning?
    case WriteSend(c, _) => c in s.peers && s.peers[c].open && s.peers[c].pollOut
    case WriteFinish(c) => c in s.peers && s.peers[c].posted
    case Close(c, _) => c in s.peers
    case Recycle(c) => c in s.peers && !s.peers[c].open && !s.peers[c].posted
    case Lease(c) => c in s.peers && !s.peers[c].open && !s.peers[c].posted
  }

  function Next(s: State, e: Event): State
    requires Enabled(s, e)
  {
    match e
    case MsgSend(m, again) => MsgSendStep(s, m, again)
    case SemWait => s.(semaphore := s.semaphore - 1, sender := Woken)
    case SemInterrupted => s.(sender := Woken)
    case TestCount => s.(sender := if s.queueCount > 0 then Scanning(0) else Waiting)
    case ScanNext(room) => if s.sender.cursor >= |s.queue| then s.(sender := Waiting) else ScanStep(s, room)
    case WriteSend(c, room) =>
      var p := Resumed(s.peers[c], room);
      s.(peers := s.peers[c := p], semaphore := s.semaphore + if p.posted then 1 else 0)
    case WriteFinish(c) => s.(peers := s.peers[c := Finished(s.peers[c])])
    case Close(c, again) => s.(peers := s.peers[c := Closed(s.peers[c], again)])
    case Recycle(c) => s.(peers := s.peers[c := Recycled(s.peers[c])])
    case Lease(c) => s.(peers := s.peers[c := Leased(s.peers[c])])
  }

  // ---------------------------------------------------------------------
  // What every interleaving keeps.

  /** The queued packets of connection c that carry sequence number n. */
  function Mine(q: seq<Msg>, c: Id, n: nat): seq<seq<byte>> {
    if q == [] then
      []
    else
      (if q[0].conn == c && q[0].sequence == n then [q[0].packet] else []) + Mine(q[1..], c, n)
  }

  /** The hand-off flag is 0 or 1, and it is 1 exactly when a packet is in
      hand; EPOLLOUT is registered until that packet is out. */
  predicate Handoff(p: Peer) {
    && p.throwCount == (if p.psend.Some? then 1 else 0)
    && (p.posted ==> p.psend == Some([]))
    && (p.pollOut <==> p.psend.Some? && !p.posted)
    && (p.psend.Some? && !p.posted ==> p.psend.value != [])
  }

  /** The socket has received whole packets, in the order they were dequeued,
      except for the rest of the last one. */
  predicate Stream(p: Peer) {
    p.wire + Rest(p) == Concat(p.sent) && AllPackets(p.sent)
  }

  predicate AllPackets(s: seq<seq<byte>>) {
    forall i :: 0 <= i < |s| ==> IsPacket(s[i])
  }

  /** No queued header carries a sequence number above its connection's. */
  predicate Bounded(q: seq<Msg>, c: Id, n: nat) {
    forall i :: 0 <= i < |q| && q[i].conn == c ==> q[i].sequence <= n
  }

  /** Every packet msgSend queued is either dequeued or still queued, once. */
  predicate Accounted(p: Peer, mine: seq<seq<byte>>) {
    multiset(p.asked) == multiset(p.sent) + multiset(mine)
  }

  /** The send count is what msgSend counted less what was taken from the queue. */
  predicate Exact(p: Peer) {
    p.sendCount + |p.sent| == |p.asked| + p.stale
  }

  predicate PeerInv(p: Peer, q: seq<Msg>, c: Id) {
    var mine := Mine(q, c, p.sequence);
    && Bounded(q, c, p.sequence)
    && |mine| <= p.sendCount <= BACKLOG_LIMIT + 1
    && (p.open ==> Handoff(p) && Stream(p) && Accounted(p, mine) && Exact(p))
    && (!p.open ==> mine == [])
  }

  ghost predicate Inv(s: State) {
    && s.queueCount == |s.queue| <= QUEUE_LIMIT + 1
    && (forall i :: 0 <= i < |s.queue| ==> s.queue[i].conn in s.peers && IsPacket(s.queue[i].packet))
    && (s.sender.Scanning? ==> s.sender.cursor <= |s.queue|)
    && (forall c :: c in s.peers ==> PeerInv(s.peers[c], s.queue, c))
  }

  lemma {:induction false} MineAppend(a: seq<Msg>, b: seq<Msg>, c: Id, n: nat)
    ensures Mine(a + b, c, n) == Mine(a, c, n) + Mine(b, c, n)
  {
    if a == [] {
      assert a + b == b;
    } else {
      assert (a + b)[1..] == a[1..] + b;
      MineAppend(a[1..], b, c, n);
    }
  }

  lemma MineSplit(q: seq<Msg>, i: nat, c: Id, n: nat)
    requires i < |q|
    ensures Mine(q, c, n) == Mine(q[..i], c, n) + Mine([q[i]], c, n) + Mine(q[i + 1..], c, n)
    ensures Mine(Without(q, i), c, n) == Mine(q[..i], c, n) + Mine(q[i + 1..], c, n)
  {
    assert q == q[..i] + [q[i]] + q[i + 1..];
    MineAppend(q[..i] + [q[i]], q[i + 1..], c, n);
    MineAppend(q[..i], [q[i]], c, n);
    MineAppend(q[..i], q[i + 1..], c, n);
  }

  lemma {:induction false} MineNone(q: seq<Msg>, c: Id, n: nat)
    requires forall i :: 0 <= i < |q| && q[i].conn == c ==> q[i].sequence != n
    ensures Mine(q, c, n) == []
  {
    if q != [] {
      MineNone(q[1..], c, n);
    }
  }

  lemma {:induction false} MineSome(q: seq<Msg>, c: Id, n: nat, i: nat)
    requires i < |q| && q[i].conn == c && q[i].sequence == n
    ensures Mine(q, c, n) != []
  {
    if i > 0 {
      MineSome(q[1..], c, n, i - 1);
    }
  }

  lemma {:induction false} ConcatAppend(a: seq<seq<byte>>, p: seq<byte>)
    ensures Concat(a + [p]) == Concat(a) + p
  {
    if a == [] {
      assert Concat([p]) == p;
    } else {
      assert (a + [p])[1..] == a[1..] + [p];
      ConcatAppend(a[1..], p);
    }
  }

  // Each step, seen from the connection it acts on and from any other.

  lemma BoundedRemove(q: seq<Msg>, i: nat, c: Id, n: nat)
    requires i < |q| && Bounded(q, c, n)
    ensures Bounded(Without(q, i), c, n)
  {
    forall j | 0 <= j < |q| - 1 && Without(q, i)[j].conn == c
      ensures Without(q, i)[j].sequence <= n
    {
      assert Without(q, i)[j] == if j < i then q[j] else q[j + 1];
    }
  }

  lemma OtherOnRemove(p: Peer, q: seq<Msg>, i: nat, c: Id)
    requires i < |q| && PeerInv(p, q, c) && (q[i].conn != c || q[i].sequence != p.sequence)
    ensures PeerInv(p, Without(q, i), c)
  {
    hide Bounded, Handoff, Stream, Accounted, Without;
    MineSplit(q, i, c, p.sequence);
    BoundedRemove(q, i, c, p.sequence);
    assert Mine(Without(q, i), c, p.sequence) == Mine(q, c, p.sequence);
  }

  lemma OtherOnAppend(p: Peer, q: seq<Msg>, m: Msg, c: Id)
    requires PeerInv(p, q, c) && m.conn != c
    ensures PeerInv(p, q + [m], c)
  {
    hide Handoff, Stream, Accounted;
    MineAppend(q, [m], c, p.sequence);
    assert Mine(q + [m], c, p.sequence) == Mine(q, c, p.sequence);
  }

  lemma QueuedKeeps(p: Peer, q: seq<Msg>, m: Msg, c: Id)
    requires PeerInv(p, q, c) && m.conn == c && p.sendCount <= BACKLOG_LIMIT
    requires m.sequence <= p.sequence && (m.sequence == p.sequence ==> p.open)
    ensures PeerInv(Queued(p, m), q + [m], c)
  {
    hide Bounded, Handoff, Stream, Accounted, Mine;
    MineAppend(q, [m], c, p.sequence);
    var mine := Mine(q, c, p.sequence);
    BoundedAppend(q, m, c, p.sequence);
    SendSideSame(p, Queued(p, m));
    if m.sequence == p.sequence {
      MineOne(m);
      AccountedQueued(p, mine, m);
    } else {
      MineNone([m], c, p.sequence);
      assert Mine(q + [m], c, p.sequence) == mine;
      AccountedSame(p, Queued(p, m), mine);
    }
  }

  lemma BoundedAppend(q: seq<Msg>, m: Msg, c: Id, n: nat)
    requires Bounded(q, c, n) && m.sequence <= n
    ensures Bounded(q + [m], c, n)
  {
  }

  lemma SendSideSame(p: Peer, r: Peer)
    requires r == p.(sendCount := r.sendCount, asked := r.asked, stale := r.stale)
    ensures Handoff(p) == Handoff(r) && Stream(p) == Stream(r)
  {
  }

  lemma AccountedSame(p: Peer, r: Peer, mine: seq<seq<byte>>)
    requires p.asked == r.asked && p.sent == r.sent
    ensures Accounted(p, mine) == Accounted(r, mine)
  {
  }

  lemma AccountedQueued(p: Peer, mine: seq<seq<byte>>, m: Msg)
    requires m.sequence == p.sequence && (p.open ==> Accounted(p, mine))
    ensures p.open ==> Accounted(Queued(p, m), mine + [m.packet])
  {
  }

  lemma AccountedStarted(p: Peer, a: seq<seq<byte>>, packet: seq<byte>, b: seq<seq<byte>>, room: nat)
    requires Accounted(p, a + [packet] + b)
    ensures Accounted(Started(p, packet, room), a + b)
  {
  }

  lemma StreamStarted(p: Peer, packet: seq<byte>, room: nat)
    requires Handoff(p) && Stream(p) && p.throwCount <= 0 && IsPacket(packet)
    ensures Handoff(Started(p, packet, room)) && Stream(Started(p, packet, room))
  {
    hide IsPacket;
    assert packet != [] by {
      NotEmpty(packet);
    }
    ConcatAppend(p.sent, packet);
    var n := Min(room, |packet|);
    assert packet[..n] + packet[n..] == packet;
    assert p.wire + [] == p.wire;
  }

  lemma NotEmpty(packet: seq<byte>)
    requires IsPacket(packet)
    ensures |packet| >= HEADER_LENGTH
  {
  }

  lemma StartedKeeps(p: Peer, q: seq<Msg>, i: nat, c: Id, room: nat)
    requires PeerInv(p, q, c) && i < |q| && q[i].conn == c && q[i].sequence == p.sequence
    requires p.throwCount <= 0 && IsPacket(q[i].packet)
    ensures p.open && PeerInv(Started(p, q[i].packet, room), Without(q, i), c)
  {
    hide Bounded, Handoff, Stream, Accounted, Without, Mine;
    var packet := q[i].packet;
    var before, after := Mine(q[..i], c, p.sequence), Mine(q[i + 1..], c, p.sequence);
    MineSplit(q, i, c, p.sequence);
    MineOne(q[i]);
    MineSome(q, c, p.sequence, i);
    AccountedStarted(p, before, packet, after, room);
    StreamStarted(p, packet, room);
    BoundedRemove(q, i, c, p.sequence);
  }

  lemma MineOne(m: Msg)
    ensures Mine([m], m.conn, m.sequence) == [m.packet]
  {
  }

  lemma ResumedKeeps(p: Peer, q: seq<Msg>, c: Id, room: nat)
    requires PeerInv(p, q, c) && p.open && p.pollOut
    ensures PeerInv(Resumed(p, room), q, c)
  {
    var rest := p.psend.value;
    var n := Min(room, |rest|);
    assert rest == rest[..n] + rest[n..];
    assert p.wire + rest[..n] + rest[n..] == p.wire + rest;
  }

  lemma FinishedKeeps(p: Peer, q: seq<Msg>, c: Id)
    requires PeerInv(p, q, c) && p.posted
    ensures PeerInv(Finished(p), q, c)
  {
    assert p.wire + [] == p.wire;
  }

  lemma NewSequenceKeeps(p: Peer, r: Peer, q: seq<Msg>, c: Id)
    requires PeerInv(p, q, c) && r.sequence > p.sequence && 0 <= r.sendCount <= BACKLOG_LIMIT + 1
    requires r.open ==> Handoff(r) && Stream(r) && r.asked == r.sent && Exact(r)
    ensures PeerInv(r, q, c)
  {
    MineNone(q, c, r.sequence);
  }

  lemma ClosedKeeps(p: Peer, q: seq<Msg>, c: Id, again: bool)
    requires PeerInv(p, q, c)
    ensures PeerInv(Closed(p, again), q, c)
  {
    if p.open || again {
      NewSequenceKeeps(p, Closed(p, again), q, c);
    }
  }

  /** Every step of every thread keeps the invariant. */
  lemma InvStep(s: State, e: Event)
    requires Inv(s) && Enabled(s, e)
    ensures Inv(Next(s, e))
  {
    hide PeerInv;
    var t := Next(s, e);
    forall c | c in t.peers
      ensures PeerInv(t.peers[c], t.queue, c)
    {
      PeerStep(s, e, c);
    }
  }

  lemma PeerStep(s: State, e: Event, c: Id)
    requires Inv(s) && Enabled(s, e) && c in s.peers
    ensures c in Next(s, e).peers && PeerInv(Next(s, e).peers[c], Next(s, e).queue, c)
  {
    hide PeerInv, IsPacket;
    var p := s.peers[c];
    match e
    case MsgSend(m, again) =>
      if m.conn != c {
        OtherOnAppend(p, s.queue, m, c);
      } else if s.queueCount <= QUEUE_LIMIT {
        if p.sendCount > BACKLOG_LIMIT {
          ClosedKeeps(p, s.queue, c, again);
        } else {
          QueuedKeeps(p, s.queue, m, c);
        }
      }
    case SemWait =>
    case SemInterrupted =>
    case TestCount =>
    case ScanNext(room) =>
      if s.sender.cursor < |s.queue| {
        PeerScan(s, room, c);
      }
    case WriteSend(d, room) =>
      if d == c {
        ResumedKeeps(p, s.queue, c, room);
      }
    case WriteFinish(d) =>
      if d == c {
        FinishedKeeps(p, s.queue, c);
      }
    case Close(d, again) =>
      if d == c {
        ClosedKeeps(p, s.queue, c, again);
      }
    case Recycle(d) =>
      if d == c {
        SendCountBound(p, s.queue, c);
        NewSequenceKeeps(p, Recycled(p), s.queue, c);
      }
    case Lease(d) =>
      if d == c {
        NewSequenceKeeps(p, Leased(p), s.queue, c);
      }
  }

  lemma SendCountBound(p: Peer, q: seq<Msg>, c: Id)
    requires PeerInv(p, q, c)
    ensures 0 <= p.sendCount <= BACKLOG_LIMIT + 1
  {
  }

  lemma PeerScan(s: State, room: nat, c: Id)
    requires Inv(s) && s.sender.Scanning? && s.sender.cursor < |s.queue| && c in s.peers
    ensures c in ScanStep(s, room).peers && PeerInv(ScanStep(s, room).peers[c], ScanStep(s, room).queue, c)
  {
    hide PeerInv, IsPacket;
    var p := s.peers[c];
    var i := s.sender.cursor;
    var m := s.queue[i];
    if m.conn != c || m.sequence != p.sequence {
      OtherOnRemove(p, s.queue, i, c);
    } else if p.throwCount <= 0 {
      StartedKeeps(p, s.queue, i, c, room);
    }
  }

  // ---------------------------------------------------------------------
  // Runs.

  const IDLE: Peer :=
    Peer(0, false, 0, 0, None, false, false, [], [], [], 0)

  ghost predicate Initial(s: State) {
    && s.queue == [] && s.queueCount == 0 && s.semaphore == 0 && s.sender == Waiting
    && forall c :: c in s.peers ==> s.peers[c] == IDLE.(sequence := s.peers[c].sequence)
  }

  predicate Runs(s: State, events: seq<Event>, t: State)
    decreases events
  {
    if events == [] then s == t else Enabled(s, events[0]) && Runs(Next(s, events[0]), events[1..], t)
  }

  lemma InitialInv(s: State)
    requires Initial(s)
    ensures Inv(s)
  {
    assert forall c, n :: Mine([], c, n) == [];
  }

  /** In every run of every interleaving: whole packets, each exactly once and
      never interleaved, reach the socket; the backlog counters are exact
      bounds; the hand-off flag means what it should. */
  lemma {:induction false} EveryRun(s: State, events: seq<Event>, t: State)
    requires Inv(s) && Runs(s, events, t)
    ensures Inv(t)
    decreases events
  {
    if events != [] {
      InvStep(s, events[0]);
      EveryRun(Next(s, events[0]), events[1..], t);
    }
  }

  /** The backlog in every reachable state: messages queued for a connection's
      current lease are at most its send count, which stays in 0..401; no
      queued header is ahead of its connection; the queue counter is the
      queue's length and never exceeds 50001. */
  lemma Backlog(s: State, events: seq<Event>, t: State)
    requires Initial(s) && Runs(s, events, t)
    ensures t.queueCount == |t.queue| <= 50001
    ensures forall c :: c in t.peers ==> |Mine(t.queue, c, t.peers[c].sequence)| <= t.peers[c].sendCount <= 401
    ensures forall i :: 0 <= i < |t.queue| ==> t.queue[i].conn in t.peers && t.queue[i].sequence <= t.peers[t.queue[i].conn].sequence
  {
    hide Handoff, Stream, Accounted, Mine, IsPacket, Next, Enabled;
    InitialInv(s);
    EveryRun(s, events, t);
    forall i | 0 <= i < |t.queue|
      ensures t.queue[i].conn in t.peers && t.queue[i].sequence <= t.peers[t.queue[i].conn].sequence
    {
      assert PeerInv(t.peers[t.queue[i].conn], t.queue, t.queue[i].conn);
    }
  }

  /** In every reachable state a leased connection's send count is exactly the
      number of its live messages in the queue and of the messages of earlier
      leases that msgSend counted against it. */
  lemma BacklogExact(s: State, events: seq<Event>, t: State, c: Id)
    requires Initial(s) && Runs(s, events, t) && c in t.peers && t.peers[c].open
    ensures var p := t.peers[c];
      && p.sendCount + |p.sent| == |p.asked| + p.stale
      && p.sendCount == |Mine(t.queue, c, p.sequence)| + p.stale
  {
    hide Handoff, Stream, Mine, IsPacket, Next, Enabled;
    InitialInv(s);
    EveryRun(s, events, t);
    var p := t.peers[c];
    assert PeerInv(p, t.queue, c);
    assert |multiset(p.asked)| == |multiset(p.sent) + multiset(Mine(t.queue, c, p.sequence))|;
  }

  /** Every message given to msgSend is for the lease its connection is on. */
  predicate Prompt(s: State, events: seq<Event>)
    decreases events
  {
    events == [] ||
    (&& Enabled(s, events[0])
     && (events[0].MsgSend? && events[0].m.conn in s.peers ==> events[0].m.sequence == s.peers[events[0].m.conn].sequence)
     && Prompt(Next(s, events[0]), events[1..]))
  }

  predicate NoneStale(s: State) {
    forall c :: c in s.peers ==> s.peers[c].stale == 0
  }

  lemma PromptStep(s: State, e: Event)
    requires Enabled(s, e) && NoneStale(s)
    requires e.MsgSend? && e.m.conn in s.peers ==> e.m.sequence == s.peers[e.m.conn].sequence
    ensures NoneStale(Next(s, e))
  {
    hide Mine, IsPacket;
  }

  lemma {:induction false} PromptRun(s: State, events: seq<Event>, t: State)
    requires Runs(s, events, t) && Prompt(s, events) && NoneStale(s)
    ensures NoneStale(t)
    decreases events
  {
    hide Next, Enabled, NoneStale;
    if events != [] {
      PromptStep(s, events[0]);
      PromptRun(Next(s, events[0]), events[1..], t);
    }
  }

  /** Then the send count is the number of live messages in the queue. */
  lemma PromptBacklog(s: State, events: seq<Event>, t: State, c: Id)
    requires Initial(s) && Runs(s, events, t) && Prompt(s, events) && c in t.peers && t.peers[c].open
    ensures t.peers[c].sendCount == |Mine(t.queue, c, t.peers[c].sequence)|
  {
    hide Next, Enabled, Mine;
    PromptRun(s, events, t);
    BacklogExact(s, events, t, c);
  }

  /** What msgSend does with a message for a leased connection: it closes the
      connection if and only if the queue has room and more than 400 messages
      are counted against the connection; it queues the message if and only if
      neither limit is passed; any other it discards and counts. */
  lemma SendLimits(s: State, events: seq<Event>, t: State, m: Msg, again: bool)
    requires Initial(s) && Runs(s, events, t) && Enabled(t, MsgSend(m, again)) && t.peers[m.conn].open
    ensures m.conn in Next(t, MsgSend(m, again)).peers
    ensures var p, u := t.peers[m.conn], Next(t, MsgSend(m, again));
      var backlog := |Mine(t.queue, m.conn, p.sequence)| + p.stale;
      && (!u.peers[m.conn].open <==> |t.queue| <= 50000 && backlog > 400)
      && u.queue == (if |t.queue| <= 50000 && backlog <= 400 then t.queue + [m] else t.queue)
      && u.discarded == (if |t.queue| <= 50000 && backlog <= 400 then t.discarded else t.discarded + 1)
  {
    hide Mine, IsPacket, Runs, Initial;
    BacklogExact(s, events, t, m.conn);
    Backlog(s, events, t);
  }

  /** The packets that the events give to msgSend for lease n of c, in order. */
  function Given(events: seq<Event>, c: Id, n: nat): seq<seq<byte>> {
    if events == [] then []
    else
      Given(events[..|events| - 1], c, n) +
      var e := events[|events| - 1];
      if e.MsgSend? && e.m.conn == c && e.m.sequence == n then [e.m.packet] else []
  }

  /** What msgSend queued for a lease is what it was given for it, and nothing
      was given for a later one. */
  ghost predicate GivenAt(s: State, done: seq<Event>, c: Id) {
    c in s.peers ==>
      && (s.peers[c].open ==> s.peers[c].asked == Given(done, c, s.peers[c].sequence))
      && forall n :: n > s.peers[c].sequence ==> Given(done, c, n) == []
  }

  lemma GivenSnoc(done: seq<Event>, e: Event, c: Id, n: nat)
    ensures Given(done + [e], c, n) ==
      Given(done, c, n) + if e.MsgSend? && e.m.conn == c && e.m.sequence == n then [e.m.packet] else []
  {
    assert (done + [e])[..|done|] == done;
  }

  lemma GivenStep(s: State, done: seq<Event>, e: Event, c: Id)
    requires Enabled(s, e) && GivenAt(s, done, c) && Next(s, e).discarded == s.discarded
    ensures GivenAt(Next(s, e), done + [e], c)
  {
    hide Given, IsPacket, Mine, Started, Resumed, Without;
    var t := Next(s, e);
    if c in s.peers && c in t.peers {
      ScanAsked(s, e, c);
      forall n: nat
        ensures Given(done + [e], c, n) ==
          Given(done, c, n) + if e.MsgSend? && e.m.conn == c && e.m.sequence == n then [e.m.packet] else []
      {
        GivenSnoc(done, e, c, n);
      }
    }
  }

  /** Scanning and writing change nothing about what a lease was asked to send. */
  lemma ScanAsked(s: State, e: Event, c: Id)
    requires Enabled(s, e) && c in s.peers
    ensures e.ScanNext? || e.WriteSend? || e.WriteFinish? ==>
      && c in Next(s, e).peers && Next(s, e).peers[c].asked == s.peers[c].asked
      && Next(s, e).peers[c].sequence == s.peers[c].sequence && Next(s, e).peers[c].open == s.peers[c].open
  {
    hide Mine, IsPacket;
  }

  lemma DiscardStep(s: State, e: Event)
    requires Enabled(s, e)
    ensures Next(s, e).discarded >= s.discarded && Next(s, e).peers.Keys == s.peers.Keys
  {
    hide Mine, IsPacket;
  }

  lemma {:induction false} DiscardRun(s: State, events: seq<Event>, t: State)
    requires Runs(s, events, t)
    ensures t.discarded >= s.discarded
    decreases events
  {
    hide Next, Enabled;
    if events != [] {
      DiscardStep(s, events[0]);
      DiscardRun(Next(s, events[0]), events[1..], t);
    }
  }

  lemma {:induction false} GivenRun(s: State, done: seq<Event>, events: seq<Event>, t: State, c: Id)
    requires Runs(s, events, t) && GivenAt(s, done, c) && t.discarded == s.discarded
    ensures GivenAt(t, done + events, c)
    decreases events
  {
    hide Next, Enabled, GivenAt;
    if events == [] {
      assert done + events == done;
    } else {
      DiscardStep(s, events[0]);
      DiscardRun(Next(s, events[0]), events[1..], t);
      GivenStep(s, done, events[0], c);
      GivenRun(Next(s, events[0]), done + [events[0]], events[1..], t, c);
      assert done + [events[0]] + events[1..] == done + events;
    }
  }

  /** Unless the server discarded something, msgSend queued for a lease exactly
      what it was given for it, in order. */
  lemma AllGiven(s: State, events: seq<Event>, t: State, c: Id)
    requires Initial(s) && Runs(s, events, t) && t.discarded == s.discarded
    requires c in t.peers && t.peers[c].open
    ensures t.peers[c].asked == Given(events, c, t.peers[c].sequence)
  {
    hide Runs;
    assert [] + events == events;
    GivenRun(s, [], events, t, c);
  }

  /** What the scan does with a live message of an idle connection (ScanMoves
      says that it does this): the socket gets as much of the packet as it
      takes, and the connection is busy unless that is all. */
  lemma StartedTakes(p: Peer, packet: seq<byte>, room: nat)
    requires p.throwCount == 0
    ensures var q := Started(p, packet, room);
      && q.sent == p.sent + [packet] && q.sendCount == p.sendCount - 1
      && |q.wire| == |p.wire| + (if room < |packet| then room else |packet|)
      && (q.throwCount == 0 <==> room >= |packet|)
  {
  }

  /** What the write handler does: the socket gets as much of the rest as it
      takes, and the handler posts once it took all. */
  lemma ResumedTakes(p: Peer, room: nat)
    requires Handoff(p) && p.pollOut
    ensures var q := Resumed(p, room);
      && |q.wire| == |p.wire| + (if room < |Rest(p)| then room else |Rest(p)|)
      && (q.posted <==> room >= |Rest(p)|) && (q.pollOut <==> room < |Rest(p)|)
  {
  }

  /** A close ends the lease with nothing in hand that the sender would wait
      for; recycling drops what was in hand. */
  lemma CloseEnds(p: Peer, again: bool)
    requires Handoff(p) && p.open
    ensures !Closed(p, again).open && Closed(p, again).throwCount == 0 && Closed(p, again).sequence == p.sequence + 1
    ensures var q := Recycled(Closed(p, again));
      q.psend == None && q.throwCount == 0 && q.sequence == p.sequence + 2
  {
  }

  /** For a leased connection outside the write handler's last instructions:
      the flag is 0 or 1, and it is 1 exactly when a packet is in hand and
      EPOLLOUT is registered. */
  lemma HandOffKept(s: State, events: seq<Event>, t: State, c: Id)
    requires Initial(s) && Runs(s, events, t)
    requires c in t.peers && t.peers[c].open && !t.peers[c].posted
    ensures t.peers[c].throwCount == 0 || t.peers[c].throwCount == 1
    ensures t.peers[c].throwCount == 1 <==> t.peers[c].psend.Some?
    ensures t.peers[c].throwCount == 1 <==> t.peers[c].pollOut
    ensures t.peers[c].psend.Some? ==> t.peers[c].psend.value != []
  {
    hide Stream, Accounted, Mine, IsPacket, Next, Enabled;
    InitialInv(s);
    EveryRun(s, events, t);
    assert PeerInv(t.peers[c], t.queue, c);
  }

  // ---------------------------------------------------------------------
  // First in, first out.

  /** Connection c's packets are dequeued in the order msgSend queued them. */
  predicate Ordered(p: Peer, q: seq<Msg>, c: Id) {
    p.open ==> p.asked == p.sent + Mine(q, c, p.sequence)
  }

  /** If q holds a live message of c then c is busy. */
  predicate BusyIn(p: Peer, q: seq<Msg>, c: Id) {
    Mine(q, c, p.sequence) != [] ==> p.throwCount > 0
  }

  /** How much of the queue the sender has dealt with. */
  function Passed(s: State): (k: nat)
    ensures k <= |s.queue|
  {
    match s.sender
    case Waiting => |s.queue|
    case Woken => 0
    case Scanning(k) => Min(k, |s.queue|)
  }

  /** The live messages of c that the sender has dealt with and left, and those
      it has still to look at. */
  function Behind(s: State, c: Id): seq<seq<byte>>
    requires c in s.peers
  {
    Mine(s.queue[..Passed(s)], c, s.peers[c].sequence)
  }

  function Ahead(s: State, c: Id): seq<seq<byte>>
    requires c in s.peers
  {
    Mine(s.queue[Passed(s)..], c, s.peers[c].sequence)
  }

  /** A write handler completes while the running scan has skipped a live
      message of its connection. */
  predicate Overtakes(s: State, e: Event) {
    e.WriteFinish? && e.conn in s.peers && s.sender.Scanning? && Behind(s, e.conn) != []
  }

  predicate OrderedAt(s: State, c: Id) {
    c in s.peers ==> Ordered(s.peers[c], s.queue, c)
  }

  /** If the sender has passed a live message of c then c is busy. */
  predicate BusyAt(s: State, c: Id) {
    c in s.peers ==> BusyIn(s.peers[c], s.queue[..Passed(s)], c)
  }

  ghost predicate AllOrdered(s: State) {
    forall c :: c in s.peers ==> OrderedAt(s, c)
  }

  ghost predicate Fifo(s: State) {
    forall c :: c in s.peers ==> OrderedAt(s, c) && (s.sender.Scanning? ==> BusyAt(s, c))
  }

  lemma MinePrefix(q: seq<Msg>, k: nat, c: Id, n: nat)
    requires k <= |q|
    ensures Mine(q, c, n) == Mine(q[..k], c, n) + Mine(q[k..], c, n)
  {
    assert q == q[..k] + q[k..];
    MineAppend(q[..k], q[k..], c, n);
  }

  /** A step that starts a new lease or ends one leaves nothing live. */
  lemma NothingLive(p: Peer, r: Peer, q: seq<Msg>, k: nat, c: Id)
    requires PeerInv(p, q, c) && k <= |q|
    requires r.sequence > p.sequence || (r.sequence == p.sequence && !p.open)
    ensures Mine(q[..k], c, r.sequence) == [] && Mine(q, c, r.sequence) == []
  {
    hide Handoff, Stream, Accounted;
    if r.sequence > p.sequence {
      MineNone(q, c, r.sequence);
    }
    MinePrefix(q, k, c, r.sequence);
  }

  /** Being busy where the sender has passed is kept by every step but the
      decrement in the write handler and new messages for a waiting sender. */
  lemma BusyStep(s: State, e: Event, c: Id)
    requires Inv(s) && Enabled(s, e) && c in s.peers && BusyAt(s, c)
    requires e.MsgSend? ==> Next(s, e).queue == s.queue
    requires e == WriteFinish(c) ==> Mine(s.queue[..Passed(s)], c, s.peers[c].sequence) == []
    ensures BusyAt(Next(s, e), c)
  {
    hide PeerInv, IsPacket, Mine;
    var p, t := s.peers[c], Next(s, e);
    var k := Passed(s);
    match e
    case MsgSend(m, again) =>
      if m.conn == c && s.queueCount <= QUEUE_LIMIT && p.sendCount > BACKLOG_LIMIT {
        NothingLive(p, t.peers[c], s.queue, k, c);
      }
    case SemWait =>
      MineEmpty(c, p.sequence);
    case SemInterrupted =>
      MineEmpty(c, p.sequence);
    case TestCount =>
      MineEmpty(c, p.sequence);
      assert s.queueCount <= 0 ==> s.queue == [];
    case ScanNext(room) =>
      if k < |s.queue| {
        BusyScan(s, room, c);
      }
    case WriteSend(d, room) =>
    case WriteFinish(d) =>
    case Close(d, again) =>
      if d == c {
        NothingLive(p, t.peers[c], s.queue, k, c);
      }
    case Recycle(d) =>
      if d == c {
        NothingLive(p, t.peers[c], s.queue, k, c);
      }
    case Lease(d) =>
      if d == c {
        NothingLive(p, t.peers[c], s.queue, k, c);
      }
  }

  lemma MineEmpty(c: Id, n: nat)
    ensures Mine([], c, n) == []
  {
  }

  lemma BusyScan(s: State, room: nat, c: Id)
    requires Inv(s) && s.sender.Scanning? && s.sender.cursor < |s.queue| && c in s.peers
    requires BusyAt(s, c)
    ensures BusyAt(ScanStep(s, room), c)
  {
    hide PeerInv, IsPacket, Mine;
    var i := s.sender.cursor;
    var m, p := s.queue[i], s.peers[c];
    var t := ScanStep(s, room);
    if t.sender.cursor == i {
      assert t.queue[..i] == s.queue[..i];
    } else {
      assert s.queue[..i + 1] == s.queue[..i] + [m];
      MineAppend(s.queue[..i], [m], c, p.sequence);
      if m.conn != c || m.sequence != p.sequence {
        MineNone([m], c, p.sequence);
      }
    }
  }

  // The exact condition for keeping the order.

  /** Some packet of a is not x. */
  predicate Differs(a: seq<seq<byte>>, x: seq<byte>) {
    exists i :: 0 <= i < |a| && a[i] != x
  }

  /** The scan sends a message of an idle connection although it left an earlier
      one, with another packet, of the same connection behind. */
  predicate Jumps(s: State, e: Event) {
    && e.ScanNext? && s.sender.Scanning? && s.sender.cursor < |s.queue|
    && JumpsAt(s, s.queue[s.sender.cursor])
  }

  predicate JumpsAt(s: State, m: Msg) {
    && m.conn in s.peers && m.sequence == s.peers[m.conn].sequence
    && s.peers[m.conn].throwCount <= 0 && Differs(Behind(s, m.conn), m.packet)
  }

  lemma {:induction false} Rotates(a: seq<seq<byte>>, x: seq<byte>)
    ensures a + [x] == [x] + a <==> !Differs(a, x)
  {
    if a + [x] == [x] + a {
      if a != [] {
        assert (a + [x])[0] == a[0] && ([x] + a)[0] == x;
        assert (a + [x])[1..] == a[1..] + [x] && ([x] + a)[1..] == a;
        assert a == [x] + a[1..];
        Rotates(a[1..], x);
        forall i | 0 <= i < |a|
          ensures a[i] == x
        {
          assert i > 0 ==> a[i] == a[1..][i - 1];
        }
      }
    }
  }

  lemma Cancels(sent: seq<seq<byte>>, a: seq<seq<byte>>, x: seq<byte>, b: seq<seq<byte>>)
    ensures sent + (a + [x] + b) == (sent + [x]) + (a + b) <==> !Differs(a, x)
  {
    Rotates(a, x);
    var l, r := sent + (a + [x] + b), (sent + [x]) + (a + b);
    assert l == sent + (a + [x]) + b && r == sent + ([x] + a) + b;
    var i, j := |sent|, |sent| + |a| + 1;
    assert l[i..j] == a + [x] && r[i..j] == [x] + a;
  }

  lemma OrderedScan(s: State, room: nat, c: Id)
    requires Inv(s) && s.sender.Scanning? && s.sender.cursor < |s.queue| && c in s.peers && OrderedAt(s, c)
    ensures OrderedAt(ScanStep(s, room), c) <==> !(s.queue[s.sender.cursor].conn == c && JumpsAt(s, s.queue[s.sender.cursor]))
  {
    hide PeerInv, IsPacket, Mine, Without, Differs;
    var i, p := s.sender.cursor, s.peers[c];
    var m := s.queue[i];
    MineSplit(s.queue, i, c, p.sequence);
    if m.conn == c && m.sequence == p.sequence {
      MineOne(m);
      MineSome(s.queue, c, p.sequence, i);
      LiveIsOpen(s, c);
      if p.throwCount <= 0 {
        Cancels(p.sent, Behind(s, c), m.packet, Mine(s.queue[i + 1..], c, p.sequence));
      }
    } else {
      MineNone([m], c, p.sequence);
    }
  }

  lemma LiveIsOpen(s: State, c: Id)
    requires Inv(s) && c in s.peers && Mine(s.queue, c, s.peers[c].sequence) != []
    ensures s.peers[c].open && s.peers[c].throwCount <= 1
  {
    hide Mine, Bounded, Stream, Accounted;
    assert PeerInv(s.peers[c], s.queue, c);
  }

  lemma OrderedStep(s: State, e: Event, c: Id)
    requires Inv(s) && Enabled(s, e) && c in s.peers && OrderedAt(s, c)
    ensures OrderedAt(Next(s, e), c) <==> !(Jumps(s, e) && s.queue[s.sender.cursor].conn == c)
  {
    hide PeerInv, IsPacket, Mine, JumpsAt;
    var p, t := s.peers[c], Next(s, e);
    match e
    case MsgSend(m, again) =>
      MineAppend(s.queue, [m], c, p.sequence);
      if m.conn == c && m.sequence == p.sequence {
        MineOne(m);
      } else {
        MineNone([m], c, p.sequence);
      }
    case ScanNext(room) =>
      if s.sender.cursor < |s.queue| {
        OrderedScan(s, room, c);
      }
    case Lease(d) =>
      if d == c {
        NothingLive(p, t.peers[c], s.queue, 0, c);
      }
    case _ =>
  }

  /** A step keeps the order of every connection if and only if it is not a
      scan that jumps. */
  lemma OrderStep(s: State, e: Event)
    requires Inv(s) && Enabled(s, e) && AllOrdered(s)
    ensures AllOrdered(Next(s, e)) <==> !Jumps(s, e)
  {
    PeersStay(s, e);
    hide Inv, Enabled, Next, OrderedAt, Mine;
    forall c | c in s.peers
      ensures OrderedAt(Next(s, e), c) <==> !(Jumps(s, e) && s.queue[s.sender.cursor].conn == c)
    {
      OrderedStep(s, e, c);
    }
    if Jumps(s, e) {
      assert s.queue[s.sender.cursor].conn in s.peers;
    }
  }

  lemma PeersStay(s: State, e: Event)
    requires Inv(s) && Enabled(s, e)
    ensures Next(s, e).peers.Keys == s.peers.Keys
  {
    hide PeerInv, Mine, IsPacket;
  }

  /** No step of the run jumps. */
  predicate InOrder(s: State, events: seq<Event>)
    decreases events
  {
    events == [] || (Enabled(s, events[0]) && !Jumps(s, events[0]) && InOrder(Next(s, events[0]), events[1..]))
  }

  lemma {:induction false} OrderRun(s: State, events: seq<Event>, t: State)
    requires Inv(s) && AllOrdered(s) && Runs(s, events, t) && InOrder(s, events)
    ensures Inv(t) && AllOrdered(t)
    decreases events
  {
    hide Inv, AllOrdered, Jumps, Enabled, Next;
    if events != [] {
      InvStep(s, events[0]);
      OrderStep(s, events[0]);
      OrderRun(Next(s, events[0]), events[1..], t);
    }
  }

  // A condition on the write handler that rules jumps out.

  lemma BusyNoJump(s: State, e: Event)
    requires Inv(s) && Fifo(s) && Enabled(s, e)
    ensures !Jumps(s, e)
  {
    hide PeerInv, Mine, OrderedAt;
  }

  lemma FifoAt(s: State, e: Event, c: Id)
    requires Inv(s) && Enabled(s, e) && c in s.peers && OrderedAt(s, c) && !Jumps(s, e) && !Overtakes(s, e)
    requires s.sender.Scanning? ==> BusyAt(s, c)
    ensures OrderedAt(Next(s, e), c) && (Next(s, e).sender.Scanning? ==> BusyAt(Next(s, e), c))
  {
    hide Inv, OrderedAt, BusyAt, Mine, Jumps;
    OrderedStep(s, e, c);
    if Next(s, e).sender.Scanning? {
      if s.sender == Woken {
        NothingPassed(s, c);
      }
      BusyStep(s, e, c);
    }
  }

  /** As long as no handler completes behind a scan that skipped its
      connection, no step jumps. */
  lemma FifoStep(s: State, e: Event)
    requires Inv(s) && Fifo(s) && Enabled(s, e) && !Overtakes(s, e)
    ensures Fifo(Next(s, e)) && !Jumps(s, e)
  {
    hide Inv, OrderedAt, BusyAt, Mine, Jumps, Overtakes, Enabled, Next;
    BusyNoJump(s, e);
    PeersStay(s, e);
    var t := Next(s, e);
    forall c | c in t.peers
      ensures OrderedAt(t, c) && (t.sender.Scanning? ==> BusyAt(t, c))
    {
      assert c in s.peers.Keys;
      FifoAt(s, e, c);
    }
  }

  lemma NothingPassed(s: State, c: Id)
    requires s.sender == Woken && c in s.peers
    ensures BusyAt(s, c)
  {
  }

  predicate Orderly(s: State, events: seq<Event>)
    decreases events
  {
    events == [] || (Enabled(s, events[0]) && !Overtakes(s, events[0]) && Orderly(Next(s, events[0]), events[1..]))
  }

  /** In every run without overtaking, packets are dequeued first in, first out. */
  lemma {:induction false} FifoRun(s: State, events: seq<Event>, t: State)
    requires Inv(s) && Fifo(s) && Runs(s, events, t) && Orderly(s, events)
    ensures Inv(t) && Fifo(t) && InOrder(s, events)
    decreases events
  {
    hide Inv, Fifo, Overtakes, Jumps, Enabled, Next;
    if events != [] {
      InvStep(s, events[0]);
      FifoStep(s, events[0]);
      FifoRun(Next(s, events[0]), events[1..], t);
    }
  }

  lemma InitialFifo(s: State)
    requires Initial(s)
    ensures Fifo(s)
  {
  }

  lemma {:induction false} ConcatBoth(a: seq<seq<byte>>, b: seq<seq<byte>>)
    ensures Concat(a + b) == Concat(a) + Concat(b)
  {
    if a == [] {
      assert a + b == b;
    } else {
      assert (a + b)[1..] == a[1..] + b;
      ConcatBoth(a[1..], b);
    }
  }

  /** The send stream of a lease: what the socket accepted, the rest of the
      packet in hand and the queued live messages are together everything
      msgSend queued, in order. */
  lemma SendStream(s: State, events: seq<Event>, t: State, c: Id)
    requires Initial(s) && Runs(s, events, t) && InOrder(s, events)
    requires c in t.peers && t.peers[c].open
    ensures var p := t.peers[c];
      p.wire + Rest(p) + Concat(Mine(t.queue, c, p.sequence)) == Concat(p.asked)
  {
    InitialInv(s);
    InitialFifo(s);
    OrderRun(s, events, t);
    var p := t.peers[c];
    assert OrderedAt(t, c);
    ConcatBoth(p.sent, Mine(t.queue, c, p.sequence));
  }

  /** Without that condition the socket still receives whole packets, each
      queued packet exactly once. */
  lemma SendStreamUnordered(s: State, events: seq<Event>, t: State, c: Id)
    requires Initial(s) && Runs(s, events, t)
    requires c in t.peers && t.peers[c].open
    ensures var p := t.peers[c];
      && p.wire + Rest(p) == Concat(p.sent)
      && multiset(p.sent) + multiset(Mine(t.queue, c, p.sequence)) == multiset(p.asked)
  {
    InitialInv(s);
    EveryRun(s, events, t);
  }

  /** A client that parses what it has been sent reads the dequeued packets one
      by one, in whatever chunks they arrive, once the last one is out. */
  lemma ClientReads(s: State, events: seq<Event>, t: State, c: Id, chunks: seq<seq<byte>>)
    requires Initial(s) && Runs(s, events, t)
    requires c in t.peers && t.peers[c].open && Rest(t.peers[c]) == []
    requires Concat(chunks) == t.peers[c].wire
    ensures Deliver([], chunks) == Parsed(t.peers[c].sent, [])
  {
    InitialInv(s);
    EveryRun(s, events, t);
    var p := t.peers[c];
    assert PeerInv(p, t.queue, c);
    StreamSent(p);
    PacketsDelivered(p.sent, chunks);
  }

  lemma StreamSent(p: Peer)
    requires Stream(p) && Rest(p) == []
    ensures p.wire == Concat(p.sent) && AllPackets(p.sent)
  {
    assert p.wire + [] == p.wire;
  }

  // What an overtaking completion leads to.

  predicate ScanOnly(events: seq<Event>) {
    forall i :: 0 <= i < |events| ==> events[i].ScanNext?
  }

  /** Some packet of b differs from some packet of a. */
  predicate Conflict(a: seq<seq<byte>>, b: seq<seq<byte>>) {
    exists j :: 0 <= j < |b| && Differs(a, b[j])
  }

  lemma SplitAt(q: seq<Msg>, i: nat)
    requires i < |q|
    ensures q[i..] == [q[i]] + q[i + 1..] && q[..i + 1] == q[..i] + [q[i]]
    ensures Without(q, i)[..i] == q[..i] && Without(q, i)[i..] == q[i + 1..]
  {
  }

  /** What one step of the scan does to connection c. */
  lemma ScanMoves(s: State, room: nat, c: Id)
    requires Inv(s) && s.sender.Scanning? && s.sender.cursor < |s.queue| && c in s.peers
    ensures var t, m, p := ScanStep(s, room), s.queue[s.sender.cursor], s.peers[c];
      && c in t.peers && t.sender.Scanning? && t.sender.cursor <= |t.queue|
      && |t.queue| - t.sender.cursor == |s.queue| - s.sender.cursor - 1
      && if m.conn == c && m.sequence == p.sequence then
           && Ahead(s, c) == [m.packet] + Ahead(t, c)
           && if p.throwCount <= 0 then Behind(t, c) == Behind(s, c) && t.peers[c] == Started(p, m.packet, room)
              else Behind(t, c) == Behind(s, c) + [m.packet] && t.peers[c] == p
         else
           Ahead(s, c) == Ahead(t, c) && Behind(t, c) == Behind(s, c) && t.peers[c] == p
  {
    hide PeerInv, IsPacket, Mine;
    var i, p, t := s.sender.cursor, s.peers[c], ScanStep(s, room);
    var m := s.queue[i];
    SplitAt(s.queue, i);
    MineAppend([m], s.queue[i + 1..], c, p.sequence);
    MineAppend(s.queue[..i], [m], c, p.sequence);
    if m.conn == c && m.sequence == p.sequence {
      MineOne(m);
    } else {
      MineNone([m], c, p.sequence);
    }
  }

  /** A message of an earlier lease is erased and nothing is sent for it. */
  lemma ScanErases(s: State, room: nat)
    requires Inv(s) && s.sender.Scanning? && s.sender.cursor < |s.queue|
    requires s.queue[s.sender.cursor].sequence != s.peers[s.queue[s.sender.cursor].conn].sequence
    ensures var t := ScanStep(s, room);
      t.peers == s.peers && t.sender == s.sender && |t.queue| == |s.queue| - 1 && t.queueCount == |t.queue|
  {
    hide PeerInv, IsPacket;
  }

  lemma AheadAtEnd(s: State, c: Id)
    requires s.sender.Scanning? && s.sender.cursor >= |s.queue| && c in s.peers
    ensures Ahead(s, c) == []
  {
  }

  lemma NextScan(s: State, room: nat)
    requires s.sender.Scanning?
    ensures Enabled(s, ScanNext(room))
    ensures s.sender.cursor < |s.queue| ==> Next(s, ScanNext(room)) == ScanStep(s, room)
    ensures s.sender.cursor >= |s.queue| ==> Next(s, ScanNext(room)) == s.(sender := Waiting)
  {
  }

  lemma RunsCons(s: State, e: Event, events: seq<Event>, t: State)
    requires Enabled(s, e) && Runs(Next(s, e), events, t)
    ensures Runs(s, [e] + events, t)
  {
    assert ([e] + events)[1..] == events;
  }

  /** The socket takes the whole packet. */
  lemma WhollySent(p: Peer, packet: seq<byte>)
    ensures Started(p, packet, |packet|).throwCount == 0
  {
  }

  /** The rest of the scan reorders, if the socket takes all it is given. */
  lemma {:induction false} ScanReorders(s: State, c: Id) returns (events: seq<Event>, t: State)
    requires Inv(s) && s.sender.Scanning? && c in s.peers && s.peers[c].throwCount <= 0 && OrderedAt(s, c)
    requires Conflict(Behind(s, c), Ahead(s, c))
    ensures ScanOnly(events) && Runs(s, events, t) && !OrderedAt(t, c)
    decreases |s.queue| - if s.sender.Scanning? then s.sender.cursor else 0
  {
    hide Inv, OrderedAt, Ahead, Behind, Differs, Next, Enabled, ScanStep, Runs;
    if s.sender.cursor >= |s.queue| {
      AheadAtEnd(s, c);
      assert false;
    }
    var m := s.queue[s.sender.cursor];
    var e := ScanNext(|m.packet|);
    var u := ScanStep(s, |m.packet|);
    NextScan(s, |m.packet|);
    InvStep(s, e);
    ScanMoves(s, |m.packet|, c);
    OrderedScan(s, |m.packet|, c);
    WhollySent(s.peers[c], m.packet);
    if !OrderedAt(u, c) {
      RunsNothing(u);
      RunsCons(s, e, [], u);
      events, t := [e] + [], u;
    } else {
      if m.conn == c && m.sequence == s.peers[c].sequence {
        assert Ahead(s, c)[0] == m.packet;
        assert forall j :: 0 < j < |Ahead(s, c)| ==> Ahead(s, c)[j] == Ahead(u, c)[j - 1];
      }
      events, t := ScanReorders(u, c);
      RunsCons(s, e, events, t);
      events := [e] + events;
    }
  }

  lemma RunsNothing(s: State)
    ensures Runs(s, [], s)
  {
  }

  lemma NoMoreScan(s: State, events: seq<Event>, t: State)
    requires s.sender == Waiting && ScanOnly(events) && Runs(s, events, t)
    ensures t == s
  {
  }

  lemma RunsTail(s: State, events: seq<Event>, t: State)
    requires Runs(s, events, t) && events != []
    ensures Enabled(s, events[0]) && Runs(Next(s, events[0]), events[1..], t)
  {
  }

  lemma NoConflictLeft(a: seq<seq<byte>>, x: seq<byte>, b: seq<seq<byte>>)
    requires a != [] && !Conflict(a, [x] + b)
    ensures !Differs(a, x) && !Conflict(a, b) && !Conflict(a + [x], b)
  {
    var all := [x] + b;
    assert all[0] == x;
    assert forall j :: 0 <= j < |b| ==> all[j + 1] == b[j];
    assert !Differs(a, all[0]) && a[0] == x;
    forall j | 0 <= j < |b|
      ensures !Differs(a, b[j]) && !Differs(a + [x], b[j])
    {
      assert !Differs(a, all[j + 1]) && a[0] == b[j];
    }
  }

  /** If all those packets are equal, the rest of the scan keeps the order,
      whatever the socket takes. */
  lemma {:induction false} ScanKeepsOrder(s: State, events: seq<Event>, t: State, c: Id)
    requires Inv(s) && s.sender.Scanning? && c in s.peers && OrderedAt(s, c) && ScanOnly(events) && Runs(s, events, t)
    requires Behind(s, c) != [] && !Conflict(Behind(s, c), Ahead(s, c))
    ensures OrderedAt(t, c)
    decreases events
  {
    if events == [] {
      hide Inv, OrderedAt, Ahead, Behind, Differs, Conflict;
    } else {
      hide Inv, OrderedAt, Ahead, Behind, Differs, Conflict, Next, Enabled, ScanStep, Runs;
      var room := events[0].room;
      RunsTail(s, events, t);
      NextScan(s, room);
      InvStep(s, events[0]);
      if s.sender.cursor >= |s.queue| {
        NoMoreScan(s.(sender := Waiting), events[1..], t);
        SameOrder(s, c);
      } else {
        ScanMoves(s, room, c);
        OrderedScan(s, room, c);
        var m := s.queue[s.sender.cursor];
        if m.conn == c && m.sequence == s.peers[c].sequence {
          NoConflictLeft(Behind(s, c), m.packet, Ahead(ScanStep(s, room), c));
        }
        ScanKeepsOrder(ScanStep(s, room), events[1..], t, c);
      }
    }
  }

  lemma SameOrder(s: State, c: Id)
    ensures OrderedAt(s.(sender := Waiting), c) <==> OrderedAt(s, c)
  {
  }

  /** After a handler's completion that overtakes, the rest of the scan can
      reorder the connection's packets if and only if one it has still to look
      at differs from one it left behind. */
  lemma OvertakingExactly(s: State, c: Id)
    requires Inv(s) && Enabled(s, WriteFinish(c)) && Overtakes(s, WriteFinish(c)) && OrderedAt(s, c)
    ensures (exists events, t :: ScanOnly(events) && Runs(Next(s, WriteFinish(c)), events, t) && !OrderedAt(t, c)) <==>
      Conflict(Behind(s, c), Ahead(s, c))
  {
    InvStep(s, WriteFinish(c));
    FinishMoves(s, c);
    hide Inv, OrderedAt, Ahead, Behind, Conflict, Next, Enabled, Runs;
    var u := Next(s, WriteFinish(c));
    if Conflict(Behind(s, c), Ahead(s, c)) {
      var events, t := ScanReorders(u, c);
    } else {
      forall events, t | ScanOnly(events) && Runs(u, events, t)
        ensures OrderedAt(t, c)
      {
        ScanKeepsOrder(u, events, t, c);
      }
    }
  }

  lemma FinishMoves(s: State, c: Id)
    requires Inv(s) && Enabled(s, WriteFinish(c)) && Behind(s, c) != []
    ensures var t := Next(s, WriteFinish(c));
      && t.sender == s.sender && t.semaphore == s.semaphore && c in t.peers && t.peers[c].throwCount <= 0
      && Behind(t, c) == Behind(s, c) && Ahead(t, c) == Ahead(s, c) && (OrderedAt(t, c) <==> OrderedAt(s, c))
  {
    hide PeerInv, Mine;
    MinePrefix(s.queue, Passed(s), c, s.peers[c].sequence);
    LiveIsOpen(s, c);
  }

  // ---------------------------------------------------------------------
  // Waking the sender.

  /** With the semaphore at zero, the sender has passed no live message of an
      idle connection; so a blocked sender leaves none in the queue. */
  ghost predicate WakeUp(s: State) {
    s.semaphore == 0 ==> forall c :: c in s.peers ==> BusyAt(s, c)
  }

  lemma BlockedLeavesNothing(s: State, i: nat)
    requires Inv(s) && WakeUp(s) && s.sender == Waiting && s.semaphore == 0
    requires i < |s.queue| && s.queue[i].sequence == s.peers[s.queue[i].conn].sequence
    ensures s.peers[s.queue[i].conn].throwCount > 0
  {
    hide PeerInv, Mine, IsPacket;
    var c := s.queue[i].conn;
    assert BusyAt(s, c) && s.queue[..Passed(s)] == s.queue;
    MineSome(s.queue, c, s.peers[c].sequence, i);
  }

  lemma WakeStep(s: State, e: Event)
    requires Inv(s) && WakeUp(s) && Enabled(s, e) && !e.WriteFinish?
    ensures WakeUp(Next(s, e))
  {
    hide BusyAt, Inv;
    var t := Next(s, e);
    if t.semaphore == 0 {
      forall c | c in t.peers
        ensures BusyAt(t, c)
      {
        if e == SemWait || e == SemInterrupted {
          NothingPassed(t, c);
        } else {
          assert BusyAt(s, c);
          BusyStep(s, e, c);
        }
      }
    }
  }

  /** The decrement at the end of the write handler loses a wake-up exactly when
      the sender has consumed the handler's post and passed over a live message
      of the connection in the meantime. */
  lemma WakeFinish(s: State, c: Id)
    requires Inv(s) && WakeUp(s) && Enabled(s, WriteFinish(c))
    ensures WakeUp(Next(s, WriteFinish(c))) <==>
      s.semaphore > 0 || Mine(s.queue[..Passed(s)], c, s.peers[c].sequence) == []
  {
    hide PeerInv, Mine;
    var p, t := s.peers[c], Next(s, WriteFinish(c));
    var mine := Mine(s.queue[..Passed(s)], c, p.sequence);
    if s.semaphore == 0 {
      forall d | d in s.peers && d != c
        ensures BusyAt(t, d)
      {
        assert BusyAt(s, d);
      }
      assert BusyAt(s, c);
      if mine == [] {
        assert BusyAt(t, c);
      } else {
        BusyOnce(p, s.queue, Passed(s), c);
        assert !BusyAt(t, c);
      }
    }
  }

  lemma BusyOnce(p: Peer, q: seq<Msg>, k: nat, c: Id)
    requires PeerInv(p, q, c) && k <= |q| && Mine(q[..k], c, p.sequence) != []
    ensures p.open && p.throwCount <= 1
  {
    hide Bounded, Accounted, Stream, Mine;
    MinePrefix(q, k, c, p.sequence);
  }

  /** The write handler taken as one step. */
  function HandlerStep(s: State, c: Id, room: nat): State
    requires Enabled(s, WriteSend(c, room))
  {
    var t := Next(s, WriteSend(c, room));
    if Enabled(t, WriteFinish(c)) then Next(t, WriteFinish(c)) else t
  }

  /** Then no wake-up is lost. */
  lemma HandlerInOneStep(s: State, c: Id, room: nat)
    requires Inv(s) && WakeUp(s) && Enabled(s, WriteSend(c, room))
    ensures Inv(HandlerStep(s, c, room)) && WakeUp(HandlerStep(s, c, room))
  {
    hide WakeUp, Mine, Bounded, Accounted, Stream;
    var t := Next(s, WriteSend(c, room));
    InvStep(s, WriteSend(c, room));
    WakeStep(s, WriteSend(c, room));
    if Enabled(t, WriteFinish(c)) {
      InvStep(t, WriteFinish(c));
      assert PeerInv(s.peers[c], s.queue, c);
      WakeFinish(t, c);
    }
  }

  predicate Wakeful(s: State, events: seq<Event>)
    decreases events
  {
    events == [] ||
    (&& Enabled(s, events[0])
     && (events[0].WriteFinish? && events[0].conn in s.peers ==>
           s.semaphore > 0 || Mine(s.queue[..Passed(s)], events[0].conn, s.peers[events[0].conn].sequence) == [])
     && Wakeful(Next(s, events[0]), events[1..]))
  }

  lemma {:induction false} WakeRun(s: State, events: seq<Event>, t: State)
    requires Inv(s) && WakeUp(s) && Runs(s, events, t) && Wakeful(s, events)
    ensures Inv(t) && WakeUp(t)
    decreases events
  {
    hide Inv, WakeUp;
    if events != [] {
      InvStep(s, events[0]);
      if events[0].WriteFinish? {
        WakeFinish(s, events[0].conn);
      } else {
        WakeStep(s, events[0]);
      }
      WakeRun(Next(s, events[0]), events[1..], t);
    }
  }

  /** In a run where no handler's decrement comes that late: whenever the
      sender is blocked on a zero semaphore, every live message in the queue
      belongs to a throttled connection. */
  lemma BlockedRun(s: State, events: seq<Event>, t: State, i: nat)
    requires Initial(s) && Runs(s, events, t) && Wakeful(s, events) && t.sender == Waiting && t.semaphore == 0
    requires i < |t.queue| && t.queue[i].conn in t.peers && t.queue[i].sequence == t.peers[t.queue[i].conn].sequence
    ensures t.peers[t.queue[i].conn].throwCount > 0
  {
    InitialInv(s);
    hide Inv, Next, Enabled;
    WakeRun(s, events, t);
    BlockedLeavesNothing(t, i);
  }

  /** The sender is blocked although a live message of an idle connection is
      queued. */
  predicate Stranded(s: State) {
    && s.sender == Waiting && s.semaphore == 0
    && exists i :: 0 <= i < |s.queue| && StrandedAt(s, s.queue[i])
  }

  predicate StrandedAt(s: State, m: Msg) {
    m.conn in s.peers && m.sequence == s.peers[m.conn].sequence && s.peers[m.conn].throwCount <= 0
  }

  lemma {:induction false} MineFinds(q: seq<Msg>, c: Id, n: nat) returns (i: nat)
    requires Mine(q, c, n) != []
    ensures i < |q| && q[i].conn == c && q[i].sequence == n
  {
    if q[0].conn == c && q[0].sequence == n {
      i := 0;
    } else {
      i := MineFinds(q[1..], c, n);
      i := i + 1;
    }
  }

  lemma WaitingStrands(s: State, c: Id)
    requires s.sender == Waiting && s.semaphore == 0 && c in s.peers && s.peers[c].throwCount <= 0 && Behind(s, c) != []
    ensures Stranded(s)
  {
    hide Mine;
    assert s.queue[..|s.queue|] == s.queue;
    var i := MineFinds(s.queue, c, s.peers[c].sequence);
    assert StrandedAt(s, s.queue[i]);
  }

  /** Once the scan has left a live message of an idle connection behind and the
      semaphore is zero, the sender can end up blocked on it. */
  lemma {:induction false} ScanStrands(s: State, c: Id) returns (events: seq<Event>, t: State)
    requires Inv(s) && s.semaphore == 0 && s.sender != Woken && c in s.peers
    requires s.peers[c].throwCount <= 0 && Behind(s, c) != []
    ensures SenderOnly(events) && Runs(s, events, t) && Stranded(t)
    decreases s.sender.Scanning?, |s.queue| - if s.sender.Scanning? then s.sender.cursor else 0
  {
    hide Inv, Behind, Ahead, Stranded, Next, Enabled, ScanStep, Runs;
    if s.sender == Waiting {
      WaitingStrands(s, c);
      RunsNothing(s);
      events, t := [], s;
    } else {
      var room := if s.sender.cursor < |s.queue| then |s.queue[s.sender.cursor].packet| else 0;
      var e := ScanNext(room);
      NextScan(s, room);
      InvStep(s, e);
      if s.sender.cursor < |s.queue| {
        ScanMoves(s, room, c);
        WhollySent(s.peers[c], s.queue[s.sender.cursor].packet);
        ScanSemaphore(s, room);
      } else {
        AllBehind(s, c);
      }
      events, t := ScanStrands(Next(s, e), c);
      RunsCons(s, e, events, t);
      events := [e] + events;
    }
  }

  lemma ScanSemaphore(s: State, room: nat)
    requires s.sender.Scanning? && s.sender.cursor < |s.queue|
    ensures ScanStep(s, room).semaphore == s.semaphore
  {
  }

  lemma AllBehind(s: State, c: Id)
    requires s.sender.Scanning? && s.sender.cursor >= |s.queue| && c in s.peers
    ensures Behind(s.(sender := Waiting), c) == Behind(s, c)
  {
  }

  lemma {:induction false} SenderIsWakeful(s: State, events: seq<Event>, t: State)
    requires SenderOnly(events) && Runs(s, events, t)
    ensures Wakeful(s, events)
    decreases events
  {
    hide Next, Enabled;
    if events != [] {
      SenderIsWakeful(Next(s, events[0]), events[1..], t);
    }
  }

  lemma LateStrands(s: State, c: Id, u: State) returns (events: seq<Event>, t: State)
    requires Inv(s) && Enabled(s, WriteFinish(c)) && u == Next(s, WriteFinish(c))
    requires s.semaphore == 0 && c in s.peers && Behind(s, c) != []
    ensures SenderOnly(events) && Runs(u, events, t) && Stranded(t)
  {
    hide Inv, Behind, Ahead, Next, Enabled, Runs, Stranded, OrderedAt;
    InvStep(s, WriteFinish(c));
    FinishMoves(s, c);
    PassedSome(s, c);
    events, t := ScanStrands(u, c);
  }

  lemma WritersExist(s: State, c: Id)
    requires Enabled(s, WriteFinish(c))
    ensures c in s.peers
  {
  }

  lemma NeverStrands(s: State, events: seq<Event>, t: State)
    requires Inv(s) && WakeUp(s) && SenderOnly(events) && Runs(s, events, t)
    ensures !Stranded(t)
  {
    hide Inv, WakeUp, Runs, Stranded, Wakeful;
    SenderIsWakeful(s, events, t);
    WakeRun(s, events, t);
    NotStranded(t);
  }

  /** The decrement at the end of the write handler strands a message - the
      sender, left alone, can end up blocked with work to do - if and only if
      the semaphore is zero and the sender has passed over a live message of
      the connection. */
  lemma WakeLostExactly(s: State, c: Id)
    requires Inv(s) && WakeUp(s) && Enabled(s, WriteFinish(c))
    ensures c in s.peers
    ensures (exists events, t :: SenderOnly(events) && Runs(Next(s, WriteFinish(c)), events, t) && Stranded(t)) <==>
      s.semaphore == 0 && Behind(s, c) != []
  {
    hide Inv, WakeUp, Next, Enabled, Runs, Stranded, Mine, Passed, SenderOnly;
    WritersExist(s, c);
    var u := Next(s, WriteFinish(c));
    if s.semaphore == 0 && Behind(s, c) != [] {
      var events, t := LateStrands(s, c, u);
    } else {
      InvStep(s, WriteFinish(c));
      WakeFinish(s, c);
      forall events, t | SenderOnly(events) && Runs(u, events, t)
        ensures !Stranded(t)
      {
        NeverStrands(u, events, t);
      }
    }
  }

  lemma PassedSome(s: State, c: Id)
    requires c in s.peers && Behind(s, c) != []
    ensures s.sender != Woken
  {
  }

  lemma NotStranded(s: State)
    requires Inv(s) && WakeUp(s)
    ensures !Stranded(s)
  {
    hide Inv, WakeUp;
    if Stranded(s) {
      var i :| 0 <= i < |s.queue| && StrandedAt(s, s.queue[i]);
      BlockedLeavesNothing(s, i);
    }
  }

  lemma {:induction false} RunsSnoc(s: State, events: seq<Event>, t: State, e: Event)
    requires Runs(s, events, t) && Enabled(t, e)
    ensures Runs(s, events + [e], Next(t, e))
    decreases events
  {
    hide Enabled, Next;
    if events == [] {
      assert Runs(Next(t, e), [], Next(t, e));
      assert ([] + [e])[1..] == [];
    } else {
      assert (events + [e])[1..] == events[1..] + [e];
      RunsSnoc(Next(s, events[0]), events[1..], t, e);
    }
  }

  /** A run of the sender thread alone. */
  predicate SenderOnly(events: seq<Event>) {
    forall i :: 0 <= i < |events| ==>
      events[i].SemWait? || events[i].SemInterrupted? || events[i].TestCount? || events[i].ScanNext?
  }

  // ---------------------------------------------------------------------
  // The two hazards, each with a run that ends in it.

  function One(p: Peer, queue: seq<Msg>, semaphore: nat, sender: Sender): State {
    State(map[0 := p], queue, |queue|, semaphore, 0, sender)
  }

  predicate Steps(s: State, e: Event, t: State) {
    Enabled(s, e) && Next(s, e) == t
  }

  lemma Extend(s: State, events: seq<Event>, t: State, e: Event, u: State)
    requires Runs(s, events, t) && Steps(t, e, u)
    ensures Runs(s, events + [e], u)
  {
    RunsSnoc(s, events, t, e);
  }

  const START: State := One(IDLE, [], 0, Waiting)

  /** A reply for the first lease of connection 0. */
  function Reply(packet: seq<byte>): Msg {
    Msg(0, 1, packet)
  }

  /** Connection 0 has its first packet in hand, and queue is queued for it. */
  function Held(first: seq<byte>, queue: seq<Msg>, semaphore: nat, sender: Sender, more: seq<seq<byte>>): State {
    One(Peer(1, true, |more|, 1, Some(first), true, false, [], [first], [first] + more, 0), queue, semaphore, sender)
  }

  /** The same after the write handler has sent that packet and posted. */
  function Posted(first: seq<byte>, queue: seq<Msg>, semaphore: nat, sender: Sender, more: seq<seq<byte>>): State {
    One(Peer(1, true, |more|, 1, Some([]), false, true, first, [first], [first] + more, 0), queue, semaphore, sender)
  }

  /** And after the decrement. */
  function Over(first: seq<byte>, queue: seq<Msg>, semaphore: nat, sender: Sender, more: seq<seq<byte>>): State {
    One(Peer(1, true, |more|, 0, None, false, false, first, [first], [first] + more, 0), queue, semaphore, sender)
  }

  lemma ReachHeld(first: seq<byte>) returns (events: seq<Event>)
    requires IsPacket(first)
    ensures Runs(START, events, Held(first, [], 0, Waiting, []))
  {
    hide IsPacket;
    NotEmpty(first);
    var q, m := Leased(IDLE), Reply(first);
    var leased := One(q, [], 0, Waiting);
    var asked := One(Queued(q, m), [m], 1, Waiting);
    var woken := One(Queued(q, m), [m], 0, Woken);
    var scanning := One(Queued(q, m), [m], 0, Scanning(0));
    assert Runs(START, [], START);
    Extend(START, [], START, Lease(0), leased);
    Extend(START, [] + [Lease(0)], leased, MsgSend(m, false), asked);
    events := [] + [Lease(0)] + [MsgSend(m, false)];
    Extend(START, events, asked, SemWait, woken);
    events := events + [SemWait];
    Extend(START, events, woken, TestCount, scanning);
    events := events + [TestCount];
    FirstFull(first);
    Extend(START, events, scanning, ScanNext(0), Held(first, [], 0, Scanning(0), []));
    events := events + [ScanNext(0)];
    Extend(START, events, Held(first, [], 0, Scanning(0), []), ScanNext(0), Held(first, [], 0, Waiting, []));
    events := events + [ScanNext(0)];
  }

  lemma FirstFull(first: seq<byte>)
    requires first != []
    ensures Steps(One(Queued(Leased(IDLE), Reply(first)), [Reply(first)], 0, Scanning(0)), ScanNext(0),
                  Held(first, [], 0, Scanning(0), []))
  {
    assert first[..0] == [] && first[0..] == first;
    assert Without([Reply(first)], 0) == [] && [first] + [] == [first] && [] + [first] == [first];
  }

  lemma Ask(first: seq<byte>, queue: seq<Msg>, semaphore: nat, more: seq<seq<byte>>, packet: seq<byte>)
    requires |queue| < 10 && |more| < 10 && IsPacket(packet)
    ensures Steps(Held(first, queue, semaphore, Waiting, more), MsgSend(Reply(packet), false),
                  Held(first, queue + [Reply(packet)], semaphore + 1, Waiting, more + [packet]))
  {
    hide IsPacket;
    assert [first] + (more + [packet]) == [first] + more + [packet];
  }

  lemma Write(first: seq<byte>, queue: seq<Msg>, semaphore: nat, sender: Sender, more: seq<seq<byte>>)
    requires first != []
    ensures Steps(Held(first, queue, semaphore, sender, more), WriteSend(0, |first|), Posted(first, queue, semaphore + 1, sender, more))
  {
    assert [] + first[..|first|] == first && first[|first|..] == [];
  }

  lemma Decrement(first: seq<byte>, queue: seq<Msg>, semaphore: nat, sender: Sender, more: seq<seq<byte>>)
    ensures Steps(Posted(first, queue, semaphore, sender, more), WriteFinish(0), Over(first, queue, semaphore, sender, more))
  {
  }

  lemma ReachTwoQueued(first: seq<byte>, a: seq<byte>, b: seq<byte>) returns (events: seq<Event>)
    requires IsPacket(first) && IsPacket(a) && IsPacket(b)
    ensures Runs(START, events, Held(first, [Reply(a), Reply(b)], 2, Waiting, [a, b]))
  {
    hide IsPacket, Held;
    events := ReachHeld(first);
    Ask(first, [], 0, [], a);
    assert [] + [Reply(a)] == [Reply(a)] && [] + [a] == [a];
    Extend(START, events, Held(first, [], 0, Waiting, []), MsgSend(Reply(a), false), Held(first, [Reply(a)], 1, Waiting, [a]));
    events := events + [MsgSend(Reply(a), false)];
    Ask(first, [Reply(a)], 1, [a], b);
    assert [Reply(a)] + [Reply(b)] == [Reply(a), Reply(b)] && [a] + [b] == [a, b];
    Extend(START, events, Held(first, [Reply(a)], 1, Waiting, [a]), MsgSend(Reply(b), false),
           Held(first, [Reply(a), Reply(b)], 2, Waiting, [a, b]));
    events := events + [MsgSend(Reply(b), false)];
  }

  /** The sender looks at the first of two queued messages while the connection
      is busy. */
  lemma ReachSkipped(first: seq<byte>, a: seq<byte>, b: seq<byte>) returns (events: seq<Event>)
    requires IsPacket(first) && IsPacket(a) && IsPacket(b)
    ensures Runs(START, events, Held(first, [Reply(a), Reply(b)], 1, Scanning(1), [a, b]))
  {
    hide IsPacket;
    var more, queue := [a, b], [Reply(a), Reply(b)];
    events := ReachTwoQueued(first, a, b);
    Extend(START, events, Held(first, queue, 2, Waiting, more), SemWait, Held(first, queue, 1, Woken, more));
    events := events + [SemWait];
    Extend(START, events, Held(first, queue, 1, Woken, more), TestCount, Held(first, queue, 1, Scanning(0), more));
    events := events + [TestCount];
    Extend(START, events, Held(first, queue, 1, Scanning(0), more), ScanNext(0), Held(first, queue, 1, Scanning(1), more));
    events := events + [ScanNext(0)];
  }

  /** Order can really be lost, for any two different replies: the handler
      finishes behind the scan, and the later one overtakes the skipped one. */
  lemma OvertakingIsReachable(first: seq<byte>, a: seq<byte>, b: seq<byte>) returns (events: seq<Event>, t: State)
    requires IsPacket(first) && IsPacket(a) && IsPacket(b) && a != b
    ensures Initial(START) && Runs(START, events, t)
    ensures 0 in t.peers && t.peers[0].open && t.peers[0].asked == [first, a, b] && t.peers[0].sent == [first, b]
    ensures !Ordered(t.peers[0], t.queue, 0)
  {
    hide IsPacket;
    NotEmpty(first);
    var more, queue := [a, b], [Reply(a), Reply(b)];
    events := ReachSkipped(first, a, b);
    Write(first, queue, 1, Scanning(1), more);
    Extend(START, events, Held(first, queue, 1, Scanning(1), more), WriteSend(0, |first|), Posted(first, queue, 2, Scanning(1), more));
    events := events + [WriteSend(0, |first|)];
    Decrement(first, queue, 2, Scanning(1), more);
    var s := Over(first, queue, 2, Scanning(1), more);
    Extend(START, events, Posted(first, queue, 2, Scanning(1), more), WriteFinish(0), s);
    events := events + [WriteFinish(0)];
    t := Next(s, ScanNext(|b|));
    RunsSnoc(START, events, s, ScanNext(|b|));
    events := events + [ScanNext(|b|)];
    assert t.peers[0].sent == [first] + [b] && t.peers[0].asked == [first] + more;
    assert t.peers[0].sent[1] == b && t.peers[0].asked[1] == a;
  }

  /** A heartbeat reply overtakes the reply to a login. */
  lemma PingOvertakesLogin(content: seq<byte>) returns (events: seq<Event>, t: State)
    requires |content| == Logic.LOGIN_LENGTH
    ensures Initial(START) && Runs(START, events, t) && 0 in t.peers && t.peers[0].open
    ensures var ping, login := Logic.Image(Logic.CMD_PING, []), Logic.Image(Logic.CMD_LOGIN, content);
      t.peers[0].asked == [ping, login, ping] && t.peers[0].sent == [ping, ping]
  {
    hide Logic.Image, IsPacket;
    Logic.ImageFields(Logic.CMD_PING, []);
    Logic.ImageFields(Logic.CMD_LOGIN, content);
    var ping, login := Logic.Image(Logic.CMD_PING, []), Logic.Image(Logic.CMD_LOGIN, content);
    events, t := OvertakingIsReachable(ping, login, ping);
  }

  /** One pass over a queue that holds a single message of a busy connection. */
  lemma SkipOne(events: seq<Event>, p: Peer, m: Msg, semaphore: nat) returns (after: seq<Event>)
    requires m.conn == 0 && m.sequence == p.sequence && p.throwCount > 0
    requires Runs(START, events, One(p, [m], semaphore + 1, Waiting))
    ensures Runs(START, after, One(p, [m], semaphore, Waiting))
  {
    after := events;
    Extend(START, after, One(p, [m], semaphore + 1, Waiting), SemWait, One(p, [m], semaphore, Woken));
    after := after + [SemWait];
    Extend(START, after, One(p, [m], semaphore, Woken), TestCount, One(p, [m], semaphore, Scanning(0)));
    after := after + [TestCount];
    Extend(START, after, One(p, [m], semaphore, Scanning(0)), ScanNext(0), One(p, [m], semaphore, Scanning(1)));
    after := after + [ScanNext(0)];
    Extend(START, after, One(p, [m], semaphore, Scanning(1)), ScanNext(0), One(p, [m], semaphore, Waiting));
    after := after + [ScanNext(0)];
  }

  lemma ReachPosted(first: seq<byte>, a: seq<byte>) returns (events: seq<Event>)
    requires IsPacket(first) && IsPacket(a)
    ensures Runs(START, events, Posted(first, [Reply(a)], 2, Waiting, [a]))
  {
    hide IsPacket;
    NotEmpty(first);
    var more, queue := [a], [Reply(a)];
    events := ReachHeld(first);
    Ask(first, [], 0, [], a);
    assert [] + [Reply(a)] == [Reply(a)] && [] + [a] == [a];
    Extend(START, events, Held(first, [], 0, Waiting, []), MsgSend(Reply(a), false), Held(first, queue, 1, Waiting, more));
    events := events + [MsgSend(Reply(a), false)];
    Write(first, queue, 1, Waiting, more);
    Extend(START, events, Held(first, queue, 1, Waiting, more), WriteSend(0, |first|), Posted(first, queue, 2, Waiting, more));
    events := events + [WriteSend(0, |first|)];
  }

  /** A wake-up can really be lost, whatever the two replies: the sender sleeps
      on a zero semaphore while a live message of an idle connection is queued. */
  lemma LostWakeUpIsReachable(first: seq<byte>, a: seq<byte>) returns (events: seq<Event>, t: State)
    requires IsPacket(first) && IsPacket(a)
    ensures Initial(START) && Runs(START, events, t) && Stranded(t)
    ensures 0 in t.peers && t.peers[0].open && t.queue == [Msg(0, t.peers[0].sequence, a)]
  {
    hide IsPacket;
    var more, queue := [a], [Reply(a)];
    events := ReachPosted(first, a);
    var p := Posted(first, queue, 2, Waiting, more).peers[0];
    events := SkipOne(events, p, Reply(a), 1);
    events := SkipOne(events, p, Reply(a), 0);
    Decrement(first, queue, 0, Waiting, more);
    t := Over(first, queue, 0, Waiting, more);
    Extend(START, events, Posted(first, queue, 0, Waiting, more), WriteFinish(0), t);
    events := events + [WriteFinish(0)];
    assert StrandedAt(t, t.queue[0]);
  }

  // ---------------------------------------------------------------------
  // A close without a sequence check.

  function Copies<T>(x: T, n: nat): seq<T> {
    seq(n, i => x)
  }

  /** Connection 0 has n copies of a packet queued and none sent. */
  function Backed(packet: seq<byte>, n: nat): State {
    One(Peer(1, true, n, 0, None, false, false, [], [], Copies(packet, n), 0), Copies(Reply(packet), n), n, Waiting)
  }

  lemma BackMore(packet: seq<byte>, n: nat)
    requires IsPacket(packet) && n <= BACKLOG_LIMIT
    ensures Steps(Backed(packet, n), MsgSend(Reply(packet), false), Backed(packet, n + 1))
  {
    hide IsPacket;
    assert Copies(packet, n) + [packet] == Copies(packet, n + 1);
    assert Copies(Reply(packet), n) + [Reply(packet)] == Copies(Reply(packet), n + 1);
  }

  lemma {:induction false} ReachBacked(packet: seq<byte>, n: nat) returns (events: seq<Event>)
    requires IsPacket(packet) && n <= BACKLOG_LIMIT + 1
    ensures Runs(START, events, Backed(packet, n))
    decreases n
  {
    hide IsPacket;
    if n == 0 {
      assert Runs(START, [], START);
      assert Copies(packet, 0) == [] && Copies(Reply(packet), 0) == [];
      Extend(START, [], START, Lease(0), Backed(packet, 0));
      events := [] + [Lease(0)];
    } else {
      events := ReachBacked(packet, n - 1);
      BackMore(packet, n - 1);
      Extend(START, events, Backed(packet, n - 1), MsgSend(Reply(packet), false), Backed(packet, n));
      events := events + [MsgSend(Reply(packet), false)];
    }
  }

  /** A client that does not read has 401 replies queued, is closed, and its
      connection is freed with the count left as it was; a reply to a packet
      received before is then answered by closing the free connection again. */
  lemma StaleMessageCloses(packet: seq<byte>) returns (events: seq<Event>, t: State)
    requires IsPacket(packet)
    ensures Initial(START) && Runs(START, events, t)
    ensures 0 in t.peers && !t.peers[0].open && t.peers[0].sendCount == 401 && t.peers[0].sequence == 3
    ensures var e := MsgSend(Reply(packet), true);
      Enabled(t, e) && Reply(packet).sequence == 1 && Next(t, e).peers[0] == Closed(t.peers[0], true) && Next(t, e).peers[0].sequence == 4
  {
    hide IsPacket;
    var n := BACKLOG_LIMIT + 1;
    events := ReachBacked(packet, n);
    var s := Backed(packet, n);
    var u := s.(peers := s.peers[0 := Closed(s.peers[0], false)]);
    Extend(START, events, s, Close(0, false), u);
    events := events + [Close(0, false)];
    t := u.(peers := u.peers[0 := Recycled(u.peers[0])]);
    Extend(START, events, u, Recycle(0), t);
    events := events + [Recycle(0)];
  }
}
