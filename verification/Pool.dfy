/** The connection pool with deferred reclamation, admission, and the kick
    timer: the steps of the accepting thread, the recycler, the monitor and
    whoever closes a connection, in any interleaving. */
module Pool {
  import opened Common
  import opened Timer

  /** The configuration: worker_connections, the number of listening ports, the
      recycle wait, whether silent clients are kicked, whether at once, and the
      timer's wait. */
  datatype Config = Config(workers: nat, listeners: nat, recycleWait: nat, kickTimer: bool, kickAtOnce: bool, wait: nat)

  predicate Sensible(cfg: Config) {
    cfg.workers >= 1 && cfg.wait >= 5
  }

  datatype Conn = Conn(sequence: nat, open: bool, inRecyTime: int, lastPing: int)

  /** idle is what the monitor took from the timer and has still to check;
      lastPass is the time of its latest pass; accepting says that a client
      was admitted and no connection leased for it yet. */
  datatype State = State(
    conns: seq<Conn>,
    free: seq<Id>,
    recy: seq<Id>,
    listening: seq<Id>,
    totalCount: int,
    freeCount: int,
    recyCount: int,
    online: int,
    accepting: bool,
    timer: seq<Entry>,
    idle: seq<Entry>,
    lastPass: int,
    now: int)

  datatype Event =
    | Tick(d: nat)
    | Ping(conn: Id)
    | AcceptCheck
    | AcceptFinish(epollOk: bool)
    | Close(conn: Id)
    | RecycleOne(i: nat, currtime: int)
    | MonitorDrain
    | MonitorCheck

  // ---------------------------------------------------------------------
  // The steps.

  function Places(s: State): multiset<Id> {
    multiset(s.free) + multiset(s.recy) + multiset(s.listening)
  }

  /** Leased to a client and not closed. */
  predicate Active(s: State, c: Id) {
    c < |s.conns| && c !in Places(s)
  }

  function NextConn(s: State): Id {
    if s.free != [] then s.free[0] else |s.conns|
  }

  /** qc_get_connection with GetOneToUse. */
  function Leased(s: State): State
    requires s.free != [] ==> s.free[0] < |s.conns|
  {
    if s.free != [] then
      var c := s.free[0];
      s.(free := s.free[1..], freeCount := s.freeCount - 1,
         conns := s.conns[c := s.conns[c].(sequence := s.conns[c].sequence + 1, open := true, lastPing := s.now)])
    else
      s.(conns := s.conns + [Conn(1, true, 0, s.now)], totalCount := s.totalCount + 1)
  }

  /** qc_free_connection with PutOneToFree. */
  function Freed(s: State, c: Id): State
    requires c < |s.conns|
  {
    s.(conns := s.conns[c := s.conns[c].(sequence := s.conns[c].sequence + 1)],
       free := s.free + [c], freeCount := s.freeCount + 1)
  }

  /** zdClosesocketProc with inRecyConnectQueue. */
  function Closed(cfg: Config, s: State, c: Id): State
    requires c < |s.conns|
  {
    var conn := s.conns[c].(open := false);
    var t := s.(timer := if cfg.kickTimer then Others(s.timer, c) else s.timer, conns := s.conns[c := conn]);
    if c in s.recy then
      t
    else
      t.(conns := s.conns[c := conn.(inRecyTime := s.now, sequence := conn.sequence + 1)],
         recy := s.recy + [c], recyCount := s.recyCount + 1, online := s.online - 1)
  }

  function Admitted(cfg: Config, s: State): bool {
    s.online < cfg.workers && !(|s.conns| > cfg.workers * 5 && |s.free| < cfg.workers)
  }

  /** The rest of qc_event_accept: epollOk says that epoll_ctl succeeded. */
  function Accepted(cfg: Config, s: State, epollOk: bool): State
    requires s.free != [] ==> s.free[0] < |s.conns|
  {
    var c := NextConn(s);
    var t := Leased(s).(accepting := false);
    if !epollOk then
      var f := Freed(t, c);
      f.(conns := f.conns[c := f.conns[c].(open := false)])
    else
      t.(timer := if cfg.kickTimer then Insert(t.timer, Entry(t.now + cfg.wait, c, t.conns[c].sequence)) else t.timer,
         online := t.online + 1)
  }

  function Recycled(s: State, i: nat): State
    requires i < |s.recy| && s.recy[i] < |s.conns|
  {
    Freed(s.(recy := s.recy[..i] + s.recy[i + 1..], recyCount := s.recyCount - 1), s.recy[i])
  }

  function Passed(cfg: Config, s: State): State {
    if s.timer != [] && s.timer[0].key < s.now then
      s.(lastPass := s.now, idle := s.timer[..Due(s.timer, s.now)],
         timer := Drained(s.timer, s.now, cfg.wait, cfg.kickAtOnce))
    else
      s.(lastPass := s.now)
  }

  /** The silence after which a client is kicked. */
  function Patience(cfg: Config): nat {
    cfg.wait * 3 + 10
  }

  predicate Live(s: State, e: Entry) {
    e.conn < |s.conns| && s.conns[e.conn].sequence == e.sequence
  }

  predicate Kicks(cfg: Config, s: State, e: Entry) {
    Live(s, e) && (cfg.kickAtOnce || s.lastPass - s.conns[e.conn].lastPing > Patience(cfg))
  }

  /** procPingTimeOutChecking for the first entry of the idle list. */
  function Checked(cfg: Config, s: State): State
    requires s.idle != []
  {
    var t := s.(idle := s.idle[1..]);
    if Kicks(cfg, s, s.idle[0]) then Closed(cfg, t, s.idle[0].conn) else t
  }

  predicate Enabled(cfg: Config, s: State, e: Event) {
    match e
    case Tick(_) => true
    case Ping(c) => c < |s.conns|
    case AcceptCheck => !s.accepting
    case AcceptFinish(_) => s.accepting && (s.free != [] ==> s.free[0] < |s.conns|)
    case Close(c) => c < |s.conns| && (Active(s, c) || c in s.recy)
    case RecycleOne(i, currtime) =>
      && i < |s.recy| && s.recy[i] < |s.conns| && currtime <= s.now
      && s.conns[s.recy[i]].inRecyTime + cfg.recycleWait <= currtime
    case MonitorDrain => cfg.kickTimer && s.idle == []
    case MonitorCheck => s.idle != []
  }

  function Next(cfg: Config, s: State, e: Event): State
    requires Enabled(cfg, s, e)
  {
    match e
    case Tick(d) => s.(now := s.now + d)
    case Ping(c) => s.(conns := s.conns[c := s.conns[c].(lastPing := s.now)])
    case AcceptCheck => s.(accepting := Admitted(cfg, s))
    case AcceptFinish(epollOk) => Accepted(cfg, s, epollOk)
    case Close(c) => Closed(cfg, s, c)
    case RecycleOne(i, _) => Recycled(s, i)
    case MonitorDrain => Passed(cfg, s)
    case MonitorCheck => Checked(cfg, s)
  }

  // ---------------------------------------------------------------------
  // The pool's invariant.

  function Bound(cfg: Config): nat {
    if 5 * cfg.workers + 1 > cfg.listeners then 5 * cfg.workers + 1 else cfg.listeners
  }

  /** Every connection is in at most one of the three lists. */
  ghost predicate Placed(s: State) {
    forall c :: Places(s)[c] <= 1 && (c in Places(s) ==> c < |s.conns|)
  }

  /** The counters equal the sizes they cache; clients are all the others. */
  predicate Counted(s: State) {
    && s.totalCount == |s.conns| && s.freeCount == |s.free| && s.recyCount == |s.recy|
    && s.online + |s.free| + |s.recy| + |s.listening| == |s.conns|
  }

  /** Exactly the connections in use have a socket. */
  predicate Flagged(s: State) {
    forall c :: 0 <= c < |s.conns| ==>
      (s.conns[c].open <==> c !in s.free && c !in s.recy) && s.conns[c].lastPing <= s.now
  }

  ghost predicate Partition(s: State) {
    Placed(s) && Counted(s) && Flagged(s)
  }

  predicate Admission(cfg: Config, s: State) {
    && |s.listening| == cfg.listeners
    && |s.conns| <= Bound(cfg)
    && s.online <= cfg.workers
    && (s.accepting ==> s.online < cfg.workers && (s.free == [] ==> |s.conns| <= 5 * cfg.workers))
  }

  ghost predicate PoolInv(cfg: Config, s: State) {
    Partition(s) && Admission(cfg, s)
  }

  lemma LeasedPlaces(s: State)
    requires Partition(s)
    ensures s.free != [] ==> s.free[0] < |s.conns|
    ensures NextConn(s) !in Places(Leased(s)) && NextConn(s) < |Leased(s).conns|
    ensures s.free != [] ==> Places(s) == Places(Leased(s)) + multiset{s.free[0]}
    ensures s.free == [] ==> Places(s) == Places(Leased(s))
  {
    if s.free != [] {
      assert s.free == [s.free[0]] + s.free[1..];
      assert s.free[0] in Places(s) && Places(s)[s.free[0]] <= 1;
      assert Places(s) == Places(Leased(s)) + multiset{s.free[0]};
      assert Places(Leased(s))[s.free[0]] == 0;
    } else {
      assert Places(s)[|s.conns|] <= 1;
    }
  }

  lemma LeasedFlagged(s: State)
    requires Partition(s) && (s.free != [] ==> s.free[0] < |s.conns|)
    ensures Flagged(Leased(s))
  {
    LeasedPlaces(s);
    var t := Leased(s);
    if s.free != [] {
      assert s.free == [s.free[0]] + s.free[1..];
      assert s.free[0] !in t.free && s.free[0] !in t.recy by {
        assert s.free[0] !in Places(t);
      }
    } else {
      assert |s.conns| !in s.recy by {
        assert |s.conns| !in Places(s);
      }
    }
  }

  lemma LeasedPlaced(s: State)
    requires Partition(s)
    ensures s.free != [] ==> s.free[0] < |s.conns|
    ensures Placed(Leased(s)) && Active(Leased(s), NextConn(s))
    ensures forall c :: c != NextConn(s) ==> (Active(Leased(s), c) <==> Active(s, c))
  {
    LeasedPlaces(s);
    hide Flagged, Counted;
    assert forall c :: Places(Leased(s))[c] <= Places(s)[c];
  }

  lemma LeasedCounted(s: State)
    requires Counted(s) && (s.free != [] ==> s.free[0] < |s.conns|)
    ensures Counted(Leased(s).(online := s.online + 1))
  {
  }

  /** A lease takes a connection out of the free list or creates one. */
  lemma LeasedKeeps(s: State)
    requires Partition(s)
    ensures s.free != [] ==> s.free[0] < |s.conns|
    ensures Partition(Leased(s).(online := s.online + 1)) && Active(Leased(s), NextConn(s))
    ensures forall c :: c != NextConn(s) ==> (Active(Leased(s), c) <==> Active(s, c))
  {
    hide Flagged, Counted, Placed, Leased, Active, NextConn;
    LeasedPlaced(s);
    LeasedFlagged(s);
    LeasedCounted(s);
    var t := Leased(s).(online := s.online + 1);
    PlacedSame(Leased(s), t);
    FlaggedSame(Leased(s), t);
  }

  lemma PlacedSame(s: State, t: State)
    requires Placed(s) && t.free == s.free && t.recy == s.recy && t.listening == s.listening && t.conns == s.conns
    ensures Placed(t)
  {
    assert Places(s) == Places(t);
  }

  lemma ParkedPlaces(s: State, t: State, c: Id)
    requires Placed(s) && Active(s, c) && |t.conns| == |s.conns| && Places(t) == Places(s) + multiset{c}
    ensures Placed(t)
  {
  }

  lemma ClosedPlaces(cfg: Config, s: State, c: Id)
    requires c < |s.conns|
    ensures Places(Closed(cfg, s, c)) == if c in s.recy then Places(s) else Places(s) + multiset{c}
  {
  }

  lemma ClosedFlagged(cfg: Config, s: State, c: Id)
    requires Flagged(s) && c < |s.conns| && (c in s.recy || Active(s, c))
    ensures Flagged(Closed(cfg, s, c))
  {
    var t := Closed(cfg, s, c);
    assert c !in s.recy ==> t.recy == s.recy + [c] && t.recy[|s.recy|] == c;
  }

  /** Closing an active client, or one already in the recycle list. */
  lemma ClosedKeeps(cfg: Config, s: State, c: Id)
    requires Partition(s) && c < |s.conns| && (Active(s, c) || c in s.recy)
    ensures Partition(Closed(cfg, s, c))
    ensures forall d :: Active(Closed(cfg, s, c), d) <==> Active(s, d) && d != c
  {
    hide Flagged;
    ClosedPlaces(cfg, s, c);
    ClosedFlagged(cfg, s, c);
    if c !in s.recy {
      ParkedPlaces(s, Closed(cfg, s, c), c);
    }
  }

  lemma RecycledPlaces(s: State, i: nat)
    requires i < |s.recy| && s.recy[i] < |s.conns|
    ensures Places(Recycled(s, i)) == Places(s)
  {
    assert s.recy == s.recy[..i] + [s.recy[i]] + s.recy[i + 1..];
  }

  lemma RecycledFlagged(s: State, i: nat)
    requires Flagged(s) && i < |s.recy| && s.recy[i] < |s.conns|
    ensures Flagged(Recycled(s, i))
  {
    var c, t := s.recy[i], Recycled(s, i);
    assert s.recy == s.recy[..i] + [c] + s.recy[i + 1..];
    assert t.free[|s.free|] == c;
    forall d | 0 <= d < |s.conns| && d != c
      ensures d in t.free <==> d in s.free
      ensures d in t.recy <==> d in s.recy
    {
    }
  }

  /** The recycler moves a connection between two lists. */
  lemma RecycledKeeps(s: State, i: nat)
    requires Partition(s) && i < |s.recy| && s.recy[i] < |s.conns|
    ensures Partition(Recycled(s, i))
    ensures forall d :: Active(Recycled(s, i), d) <==> Active(s, d)
  {
    hide Flagged;
    RecycledPlaces(s, i);
    RecycledFlagged(s, i);
  }

  lemma AcceptedKeeps(cfg: Config, s: State, epollOk: bool)
    requires Partition(s)
    ensures s.free != [] ==> s.free[0] < |s.conns|
    ensures Partition(Accepted(cfg, s, epollOk))
    ensures forall c :: Active(Accepted(cfg, s, epollOk), c) <==> Active(s, c) || (epollOk && c == NextConn(s))
  {
    hide Partition, Active, Leased, Accepted;
    LeasedKeeps(s);
    if epollOk {
      RegisteredKeeps(cfg, s);
    } else {
      RefusedKeeps(cfg, s);
    }
  }

  lemma RegisteredKeeps(cfg: Config, s: State)
    requires (s.free != [] ==> s.free[0] < |s.conns|) && Partition(Leased(s).(online := s.online + 1))
    ensures Partition(Accepted(cfg, s, true))
    ensures forall c :: Active(Accepted(cfg, s, true), c) <==> Active(Leased(s), c)
  {
    hide Insert, Active, Flagged, Placed;
    var l, t := Leased(s).(online := s.online + 1), Accepted(cfg, s, true);
    ActiveSame(Leased(s), t);
    assert Flagged(t) by {
      FlaggedSame(l, t);
    }
    PartitionSame(l, t);
  }

  lemma FlaggedSame(s: State, t: State)
    requires Flagged(s) && s.conns == t.conns && s.free == t.free && s.recy == t.recy && s.now == t.now
    ensures Flagged(t)
  {
  }

  lemma RefusedPlaced(cfg: Config, s: State)
    requires (s.free != [] ==> s.free[0] < |s.conns|) && Placed(Leased(s)) && Active(Leased(s), NextConn(s))
    ensures Placed(Accepted(cfg, s, false))
  {
    RefusedPlaces(cfg, s);
    hide Placed, Active;
    ParkedPlaces(Leased(s), Accepted(cfg, s, false), NextConn(s));
  }

  lemma RefusedInUse(cfg: Config, s: State)
    requires (s.free != [] ==> s.free[0] < |s.conns|) && Flagged(Leased(s)) && Active(Leased(s), NextConn(s))
    ensures Flagged(Accepted(cfg, s, false))
  {
    assert NextConn(s) !in Places(Leased(s));
    hide Flagged;
    RefusedFlagged(Leased(s), Accepted(cfg, s, false), NextConn(s));
  }

  lemma RefusedCounted(cfg: Config, s: State)
    requires Counted(s) && (s.free != [] ==> s.free[0] < |s.conns|)
    ensures Counted(Accepted(cfg, s, false))
  {
  }

  /** epoll_ctl failed: the connection goes straight back to the free list. */
  lemma RefusedKeeps(cfg: Config, s: State)
    requires Partition(s)
    ensures s.free != [] ==> s.free[0] < |s.conns|
    ensures Partition(Accepted(cfg, s, false))
    ensures forall c :: Active(Accepted(cfg, s, false), c) <==> Active(s, c)
  {
    hide Placed, Flagged, Counted, Active, Accepted, Leased;
    LeasedPlaced(s);
    LeasedFlagged(s);
    RefusedPlaced(cfg, s);
    RefusedInUse(cfg, s);
    RefusedCounted(cfg, s);
    RefusedActive(cfg, s);
  }

  lemma RefusedActive(cfg: Config, s: State)
    requires Partition(s) && (s.free != [] ==> s.free[0] < |s.conns|)
    requires forall c :: c != NextConn(s) ==> (Active(Leased(s), c) <==> Active(s, c))
    ensures forall c :: Active(Accepted(cfg, s, false), c) <==> Active(s, c)
  {
    RefusedPlaces(cfg, s);
    NextIsFree(s);
    var l, t := Leased(s), Accepted(cfg, s, false);
    assert |t.conns| == |l.conns|;
    hide Partition, Leased, Accepted, NextConn;
    forall c
      ensures Active(t, c) <==> Active(s, c)
    {
      assert c in Places(t) <==> c in Places(l) || c == NextConn(s);
    }
  }

  lemma RefusedPlaces(cfg: Config, s: State)
    requires s.free != [] ==> s.free[0] < |s.conns|
    ensures Places(Accepted(cfg, s, false)) == Places(Leased(s)) + multiset{NextConn(s)}
  {
  }

  lemma RefusedFlagged(l: State, t: State, c: Id)
    requires Flagged(l) && c < |l.conns| == |t.conns| && t.now == l.now
    requires t.free == l.free + [c] && t.recy == l.recy && c !in l.recy
    requires t.conns == l.conns[c := t.conns[c]] && !t.conns[c].open && t.conns[c].lastPing == l.conns[c].lastPing
    ensures Flagged(t)
  {
    assert t.free[|l.free|] == c;
  }

  // ---------------------------------------------------------------------
  // The timer's invariant.

  /** The number of entries for connection c. */
  function Count(q: seq<Entry>, c: Id): nat {
    if q == [] then 0 else (if q[0].conn == c then 1 else 0) + Count(q[1..], c)
  }

  /** The number of entries for connection c with sequence number n. */
  function CountSeq(q: seq<Entry>, c: Id, n: nat): nat {
    if q == [] then 0 else (if q[0].conn == c && q[0].sequence == n then 1 else 0) + CountSeq(q[1..], c, n)
  }

  /** Every timer entry is for an active client and its current lease. */
  ghost predicate TimerSound(s: State) {
    Sorted(s.timer) && forall e :: e in s.timer ==> Active(s, e.conn) && Live(s, e)
  }

  /** So is an idle entry, or it is stale for good. */
  ghost predicate IdleSound(s: State) {
    forall e :: e in s.idle ==>
      e.conn < |s.conns| && e.sequence <= s.conns[e.conn].sequence && (Live(s, e) ==> Active(s, e.conn))
  }

  /** An active client has one entry, everyone else has none. While clients are
      kicked at once, the entry may be on its way through the idle list. */
  predicate OneEntry(cfg: Config, s: State, c: Id) {
    var pending := if cfg.kickAtOnce && c < |s.conns| then CountSeq(s.idle, c, s.conns[c].sequence) else 0;
    Count(s.timer, c) + pending == if cfg.kickTimer && Active(s, c) then 1 else 0
  }

  predicate IsPending(idle: seq<Entry>, c: Id, n: nat) {
    exists i :: 0 <= i < |idle| && idle[i].conn == c && idle[i].sequence == n
  }

  /** An entry is due within the client's patience and one wait, unless the
      monitor has still to check that client. */
  predicate KeyOk(cfg: Config, s: State, e: Entry) {
    && s.lastPass <= e.key
    && (!cfg.kickAtOnce && e.conn < |s.conns| ==>
          || e.key <= s.conns[e.conn].lastPing + Patience(cfg) + cfg.wait
          || (e.key == s.lastPass + cfg.wait && IsPending(s.idle, e.conn, e.sequence)))
  }

  ghost predicate Keys(cfg: Config, s: State) {
    s.lastPass <= s.now && forall e :: e in s.timer ==> KeyOk(cfg, s, e)
  }

  ghost predicate TimerInv(cfg: Config, s: State) {
    TimerSound(s) && IdleSound(s) && (forall c :: OneEntry(cfg, s, c)) && Keys(cfg, s)
  }

  ghost predicate Inv(cfg: Config, s: State) {
    Sensible(cfg) && PoolInv(cfg, s) && TimerInv(cfg, s)
  }

  // Counting.

  lemma {:induction false} CountAppend(a: seq<Entry>, b: seq<Entry>, c: Id)
    ensures Count(a + b, c) == Count(a, c) + Count(b, c)
  {
    if a == [] {
      assert a + b == b;
    } else {
      assert (a + b)[1..] == a[1..] + b;
      CountAppend(a[1..], b, c);
    }
  }

  lemma {:induction false} CountInsert(q: seq<Entry>, e: Entry, c: Id)
    ensures Count(Insert(q, e), c) == Count(q, c) + (if e.conn == c then 1 else 0)
  {
    if q == [] {
    } else if q[|q| - 1].key <= e.key {
      CountAppend(q, [e], c);
    } else {
      var init, last := q[..|q| - 1], q[|q| - 1];
      assert q == init + [last];
      CountInsert(init, e, c);
      CountAppend(init, [last], c);
      CountAppend(Insert(init, e), [last], c);
    }
  }

  lemma {:induction false} CountRearm(q: seq<Entry>, es: seq<Entry>, key: int, c: Id)
    ensures Count(RearmAll(q, es, key), c) == Count(q, c) + Count(es, c)
    decreases es
  {
    if es != [] {
      var init, last := es[..|es| - 1], es[|es| - 1];
      assert es == init + [last];
      CountRearm(q, init, key, c);
      CountInsert(RearmAll(q, init, key), Rearmed(last, key), c);
      CountAppend(init, [last], c);
    }
  }

  lemma {:induction false} CountOthers(q: seq<Entry>, d: Id, c: Id)
    ensures Count(Others(q, d), c) == if c == d then 0 else Count(q, c)
  {
    if q != [] {
      CountOthers(q[1..], d, c);
      CountAppend(if q[0].conn == d then [] else [q[0]], Others(q[1..], d), c);
    }
  }

  lemma {:induction false} CountSeqAll(q: seq<Entry>, c: Id, n: nat)
    requires forall i :: 0 <= i < |q| && q[i].conn == c ==> q[i].sequence == n
    ensures CountSeq(q, c, n) == Count(q, c)
  {
    if q != [] {
      CountSeqAll(q[1..], c, n);
    }
  }

  lemma {:induction false} CountSeqNone(q: seq<Entry>, c: Id, n: nat)
    requires forall i :: 0 <= i < |q| && q[i].conn == c ==> q[i].sequence != n
    ensures CountSeq(q, c, n) == 0
  {
    if q != [] {
      CountSeqNone(q[1..], c, n);
    }
  }

  lemma {:induction false} CountFinds(q: seq<Entry>, c: Id) returns (i: nat)
    requires Count(q, c) > 0
    ensures i < |q| && q[i].conn == c
  {
    if q[0].conn == c {
      i := 0;
    } else {
      i := CountFinds(q[1..], c);
      i := i + 1;
    }
  }

  lemma {:induction false} OthersOnly(q: seq<Entry>, c: Id)
    ensures forall e :: e in Others(q, c) ==> e in q && e.conn != c
    ensures Sorted(q) ==> Sorted(Others(q, c))
  {
    if q != [] {
      var rest := Others(q[1..], c);
      OthersOnly(q[1..], c);
      if Sorted(q) {
        forall i | 0 <= i < |rest|
          ensures q[0].key <= rest[i].key
        {
          assert rest[i] in q[1..];
        }
      }
    }
  }

  lemma InsertMember(q: seq<Entry>, x: Entry, e: Entry)
    ensures e in Insert(q, x) <==> e in q || e == x
  {
    InsertMultiset(q, x);
    assert e in Insert(q, x) <==> e in multiset(Insert(q, x));
  }

  lemma {:induction false} RearmMember(q: seq<Entry>, es: seq<Entry>, key: int, e: Entry) returns (origin: Entry)
    requires e in RearmAll(q, es, key)
    ensures (origin in q && e == origin) || (origin in es && e == Rearmed(origin, key))
    decreases es
  {
    if es == [] {
      origin := e;
    } else {
      var init, last := es[..|es| - 1], es[|es| - 1];
      InsertMember(RearmAll(q, init, key), Rearmed(last, key), e);
      if e == Rearmed(last, key) {
        origin := last;
      } else {
        origin := RearmMember(q, init, key, e);
      }
    }
  }

  // Accepting a client.

  lemma AcceptedSound(cfg: Config, s: State, epollOk: bool)
    requires Inv(cfg, s) && (s.free != [] ==> s.free[0] < |s.conns|)
    requires forall c :: Active(Accepted(cfg, s, epollOk), c) <==> Active(s, c) || (epollOk && c == NextConn(s))
    requires !Active(s, NextConn(s))
    ensures TimerSound(Accepted(cfg, s, epollOk)) && IdleSound(Accepted(cfg, s, epollOk))
  {
    hide Active, Insert, Sorted;
    var t := Accepted(cfg, s, epollOk);
    if epollOk && cfg.kickTimer {
      var x := Entry(t.now + cfg.wait, NextConn(s), t.conns[NextConn(s)].sequence);
      InsertSorted(s.timer, x);
      forall e | e in t.timer
        ensures Active(t, e.conn) && Live(t, e)
      {
        InsertMember(s.timer, x, e);
      }
    }
  }

  lemma AcceptedOneEntry(cfg: Config, s: State, epollOk: bool, c: Id)
    requires Inv(cfg, s) && (s.free != [] ==> s.free[0] < |s.conns|)
    requires forall d :: Active(Accepted(cfg, s, epollOk), d) <==> Active(s, d) || (epollOk && d == NextConn(s))
    requires !Active(s, NextConn(s))
    ensures OneEntry(cfg, Accepted(cfg, s, epollOk), c)
  {
    hide Active, Insert, Sorted, Count, CountSeq;
    var t := Accepted(cfg, s, epollOk);
    var d := NextConn(s);
    assert OneEntry(cfg, s, c);
    if epollOk && cfg.kickTimer {
      CountInsert(s.timer, Entry(t.now + cfg.wait, d, t.conns[d].sequence), c);
    }
    if c == d {
      CountSeqNone(s.idle, d, t.conns[d].sequence);
    }
  }

  lemma AcceptedKeys(cfg: Config, s: State, epollOk: bool)
    requires Inv(cfg, s) && (s.free != [] ==> s.free[0] < |s.conns|)
    requires !Active(s, NextConn(s))
    ensures Keys(cfg, Accepted(cfg, s, epollOk))
  {
    hide Active, Insert, Sorted, IsPending, OneEntry;
    var t := Accepted(cfg, s, epollOk);
    var d := NextConn(s);
    forall e | e in t.timer
      ensures KeyOk(cfg, t, e)
    {
      if epollOk && cfg.kickTimer {
        InsertMember(s.timer, Entry(t.now + cfg.wait, d, t.conns[d].sequence), e);
      }
      if e in s.timer {
        assert KeyOk(cfg, s, e) && e.conn != d;
      }
    }
  }

  // Closing a connection.

  lemma ClosedTimerSound(cfg: Config, s: State, c: Id)
    requires Inv(cfg, s) && c < |s.conns| && (Active(s, c) || c in s.recy)
    requires forall d :: Active(Closed(cfg, s, c), d) <==> Active(s, d) && d != c
    ensures TimerSound(Closed(cfg, s, c))
  {
    hide Active, Sorted, Partition, Keys, IdleSound;
    OthersOnly(s.timer, c);
    if !cfg.kickTimer {
      forall e | e in s.timer
        ensures false
      {
        assert OneEntry(cfg, s, e.conn);
        CountMember(s.timer, e);
      }
    }
  }

  lemma ClosedIdleSound(cfg: Config, s: State, c: Id)
    requires IdleSound(s) && c < |s.conns| && (Active(s, c) || c in s.recy)
    requires forall d :: Active(Closed(cfg, s, c), d) <==> Active(s, d) && d != c
    ensures IdleSound(Closed(cfg, s, c))
  {
    assert c in s.recy ==> !Active(s, c);
    hide Active;
    var t := Closed(cfg, s, c);
    forall e | e in t.idle
      ensures e.conn < |t.conns| && e.sequence <= t.conns[e.conn].sequence && (Live(t, e) ==> Active(t, e.conn))
    {
    }
  }

  lemma {:induction false} CountMember(q: seq<Entry>, e: Entry)
    requires e in q
    ensures Count(q, e.conn) > 0
  {
    if q[0] != e {
      CountMember(q[1..], e);
    }
  }

  lemma ClosedOneEntry(cfg: Config, s: State, c: Id, d: Id)
    requires Inv(cfg, s) && c < |s.conns| && (Active(s, c) || c in s.recy)
    requires forall x :: Active(Closed(cfg, s, c), x) <==> Active(s, x) && x != c
    ensures OneEntry(cfg, Closed(cfg, s, c), d)
  {
    assert c in s.recy ==> !Active(s, c);
    hide Active, Sorted, Count, CountSeq;
    assert OneEntry(cfg, s, d);
    CountOthers(s.timer, c, d);
    if c !in s.recy {
      CountSeqNone(s.idle, c, s.conns[c].sequence + 1);
    }
  }

  lemma ClosedKeys(cfg: Config, s: State, c: Id)
    requires Keys(cfg, s) && c < |s.conns|
    ensures Keys(cfg, Closed(cfg, s, c))
  {
    hide IsPending;
    var t := Closed(cfg, s, c);
    OthersOnly(s.timer, c);
    forall e | e in t.timer
      ensures KeyOk(cfg, t, e)
    {
      assert KeyOk(cfg, s, e);
    }
  }

  lemma ClosedTimer(cfg: Config, s: State, c: Id)
    requires Inv(cfg, s) && c < |s.conns| && (Active(s, c) || c in s.recy)
    ensures TimerInv(cfg, Closed(cfg, s, c))
  {
    hide Sensible, Admission, TimerSound, IdleSound, OneEntry, Keys;
    ClosedKeeps(cfg, s, c);
    ClosedTimerSound(cfg, s, c);
    ClosedIdleSound(cfg, s, c);
    ClosedKeys(cfg, s, c);
    forall d
      ensures OneEntry(cfg, Closed(cfg, s, c), d)
    {
      ClosedOneEntry(cfg, s, c, d);
    }
  }

  lemma AcceptedTimer(cfg: Config, s: State, epollOk: bool)
    requires Inv(cfg, s)
    ensures s.free != [] ==> s.free[0] < |s.conns|
    ensures TimerInv(cfg, Accepted(cfg, s, epollOk))
  {
    hide Sensible, Admission, TimerSound, IdleSound, OneEntry, Keys;
    AcceptedKeeps(cfg, s, epollOk);
    NextIsFree(s);
    AcceptedSound(cfg, s, epollOk);
    AcceptedKeys(cfg, s, epollOk);
    forall d
      ensures OneEntry(cfg, Accepted(cfg, s, epollOk), d)
    {
      AcceptedOneEntry(cfg, s, epollOk, d);
    }
  }

  lemma NextIsFree(s: State)
    requires Partition(s)
    ensures !Active(s, NextConn(s))
  {
    if s.free != [] {
      assert s.free[0] in Places(s);
    }
  }

  lemma RecycledSound(s: State, i: nat)
    requires TimerSound(s) && IdleSound(s) && i < |s.recy| && s.recy[i] < |s.conns| && !Active(s, s.recy[i])
    requires forall d :: Active(Recycled(s, i), d) <==> Active(s, d)
    ensures TimerSound(Recycled(s, i)) && IdleSound(Recycled(s, i))
  {
    hide Active, Sorted;
    var t, c := Recycled(s, i), s.recy[i];
    forall e | e in t.idle
      ensures e.conn < |t.conns| && e.sequence <= t.conns[e.conn].sequence && (Live(t, e) ==> Active(t, e.conn))
    {
      assert e in s.idle;
    }
    forall e | e in t.timer
      ensures Active(t, e.conn) && Live(t, e)
    {
      assert e in s.timer;
    }
  }

  lemma RecycledOneEntry(cfg: Config, s: State, i: nat, d: Id)
    requires IdleSound(s) && OneEntry(cfg, s, d) && i < |s.recy| && s.recy[i] < |s.conns| && !Active(s, s.recy[i])
    requires Active(Recycled(s, i), d) <==> Active(s, d)
    ensures OneEntry(cfg, Recycled(s, i), d)
  {
    hide Active, Count, CountSeq;
    var c := s.recy[i];
    if d == c {
      CountSeqNone(s.idle, c, s.conns[c].sequence + 1);
    }
  }

  lemma RecycledKeys(cfg: Config, s: State, i: nat)
    requires Keys(cfg, s) && i < |s.recy| && s.recy[i] < |s.conns|
    ensures Keys(cfg, Recycled(s, i))
  {
    hide IsPending;
    var t := Recycled(s, i);
    forall e | e in t.timer
      ensures KeyOk(cfg, t, e)
    {
      assert KeyOk(cfg, s, e);
    }
  }

  lemma RecycledTimer(cfg: Config, s: State, i: nat)
    requires Inv(cfg, s) && i < |s.recy| && s.recy[i] < |s.conns|
    ensures TimerInv(cfg, Recycled(s, i))
  {
    hide Sensible, Admission, TimerSound, IdleSound, OneEntry, Keys, Recycled, Partition;
    RecycledKeeps(s, i);
    RecyIsNotActive(s, i);
    RecycledSound(s, i);
    RecycledKeys(cfg, s, i);
    forall d
      ensures OneEntry(cfg, Recycled(s, i), d)
    {
      RecycledOneEntry(cfg, s, i, d);
    }
  }

  lemma RecyIsNotActive(s: State, i: nat)
    requires i < |s.recy|
    ensures !Active(s, s.recy[i])
  {
    assert s.recy[i] in Places(s);
  }

  // A pass of the monitor.

  lemma DrainedCount(q: seq<Entry>, now: int, wait: nat, kickAtOnce: bool, c: Id)
    ensures Count(Drained(q, now, wait, kickAtOnce), c) + (if kickAtOnce then Count(q[..Due(q, now)], c) else 0) == Count(q, c)
  {
    hide Count, RearmAll;
    var k := Due(q, now);
    assert q == q[..k] + q[k..];
    CountAppend(q[..k], q[k..], c);
    CountRearm(q[k..], q[..k], now + wait, c);
  }

  lemma PassedOneEntry(cfg: Config, s: State, c: Id)
    requires Inv(cfg, s) && s.idle == []
    ensures OneEntry(cfg, Passed(cfg, s), c)
  {
    ActiveSame(s, Passed(cfg, s));
    hide Active, Sorted, Count, CountSeq, Due, Drained, Partition, Keys, Admission;
    assert OneEntry(cfg, s, c);
    CountSeqEmpty(c);
    if s.timer != [] && s.timer[0].key < s.now {
      DrainedCount(s.timer, s.now, cfg.wait, cfg.kickAtOnce, c);
      if c < |s.conns| {
        CountSeqAll(s.timer[..Due(s.timer, s.now)], c, s.conns[c].sequence);
      }
    }
  }

  lemma CountSeqEmpty(c: Id)
    ensures forall n :: CountSeq([], c, n) == 0
  {
  }

  lemma AfterMember(q: seq<Entry>, now: int, e: Entry)
    requires After(q, now) && e in q
    ensures e.key > now
  {
  }

  /** Where an entry left by a drain comes from. */
  lemma DrainedMember(q: seq<Entry>, now: int, wait: nat, kickAtOnce: bool, e: Entry) returns (origin: Entry)
    requires Sorted(q) && wait > 0 && e in Drained(q, now, wait, kickAtOnce)
    ensures origin in q && e.conn == origin.conn && e.sequence == origin.sequence && e.key > now
    ensures e == origin || (!kickAtOnce && e.key == now + wait && origin in q[..Due(q, now)])
  {
    hide Sorted, Due, RearmAll, Rearming;
    DrainExactly(q, now, wait, kickAtOnce);
    AfterMember(Drained(q, now, wait, kickAtOnce), now, e);
    hide After;
    var k := Due(q, now);
    if kickAtOnce {
      origin := e;
    } else {
      origin := RearmMember(q[k..], q[..k], now + wait, e);
    }
  }

  lemma PassedTimerSound(cfg: Config, s: State)
    requires TimerSound(s) && Sensible(cfg) && s.timer != [] && s.timer[0].key < s.now
    ensures TimerSound(Passed(cfg, s))
  {
    hide Active, Sorted, Due, Drained, After, Rearming;
    var t := Passed(cfg, s);
    ActiveSame(s, t);
    DrainExactly(s.timer, s.now, cfg.wait, cfg.kickAtOnce);
    forall e | e in t.timer
      ensures Active(t, e.conn) && Live(t, e)
    {
      var origin := DrainedMember(s.timer, s.now, cfg.wait, cfg.kickAtOnce, e);
      assert Live(s, origin) && Active(s, origin.conn);
    }
  }

  lemma PassedIdleSound(cfg: Config, s: State)
    requires TimerSound(s) && s.timer != [] && s.timer[0].key < s.now
    ensures IdleSound(Passed(cfg, s))
  {
    hide Active, Sorted, Due, Drained;
    var t := Passed(cfg, s);
    ActiveSame(s, t);
    assert forall e :: e in t.idle ==> e in s.timer;
  }

  lemma PassedSound(cfg: Config, s: State)
    requires Inv(cfg, s) && s.idle == []
    ensures TimerSound(Passed(cfg, s)) && IdleSound(Passed(cfg, s))
  {
    if s.timer != [] && s.timer[0].key < s.now {
      hide TimerSound, IdleSound;
      PassedTimerSound(cfg, s);
      PassedIdleSound(cfg, s);
    } else {
      ActiveSame(s, Passed(cfg, s));
      hide Active, Sorted;
    }
  }

  lemma ActiveSame(s: State, t: State)
    requires s.conns == t.conns && s.free == t.free && s.recy == t.recy && s.listening == t.listening
    ensures forall c :: Active(s, c) <==> Active(t, c)
  {
    assert Places(s) == Places(t);
  }

  lemma PendingEmpty(c: Id, n: nat)
    ensures !IsPending([], c, n)
  {
  }

  lemma PendingMember(idle: seq<Entry>, e: Entry)
    requires e in idle
    ensures IsPending(idle, e.conn, e.sequence)
  {
  }

  lemma PassedKeys(cfg: Config, s: State)
    requires Inv(cfg, s) && s.idle == []
    ensures Keys(cfg, Passed(cfg, s))
  {
    var t := Passed(cfg, s);
    hide Active, Due, Drained, Partition, Admission, OneEntry, IsPending, IdleSound;
    forall e | e in t.timer
      ensures KeyOk(cfg, t, e)
    {
      PendingEmpty(e.conn, e.sequence);
      if s.timer != [] && s.timer[0].key < s.now {
        var origin := DrainedMember(s.timer, s.now, cfg.wait, cfg.kickAtOnce, e);
        assert KeyOk(cfg, s, origin);
        if e != origin {
          PendingMember(t.idle, origin);
        }
      } else {
        assert KeyOk(cfg, s, e);
        FirstIsLeast(s.timer, e);
      }
    }
  }

  lemma FirstIsLeast(q: seq<Entry>, e: Entry)
    requires Sorted(q) && e in q
    ensures q[0].key <= e.key
  {
  }

  lemma PassedTimer(cfg: Config, s: State)
    requires Inv(cfg, s) && s.idle == []
    ensures TimerInv(cfg, Passed(cfg, s))
  {
    hide Sensible, PoolInv, TimerSound, IdleSound, OneEntry, Keys;
    PassedSound(cfg, s);
    PassedKeys(cfg, s);
    forall d
      ensures OneEntry(cfg, Passed(cfg, s), d)
    {
      PassedOneEntry(cfg, s, d);
    }
  }

  // A check of the monitor.

  /** Dropping the first idle entry, when it is stale or its client is not to
      be kicked. */
  lemma SparedTimer(cfg: Config, s: State)
    requires Inv(cfg, s) && s.idle != [] && !Kicks(cfg, s, s.idle[0])
    ensures TimerInv(cfg, s.(idle := s.idle[1..]))
  {
    var t := s.(idle := s.idle[1..]);
    ActiveSame(s, t);
    hide Active, Sorted, Partition, Admission;
    forall c
      ensures OneEntry(cfg, t, c)
    {
      assert OneEntry(cfg, s, c);
    }
    forall e | e in t.timer
      ensures KeyOk(cfg, t, e)
    {
      assert KeyOk(cfg, s, e) && Live(s, e);
      if IsPending(s.idle, e.conn, e.sequence) && !(s.idle[0].conn == e.conn && s.idle[0].sequence == e.sequence) {
        PendingRest(s.idle, e.conn, e.sequence);
      }
    }
  }

  lemma PendingRest(idle: seq<Entry>, c: Id, n: nat)
    requires IsPending(idle, c, n) && !(idle[0].conn == c && idle[0].sequence == n)
    ensures IsPending(idle[1..], c, n)
  {
    var i :| 0 <= i < |idle| && idle[i].conn == c && idle[i].sequence == n;
    assert idle[1..][i - 1] == idle[i];
  }

  // ---------------------------------------------------------------------
  // Every step keeps the invariant.

  lemma CheckedTimer(cfg: Config, s: State)
    requires Inv(cfg, s) && s.idle != []
    ensures TimerInv(cfg, Checked(cfg, s)) && Partition(Checked(cfg, s))
  {
    var e, t := s.idle[0], s.(idle := s.idle[1..]);
    assert e in s.idle;
    hide TimerSound, OneEntry, Keys, Admission, Sensible, Active;
    if Kicks(cfg, s, e) {
      KickedTimer(cfg, s);
      ClosedKeeps(cfg, t, e.conn);
    } else {
      SparedTimer(cfg, s);
      PartitionSame(s, t);
    }
  }

  lemma PartitionSame(s: State, t: State)
    requires Partition(s) && t.free == s.free && t.recy == s.recy
    requires t.listening == s.listening && |t.conns| == |s.conns|
    requires t.totalCount == s.totalCount && t.freeCount == s.freeCount
    requires t.recyCount == s.recyCount && t.online == s.online
    requires Flagged(t)
    ensures Partition(t)
  {
    assert Places(s) == Places(t);
  }

  lemma KickedTimer(cfg: Config, s: State)
    requires Inv(cfg, s) && s.idle != [] && Kicks(cfg, s, s.idle[0]) && Active(s, s.idle[0].conn)
    ensures TimerInv(cfg, Checked(cfg, s))
    ensures Partition(s.(idle := s.idle[1..])) && Active(s.(idle := s.idle[1..]), s.idle[0].conn)
  {
    hide TimerInv, Active, Flagged, Counted, Closed, Admission;
    var c := s.idle[0].conn;
    ActiveSame(s, s.(idle := s.idle[1..]));
    assert Partition(s.(idle := s.idle[1..])) by {
      FlaggedSame(s, s.(idle := s.idle[1..]));
      PartitionSame(s, s.(idle := s.idle[1..]));
    }
    hide Partition;
    ClosedTimer(cfg, s, c);
    KickedShape(cfg, s);
    DropStale(cfg, Closed(cfg, s, c));
  }

  lemma KickedShape(cfg: Config, s: State)
    requires s.idle != [] && Kicks(cfg, s, s.idle[0]) && Active(s, s.idle[0].conn)
    ensures var closed := Closed(cfg, s, s.idle[0].conn);
      closed.idle == s.idle && !Live(closed, s.idle[0]) && Checked(cfg, s) == closed.(idle := closed.idle[1..])
  {
    hide Others;
  }

  /** Dropping an idle entry that is stale. */
  lemma DropStale(cfg: Config, s: State)
    requires TimerInv(cfg, s) && s.idle != [] && !Live(s, s.idle[0])
    ensures TimerInv(cfg, s.(idle := s.idle[1..]))
  {
    var t := s.(idle := s.idle[1..]);
    ActiveSame(s, t);
    hide Active, Sorted;
    forall c
      ensures OneEntry(cfg, t, c)
    {
      assert OneEntry(cfg, s, c);
    }
    forall e | e in t.timer
      ensures KeyOk(cfg, t, e)
    {
      assert KeyOk(cfg, s, e) && Live(s, e);
      if IsPending(s.idle, e.conn, e.sequence) {
        PendingRest(s.idle, e.conn, e.sequence);
      }
    }
  }

  lemma ClockTimer(cfg: Config, s: State, t: State)
    requires TimerInv(cfg, s) && t.timer == s.timer && t.idle == s.idle && t.lastPass == s.lastPass && s.now <= t.now
    requires |t.conns| == |s.conns| && t.free == s.free && t.recy == s.recy && t.listening == s.listening
    requires forall c :: 0 <= c < |s.conns| ==> t.conns[c].sequence == s.conns[c].sequence && t.conns[c].lastPing >= s.conns[c].lastPing
    ensures TimerInv(cfg, t)
  {
    assert Places(s) == Places(t);
    assert forall c :: Active(s, c) <==> Active(t, c);
    hide Active, Sorted, IsPending, Count, CountSeq;
    forall c
      ensures OneEntry(cfg, t, c)
    {
      assert OneEntry(cfg, s, c);
    }
    forall e | e in t.timer
      ensures KeyOk(cfg, t, e)
    {
      assert KeyOk(cfg, s, e) && Live(s, e);
    }
  }

  lemma PartitionStep(cfg: Config, s: State, e: Event)
    requires Inv(cfg, s) && Enabled(cfg, s, e)
    ensures Partition(Next(cfg, s, e))
  {
    hide TimerInv, Admission, Sensible, Placed;
    match e
    case AcceptFinish(epollOk) =>
      AcceptedKeeps(cfg, s, epollOk);
    case Close(c) =>
      ClosedKeeps(cfg, s, c);
    case RecycleOne(i, _) =>
      RecycledKeeps(s, i);
    case MonitorCheck =>
      CheckedTimer(cfg, s);
    case _ =>
      PartitionSame(s, Next(cfg, s, e));
  }

  lemma TimerStep(cfg: Config, s: State, e: Event)
    requires Inv(cfg, s) && Enabled(cfg, s, e)
    ensures TimerInv(cfg, Next(cfg, s, e))
  {
    hide TimerInv, PoolInv;
    match e
    case AcceptFinish(epollOk) =>
      AcceptedTimer(cfg, s, epollOk);
    case Close(c) =>
      ClosedTimer(cfg, s, c);
    case RecycleOne(i, _) =>
      RecycledTimer(cfg, s, i);
    case MonitorDrain =>
      PassedTimer(cfg, s);
    case MonitorCheck =>
      CheckedTimer(cfg, s);
    case Tick(_) =>
      ClockTimer(cfg, s, Next(cfg, s, e));
    case AcceptCheck =>
      ClockTimer(cfg, s, Next(cfg, s, e));
    case Ping(_) =>
      PingTimer(cfg, s, e);
  }

  lemma PingTimer(cfg: Config, s: State, e: Event)
    requires Inv(cfg, s) && Enabled(cfg, s, e) && e.Ping?
    ensures TimerInv(cfg, Next(cfg, s, e))
  {
    hide TimerInv, Placed, Counted;
    ClockTimer(cfg, s, Next(cfg, s, e));
  }

  lemma AdmissionStep(cfg: Config, s: State, e: Event)
    requires Inv(cfg, s) && Enabled(cfg, s, e)
    ensures Admission(cfg, Next(cfg, s, e))
  {
    hide TimerInv, Placed, Flagged;
  }

  /** Every step of every thread keeps the invariant. */
  lemma InvStep(cfg: Config, s: State, e: Event)
    requires Inv(cfg, s) && Enabled(cfg, s, e)
    ensures Inv(cfg, Next(cfg, s, e))
  {
    PartitionStep(cfg, s, e);
    TimerStep(cfg, s, e);
    AdmissionStep(cfg, s, e);
    hide TimerInv, Partition, Admission, Next;
  }
}
