/** What every run of the connection pool and the kick timer keeps. */
module PoolRuns {
  import opened Common
  import opened Timer
  import opened Pool

  predicate Runs(cfg: Config, s: State, events: seq<Event>, t: State)
    decreases events
  {
    if events == [] then s == t
    else Enabled(cfg, s, events[0]) && Runs(cfg, Next(cfg, s, events[0]), events[1..], t)
  }

  lemma {:induction false} EveryRun(cfg: Config, s: State, events: seq<Event>, t: State)
    requires Inv(cfg, s) && Runs(cfg, s, events, t)
    ensures Inv(cfg, t)
    decreases events
  {
    hide Inv, Enabled, Next;
    if events != [] {
      InvStep(cfg, s, events[0]);
      EveryRun(cfg, Next(cfg, s, events[0]), events[1..], t);
    }
  }

  // ---------------------------------------------------------------------
  // Start-up.

  function Range(n: nat): (r: seq<Id>)
    ensures |r| == n && forall i :: 0 <= i < n ==> r[i] == i
  {
    if n == 0 then [] else Range(n - 1) + [n - 1]
  }

  /** initconnection: every connection is free. */
  function Created(n: nat, now: int): State {
    State(seq(n, i => Conn(1, false, 0, now)), Range(n), [], [], n, n, 0, 0, false, [], [], now, now)
  }

  /** One listening port takes a connection (qc_epoll_init). */
  function Listening(s: State): State
    requires s.free != [] ==> s.free[0] < |s.conns|
  {
    Leased(s).(listening := s.listening + [NextConn(s)])
  }

  ghost predicate StartInv(cfg: Config, s: State) {
    && Partition(s) && s.timer == [] && s.idle == [] && s.lastPass == s.now && s.online == 0 && !s.accepting
    && s.recy == []
    && |s.conns| == (if cfg.workers > |s.listening| then cfg.workers else |s.listening|)
  }

  function Started(cfg: Config, now: int, ports: nat): (s: State)
    ensures StartInv(cfg, s) && |s.listening| == ports && s.now == now
  {
    if ports == 0 then
      var s := Created(cfg.workers, now);
      CreatedStart(cfg, now);
      s
    else
      var s := Started(cfg, now, ports - 1);
      ListeningStart(cfg, s);
      Listening(s)
  }

  lemma CountSnoc(r: seq<Id>, x: Id, c: Id)
    ensures multiset(r + [x])[c] == multiset(r)[c] + if c == x then 1 else 0
  {
    assert multiset(r + [x]) == multiset(r) + multiset{x};
  }

  lemma RangeIs(n: nat)
    ensures Range(n) == if n == 0 then [] else Range(n - 1) + [n - 1]
  {
  }

  lemma {:induction false} RangeCount(n: nat, c: Id)
    ensures multiset(Range(n))[c] == if c < n then 1 else 0
  {
    RangeIs(n);
    hide Range;
    if n > 0 {
      RangeCount(n - 1, c);
      CountSnoc(Range(n - 1), n - 1, c);
    }
  }

  lemma CreatedStart(cfg: Config, now: int)
    ensures StartInv(cfg, Created(cfg.workers, now))
  {
    var s := Created(cfg.workers, now);
    forall c: Id
      ensures Places(s)[c] == if c < cfg.workers then 1 else 0
    {
      RangeCount(cfg.workers, c);
    }
    forall c: Id | c < cfg.workers
      ensures c in s.free
    {
      assert s.free[c] == c;
    }
  }

  lemma ListeningStart(cfg: Config, s: State)
    requires StartInv(cfg, s)
    ensures s.free != [] ==> s.free[0] < |s.conns|
    ensures StartInv(cfg, Listening(s))
  {
    LeasedKeeps(s);
    var c, l, t := NextConn(s), Leased(s).(online := 1), Listening(s);
    assert Places(t) == Places(l) + multiset{c};
    ParkedPlaces(l, t, c);
    assert s.free == [] ==> |s.conns| == |s.listening|;
  }

  /** After start-up the invariant holds. */
  lemma StartedInv(cfg: Config, now: int)
    requires Sensible(cfg)
    ensures Inv(cfg, Started(cfg, now, cfg.listeners))
  {
    var s := Started(cfg, now, cfg.listeners);
    hide Active, Partition;
    forall c
      ensures OneEntry(cfg, s, c)
    {
      NobodyActive(cfg, s, c);
    }
  }

  lemma NobodyActive(cfg: Config, s: State, c: Id)
    requires StartInv(cfg, s)
    ensures !Active(s, c)
  {
    ClientsAreOnline(s);
    assert Clients(s) == {};
    assert c !in Clients(s);
  }

  // ---------------------------------------------------------------------
  // Conservation.

  function Clients(s: State): set<Id> {
    set c | 0 <= c < |s.conns| && Active(s, c)
  }

  lemma {:induction false} CardOfOnce(m: multiset<Id>, n: nat)
    requires forall c :: m[c] <= 1 && (c in m ==> c < n)
    ensures |set c | 0 <= c < n && c !in m| + |m| == n
    decreases n
  {
    var s := set c | 0 <= c < n && c !in m;
    if n == 0 {
      assert m == multiset{};
      assert s == {};
    } else {
      var r := m[n - 1 := 0];
      assert m == r + (if n - 1 in m then multiset{n - 1} else multiset{});
      CardOfOnce(r, n - 1);
      var t := set c | 0 <= c < n - 1 && c !in r;
      assert s == if n - 1 in m then t else t + {n - 1};
    }
  }

  /** The online counter is the number of active clients. */
  lemma ClientsAreOnline(s: State)
    requires Partition(s)
    ensures |Clients(s)| == s.online
  {
    CardOfOnce(Places(s), |s.conns|);
    assert Clients(s) == set c | 0 <= c < |s.conns| && c !in Places(s);
  }

  /** In every reachable state: free + recycling + online + listeners = total,
      each connection is exactly one of these, and with the kick timer on and
      no check outstanding each active client has exactly one timer entry, with
      its current sequence number. */
  lemma Conservation(cfg: Config, now: int, events: seq<Event>, t: State)
    requires Sensible(cfg) && Runs(cfg, Started(cfg, now, cfg.listeners), events, t)
    ensures t.freeCount + t.recyCount + t.online + |t.listening| == t.totalCount == |t.conns|
    ensures t.freeCount == |t.free| && t.recyCount == |t.recy| && t.online == |Clients(t)|
    ensures forall c :: 0 <= c < |t.conns| ==>
      multiset(t.free)[c] + multiset(t.recy)[c] + multiset(t.listening)[c] + (if Active(t, c) then 1 else 0) == 1
    ensures cfg.kickTimer && t.idle == [] ==> forall c :: Count(t.timer, c) == if Active(t, c) then 1 else 0
    ensures forall e :: e in t.timer ==> Live(t, e)
  {
    StartedInv(cfg, now);
    EveryRun(cfg, Started(cfg, now, cfg.listeners), events, t);
    ClientsAreOnline(t);
    forall c | 0 <= c < |t.conns|
      ensures multiset(t.free)[c] + multiset(t.recy)[c] + multiset(t.listening)[c] + (if Active(t, c) then 1 else 0) == 1
    {
      assert Places(t)[c] <= 1;
    }
    forall c | cfg.kickTimer && t.idle == []
      ensures Count(t.timer, c) == if Active(t, c) then 1 else 0
    {
      assert OneEntry(cfg, t, c);
      CountSeqEmpty(c);
    }
  }

  /** Closing keeps the partition exactly for an active client or a connection
      already in the recycle list; msgSend closes without that check. */
  lemma CloseExactly(cfg: Config, s: State, c: Id)
    requires Partition(s) && c < |s.conns|
    ensures Partition(Closed(cfg, s, c)) <==> Active(s, c) || c in s.recy
  {
    if Active(s, c) || c in s.recy {
      ClosedKeeps(cfg, s, c);
    } else {
      ClosedPlaces(cfg, s, c);
      assert Places(s)[c] == 1;
      assert Places(Closed(cfg, s, c))[c] == 2;
    }
  }

  /** The built-in defaults: one worker, one listener, a minute's wait and no
      kick timer. */
  const SMALL := Config(1, 1, 60, false, false, 20)

  /** That server after start-up. */
  function Fresh(accepting: bool): State {
    State([Conn(2, true, 0, 0)], [], [], [0], 1, 0, 0, 0, accepting, [], [], 0, 0)
  }

  /** The same with its first client's connection at some point of its life. */
  function Visited(sequence: nat, open: bool, free: seq<Id>, recy: seq<Id>, now: int): State {
    State([Conn(2, true, 0, 0), Conn(sequence, open, 0, 0)], free, recy, [0], 2, |free|, |recy|, 1 - |free| - |recy|,
          false, [], [], 0, now)
  }

  lemma FreshStarted()
    ensures Started(SMALL, 0, 1) == Fresh(false)
  {
    assert Started(SMALL, 0, 0).conns == [Conn(1, false, 0, 0)];
    assert Started(SMALL, 0, 1) == Listening(Started(SMALL, 0, 0));
  }

  lemma FreshAccepts()
    ensures Enabled(SMALL, Fresh(false), AcceptCheck)
    ensures Next(SMALL, Fresh(false), AcceptCheck) == Fresh(true)
    ensures Enabled(SMALL, Fresh(true), AcceptFinish(true))
    ensures Next(SMALL, Fresh(true), AcceptFinish(true)) == Visited(1, true, [], [], 0)
  {
  }

  lemma VisitCloses()
    ensures Enabled(SMALL, Visited(1, true, [], [], 0), Close(1))
    ensures Next(SMALL, Visited(1, true, [], [], 0), Close(1)) == Visited(2, false, [], [1], 0)
  {
    assert Active(Visited(1, true, [], [], 0), 1);
  }

  lemma VisitEnds()
    ensures Enabled(SMALL, Visited(2, false, [], [1], 0), Tick(60))
    ensures Next(SMALL, Visited(2, false, [], [1], 0), Tick(60)) == Visited(2, false, [], [1], 60)
    ensures Enabled(SMALL, Visited(2, false, [], [1], 60), RecycleOne(0, 60))
    ensures Next(SMALL, Visited(2, false, [], [1], 60), RecycleOne(0, 60)) == Visited(3, false, [1], [], 60)
  {
  }

  /** A client comes, is closed and, a minute later, recycled. Its connection
      is then neither active nor recycling, and another close - msgSend makes
      one for a kept message, see StaleMessageCloses - lists it twice. */
  lemma StaleCloseBreaks() returns (events: seq<Event>, t: State)
    ensures Runs(SMALL, Started(SMALL, 0, SMALL.listeners), events, t)
    ensures 1 < |t.conns| && !Active(t, 1) && 1 !in t.recy && t.conns[1].sequence == 3
    ensures !Partition(Closed(SMALL, t, 1))
  {
    t := Visited(3, false, [1], [], 60);
    assert !Active(t, 1) by {
      assert 1 in t.free && 1 in Places(t);
    }
    assert !Partition(Closed(SMALL, t, 1)) by {
      assert Places(Closed(SMALL, t, 1))[1] == 2;
    }
    hide Next, Enabled, Partition, Closed, Active;
    FreshStarted();
    FreshAccepts();
    VisitCloses();
    VisitEnds();
    events := [];
    assert Runs(SMALL, t, [], t);
    events := RunsFirst(Visited(2, false, [], [1], 60), RecycleOne(0, 60), events, t);
    events := RunsFirst(Visited(2, false, [], [1], 0), Tick(60), events, t);
    events := RunsFirst(Visited(1, true, [], [], 0), Close(1), events, t);
    events := RunsFirst(Fresh(true), AcceptFinish(true), events, t);
    events := RunsFirst(Fresh(false), AcceptCheck, events, t);
  }

  lemma RunsFirst(s: State, e: Event, events: seq<Event>, t: State) returns (longer: seq<Event>)
    requires Enabled(SMALL, s, e) && Runs(SMALL, Next(SMALL, s, e), events, t)
    ensures Runs(SMALL, s, longer, t)
  {
    longer := [e] + events;
    assert longer[1..] == events;
  }

  /** qc_event_accept gives up without returning the connection if the socket
      cannot be made non-blocking after plain accept. */
  function AcceptedBy(cfg: Config, s: State, accept4: bool, nonblockOk: bool, epollOk: bool): State
    requires s.free != [] ==> s.free[0] < |s.conns|
  {
    if !accept4 && !nonblockOk then Leased(s).(accepting := false) else Accepted(cfg, s, epollOk)
  }

  lemma AcceptExactly(cfg: Config, s: State, accept4: bool, nonblockOk: bool, epollOk: bool)
    requires Partition(s)
    ensures s.free != [] ==> s.free[0] < |s.conns|
    ensures Partition(AcceptedBy(cfg, s, accept4, nonblockOk, epollOk)) <==> accept4 || nonblockOk
  {
    hide Placed, Flagged;
    AcceptedKeeps(cfg, s, epollOk);
  }

  /** The first client, taken by plain accept, whose socket cannot be made
      non-blocking: its connection is leased and counted nowhere. */
  lemma LostLease()
    ensures Started(SMALL, 0, SMALL.listeners) == Fresh(false) && Admitted(SMALL, Fresh(false))
    ensures var t := AcceptedBy(SMALL, Fresh(true), false, false, true);
      !Partition(t) && t.freeCount + t.recyCount + t.online + |t.listening| == t.totalCount - 1
  {
    FreshStarted();
  }

  /** Admission bounds, however the recycler acts between check and lease. */
  lemma AdmissionBounds(cfg: Config, now: int, events: seq<Event>, t: State)
    requires Sensible(cfg) && Runs(cfg, Started(cfg, now, cfg.listeners), events, t)
    ensures t.totalCount <= Bound(cfg) && 0 <= t.online <= cfg.workers
  {
    StartedInv(cfg, now);
    EveryRun(cfg, Started(cfg, now, cfg.listeners), events, t);
    ClientsAreOnline(t);
  }

  /** The free list is a queue: the connection freed longest ago is leased
      first, and a new one is created only if none is free. */
  lemma FreeListIsQueue(cfg: Config, s: State, e: Event)
    requires Inv(cfg, s) && Enabled(cfg, s, e)
    ensures var t := Next(cfg, s, e);
      var c, rest := if s.free == [] then |s.conns| else s.free[0], if s.free == [] then [] else s.free[1..];
      match e
      case AcceptFinish(epollOk) =>
        && |t.conns| == |s.conns| + (if s.free == [] then 1 else 0)
        && t.free == (if epollOk then rest else rest + [c]) && (epollOk ==> Active(t, c))
      case RecycleOne(i, _) => t.free == s.free + [s.recy[i]] && |t.conns| == |s.conns|
      case _ => t.free == s.free && |t.conns| == |s.conns|
  {
    hide TimerInv, Admission, Active, Insert, Others, Drained, Due;
    if e.AcceptFinish? {
      AcceptedKeeps(cfg, s, e.epollOk);
    }
  }

  // How full the server gets.

  /** No client has left yet, and connections were created only as needed. */
  ghost predicate Filling(cfg: Config, s: State) {
    && Inv(cfg, s) && !s.accepting && s.recy == []
    && |s.conns| <= if cfg.workers > cfg.listeners + s.online then cfg.workers else cfg.listeners + s.online
  }

  lemma FillStep(cfg: Config, s: State)
    requires Filling(cfg, s) && cfg.listeners <= 4 * cfg.workers + 1 && s.online < cfg.workers
    ensures Enabled(cfg, s, AcceptCheck) && Enabled(cfg, Next(cfg, s, AcceptCheck), AcceptFinish(true))
    ensures var t := Next(cfg, Next(cfg, s, AcceptCheck), AcceptFinish(true));
      Filling(cfg, t) && t.online == s.online + 1
  {
    hide TimerInv, Placed, Flagged, Insert;
    var u := Next(cfg, s, AcceptCheck);
    InvStep(cfg, s, AcceptCheck);
    LeasedPlaced(u);
    InvStep(cfg, u, AcceptFinish(true));
  }

  lemma {:induction false} FillRun(cfg: Config, s: State) returns (events: seq<Event>, t: State)
    requires Filling(cfg, s) && cfg.listeners <= 4 * cfg.workers + 1 && s.online <= cfg.workers
    ensures Runs(cfg, s, events, t) && t.online == cfg.workers
    decreases cfg.workers - s.online
  {
    hide Filling, Next, Enabled;
    if s.online == cfg.workers {
      events, t := [], s;
    } else {
      FillStep(cfg, s);
      var u := Next(cfg, s, AcceptCheck);
      events, t := FillRun(cfg, Next(cfg, u, AcceptFinish(true)));
      var one := [AcceptFinish(true)] + events;
      assert one[1..] == events;
      assert Runs(cfg, u, one, t);
      events := [AcceptCheck] + one;
      assert events[1..] == one;
    }
  }

  lemma FillStart(cfg: Config, now: int)
    requires Sensible(cfg)
    ensures Filling(cfg, Started(cfg, now, cfg.listeners)) && Started(cfg, now, cfg.listeners).online == 0
  {
    StartedInv(cfg, now);
    hide Inv, Partition;
  }

  lemma TooManyListeners(cfg: Config, s: State)
    requires Inv(cfg, s) && s.online == cfg.workers
    ensures cfg.listeners <= 4 * cfg.workers + 1
  {
    hide TimerInv, Placed, Flagged;
  }

  /** All W clients can be online at once if and only if there are at most
      4W + 1 listeners: with more of them the pool passes 5W connections, none
      of them free, before it is full. */
  lemma FullHouse(cfg: Config, now: int)
    requires Sensible(cfg)
    ensures (exists events, t :: Runs(cfg, Started(cfg, now, cfg.listeners), events, t) && t.online == cfg.workers) <==>
      cfg.listeners <= 4 * cfg.workers + 1
  {
    hide Inv, Filling, Runs;
    var s := Started(cfg, now, cfg.listeners);
    if cfg.listeners <= 4 * cfg.workers + 1 {
      FillStart(cfg, now);
      var events, t := FillRun(cfg, s);
    }
    StartedInv(cfg, now);
    forall events, t | Runs(cfg, s, events, t) && t.online == cfg.workers
      ensures cfg.listeners <= 4 * cfg.workers + 1
    {
      EveryRun(cfg, s, events, t);
      TooManyListeners(cfg, t);
    }
  }

  // ---------------------------------------------------------------------
  // Lease safety.

  /** The step closes or frees the lease that connection c is on. */
  predicate Ends(cfg: Config, s: State, e: Event, c: Id)
    requires Enabled(cfg, s, e)
  {
    match e
    case Close(d) => d == c && c !in s.recy
    case RecycleOne(i, _) => s.recy[i] == c
    case MonitorCheck => Kicks(cfg, s, s.idle[0]) && s.idle[0].conn == c && c !in s.recy
    case _ => false
  }

  predicate EndedIn(cfg: Config, s: State, events: seq<Event>, c: Id)
    decreases events
  {
    events != [] && Enabled(cfg, s, events[0])
    && (Ends(cfg, s, events[0], c) || EndedIn(cfg, Next(cfg, s, events[0]), events[1..], c))
  }

  /** What one step does to connection c's sequence number; ended says that the
      step ends c's lease. */
  predicate Steps(s: State, t: State, c: Id, ended: bool) {
    && c < |s.conns| <= |t.conns|
    && t.conns[c].sequence >= s.conns[c].sequence
    && (ended ==> t.conns[c].sequence > s.conns[c].sequence)
    && (Active(s, c) && !ended ==> t.conns[c].sequence == s.conns[c].sequence && Active(t, c))
  }

  lemma AcceptedNumber(cfg: Config, s: State, epollOk: bool, c: Id)
    requires c < |s.conns| && (s.free != [] ==> s.free[0] < |s.conns|)
    ensures var t := Accepted(cfg, s, epollOk);
      && |s.conns| <= |t.conns| && t.conns[c].sequence >= s.conns[c].sequence
      && (c != NextConn(s) ==> t.conns[c].sequence == s.conns[c].sequence)
  {
    hide Insert;
  }

  lemma AcceptedSequence(cfg: Config, s: State, epollOk: bool, c: Id)
    requires Partition(s) && c < |s.conns|
    ensures s.free != [] ==> s.free[0] < |s.conns|
    ensures Steps(s, Accepted(cfg, s, epollOk), c, false)
  {
    hide Active, Partition, Accepted, NextConn;
    NextIsFree(s);
    AcceptedKeeps(cfg, s, epollOk);
    AcceptedNumber(cfg, s, epollOk, c);
  }

  lemma ClosedSequence(cfg: Config, s: State, d: Id, c: Id)
    requires Partition(s) && c < |s.conns| && d < |s.conns| && (Active(s, d) || d in s.recy)
    ensures Steps(s, Closed(cfg, s, d), c, d == c && c !in s.recy)
    ensures Active(s, c) ==> c !in s.recy
  {
    assert Active(s, c) ==> c !in s.recy;
    ClosedKeeps(cfg, s, d);
    hide Active, Others, Partition;
  }

  lemma RecycledSequence(s: State, i: nat, c: Id)
    requires Partition(s) && i < |s.recy| && s.recy[i] < |s.conns| && c < |s.conns|
    ensures Steps(s, Recycled(s, i), c, s.recy[i] == c)
  {
    RecycledKeeps(s, i);
    hide Active, Partition;
  }

  lemma CheckedSequence(cfg: Config, s: State, c: Id)
    requires Inv(cfg, s) && s.idle != [] && c < |s.conns|
    ensures Steps(s, Checked(cfg, s), c, Kicks(cfg, s, s.idle[0]) && s.idle[0].conn == c && c !in s.recy)
  {
    var e, t := s.idle[0], s.(idle := s.idle[1..]);
    assert e in s.idle;
    ActiveAlike(s, t);
    hide TimerSound, OneEntry, Keys, Admission, Closed, Placed, Counted;
    if Kicks(cfg, s, e) {
      assert Active(s, e.conn);
      PartitionSame(s, t);
      ClosedSequence(cfg, t, e.conn, c);
    }
  }

  lemma SequenceStep(cfg: Config, s: State, e: Event, c: Id)
    requires Inv(cfg, s) && Enabled(cfg, s, e) && c < |s.conns|
    ensures Steps(s, Next(cfg, s, e), c, Ends(cfg, s, e, c))
  {
    hide Active, Admission, TimerInv, Flagged, Counted, Accepted, Closed, Recycled, Checked, Drained, Admitted;
    var t := Next(cfg, s, e);
    match e
    case AcceptFinish(epollOk) =>
      AcceptedSequence(cfg, s, epollOk, c);
    case Close(d) =>
      ClosedSequence(cfg, s, d, c);
    case RecycleOne(i, _) =>
      RecycledSequence(s, i, c);
    case MonitorCheck =>
      CheckedSequence(cfg, s, c);
    case _ =>
      ActiveAlike(s, t);
  }

  lemma ActiveAlike(s: State, t: State)
    requires |s.conns| == |t.conns| && s.free == t.free && s.recy == t.recy && s.listening == t.listening
    ensures forall c :: Active(s, c) <==> Active(t, c)
  {
    assert Places(s) == Places(t);
  }

  lemma CheckedActive(cfg: Config, s: State, c: Id)
    requires Inv(cfg, s) && s.idle != []
    ensures Active(Checked(cfg, s), c) <==> Active(s, c) && !(Kicks(cfg, s, s.idle[0]) && s.idle[0].conn == c)
  {
    var e, t := s.idle[0], s.(idle := s.idle[1..]);
    assert e in s.idle;
    ActiveAlike(s, t);
    hide Active, TimerSound, OneEntry, Keys, Admission;
    if Kicks(cfg, s, e) {
      PartitionSame(s, t);
      ClosedKeeps(cfg, t, e.conn);
    }
  }

  lemma {:induction false} SequenceGrows(cfg: Config, s: State, events: seq<Event>, t: State, c: Id)
    requires Inv(cfg, s) && Runs(cfg, s, events, t) && c < |s.conns|
    ensures c < |t.conns| && t.conns[c].sequence >= s.conns[c].sequence
    decreases events
  {
    hide Inv, Enabled, Next;
    if events != [] {
      InvStep(cfg, s, events[0]);
      SequenceStep(cfg, s, events[0], c);
      SequenceGrows(cfg, Next(cfg, s, events[0]), events[1..], t, c);
    }
  }

  /** A (connection, sequence) pair captured during a lease matches later if
      and only if that lease has not been closed or freed since. */
  lemma {:induction false} LeaseMatches(cfg: Config, s: State, events: seq<Event>, t: State, c: Id)
    requires Inv(cfg, s) && Runs(cfg, s, events, t) && Active(s, c)
    ensures c < |t.conns|
    ensures t.conns[c].sequence == s.conns[c].sequence <==> !EndedIn(cfg, s, events, c)
    ensures !EndedIn(cfg, s, events, c) ==> Active(t, c)
    decreases events
  {
    hide Inv, Enabled, Next, Ends;
    if events != [] {
      var e := events[0];
      InvStep(cfg, s, e);
      SequenceStep(cfg, s, e, c);
      if Ends(cfg, s, e, c) {
        SequenceGrows(cfg, Next(cfg, s, e), events[1..], t, c);
      } else {
        LeaseMatches(cfg, Next(cfg, s, e), events[1..], t, c);
      }
    }
  }

  /** A connection stays in the recycle list until its wait is over. */
  predicate Quarantined(cfg: Config, s: State, c: Id, since: int) {
    s.now >= since + cfg.recycleWait || (c in s.recy && c < |s.conns| && s.conns[c].inRecyTime == since)
  }

  lemma QuarantineStep(cfg: Config, s: State, e: Event, c: Id, since: int)
    requires Inv(cfg, s) && Enabled(cfg, s, e) && Quarantined(cfg, s, c, since)
    ensures Quarantined(cfg, Next(cfg, s, e), c, since)
  {
    NowGrows(cfg, s, e);
    if c in s.recy {
      FreeIsApart(s, c);
      QuarantineStays(cfg, s, e, c);
    }
    hide Next, Inv;
  }

  lemma QuarantineStays(cfg: Config, s: State, e: Event, c: Id)
    requires Partition(s) && Enabled(cfg, s, e) && c in s.recy && c < |s.conns|
    ensures Stays(s, Next(cfg, s, e), c) || (e.RecycleOne? && s.recy[e.i] == c)
  {
    hide Flagged, Counted, Placed, Recycled, Accepted, Closed, Checked, Drained, Admitted;
    match e
    case RecycleOne(i, _) =>
      QuarantineRecycled(s, i, c);
    case AcceptFinish(epollOk) =>
      QuarantineAccepted(cfg, s, epollOk, c);
    case Close(d) =>
      QuarantineClosed(cfg, s, d, c);
    case MonitorCheck =>
      QuarantineChecked(cfg, s, c);
    case _ =>
  }

  lemma NowGrows(cfg: Config, s: State, e: Event)
    requires Enabled(cfg, s, e)
    ensures Next(cfg, s, e).now >= s.now
  {
    hide Active, Admitted, Others, Insert, Drained, Due;
  }

  /** The connection is in the recycle list still, and was not closed again. */
  predicate Stays(s: State, t: State, c: Id) {
    c in t.recy && c < |s.conns| <= |t.conns| && t.conns[c].inRecyTime == s.conns[c].inRecyTime
  }

  lemma QuarantineRecycled(s: State, i: nat, c: Id)
    requires i < |s.recy| && s.recy[i] < |s.conns| && c in s.recy && c < |s.conns|
    ensures Recycled(s, i).now == s.now
    ensures c != s.recy[i] ==> Stays(s, Recycled(s, i), c)
  {
    assert s.recy == s.recy[..i] + [s.recy[i]] + s.recy[i + 1..];
  }

  lemma QuarantineAccepted(cfg: Config, s: State, epollOk: bool, c: Id)
    requires Placed(s) && c in s.recy && (s.free != [] ==> s.free[0] < |s.conns|)
    ensures Stays(s, Accepted(cfg, s, epollOk), c)
  {
    FreeIsApart(s, c);
    hide Placed, Insert;
  }

  lemma QuarantineClosed(cfg: Config, s: State, d: Id, c: Id)
    requires c < |s.conns| && d < |s.conns| && c in s.recy
    ensures Stays(s, Closed(cfg, s, d), c)
  {
    hide Others;
    var i :| 0 <= i < |s.recy| && s.recy[i] == c;
    assert Closed(cfg, s, d).recy[i] == c;
  }

  lemma QuarantineChecked(cfg: Config, s: State, c: Id)
    requires c < |s.conns| && c in s.recy && s.idle != []
    ensures Stays(s, Checked(cfg, s), c)
  {
    if Kicks(cfg, s, s.idle[0]) {
      QuarantineClosed(cfg, s.(idle := s.idle[1..]), s.idle[0].conn, c);
      hide Closed;
    }
  }

  lemma FreeIsApart(s: State, c: Id)
    requires Placed(s) && c in s.recy
    ensures c < |s.conns| && NextConn(s) != c
  {
    assert Places(s)[c] <= 1 && c in Places(s);
    assert multiset(s.recy)[c] >= 1;
    assert s.free != [] ==> multiset(s.free)[s.free[0]] >= 1;
  }

  lemma {:induction false} QuarantineRun(cfg: Config, s: State, events: seq<Event>, t: State, c: Id, since: int)
    requires Inv(cfg, s) && Runs(cfg, s, events, t) && Quarantined(cfg, s, c, since)
    ensures Inv(cfg, t) && Quarantined(cfg, t, c, since)
    decreases events
  {
    hide Inv, Enabled, Next, Quarantined;
    if events != [] {
      InvStep(cfg, s, events[0]);
      QuarantineStep(cfg, s, events[0], c, since);
      QuarantineRun(cfg, Next(cfg, s, events[0]), events[1..], t, c, since);
    }
  }

  lemma QuarantineStart(cfg: Config, s: State, e: Event, c: Id)
    requires Inv(cfg, s) && Enabled(cfg, s, e) && Active(s, c) && !Active(Next(cfg, s, e), c)
    ensures Quarantined(cfg, Next(cfg, s, e), c, s.now)
  {
    PartitionOf(cfg, s);
    ActiveInRange(s, c);
    NotRecycling(s, c);
    SequenceStep(cfg, s, e, c);
    hide Inv, Active, Partition;
    match e
    case Close(_) =>
      ClosedParks(cfg, s, c);
    case RecycleOne(i, _) =>
    case MonitorCheck =>
      ClosedParks(cfg, s.(idle := s.idle[1..]), c);
    case _ =>
  }

  lemma NotRecycling(s: State, c: Id)
    requires Active(s, c)
    ensures c !in s.recy
  {
  }

  lemma ClosedParks(cfg: Config, s: State, c: Id)
    requires c < |s.conns| && c !in s.recy
    ensures var t := Closed(cfg, s, c);
      c in t.recy && c < |t.conns| && t.conns[c].inRecyTime == s.now && t.now == s.now
  {
    hide Others;
    assert Closed(cfg, s, c).recy[|s.recy|] == c;
  }

  /** Whoever ended a lease - a worker, the reader, msgSend or the monitor - the
      connection is not leased again before the recycle wait is over, so a
      holder that finishes within the wait never touches a new lease. */
  lemma NoEarlyReuse(cfg: Config, s: State, e: Event, c: Id, events: seq<Event>, t: State)
    requires Inv(cfg, s) && Enabled(cfg, s, e) && Active(s, c) && !Active(Next(cfg, s, e), c)
    requires Runs(cfg, Next(cfg, s, e), events, t) && Active(t, c)
    ensures t.now >= s.now + cfg.recycleWait
  {
    QuarantineStart(cfg, s, e, c);
    hide Inv, Enabled, Next;
    InvStep(cfg, s, e);
    QuarantineRun(cfg, Next(cfg, s, e), events, t, c, s.now);
    NotRecycling(t, c);
  }

  // ---------------------------------------------------------------------
  // The heartbeat.

  /** With kick-at-once off, an active client that the monitor has not still to
      check has pinged within the patience, one wait and the time since the
      last pass. */
  lemma Heartbeat(cfg: Config, s: State, c: Id)
    requires Inv(cfg, s) && cfg.kickTimer && !cfg.kickAtOnce
    requires Active(s, c) && !IsPending(s.idle, c, s.conns[c].sequence)
    ensures s.lastPass <= s.conns[c].lastPing + (3 * cfg.wait + 10) + cfg.wait
  {
    hide PoolInv, IsPending, Active, Sorted;
    assert OneEntry(cfg, s, c);
    var i := CountFinds(s.timer, c);
    var e := s.timer[i];
    assert e in s.timer && Live(s, e) && KeyOk(cfg, s, e);
  }

  /** The monitor closes a client exactly when its check finds more than the
      patience since the last ping. */
  lemma MonitorClosesExactly(cfg: Config, s: State, c: Id)
    requires Inv(cfg, s) && !cfg.kickAtOnce && s.idle != [] && Active(s, c)
    ensures Active(Next(cfg, s, MonitorCheck), c) <==>
      !(s.idle[0].conn == c && s.idle[0].sequence == s.conns[c].sequence && s.lastPass - s.conns[c].lastPing > 3 * cfg.wait + 10)
  {
    CheckedActive(cfg, s, c);
  }

  /** The time since connection c's latest ping, after one more event. */
  function Elapsed(e: Event, c: Id, elapsed: int): int {
    match e
    case Tick(d) => elapsed + d
    case Ping(x) => if x == c then 0 else elapsed
    case _ => elapsed
  }

  /** No gap between c's pings is longer than limit, counting from elapsed. */
  predicate Regular(events: seq<Event>, c: Id, elapsed: int, limit: int)
    decreases events
  {
    elapsed <= limit && (events != [] ==> Regular(events[1..], c, Elapsed(events[0], c, elapsed), limit))
  }

  /** Some check in the run closes c. */
  predicate KickedIn(cfg: Config, s: State, events: seq<Event>, c: Id)
    decreases events
  {
    && events != [] && Enabled(cfg, s, events[0])
    && var t := Next(cfg, s, events[0]);
       (events[0].MonitorCheck? && Active(s, c) && !Active(t, c)) || KickedIn(cfg, t, events[1..], c)
  }

  lemma AcceptedElapsed(cfg: Config, s: State, epollOk: bool, c: Id)
    requires Flagged(s) && c < |s.conns| && (s.free != [] ==> s.free[0] < |s.conns|)
    ensures c < |Accepted(cfg, s, epollOk).conns| && Accepted(cfg, s, epollOk).now == s.now
    ensures Accepted(cfg, s, epollOk).conns[c].lastPing >= s.conns[c].lastPing
  {
    hide Insert;
  }

  lemma PassedElapsed(cfg: Config, s: State)
    ensures Passed(cfg, s).conns == s.conns && Passed(cfg, s).now == s.now
  {
  }

  lemma ElapsedStep(cfg: Config, s: State, e: Event, c: Id, elapsed: int)
    requires Inv(cfg, s) && Enabled(cfg, s, e) && c < |s.conns| && s.now - s.conns[c].lastPing <= elapsed
    ensures c < |Next(cfg, s, e).conns|
    ensures Next(cfg, s, e).now - Next(cfg, s, e).conns[c].lastPing <= Elapsed(e, c, elapsed)
  {
    hide Placed, Counted, Admission, TimerInv, Accepted, Passed, Others, Admitted, Active;
    if e.AcceptFinish? {
      AcceptedElapsed(cfg, s, e.epollOk, c);
    } else if e.MonitorDrain? {
      PassedElapsed(cfg, s);
    }
  }

  /** A client whose ping gaps stay within 3W + 10 is never closed by the monitor. */
  lemma {:induction false} PunctualNeverKicked(cfg: Config, s: State, events: seq<Event>, t: State, c: Id, elapsed: int)
    requires Inv(cfg, s) && !cfg.kickAtOnce && Runs(cfg, s, events, t)
    requires c < |s.conns| && s.now - s.conns[c].lastPing <= elapsed && Regular(events, c, elapsed, 3 * cfg.wait + 10)
    ensures !KickedIn(cfg, s, events, c)
    decreases events
  {
    hide Inv, Active, Next, Enabled, Elapsed;
    if events != [] {
      var e := events[0];
      InvStep(cfg, s, e);
      ElapsedStep(cfg, s, e, c, elapsed);
      if e.MonitorCheck? && Active(s, c) {
        RecentNotKicked(cfg, s, c);
      }
      PunctualNeverKicked(cfg, Next(cfg, s, e), events[1..], t, c, Elapsed(e, c, elapsed));
    }
  }

  lemma AcceptedFresh(cfg: Config, s: State)
    requires Inv(cfg, s) && Enabled(cfg, s, AcceptFinish(true))
    ensures var c, t := NextConn(s), Next(cfg, s, AcceptFinish(true));
      && c < |t.conns| && Active(t, c) && t.conns[c].open && t.now == s.now
      && t.conns[c].lastPing == s.now
      && t.conns[c].sequence == (if c < |s.conns| then s.conns[c].sequence + 1 else 1)
  {
    PartitionOf(cfg, s);
    AcceptedKeeps(cfg, s, true);
    hide Inv, Partition, Active, Insert;
  }

  /** In particular a client is safe from the monitor if it pings within 3W + 10
      of being accepted and of every ping after that. */
  lemma PunctualFromAccept(cfg: Config, s: State, events: seq<Event>, t: State)
    requires Inv(cfg, s) && !cfg.kickAtOnce && Enabled(cfg, s, AcceptFinish(true))
    requires Runs(cfg, Next(cfg, s, AcceptFinish(true)), events, t)
    requires Regular(events, NextConn(s), 0, 3 * cfg.wait + 10)
    ensures Active(Next(cfg, s, AcceptFinish(true)), NextConn(s))
    ensures !KickedIn(cfg, Next(cfg, s, AcceptFinish(true)), events, NextConn(s))
  {
    hide Inv, Active, Next, Enabled, Runs, KickedIn, Regular;
    AcceptedFresh(cfg, s);
    InvStep(cfg, s, AcceptFinish(true));
    PunctualNeverKicked(cfg, Next(cfg, s, AcceptFinish(true)), events, t, NextConn(s), 0);
  }

  lemma RecentNotKicked(cfg: Config, s: State, c: Id)
    requires Inv(cfg, s) && !cfg.kickAtOnce && Enabled(cfg, s, MonitorCheck) && Active(s, c)
    requires c < |s.conns| && s.now - s.conns[c].lastPing <= Patience(cfg)
    ensures Active(Next(cfg, s, MonitorCheck), c)
  {
    PassedBefore(cfg, s);
    hide Inv, Active, Next;
    MonitorClosesExactly(cfg, s, c);
  }

  lemma PassedBefore(cfg: Config, s: State)
    requires Inv(cfg, s)
    ensures s.lastPass <= s.now
  {
  }

  lemma ActiveInRange(s: State, c: Id)
    requires Active(s, c)
    ensures c < |s.conns|
  {
  }

  predicate Silent(events: seq<Event>, c: Id) {
    forall i :: 0 <= i < |events| ==> events[i] != Ping(c)
  }

  lemma AcceptedPing(cfg: Config, s: State, epollOk: bool, c: Id)
    requires c < |s.conns| && c != NextConn(s) && (s.free != [] ==> s.free[0] < |s.conns|)
    ensures c < |Accepted(cfg, s, epollOk).conns| && Accepted(cfg, s, epollOk).conns[c].lastPing == s.conns[c].lastPing
  {
    hide Insert;
  }

  lemma ClosedPing(cfg: Config, s: State, d: Id, c: Id)
    requires c < |s.conns| && d < |s.conns|
    ensures c < |Closed(cfg, s, d).conns| && Closed(cfg, s, d).conns[c].lastPing == s.conns[c].lastPing
  {
    hide Others;
  }

  lemma CheckedPing(cfg: Config, s: State, c: Id)
    requires c < |s.conns| && s.idle != []
    ensures c < |Checked(cfg, s).conns| && Checked(cfg, s).conns[c].lastPing == s.conns[c].lastPing
  {
    hide Closed;
    if Kicks(cfg, s, s.idle[0]) {
      ClosedPing(cfg, s.(idle := s.idle[1..]), s.idle[0].conn, c);
    }
  }

  lemma PingStep(cfg: Config, s: State, e: Event, c: Id)
    requires Inv(cfg, s) && Enabled(cfg, s, e) && Active(s, c) && e != Ping(c)
    ensures c < |Next(cfg, s, e).conns| && Next(cfg, s, e).conns[c].lastPing == s.conns[c].lastPing
  {
    hide Inv, Active, Accepted, Closed, Checked, Passed, Admitted;
    PartitionOf(cfg, s);
    NextIsFree(s);
    ActiveInRange(s, c);
    match e
    case AcceptFinish(epollOk) =>
      AcceptedPing(cfg, s, epollOk, c);
    case Close(d) =>
      ClosedPing(cfg, s, d, c);
    case MonitorCheck =>
      CheckedPing(cfg, s, c);
    case MonitorDrain =>
      PassedElapsed(cfg, s);
    case _ =>
  }

  lemma PartitionOf(cfg: Config, s: State)
    requires Inv(cfg, s)
    ensures Partition(s)
  {
  }

  lemma {:induction false} PingRun(cfg: Config, s: State, events: seq<Event>, t: State, c: Id)
    requires Inv(cfg, s) && Runs(cfg, s, events, t) && Active(s, c) && Silent(events, c) && !EndedIn(cfg, s, events, c)
    ensures c < |t.conns| && t.conns[c].lastPing == s.conns[c].lastPing && Active(t, c)
    decreases events
  {
    hide Inv, Active, Next, Enabled, Ends;
    if events == [] {
      ActiveInRange(s, c);
    } else {
      var e := events[0];
      ActiveInRange(s, c);
      InvStep(cfg, s, e);
      PingStep(cfg, s, e, c);
      SequenceStep(cfg, s, e, c);
      PingRun(cfg, Next(cfg, s, e), events[1..], t, c);
    }
  }

  /** A client that stops pinging is closed no later than (3W + 10) + W + d
      seconds after its last ping, if the monitor passes at most d seconds
      apart and its latest pass is complete. */
  lemma SilentIsClosed(cfg: Config, s: State, events: seq<Event>, t: State, c: Id, d: nat)
    requires Inv(cfg, s) && cfg.kickTimer && !cfg.kickAtOnce
    requires Runs(cfg, s, events, t) && Active(s, c) && Silent(events, c)
    requires t.idle == [] && t.now <= t.lastPass + d
    requires t.now > s.conns[c].lastPing + (3 * cfg.wait + 10) + cfg.wait + d
    ensures EndedIn(cfg, s, events, c)
  {
    hide Inv;
    if !EndedIn(cfg, s, events, c) {
      EveryRun(cfg, s, events, t);
      PingRun(cfg, s, events, t, c);
      PendingEmpty(c, t.conns[c].sequence);
      Heartbeat(cfg, t, c);
    }
  }

  // ---------------------------------------------------------------------
  // Passes of the monitor, and kicking at once.

  /** A pass does something if and only if some entry's time is past; then it
      takes exactly the entries whose time has come. */
  lemma PassExactly(cfg: Config, s: State, e: Entry)
    requires Inv(cfg, s) && s.idle == []
    ensures e in Passed(cfg, s).idle <==> e in s.timer && e.key <= s.now && exists x :: x in s.timer && x.key < s.now
    ensures Passed(cfg, s).lastPass == s.now
  {
    TimerIsSorted(cfg, s);
    DueExactly(s.timer, s.now);
    hide Inv, Due, Drained, After;
    var k := Due(s.timer, s.now);
    if s.timer != [] {
      if s.timer[0].key < s.now {
        assert s.timer[0] in s.timer;
        if e in s.timer && e.key <= s.now {
          var i :| 0 <= i < |s.timer| && s.timer[i] == e;
          assert s.timer[..k][i] == e;
        }
      } else {
        forall x | x in s.timer
          ensures x.key >= s.now
        {
          FirstIsLeast(s.timer, x);
        }
      }
    }
  }

  lemma TimerIsSorted(cfg: Config, s: State)
    requires Inv(cfg, s)
    ensures Sorted(s.timer)
  {
  }

  /** The timer's entry for lease n of c has the time due, and one taken from it
      was taken no earlier. */
  ghost predicate DueAt(s: State, c: Id, n: nat, due: int) {
    && (forall e :: e in s.timer && e.conn == c && e.sequence == n ==> e.key == due)
    && (forall e :: e in s.idle && e.conn == c && e.sequence == n ==> s.lastPass >= due)
  }

  lemma AcceptedDue(cfg: Config, s: State, epollOk: bool, c: Id, n: nat, due: int)
    requires DueAt(s, c, n, due) && c < |s.conns| && n <= s.conns[c].sequence && (s.free != [] ==> s.free[0] < |s.conns|)
    ensures DueAt(Accepted(cfg, s, epollOk), c, n, due)
  {
    hide Insert;
    var t, d := Accepted(cfg, s, epollOk), NextConn(s);
    if epollOk && cfg.kickTimer {
      var x := Entry(t.now + cfg.wait, d, t.conns[d].sequence);
      forall e | e in t.timer && e.conn == c && e.sequence == n
        ensures e.key == due
      {
        InsertMember(s.timer, x, e);
      }
    }
  }

  lemma ClosedDue(cfg: Config, s: State, d: Id, c: Id, n: nat, due: int)
    requires DueAt(s, c, n, due) && d < |s.conns|
    ensures DueAt(Closed(cfg, s, d), c, n, due)
  {
    OthersOnly(s.timer, d);
    hide Others, Sorted;
  }

  lemma PassedDue(cfg: Config, s: State, c: Id, n: nat, due: int)
    requires Inv(cfg, s) && s.idle == [] && cfg.kickAtOnce && DueAt(s, c, n, due)
    ensures DueAt(Passed(cfg, s), c, n, due)
  {
    hide Inv, Drained, Due, Sorted;
    TimerIsSorted(cfg, s);
    WaitIsPositive(cfg, s);
    var t := Passed(cfg, s);
    if s.timer != [] && s.timer[0].key < s.now {
      forall e | e in t.timer && e.conn == c && e.sequence == n
        ensures e.key == due
      {
        var origin := DrainedMember(s.timer, s.now, cfg.wait, true, e);
      }
      forall e | e in t.idle && e.conn == c && e.sequence == n
        ensures t.lastPass >= due
      {
        assert e in s.timer;
        PassExactly(cfg, s, e);
      }
    }
  }

  lemma WaitIsPositive(cfg: Config, s: State)
    requires Inv(cfg, s)
    ensures cfg.wait > 0
  {
  }

  lemma CheckedDue(cfg: Config, s: State, c: Id, n: nat, due: int)
    requires Inv(cfg, s) && s.idle != [] && DueAt(s, c, n, due)
    ensures DueAt(Checked(cfg, s), c, n, due)
  {
    hide Inv, Closed, Active;
    var t := s.(idle := s.idle[1..]);
    assert DueAt(t, c, n, due);
    if Kicks(cfg, s, s.idle[0]) {
      ClosedDue(cfg, t, s.idle[0].conn, c, n, due);
    }
  }

  lemma DueStep(cfg: Config, s: State, e: Event, c: Id, n: nat, due: int)
    requires Inv(cfg, s) && Enabled(cfg, s, e) && cfg.kickAtOnce && DueAt(s, c, n, due)
    requires c < |s.conns| && n <= s.conns[c].sequence
    ensures DueAt(Next(cfg, s, e), c, n, due)
  {
    hide Inv, Active, Accepted, Closed, Checked, Passed, Admitted;
    match e
    case AcceptFinish(epollOk) => AcceptedDue(cfg, s, epollOk, c, n, due);
    case Close(d) => ClosedDue(cfg, s, d, c, n, due);
    case MonitorDrain => PassedDue(cfg, s, c, n, due);
    case MonitorCheck => CheckedDue(cfg, s, c, n, due);
    case _ =>
  }

  lemma {:induction false} DueRun(cfg: Config, s: State, events: seq<Event>, t: State, c: Id, n: nat, due: int)
    requires Inv(cfg, s) && Runs(cfg, s, events, t) && cfg.kickAtOnce && DueAt(s, c, n, due)
    requires c < |s.conns| && n <= s.conns[c].sequence
    ensures Inv(cfg, t) && DueAt(t, c, n, due)
    decreases events
  {
    hide Inv, Enabled, Next, DueAt, Ends, Active;
    if events != [] {
      InvStep(cfg, s, events[0]);
      DueStep(cfg, s, events[0], c, n, due);
      SequenceStep(cfg, s, events[0], c);
      DueRun(cfg, Next(cfg, s, events[0]), events[1..], t, c, n, due);
    }
  }

  lemma NewClientDue(cfg: Config, s: State)
    requires Inv(cfg, s) && Enabled(cfg, s, AcceptFinish(true)) && cfg.kickTimer
    ensures var c, t := NextConn(s), Accepted(cfg, s, true);
      c < |t.conns| && Active(t, c) && DueAt(t, c, t.conns[c].sequence, s.now + cfg.wait)
  {
    hide Inv, Partition, Insert, Active;
    PartitionOf(cfg, s);
    AcceptedKeeps(cfg, s, true);
    AcceptedNew(cfg, s);
    var c, t := NextConn(s), Accepted(cfg, s, true);
    var x := Entry(s.now + cfg.wait, c, t.conns[c].sequence);
    forall e | e in t.timer && e.conn == c && e.sequence == t.conns[c].sequence
      ensures e.key == s.now + cfg.wait
    {
      InsertMember(s.timer, x, e);
    }
  }

  lemma AcceptedNew(cfg: Config, s: State)
    requires Inv(cfg, s) && (s.free != [] ==> s.free[0] < |s.conns|)
    ensures var c, t := NextConn(s), Accepted(cfg, s, true);
      && c < |t.conns| && t.idle == s.idle
      && (forall e :: e in s.timer && e.conn == c ==> e.sequence != t.conns[c].sequence)
      && (forall e :: e in s.idle && e.conn == c ==> e.sequence != t.conns[c].sequence)
  {
    hide Active, Insert, Sorted, Partition, OneEntry, Keys;
  }

  /** While clients are kicked at once, a client is closed by the monitor no
      earlier than W after it was accepted, and is gone after the first complete
      pass later than that. */
  lemma KickedAtOnce(cfg: Config, s: State, events: seq<Event>, t: State)
    requires Inv(cfg, s) && Enabled(cfg, s, AcceptFinish(true)) && cfg.kickTimer && cfg.kickAtOnce
    requires Runs(cfg, Next(cfg, s, AcceptFinish(true)), events, t)
    requires var c := NextConn(s);
      && c < |t.conns| && c < |Next(cfg, s, AcceptFinish(true)).conns|
      && t.conns[c].sequence == Next(cfg, s, AcceptFinish(true)).conns[c].sequence && Active(t, c)
    ensures t.idle == [] ==> t.lastPass <= s.now + cfg.wait
    ensures t.idle != [] && !Active(Next(cfg, t, MonitorCheck), NextConn(s)) ==> t.lastPass >= s.now + cfg.wait
    ensures t.idle != [] && t.idle[0].conn == NextConn(s) && t.idle[0].sequence == t.conns[NextConn(s)].sequence ==>
      !Active(Next(cfg, t, MonitorCheck), NextConn(s))
  {
    hide Inv, Active, Accepted, Checked, DueAt;
    var c, u := NextConn(s), Next(cfg, s, AcceptFinish(true));
    NewClientDue(cfg, s);
    InvStep(cfg, s, AcceptFinish(true));
    DueRun(cfg, u, events, t, c, u.conns[c].sequence, s.now + cfg.wait);
    if t.idle == [] {
      OneEntryLeft(cfg, t, c, s.now + cfg.wait);
    } else {
      CheckedActive(cfg, t, c);
      IdleIsDue(t, c, s.now + cfg.wait);
    }
  }

  lemma OneEntryLeft(cfg: Config, s: State, c: Id, due: int)
    requires Inv(cfg, s) && cfg.kickTimer && Active(s, c) && s.idle == []
    requires c < |s.conns| && DueAt(s, c, s.conns[c].sequence, due)
    ensures s.lastPass <= due
  {
    hide PoolInv, Active, Sorted;
    assert OneEntry(cfg, s, c);
    CountSeqEmpty(c);
    var i := CountFinds(s.timer, c);
    var e := s.timer[i];
    assert e in s.timer && Live(s, e) && KeyOk(cfg, s, e);
  }

  lemma IdleIsDue(s: State, c: Id, due: int)
    requires s.idle != [] && c < |s.conns| && DueAt(s, c, s.conns[c].sequence, due)
    ensures s.idle[0].conn == c && Live(s, s.idle[0]) ==> s.lastPass >= due
  {
    assert s.idle[0] in s.idle;
  }
}
