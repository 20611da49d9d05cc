/** The pool, the recycler and the monitor as the server runs them: lists and
    counters updated in place, with the steps of module Pool as their
    specification. */
module Server {
  import opened Common
  import opened Timer
  import opened Pool
  import opened PoolRuns

  /** What accept4 or accept returned. */
  datatype AcceptResult = Socket | Unsupported | Refused

  /** Whether a socket is obtained, and whether accept4 gave it: accept is tried
      once when accept4 is not supported. */
  function Obtained(useAccept4: bool, kernel: (AcceptResult, AcceptResult)): Option<bool> {
    if useAccept4 && kernel.0.Unsupported? then
      if kernel.1.Socket? then Some(false) else None
    else
      if kernel.0.Socket? then Some(useAccept4) else None
  }

  /** The whole of qc_event_accept. */
  function AcceptCalled(cfg: Config, s: State, socket: Option<bool>, nonblockOk: bool, epollOk: bool): State
    requires s.free != [] ==> s.free[0] < |s.conns|
  {
    if socket.None? || !Admitted(cfg, s) then s
    else AcceptedBy(cfg, s.(accepting := true), socket.value, nonblockOk, epollOk)
  }

  /** A client is let in - one new active client, and the online count one
      higher - if and only if a socket is obtained, fewer than W clients are
      online, and the pool is not both above 5W connections and short of W free
      ones; otherwise nothing changes. Both later calls succeed here. */
  lemma LetInExactly(cfg: Config, s: State, useAccept4: bool, kernel: (AcceptResult, AcceptResult))
    requires Inv(cfg, s) && !s.accepting
    ensures s.free != [] ==> s.free[0] < |s.conns|
    ensures var t := AcceptCalled(cfg, s, Obtained(useAccept4, kernel), true, true);
      var c := if s.free == [] then |s.conns| else s.free[0];
      if (kernel.0 == Socket || (useAccept4 && kernel.0 == Unsupported && kernel.1 == Socket))
         && s.online < cfg.workers && (|s.conns| <= 5 * cfg.workers || |s.free| >= cfg.workers)
      then c !in Clients(s) && Clients(t) == Clients(s) + {c} && t.online == s.online + 1
      else t == s
  {
    var u := s.(accepting := true);
    InvOf(cfg, s);
    ActiveSame(s, u);
    hide Inv, Active, Partition, Accepted;
    AcceptedKeeps(cfg, u, true);
    NextIsFree(s);
    if s.online < cfg.workers && (|s.conns| <= 5 * cfg.workers || |s.free| >= cfg.workers) {
      var t, c := Accepted(cfg, u, true), NextConn(s);
      AcceptedCounts(cfg, u);
      forall d
        ensures d in Clients(t) <==> d in Clients(s) + {c}
      {
        InRange(t, d);
        InRange(s, d);
      }
    }
  }

  lemma InvOf(cfg: Config, s: State)
    requires Inv(cfg, s)
    ensures Partition(s) && Partition(s.(accepting := true)) && (s.free != [] ==> s.free[0] < |s.conns|)
  {
    LeasedPlaces(s);
    assert Places(s.(accepting := true)) == Places(s);
  }

  lemma InRange(s: State, c: Id)
    ensures Active(s, c) ==> c < |s.conns|
  {
  }

  lemma AcceptedCounts(cfg: Config, s: State)
    requires s.free != [] ==> s.free[0] < |s.conns|
    ensures Accepted(cfg, s, true).online == s.online + 1
  {
  }

  predicate Over(cfg: Config, conns: seq<Conn>, c: Id, currtime: int) {
    c < |conns| && conns[c].inRecyTime + cfg.recycleWait <= currtime
  }

  /** The connections of a recycle list whose wait is over, or is not. */
  function Picked(cfg: Config, conns: seq<Conn>, recy: seq<Id>, currtime: int, over: bool): seq<Id> {
    if recy == [] then [] else
      (if Over(cfg, conns, recy[0], currtime) == over then [recy[0]] else []) + Picked(cfg, conns, recy[1..], currtime, over)
  }

  /** What is picked: exactly the connections of the list that have waited long
      enough, or exactly those that have not. */
  lemma {:induction false} PickedExactly(cfg: Config, conns: seq<Conn>, recy: seq<Id>, currtime: int, over: bool, c: Id)
    requires forall i :: 0 <= i < |recy| ==> recy[i] < |conns|
    ensures c in Picked(cfg, conns, recy, currtime, over) <==>
      c in recy && c < |conns| && (over <==> conns[c].inRecyTime + cfg.recycleWait <= currtime)
  {
    if recy != [] {
      PickedExactly(cfg, conns, recy[1..], currtime, over, c);
    }
  }

  lemma {:induction false} PickedAppend(cfg: Config, conns: seq<Conn>, a: seq<Id>, b: seq<Id>, currtime: int, over: bool)
    ensures Picked(cfg, conns, a + b, currtime, over) ==
      Picked(cfg, conns, a, currtime, over) + Picked(cfg, conns, b, currtime, over)
  {
    if a == [] {
      assert a + b == b;
    } else {
      assert (a + b)[1..] == a[1..] + b;
      PickedAppend(cfg, conns, a[1..], b, currtime, over);
    }
  }

  lemma {:induction false} PickedAll(cfg: Config, conns: seq<Conn>, recy: seq<Id>, currtime: int, over: bool)
    requires forall i :: 0 <= i < |recy| ==> Over(cfg, conns, recy[i], currtime) == over
    ensures Picked(cfg, conns, recy, currtime, over) == recy
    ensures Picked(cfg, conns, recy, currtime, !over) == []
  {
    if recy != [] {
      PickedAll(cfg, conns, recy[1..], currtime, over);
    }
  }

  lemma {:induction false} PickedSame(cfg: Config, a: seq<Conn>, b: seq<Conn>, recy: seq<Id>, currtime: int, over: bool)
    requires forall i :: 0 <= i < |recy| ==> (Over(cfg, a, recy[i], currtime) <==> Over(cfg, b, recy[i], currtime))
    ensures Picked(cfg, a, recy, currtime, over) == Picked(cfg, b, recy, currtime, over)
  {
    if recy != [] {
      PickedSame(cfg, a, b, recy[1..], currtime, over);
    }
  }

  lemma PickedSplit(cfg: Config, conns: seq<Conn>, a: seq<Id>, c: Id, b: seq<Id>, currtime: int, over: bool)
    requires Over(cfg, conns, c, currtime) && forall i :: 0 <= i < |a| ==> !Over(cfg, conns, a[i], currtime)
    ensures Picked(cfg, conns, a + [c] + b, currtime, over) ==
      (if over then [c] else []) + Picked(cfg, conns, a + b, currtime, over)
  {
    PickedAll(cfg, conns, a, currtime, false);
    PickedAll(cfg, conns, [c], currtime, true);
    hide Picked;
    PickedAppend(cfg, conns, a + [c], b, currtime, over);
    PickedAppend(cfg, conns, a, [c], currtime, over);
    PickedAppend(cfg, conns, a, b, currtime, over);
  }

  /** The freed connections' sequence numbers went up by one; nothing else in
      any connection changed. */
  predicate Bumped(before: seq<Conn>, after: seq<Conn>, freed: seq<Id>) {
    |after| == |before| && forall c :: 0 <= c < |before| ==>
      after[c] == if c in freed then before[c].(sequence := before[c].sequence + 1) else before[c]
  }

  /** Taking out the first connection whose wait is over. */
  lemma PickedFirst(cfg: Config, s: State, i: nat, currtime: int, over: bool)
    requires i < |s.recy| && s.recy[i] < |s.conns| && Over(cfg, s.conns, s.recy[i], currtime)
    requires forall j :: 0 <= j < i ==> !Over(cfg, s.conns, s.recy[j], currtime)
    ensures Picked(cfg, s.conns, s.recy, currtime, over) ==
      (if over then [s.recy[i]] else []) + Picked(cfg, Recycled(s, i).conns, Recycled(s, i).recy, currtime, over)
  {
    hide Picked;
    var a, c, b, t := s.recy[..i], s.recy[i], s.recy[i + 1..], Recycled(s, i);
    assert s.recy == a + [c] + b;
    PickedSplit(cfg, s.conns, a, c, b, currtime, over);
    PickedSame(cfg, s.conns, t.conns, t.recy, currtime, over);
  }

  /** The monitor's checks of everything it drained. */
  function CheckedAll(cfg: Config, s: State): State
    decreases |s.idle|
  {
    if s.idle == [] then s else CheckedAll(cfg, Checked(cfg, s))
  }

  lemma CheckedIdle(cfg: Config, s: State)
    requires Inv(cfg, s) && s.idle != []
    ensures Checked(cfg, s).idle == s.idle[1..]
  {
    IdleInRange(cfg, s);
    hide Inv;
  }

  /** The rest of a pass is a run of checks, one for each drained entry. */
  lemma {:induction false} CheckedAllRuns(cfg: Config, s: State) returns (events: seq<Event>)
    requires Inv(cfg, s)
    ensures |events| == |s.idle| && forall i :: 0 <= i < |events| ==> events[i] == MonitorCheck
    ensures Runs(cfg, s, events, CheckedAll(cfg, s)) && CheckedAll(cfg, s).idle == []
    decreases |s.idle|
  {
    hide Inv, Closed;
    if s.idle == [] {
      events := [];
    } else {
      CheckedInv(cfg, s);
      CheckedIdle(cfg, s);
      var rest := CheckedAllRuns(cfg, Checked(cfg, s));
      events := [MonitorCheck] + rest;
      assert events[1..] == rest;
    }
  }

  class SocketServer {
    const cfg: Config
    const timers: TimerQueue
    var clock: int
    var m_connectionList: seq<Conn>
    var m_freeconnectionList: seq<Id>
    var m_recyconnectionList: seq<Id>
    var m_ListenSocketList: seq<Id>
    var m_total_connection_n: int
    var m_free_connection_n: int
    var m_totol_recyconnection_n: int
    var m_onlineUserCount: int
    var m_lsIdleList: seq<Entry>
    var cur_time: int
    var use_accept4: bool

    ghost function View(): State
      reads this, timers
    {
      State(m_connectionList, m_freeconnectionList, m_recyconnectionList, m_ListenSocketList,
            m_total_connection_n, m_free_connection_n, m_totol_recyconnection_n, m_onlineUserCount,
            false, timers.m_timerQueuemap, m_lsIdleList, cur_time, clock)
    }

    ghost predicate TimersFit()
      reads this, timers
    {
      timers.Valid() && timers.m_iWaitTime == cfg.wait && timers.m_ifTimeOutKick == cfg.kickAtOnce
    }

    ghost predicate Valid()
      reads this, timers
    {
      TimersFit() && Inv(cfg, View())
    }

    /** initconnection and the listeners' part of qc_epoll_init. */
    constructor (config: Config, now: int)
      requires Sensible(config)
      ensures Valid() && cfg == config && fresh(timers)
      ensures View() == Started(config, now, config.listeners)
    {
      cfg := config;
      timers := new TimerQueue(config.wait, config.kickAtOnce);
      clock, cur_time := now, now;
      m_connectionList, m_freeconnectionList, m_recyconnectionList, m_ListenSocketList := [], [], [], [];
      m_total_connection_n, m_free_connection_n, m_totol_recyconnection_n, m_onlineUserCount := 0, 0, 0, 0;
      m_lsIdleList := [];
      use_accept4 := true;
      new;
      hide Inv, StartInv;
      InitConnection();
      assert View() == Created(cfg.workers, now);
      OpenListeners();
      StartedInv(cfg, now);
    }

    method OpenListeners()
      requires TimersFit() && View() == Started(cfg, clock, 0)
      modifies this
      ensures TimersFit() && View() == Started(cfg, clock, cfg.listeners) && clock == old(clock)
    {
      hide Partition, StartInv, Inv, Sorted;
      var port := 0;
      while port < cfg.listeners
        invariant 0 <= port <= cfg.listeners && TimersFit() && clock == old(clock)
        invariant View() == Started(cfg, clock, port)
      {
        ghost var s := View();
        ListeningStart(cfg, s);
        var c := GetConnection();
        hide Leased;
        m_ListenSocketList := m_ListenSocketList + [c];
        port := port + 1;
        StartedNext(cfg, clock, port);
      }
    }

    method InitConnection()
      requires m_connectionList == [] && m_freeconnectionList == []
      modifies this`m_connectionList, this`m_freeconnectionList, this`m_total_connection_n, this`m_free_connection_n
      ensures m_connectionList == Created(cfg.workers, clock).conns && m_freeconnectionList == Range(cfg.workers)
      ensures m_total_connection_n == m_free_connection_n == cfg.workers
    {
      var i := 0;
      while i < cfg.workers
        invariant 0 <= i <= cfg.workers
        invariant m_connectionList == Created(i, clock).conns && m_freeconnectionList == Range(i)
      {
        m_connectionList := m_connectionList + [Conn(1, false, 0, clock)];
        m_freeconnectionList := m_freeconnectionList + [i];
        i := i + 1;
      }
      m_total_connection_n := |m_connectionList|;
      m_free_connection_n := |m_connectionList|;
    }

    /** qc_get_connection. */
    method GetConnection() returns (c: Id)
      requires m_freeconnectionList != [] ==> m_freeconnectionList[0] < |m_connectionList|
      modifies this`m_connectionList, this`m_freeconnectionList, this`m_total_connection_n, this`m_free_connection_n
      ensures View() == Leased(old(View())) && c == NextConn(old(View()))
    {
      if m_freeconnectionList != [] {
        c := m_freeconnectionList[0];
        m_freeconnectionList := m_freeconnectionList[1..];
        GetOneToUse(c);
        m_free_connection_n := m_free_connection_n - 1;
        m_connectionList := m_connectionList[c := m_connectionList[c].(open := true)];
        return;
      }
      c := |m_connectionList|;
      m_connectionList := m_connectionList + [Conn(0, false, 0, 0)];
      GetOneToUse(c);
      m_total_connection_n := m_total_connection_n + 1;
      m_connectionList := m_connectionList[c := m_connectionList[c].(open := true)];
    }

    method GetOneToUse(c: Id)
      requires c < |m_connectionList|
      modifies this`m_connectionList
      ensures m_connectionList == old(m_connectionList)[c :=
        Conn(old(m_connectionList)[c].sequence + 1, false, old(m_connectionList)[c].inRecyTime, clock)]
    {
      var conn := m_connectionList[c];
      m_connectionList := m_connectionList[c := conn.(sequence := conn.sequence + 1, open := false, lastPing := clock)];
    }

    /** qc_free_connection. */
    method FreeConnection(c: Id)
      requires c < |m_connectionList|
      modifies this`m_connectionList, this`m_freeconnectionList, this`m_free_connection_n
      ensures View() == Freed(old(View()), c)
    {
      var conn := m_connectionList[c];
      m_connectionList := m_connectionList[c := conn.(sequence := conn.sequence + 1)];
      m_freeconnectionList := m_freeconnectionList + [c];
      m_free_connection_n := m_free_connection_n + 1;
    }

    method InRecyConnectQueue(c: Id)
      requires c < |m_connectionList|
      modifies this`m_connectionList, this`m_recyconnectionList, this`m_totol_recyconnection_n, this`m_onlineUserCount
      ensures var s := old(View());
        View() == if c in s.recy then s else
          s.(conns := s.conns[c := s.conns[c].(inRecyTime := s.now, sequence := s.conns[c].sequence + 1)],
             recy := s.recy + [c], recyCount := s.recyCount + 1, online := s.online - 1)
    {
      var iffind := false;
      var pos := 0;
      while pos < |m_recyconnectionList|
        invariant 0 <= pos <= |m_recyconnectionList| && !iffind
        invariant forall i :: 0 <= i < pos ==> m_recyconnectionList[i] != c
      {
        if m_recyconnectionList[pos] == c {
          iffind := true;
          break;
        }
        pos := pos + 1;
      }
      if iffind {
        return;
      }
      var conn := m_connectionList[c];
      m_connectionList := m_connectionList[c := conn.(inRecyTime := clock, sequence := conn.sequence + 1)];
      m_recyconnectionList := m_recyconnectionList + [c];
      m_totol_recyconnection_n := m_totol_recyconnection_n + 1;
      m_onlineUserCount := m_onlineUserCount - 1;
    }

    /** zdClosesocketProc, as far as the pool goes. */
    method CloseSocketProc(c: Id)
      requires TimersFit() && c < |m_connectionList|
      modifies timers, this`m_connectionList, this`m_recyconnectionList, this`m_totol_recyconnection_n, this`m_onlineUserCount
      ensures TimersFit() && View() == Closed(cfg, old(View()), c)
    {
      if cfg.kickTimer {
        timers.DeleteFromTimerQueue(c);
      }
      m_connectionList := m_connectionList[c := m_connectionList[c].(open := false)];
      InRecyConnectQueue(c);
    }

    /** A close by a worker, the reader or msgSend. */
    method Close(c: Id)
      requires Valid() && c < |m_connectionList|
      requires Active(View(), c) || c in m_recyconnectionList
      modifies this, timers
      ensures Valid() && View() == Next(cfg, old(View()), Event.Close(c))
    {
      hide Inv, Closed;
      InvStep(cfg, View(), Event.Close(c));
      CloseSocketProc(c);
    }

    /** qc_close_connection: straight back to the free list. */
    method CloseConnection(c: Id)
      requires c < |m_connectionList|
      modifies this`m_connectionList, this`m_freeconnectionList, this`m_free_connection_n
      ensures View() == var f := Freed(old(View()), c); f.(conns := f.conns[c := f.conns[c].(open := false)])
    {
      FreeConnection(c);
      m_connectionList := m_connectionList[c := m_connectionList[c].(open := false)];
    }

    /** qc_event_accept. */
    method EventAccept(kernel: (AcceptResult, AcceptResult), nonblockOk: bool, epollOk: bool)
      requires Valid()
      modifies this, timers
      ensures old(View()).free != [] ==> old(View()).free[0] < |old(View()).conns|
      ensures View() == AcceptCalled(cfg, old(View()), Obtained(old(use_accept4), kernel), nonblockOk, epollOk)
      ensures use_accept4 == (old(use_accept4) && !kernel.0.Unsupported?)
      ensures Valid() <==>
        !(Obtained(old(use_accept4), kernel) == Some(false) && !nonblockOk && Admitted(cfg, old(View())))
    {
      hide Inv, AcceptedBy, Sorted;
      AcceptCalledKeeps(cfg, View(), Obtained(use_accept4, kernel), nonblockOk, epollOk);
      var s := kernel.0;
      if use_accept4 && s.Unsupported? {
        use_accept4 := false;
        s := kernel.1;
      }
      if !s.Socket? {
        return;
      }
      if m_onlineUserCount >= cfg.workers {
        return;
      }
      if |m_connectionList| > cfg.workers * 5 {
        if |m_freeconnectionList| < cfg.workers {
          return;
        }
      }
      Admit(nonblockOk, epollOk);
    }

    /** The rest of qc_event_accept, once the client is admitted. */
    method Admit(nonblockOk: bool, epollOk: bool)
      requires TimersFit() && (m_freeconnectionList != [] ==> m_freeconnectionList[0] < |m_connectionList|)
      modifies timers, this`m_connectionList, this`m_freeconnectionList, this`m_total_connection_n,
        this`m_free_connection_n, this`m_onlineUserCount
      ensures TimersFit()
      ensures View() == AcceptedBy(cfg, old(View()).(accepting := true), use_accept4, nonblockOk, epollOk)
    {
      hide Insert, Sorted;
      var newc := GetConnection();
      if !use_accept4 {
        if !nonblockOk {
          return;
        }
      }
      if !epollOk {
        CloseConnection(newc);
        return;
      }
      if cfg.kickTimer {
        timers.AddToTimerQueue(newc, m_connectionList[newc].sequence, clock);
      }
      m_onlineUserCount := m_onlineUserCount + 1;
    }

    /** One pass of ServerRecyConnectionThread: currtime was read before the
        mutex was taken. The search starts over after each connection freed. */
    method RecyclerPass(currtime: int)
      requires Valid() && currtime <= clock
      modifies this`m_connectionList, this`m_freeconnectionList, this`m_recyconnectionList,
        this`m_totol_recyconnection_n, this`m_free_connection_n
      ensures Valid()
      ensures m_freeconnectionList == old(m_freeconnectionList) + Picked(cfg, old(m_connectionList), old(m_recyconnectionList), currtime, true)
      ensures m_recyconnectionList == Picked(cfg, old(m_connectionList), old(m_recyconnectionList), currtime, false)
      ensures Bumped(old(m_connectionList), m_connectionList,
        Picked(cfg, old(m_connectionList), old(m_recyconnectionList), currtime, true))
    {
      hide Inv, Picked, Recycled;
      if m_totol_recyconnection_n > 0 {
        ghost var over := Picked(cfg, m_connectionList, m_recyconnectionList, currtime, true);
        ghost var keep := Picked(cfg, m_connectionList, m_recyconnectionList, currtime, false);
        ghost var done: seq<Id> := [];
        var pos := 0;
        while pos < |m_recyconnectionList|
          invariant Valid() && 0 <= pos <= |m_recyconnectionList|
          invariant forall j :: 0 <= j < pos ==> !Over(cfg, m_connectionList, m_recyconnectionList[j], currtime)
          invariant m_freeconnectionList == old(m_freeconnectionList) + done
          invariant over == done + Picked(cfg, m_connectionList, m_recyconnectionList, currtime, true)
          invariant keep == Picked(cfg, m_connectionList, m_recyconnectionList, currtime, false)
          invariant Bumped(old(m_connectionList), m_connectionList, done)
          decreases |m_recyconnectionList|, |m_recyconnectionList| - pos
        {
          var c := m_recyconnectionList[pos];
          RecyInRange(cfg, View(), pos);
          if m_connectionList[c].inRecyTime + cfg.recycleWait > currtime {
            pos := pos + 1;
          } else {
            PickedFirst(cfg, View(), pos, currtime, true);
            PickedFirst(cfg, View(), pos, currtime, false);
            RecycledInv(cfg, View(), pos, currtime);
            RecyNotFree(cfg, View(), pos);
            Release(pos);
            done := done + [c];
            pos := 0;
          }
        }
        PickedAll(cfg, m_connectionList, m_recyconnectionList, currtime, false);
      } else {
        NothingToRecycle(cfg, View(), currtime);
      }
    }

    /** Takes the connection at pos out of the recycle list and frees it. */
    method Release(pos: nat)
      requires pos < |m_recyconnectionList| && m_recyconnectionList[pos] < |m_connectionList|
      modifies this`m_connectionList, this`m_freeconnectionList, this`m_recyconnectionList,
        this`m_totol_recyconnection_n, this`m_free_connection_n
      ensures View() == Recycled(old(View()), pos)
      ensures m_freeconnectionList == old(m_freeconnectionList) + [old(m_recyconnectionList)[pos]]
      ensures |m_recyconnectionList| == |old(m_recyconnectionList)| - 1
      ensures var c := old(m_recyconnectionList)[pos];
        m_connectionList == old(m_connectionList)[c := old(m_connectionList)[c].(sequence := old(m_connectionList)[c].sequence + 1)]
    {
      var c := m_recyconnectionList[pos];
      m_totol_recyconnection_n := m_totol_recyconnection_n - 1;
      m_recyconnectionList := m_recyconnectionList[..pos] + m_recyconnectionList[pos + 1..];
      FreeConnection(c);
    }

    /** One pass of ServerTimerQueueMonitorThread. */
    method MonitorPass()
      requires Valid() && cfg.kickTimer && m_lsIdleList == []
      modifies this, timers
      ensures Valid() && m_lsIdleList == []
      ensures View() == CheckedAll(cfg, Passed(cfg, old(View())))
    {
      hide Inv, Checked, Passed, Sorted;
      PassedInv(cfg, View());
      DrainTimers();
      ghost var passed := View();
      while m_lsIdleList != []
        invariant Valid()
        invariant CheckedAll(cfg, View()) == CheckedAll(cfg, passed)
        decreases |m_lsIdleList|
      {
        CheckedInv(cfg, View());
        CheckNext();
      }
    }

    /** The monitor looks at the queue only if its first time has passed. */
    method DrainTimers()
      requires TimersFit() && m_lsIdleList == []
      modifies timers, this`m_lsIdleList, this`cur_time
      ensures TimersFit() && View() == Passed(cfg, old(View()))
    {
      hide Drained, Due, Sorted;
      cur_time := clock;
      if timers.m_cur_size_ > 0 {
        var absolute_time := timers.m_timer_value_;
        if absolute_time < cur_time {
          m_lsIdleList := timers.Drain(cur_time);
        }
      }
    }

    /** Takes the next idle entry and hands it to procPingTimeOutChecking. */
    method CheckNext()
      requires Valid() && m_lsIdleList != []
      modifies this, timers
      ensures TimersFit() && View() == Checked(cfg, old(View()))
      ensures |m_lsIdleList| == |old(m_lsIdleList)| - 1
    {
      ghost var s := View();
      hide Inv, Closed;
      IdleInRange(cfg, s);
      var tmpmsg := m_lsIdleList[0];
      m_lsIdleList := m_lsIdleList[1..];
      ProcPingTimeOutChecking(tmpmsg, cur_time);
    }

    method ProcPingTimeOutChecking(tmpmsg: Entry, now: int)
      requires TimersFit() && tmpmsg.conn < |m_connectionList|
      modifies timers, this`m_connectionList, this`m_recyconnectionList, this`m_totol_recyconnection_n, this`m_onlineUserCount
      ensures TimersFit()
      ensures View() ==
        if Live(old(View()), tmpmsg) && (cfg.kickAtOnce || now - old(View()).conns[tmpmsg.conn].lastPing > Patience(cfg))
        then Closed(cfg, old(View()), tmpmsg.conn) else old(View())
    {
      hide Closed;
      var conn := m_connectionList[tmpmsg.conn];
      if tmpmsg.sequence == conn.sequence {
        if cfg.kickAtOnce {
          CloseSocketProc(tmpmsg.conn);
        } else if now - conn.lastPing > cfg.wait * 3 + 10 {
          CloseSocketProc(tmpmsg.conn);
        }
      }
    }
  }

  lemma StartedNext(cfg: Config, now: int, ports: nat)
    requires ports > 0 && (Started(cfg, now, ports - 1).free != [] ==> Started(cfg, now, ports - 1).free[0] < |Started(cfg, now, ports - 1).conns|)
    ensures Started(cfg, now, ports) == Listening(Started(cfg, now, ports - 1))
  {
  }

  lemma RecyInRange(cfg: Config, s: State, i: nat)
    requires Inv(cfg, s) && i < |s.recy|
    ensures s.recy[i] < |s.conns|
  {
    assert s.recy[i] in Places(s);
  }

  lemma RecyNotFree(cfg: Config, s: State, i: nat)
    requires Inv(cfg, s) && i < |s.recy|
    ensures s.recy[i] !in s.free
  {
    assert multiset(s.recy)[s.recy[i]] >= 1 && Places(s)[s.recy[i]] <= 1;
  }

  lemma RecycledInv(cfg: Config, s: State, i: nat, currtime: int)
    requires Inv(cfg, s) && i < |s.recy| && s.recy[i] < |s.conns|
    requires currtime <= s.now && Over(cfg, s.conns, s.recy[i], currtime)
    ensures Inv(cfg, Recycled(s, i))
  {
    hide Inv;
    InvStep(cfg, s, RecycleOne(i, currtime));
  }

  lemma PassedInv(cfg: Config, s: State)
    requires Inv(cfg, s) && cfg.kickTimer && s.idle == []
    ensures Inv(cfg, Passed(cfg, s))
  {
    hide Inv;
    InvStep(cfg, s, MonitorDrain);
  }

  lemma CheckedInv(cfg: Config, s: State)
    requires Inv(cfg, s) && s.idle != []
    ensures Inv(cfg, Checked(cfg, s))
  {
    hide Inv;
    InvStep(cfg, s, MonitorCheck);
  }

  lemma NothingToRecycle(cfg: Config, s: State, currtime: int)
    requires Inv(cfg, s) && s.recyCount <= 0
    ensures s.recy == [] && forall over :: Picked(cfg, s.conns, [], currtime, over) == []
  {
  }

  lemma IdleInRange(cfg: Config, s: State)
    requires Inv(cfg, s) && s.idle != []
    ensures s.idle[0].conn < |s.conns|
  {
    assert s.idle[0] in s.idle;
  }

  lemma AcceptCalledKeeps(cfg: Config, s: State, socket: Option<bool>, nonblockOk: bool, epollOk: bool)
    requires Inv(cfg, s) && !s.accepting
    ensures s.free != [] ==> s.free[0] < |s.conns|
    ensures Inv(cfg, AcceptCalled(cfg, s, socket, nonblockOk, epollOk)) <==>
      !(socket == Some(false) && !nonblockOk && Admitted(cfg, s))
  {
    LeasedPlaces(s);
    if socket.Some? && Admitted(cfg, s) {
      InvStep(cfg, s, AcceptCheck);
      var t := Next(cfg, s, AcceptCheck);
      AcceptExactly(cfg, t, socket.value, nonblockOk, epollOk);
      if socket.value || nonblockOk {
        InvStep(cfg, t, AcceptFinish(epollOk));
      }
    }
  }
}
