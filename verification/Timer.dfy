/** The timer queue: a multimap ordered by time, with its size and the time of
    its first entry kept beside it. */
module Timer {
  import opened Common

  /** A timer entry: when it is due, and the connection and sequence number it
      was armed for. */
  datatype Entry = Entry(key: int, conn: Id, sequence: nat)

  predicate Sorted(q: seq<Entry>) {
    forall i, j :: 0 <= i < j < |q| ==> q[i].key <= q[j].key
  }

  /** multimap::insert places a new entry behind those with the same key. */
  function Insert(q: seq<Entry>, e: Entry): (r: seq<Entry>)
    ensures |r| == |q| + 1
  {
    if q == [] then
      [e]
    else if q[|q| - 1].key <= e.key then
      q + [e]
    else
      Insert(q[..|q| - 1], e) + [q[|q| - 1]]
  }

  lemma {:induction false} InsertMultiset(q: seq<Entry>, e: Entry)
    ensures multiset(Insert(q, e)) == multiset(q) + multiset{e}
  {
    if q != [] && q[|q| - 1].key > e.key {
      InsertMultiset(q[..|q| - 1], e);
      assert q == q[..|q| - 1] + [q[|q| - 1]];
    }
  }

  lemma SortedSnoc(q: seq<Entry>, e: Entry)
    requires Sorted(q) && (q == [] || q[|q| - 1].key <= e.key)
    ensures Sorted(q + [e])
  {
  }

  function LastKey(q: seq<Entry>): int
    requires q != []
  {
    q[|q| - 1].key
  }

  lemma SortedInit(q: seq<Entry>)
    requires q != [] && Sorted(q)
    ensures Sorted(q[..|q| - 1]) && (|q| > 1 ==> LastKey(q[..|q| - 1]) <= LastKey(q))
  {
  }

  lemma {:induction false} InsertSorted(q: seq<Entry>, e: Entry)
    requires Sorted(q)
    ensures Sorted(Insert(q, e))
    ensures LastKey(Insert(q, e)) == if q == [] || LastKey(q) <= e.key then e.key else LastKey(q)
  {
    if q == [] {
    } else if LastKey(q) <= e.key {
      SortedSnoc(q, e);
    } else {
      SortedInit(q);
      InsertSorted(q[..|q| - 1], e);
      hide Sorted;
      SortedSnoc(Insert(q[..|q| - 1], e), q[|q| - 1]);
    }
  }

  /** Inserting behind an entry that is due earlier leaves that entry first. */
  lemma {:induction false} InsertTail(q: seq<Entry>, e: Entry)
    requires q != [] && q[0].key <= e.key
    ensures Insert(q, e) == [q[0]] + Insert(q[1..], e)
    decreases |q|
  {
    var last := q[|q| - 1];
    if |q| == 1 {
      assert q[1..] == [] && q == [q[0]];
    } else {
      assert q[1..][|q| - 2] == last;
      if last.key > e.key {
        InsertTail(q[..|q| - 1], e);
        assert q[..|q| - 1][1..] == q[1..][..|q| - 2];
      } else {
        assert q == [q[0]] + q[1..];
      }
    }
  }

  function Rearmed(e: Entry, key: int): Entry {
    e.(key := key)
  }

  /** The queue after each of es was put back at time key. */
  function RearmAll(q: seq<Entry>, es: seq<Entry>, key: int): seq<Entry>
    decreases es
  {
    if es == [] then q else Insert(RearmAll(q, es[..|es| - 1], key), Rearmed(es[|es| - 1], key))
  }

  /** How many entries at the front of q are due by now. */
  function Due(q: seq<Entry>, now: int): (k: nat)
    ensures k <= |q|
    ensures forall i :: 0 <= i < k ==> q[i].key <= now
    ensures k < |q| ==> q[k].key > now
  {
    if q == [] || q[0].key > now then 0 else 1 + Due(q[1..], now)
  }

  /** What a drain at time now leaves. */
  function Drained(q: seq<Entry>, now: int, wait: nat, kickAtOnce: bool): seq<Entry> {
    var k := Due(q, now);
    if kickAtOnce then q[k..] else RearmAll(q[k..], q[..k], now + wait)
  }

  lemma {:induction false} RearmAllSorted(q: seq<Entry>, es: seq<Entry>, key: int)
    requires Sorted(q)
    ensures Sorted(RearmAll(q, es, key))
    decreases es
  {
    if es != [] {
      RearmAllSorted(q, es[..|es| - 1], key);
      InsertSorted(RearmAll(q, es[..|es| - 1], key), Rearmed(es[|es| - 1], key));
    }
  }

  lemma {:induction false} RearmAllTail(q: seq<Entry>, es: seq<Entry>, key: int)
    requires q != [] && q[0].key <= key
    ensures RearmAll(q, es, key) == [q[0]] + RearmAll(q[1..], es, key)
    decreases es
  {
    if es == [] {
      assert q == [q[0]] + q[1..];
    } else {
      RearmAllTail(q, es[..|es| - 1], key);
      var r := RearmAll(q, es[..|es| - 1], key);
      assert r[1..] == RearmAll(q[1..], es[..|es| - 1], key);
      InsertTail(r, Rearmed(es[|es| - 1], key));
    }
  }

  predicate After(q: seq<Entry>, now: int) {
    forall i :: 0 <= i < |q| ==> q[i].key > now
  }

  lemma {:induction false} InsertAfter(q: seq<Entry>, e: Entry, now: int)
    requires After(q, now) && e.key > now
    ensures After(Insert(q, e), now)
  {
    if q != [] && q[|q| - 1].key > e.key {
      InsertAfter(q[..|q| - 1], e, now);
    }
  }

  lemma {:induction false} RearmAllAfter(q: seq<Entry>, es: seq<Entry>, key: int, now: int)
    requires After(q, now) && key > now
    ensures After(RearmAll(q, es, key), now)
    decreases es
  {
    if es != [] {
      RearmAllAfter(q, es[..|es| - 1], key, now);
      InsertAfter(RearmAll(q, es[..|es| - 1], key), Rearmed(es[|es| - 1], key), now);
    }
  }

  lemma {:induction false} DueExactly(q: seq<Entry>, now: int)
    requires Sorted(q)
    ensures forall i :: 0 <= i < |q| ==> (q[i].key <= now <==> i < Due(q, now))
    ensures After(q[Due(q, now)..], now)
  {
    var k := Due(q, now);
    forall i | k <= i < |q|
      ensures q[i].key > now
    {
      assert q[k].key <= q[i].key;
    }
  }

  /** Exactly the entries due are taken; every other entry stays, and each
      taken one is armed again for the same connection and sequence number
      unless clients are kicked at once. Nothing due is left. */
  lemma DrainExactly(q: seq<Entry>, now: int, wait: nat, kickAtOnce: bool)
    requires Sorted(q) && wait > 0
    ensures forall i :: 0 <= i < |q| ==> (q[i].key <= now <==> i < Due(q, now))
    ensures Sorted(Drained(q, now, wait, kickAtOnce))
    ensures After(Drained(q, now, wait, kickAtOnce), now)
    ensures multiset(Drained(q, now, wait, kickAtOnce)) ==
      multiset(q[Due(q, now)..]) + (if kickAtOnce then multiset{} else multiset(Rearming(q[..Due(q, now)], now + wait)))
  {
    hide After, RearmAll;
    var k := Due(q, now);
    DueExactly(q, now);
    SortedSuffix(q, k);
    if !kickAtOnce {
      RearmAllSorted(q[k..], q[..k], now + wait);
      RearmAllAfter(q[k..], q[..k], now + wait, now);
      RearmAllMultiset(q[k..], q[..k], now + wait);
    }
  }

  lemma SortedSuffix(q: seq<Entry>, k: nat)
    requires Sorted(q) && k <= |q|
    ensures Sorted(q[k..])
  {
  }

  function Rearming(es: seq<Entry>, key: int): seq<Entry> {
    seq(|es|, i requires 0 <= i < |es| => Rearmed(es[i], key))
  }

  lemma {:induction false} RearmAllMultiset(q: seq<Entry>, es: seq<Entry>, key: int)
    ensures multiset(RearmAll(q, es, key)) == multiset(q) + multiset(Rearming(es, key))
    decreases es
  {
    if es == [] {
      assert Rearming(es, key) == [];
    } else {
      RearmAllMultiset(q, es[..|es| - 1], key);
      InsertMultiset(RearmAll(q, es[..|es| - 1], key), Rearmed(es[|es| - 1], key));
      assert Rearming(es, key) == Rearming(es[..|es| - 1], key) + [Rearmed(es[|es| - 1], key)];
    }
  }

  /** The entries of other connections. */
  function Others(q: seq<Entry>, c: Id): seq<Entry> {
    if q == [] then [] else (if q[0].conn == c then [] else [q[0]]) + Others(q[1..], c)
  }

  lemma {:induction false} OthersAppend(a: seq<Entry>, b: seq<Entry>, c: Id)
    ensures Others(a + b, c) == Others(a, c) + Others(b, c)
  {
    if a == [] {
      assert a + b == b;
    } else {
      assert (a + b)[1..] == a[1..] + b;
      OthersAppend(a[1..], b, c);
    }
  }

  lemma {:induction false} OthersAll(q: seq<Entry>, c: Id)
    requires forall i :: 0 <= i < |q| ==> q[i].conn != c
    ensures Others(q, c) == q
  {
    if q != [] {
      OthersAll(q[1..], c);
    }
  }

  lemma OthersRemove(q: seq<Entry>, i: nat, c: Id)
    requires i < |q| && q[i].conn == c
    ensures Others(q[..i] + q[i + 1..], c) == Others(q, c)
  {
    assert q == q[..i] + [q[i]] + q[i + 1..];
    OthersAppend(q[..i] + [q[i]], q[i + 1..], c);
    OthersAppend(q[..i], [q[i]], c);
    OthersAppend(q[..i], q[i + 1..], c);
  }

  lemma SortedRemove(q: seq<Entry>, i: nat)
    requires i < |q| && Sorted(q)
    ensures Sorted(q[..i] + q[i + 1..])
  {
  }

  class TimerQueue {
    const m_iWaitTime: nat
    const m_ifTimeOutKick: bool
    var m_timerQueuemap: seq<Entry>
    var m_cur_size_: nat
    var m_timer_value_: int

    /** The cached size and time agree with the multimap. */
    ghost predicate Valid()
      reads this
    {
      && m_iWaitTime >= 5
      && Sorted(m_timerQueuemap)
      && m_cur_size_ == |m_timerQueuemap|
      && (m_timerQueuemap != [] ==> m_timer_value_ == m_timerQueuemap[0].key)
    }

    /** The configured wait is raised to five seconds. */
    constructor (wait: int, kickAtOnce: bool)
      ensures Valid() && m_timerQueuemap == [] && m_ifTimeOutKick == kickAtOnce
      ensures m_iWaitTime == if wait > 5 then wait else 5
    {
      m_iWaitTime := if wait > 5 then wait else 5;
      m_ifTimeOutKick := kickAtOnce;
      m_timerQueuemap := [];
      m_cur_size_ := 0;
      m_timer_value_ := 0;
    }

    function GetEarliestTime(): (t: int)
      requires m_timerQueuemap != []
      reads this
      ensures Sorted(m_timerQueuemap) ==> forall i :: 0 <= i < |m_timerQueuemap| ==> t <= m_timerQueuemap[i].key
    {
      m_timerQueuemap[0].key
    }

    method AddToTimerQueue(conn: Id, sequence: nat, now: int)
      requires Valid()
      modifies this
      ensures Valid()
      ensures m_timerQueuemap == Insert(old(m_timerQueuemap), Entry(now + m_iWaitTime, conn, sequence))
    {
      var e := Entry(now + m_iWaitTime, conn, sequence);
      InsertSorted(m_timerQueuemap, e);
      m_timerQueuemap := Insert(m_timerQueuemap, e);
      m_cur_size_ := m_cur_size_ + 1;
      m_timer_value_ := GetEarliestTime();
    }

    method RemoveFirstTimer() returns (e: Option<Entry>)
      requires Sorted(m_timerQueuemap) && m_cur_size_ == |m_timerQueuemap|
      modifies this`m_timerQueuemap, this`m_cur_size_
      ensures Sorted(m_timerQueuemap) && m_cur_size_ == |m_timerQueuemap|
      ensures if old(m_timerQueuemap) == [] then e == None && m_timerQueuemap == []
              else e == Some(old(m_timerQueuemap)[0]) && m_timerQueuemap == old(m_timerQueuemap)[1..]
    {
      if m_cur_size_ <= 0 {
        return None;
      }
      e := Some(m_timerQueuemap[0]);
      m_timerQueuemap := m_timerQueuemap[1..];
      m_cur_size_ := m_cur_size_ - 1;
    }

    /** Takes the first entry if it is due. */
    method GetOverTimeTimer(now: int) returns (e: Option<Entry>)
      requires Valid()
      modifies this
      ensures Valid()
      ensures var q := old(m_timerQueuemap);
        if q == [] || q[0].key > now then
          e == None && m_timerQueuemap == q
        else
          && e == Some(q[0])
          && m_timerQueuemap == if m_ifTimeOutKick then q[1..] else Insert(q[1..], Rearmed(q[0], now + m_iWaitTime))
    {
      if m_cur_size_ == 0 || m_timerQueuemap == [] {
        return None;
      }
      if GetEarliestTime() <= now {
        e := RemoveFirstTimer();
        if !m_ifTimeOutKick {
          var again := Rearmed(e.value, now + m_iWaitTime);
          InsertSorted(m_timerQueuemap, again);
          m_timerQueuemap := Insert(m_timerQueuemap, again);
          m_cur_size_ := m_cur_size_ + 1;
        }
        if m_cur_size_ > 0 {
          m_timer_value_ := GetEarliestTime();
        }
        return e;
      }
      return None;
    }

    /** The drain loop of ServerTimerQueueMonitorThread, run under its mutex. */
    method Drain(now: int) returns (idle: seq<Entry>)
      requires Valid()
      modifies this
      ensures Valid()
      ensures idle == old(m_timerQueuemap)[..Due(old(m_timerQueuemap), now)]
      ensures m_timerQueuemap == Drained(old(m_timerQueuemap), now, m_iWaitTime, m_ifTimeOutKick)
    {
      ghost var q := m_timerQueuemap;
      ghost var k := Due(q, now);
      ghost var wait, kick := m_iWaitTime, m_ifTimeOutKick;
      hide Sorted, Due, Partly, Insert;
      PartlyEnds(q, now, wait, kick);
      idle := [];
      DrainStep(q, now, wait, kick, 0);
      var result := GetOverTimeTimer(now);
      while result.Some?
        invariant Valid() && |idle| <= k && idle == q[..|idle|]
        invariant result.Some? ==> |idle| < k && result.value == q[|idle|] && m_timerQueuemap == Partly(q, now, wait, kick, |idle| + 1)
        invariant result.None? ==> |idle| == k && m_timerQueuemap == Partly(q, now, wait, kick, k)
        decreases k - |idle|, result.Some?
      {
        assert q[..|idle| + 1] == q[..|idle|] + [q[|idle|]];
        idle := idle + [result.value];
        DrainStep(q, now, wait, kick, |idle|);
        result := GetOverTimeTimer(now);
      }
    }

    /** Removes every entry of a connection, starting over after each. */
    method DeleteFromTimerQueue(conn: Id)
      requires Valid()
      modifies this
      ensures Valid()
      ensures m_timerQueuemap == Others(old(m_timerQueuemap), conn)
    {
      var found := true;
      while found
        invariant Sorted(m_timerQueuemap) && m_cur_size_ == |m_timerQueuemap|
        invariant Others(m_timerQueuemap, conn) == Others(old(m_timerQueuemap), conn)
        invariant !found ==> forall i :: 0 <= i < |m_timerQueuemap| ==> m_timerQueuemap[i].conn != conn
        decreases |m_timerQueuemap|, found
      {
        found := false;
        var pos := 0;
        while pos < |m_timerQueuemap| && !found
          invariant 0 <= pos <= |m_timerQueuemap|
          invariant !found ==> forall i :: 0 <= i < pos ==> m_timerQueuemap[i].conn != conn
          invariant found ==> pos < |m_timerQueuemap| && m_timerQueuemap[pos].conn == conn
          decreases |m_timerQueuemap| - pos, !found
        {
          if m_timerQueuemap[pos].conn == conn {
            found := true;
          } else {
            pos := pos + 1;
          }
        }
        if found {
          OthersRemove(m_timerQueuemap, pos, conn);
          SortedRemove(m_timerQueuemap, pos);
          m_timerQueuemap := m_timerQueuemap[..pos] + m_timerQueuemap[pos + 1..];
          m_cur_size_ := m_cur_size_ - 1;
        }
      }
      OthersAll(m_timerQueuemap, conn);
      if m_cur_size_ > 0 {
        m_timer_value_ := GetEarliestTime();
      }
    }
  }

  /** The queue once the first j entries due have been taken. */
  function Partly(q: seq<Entry>, now: int, wait: nat, kickAtOnce: bool, j: nat): seq<Entry>
    requires j <= |q|
  {
    if kickAtOnce then q[j..] else RearmAll(q[j..], q[..j], now + wait)
  }

  /** Entries put back during the drain stay behind those still due. */
  lemma DrainStep(q: seq<Entry>, now: int, wait: nat, kickAtOnce: bool, j: nat)
    requires Sorted(q) && wait > 0 && j <= Due(q, now)
    ensures var p := Partly(q, now, wait, kickAtOnce, j);
      if j == Due(q, now) then
        p == [] || p[0].key > now
      else
        && p != [] && p[0] == q[j] && p[0].key <= now
        && Partly(q, now, wait, kickAtOnce, j + 1) == if kickAtOnce then p[1..] else Insert(p[1..], Rearmed(q[j], now + wait))
  {
    hide Insert, RearmAll, Sorted, Due;
    DueExactly(q, now);
    if j == Due(q, now) {
      hide Partly;
      DrainExactly(q, now, wait, kickAtOnce);
      PartlyEnds(q, now, wait, kickAtOnce);
    } else {
      if !kickAtOnce {
        RearmNext(q, j, now + wait);
      } else {
        assert q[j..][1..] == q[j + 1..];
      }
    }
  }

  lemma RearmNext(q: seq<Entry>, j: nat, key: int)
    requires j < |q| && q[j].key <= key
    ensures var p := RearmAll(q[j..], q[..j], key);
      p != [] && p[0] == q[j] && RearmAll(q[j + 1..], q[..j + 1], key) == Insert(p[1..], Rearmed(q[j], key))
  {
    hide Insert, RearmAll;
    var p := RearmAll(q[j..], q[..j], key);
    RearmAllTail(q[j..], q[..j], key);
    assert q[j..][1..] == q[j + 1..];
    assert p[1..] == RearmAll(q[j + 1..], q[..j], key);
    RearmAllLast(q[j + 1..], q[..j + 1], key);
    assert q[..j + 1][..j] == q[..j];
  }

  lemma RearmAllLast(q: seq<Entry>, es: seq<Entry>, key: int)
    requires es != []
    ensures RearmAll(q, es, key) == Insert(RearmAll(q, es[..|es| - 1], key), Rearmed(es[|es| - 1], key))
  {
  }

  lemma PartlyEnds(q: seq<Entry>, now: int, wait: nat, kickAtOnce: bool)
    ensures Partly(q, now, wait, kickAtOnce, 0) == q
    ensures Partly(q, now, wait, kickAtOnce, Due(q, now)) == Drained(q, now, wait, kickAtOnce)
  {
  }
}
