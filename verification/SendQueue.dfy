/** The send engine as the server runs it: fields updated in place, with the
    steps of module Sending as its specification. */
module SendQueue {
  import opened Common
  import opened Bytes
  import opened Framing
  import opened Sending

  class Engine {
    var peers: map<Id, Peer>
    var m_MsgSendQueue: seq<Msg>
    var m_iSendMsgQueueCount: int
    var m_semEventSendQueue: nat
    var m_iDiscardSendPkgCount: nat
    var sender: Sender

    ghost function View(): State
      reads this
    {
      State(peers, m_MsgSendQueue, m_iSendMsgQueueCount, m_semEventSendQueue, m_iDiscardSendPkgCount, sender)
    }

    ghost predicate Valid()
      reads this
    {
      Inv(View())
    }

    constructor (pool: map<Id, Peer>)
      requires forall c :: c in pool ==> pool[c] == IDLE.(sequence := pool[c].sequence)
      ensures Valid() && Initial(View()) && peers == pool
    {
      peers := pool;
      m_MsgSendQueue := [];
      m_iSendMsgQueueCount := 0;
      m_semEventSendQueue := 0;
      m_iDiscardSendPkgCount := 0;
      sender := Waiting;
      new;
      InitialInv(View());
    }

    /** msgSend. */
    method MsgSend(m: Msg, again: bool)
      requires Valid() && Enabled(View(), Event.MsgSend(m, again))
      modifies this
      ensures Valid() && View() == Next(old(View()), Event.MsgSend(m, again))
    {
      hide PeerInv, IsPacket, Mine;
      InvStep(View(), Event.MsgSend(m, again));
      if m_iSendMsgQueueCount > 50000 {
        m_iDiscardSendPkgCount := m_iDiscardSendPkgCount + 1;
        return;
      }
      var p := peers[m.conn];
      if p.sendCount > 400 {
        m_iDiscardSendPkgCount := m_iDiscardSendPkgCount + 1;
        CloseSocketProc(m.conn, again);
        return;
      }
      p := p.(sendCount := p.sendCount + 1);
      if m.sequence == p.sequence {
        p := p.(asked := p.asked + [m.packet]);
      } else {
        p := p.(stale := p.stale + 1);
      }
      peers := peers[m.conn := p];
      m_MsgSendQueue := m_MsgSendQueue + [m];
      m_iSendMsgQueueCount := m_iSendMsgQueueCount + 1;
      m_semEventSendQueue := m_semEventSendQueue + 1;
    }

    /** zdClosesocketProc, as far as sending goes. */
    method CloseSocketProc(c: Id, again: bool)
      requires c in peers
      modifies this`peers
      ensures peers == old(peers)[c := Closed(old(peers)[c], again)]
    {
      var p := peers[c];
      var enters := p.open || again;
      p := p.(open := false);
      if p.throwCount > 0 {
        p := p.(throwCount := p.throwCount - 1);
      }
      if enters {
        p := p.(sequence := p.sequence + 1);
      }
      peers := peers[c := p];
    }

    /** One round of ServerSendQueueThread, from sem_wait to the unlock;
        interrupted says that sem_wait returned EINTR, after which the round goes
        on all the same. kernel[k] is the room in the socket met by the k-th
        message looked at. */
    method SenderPass(interrupted: bool, kernel: seq<nat>) returns (ghost events: seq<Event>)
      requires Valid() && sender == Waiting && (interrupted || m_semEventSendQueue > 0)
      requires |kernel| >= |m_MsgSendQueue|
      modifies this
      ensures Valid() && sender == Waiting
      ensures Runs(old(View()), events, View()) && SenderOnly(events)
      ensures m_semEventSendQueue == old(m_semEventSendQueue) - if interrupted then 0 else 1
      ensures forall i :: 0 <= i < |m_MsgSendQueue| ==> ThrottledAt(peers, m_MsgSendQueue, i)
    {
      hide Inv, PeerInv, IsPacket, Mine;
      ghost var start := View();
      events := [];
      assert Runs(start, events, View());
      events := Did(start, events, View(), if interrupted then SemInterrupted else SemWait);
      if !interrupted {
        m_semEventSendQueue := m_semEventSendQueue - 1;
      }
      sender := Woken;
      events := Did(start, events, View(), TestCount);
      if m_iSendMsgQueueCount > 0 {
        sender := Scanning(0);
        var pos: nat, looked: nat := 0, 0;
        while pos < |m_MsgSendQueue|
          invariant Valid() && sender == Scanning(pos) && 0 <= pos <= |m_MsgSendQueue|
          invariant |m_MsgSendQueue| - pos + looked == |old(m_MsgSendQueue)|
          invariant Runs(start, events, View()) && SenderOnly(events)
          invariant m_semEventSendQueue == old(m_semEventSendQueue) - if interrupted then 0 else 1
          invariant forall i :: 0 <= i < pos ==> ThrottledAt(peers, m_MsgSendQueue, i)
          decreases |m_MsgSendQueue| - pos
        {
          var room := kernel[looked];
          looked := looked + 1;
          events := Did(start, events, View(), ScanNext(room));
          pos := ScanMessage(pos, room);
          sender := Scanning(pos);
        }
        events := Did(start, events, View(), ScanNext(0));
      } else {
        NothingQueued();
      }
      sender := Waiting;
    }

    lemma NothingQueued()
      requires Valid() && m_iSendMsgQueueCount <= 0
      ensures m_MsgSendQueue == []
    {
    }

    /** The body of the scan for the message at pos. */
    method ScanMessage(pos: nat, room: nat) returns (next: nat)
      requires Valid() && sender == Scanning(pos) && pos < |m_MsgSendQueue|
      requires forall i :: 0 <= i < pos ==> ThrottledAt(peers, m_MsgSendQueue, i)
      modifies this`peers, this`m_MsgSendQueue, this`m_iSendMsgQueueCount
      ensures View().(sender := Scanning(next)) == Next(old(View()), ScanNext(room))
      ensures next <= |m_MsgSendQueue| && forall i :: 0 <= i < next ==> ThrottledAt(peers, m_MsgSendQueue, i)
      ensures |m_MsgSendQueue| - next == |old(m_MsgSendQueue)| - pos - 1
    {
      hide PeerInv, IsPacket;
      var m := m_MsgSendQueue[pos];
      var p := peers[m.conn];
      if p.sequence != m.sequence {
        Erase(pos);
        assert forall i :: 0 <= i < pos ==> m_MsgSendQueue[i] == old(m_MsgSendQueue)[i] && ThrottledAt(old(peers), old(m_MsgSendQueue), i);
        return pos;
      }
      if p.throwCount > 0 {
        assert ThrottledAt(peers, m_MsgSendQueue, pos);
        return pos + 1;
      }
      Erase(pos);
      assert forall i :: 0 <= i < pos ==> m_MsgSendQueue[i] == old(m_MsgSendQueue)[i] && ThrottledAt(old(peers), old(m_MsgSendQueue), i);
      p := p.(sendCount := p.sendCount - 1, sent := p.sent + [m.packet]);
      var isendlen := |m.packet|;
      var sendsize := if room == 0 then -1 else Min(room, isendlen);
      if sendsize > 0 {
        p := p.(wire := p.wire + m.packet[..sendsize]);
        if sendsize == isendlen {
          p := p.(psend := None, throwCount := 0);
        } else {
          p := p.(psend := Some(m.packet[sendsize..]), throwCount := p.throwCount + 1, pollOut := true);
        }
      } else {
        assert m.packet[..0] == [] && p.wire + [] == p.wire && m.packet[0..] == m.packet;
        p := p.(psend := Some(m.packet), throwCount := p.throwCount + 1, pollOut := true);
      }
      peers := peers[m.conn := p];
      QueuedIsPacket(m.packet, old(View()), pos);
      return pos;
    }

    lemma QueuedIsPacket(packet: seq<byte>, s: State, i: nat)
      requires Inv(s) && i < |s.queue| && s.queue[i].packet == packet
      ensures |packet| >= HEADER_LENGTH
    {
    }

    /** Removes the message at pos and keeps the counter in step. */
    method Erase(pos: nat)
      requires pos < |m_MsgSendQueue|
      modifies this`m_MsgSendQueue, this`m_iSendMsgQueueCount
      ensures m_MsgSendQueue == Without(old(m_MsgSendQueue), pos)
      ensures m_iSendMsgQueueCount == old(m_iSendMsgQueueCount) - 1
    {
      m_MsgSendQueue := m_MsgSendQueue[..pos] + m_MsgSendQueue[pos + 1..];
      m_iSendMsgQueueCount := m_iSendMsgQueueCount - 1;
    }

    /** qc_write_request_handler, called when EPOLLOUT is reported and room is
        what the socket can take. */
    method WriteRequestHandler(c: Id, room: nat)
      requires Valid() && Enabled(View(), WriteSend(c, room))
      modifies this`peers, this`m_semEventSendQueue
      ensures Valid()
      ensures View() == HandlerStep(old(View()), c, room)
    {
      hide Bounded, Accounted, Stream, IsPacket, Mine;
      ghost var before := View();
      InvStep(before, WriteSend(c, room));
      var p := peers[c];
      assert PeerInv(p, m_MsgSendQueue, c);
      var rest := p.psend.value;
      var sendsize := if room == 0 then -1 else Min(room, |rest|);
      assert |rest| > 0 && p.throwCount == 1 && !p.posted;
      if sendsize > 0 && sendsize != |rest| {
        p := p.(psend := Some(rest[sendsize..]), wire := p.wire + rest[..sendsize]);
        peers := peers[c := p];
        return;
      } else if sendsize == -1 {
        assert rest[0..] == rest && p.wire + rest[..0] == p.wire;
        assert Resumed(p, room) == p && !p.posted;
        assert peers[c := p] == peers;
        return;
      }
      InvStep(Next(before, WriteSend(c, room)), WriteFinish(c));
      p := p.(wire := p.wire + rest, pollOut := false);
      m_semEventSendQueue := m_semEventSendQueue + 1;
      p := p.(psend := None);
      p := p.(throwCount := p.throwCount - 1);
      peers := peers[c := p];
      assert rest[..|rest|] == rest;
      assert p == Finished(Resumed(old(peers)[c], room));
      assert peers == old(peers)[c := Resumed(old(peers)[c], room)][c := p];
    }
  }

  /** The message at i belongs to the current lease of its connection, and that
      connection waits for its socket. */
  predicate ThrottledAt(peers: map<Id, Peer>, queue: seq<Msg>, i: nat) {
    && i < |queue| && queue[i].conn in peers
    && peers[queue[i].conn].sequence == queue[i].sequence && peers[queue[i].conn].throwCount > 0
  }

  /** Extends a run by the step that is about to be taken. */
  lemma Did(start: State, events: seq<Event>, s: State, e: Event) returns (longer: seq<Event>)
    requires Inv(s) && Runs(start, events, s) && Enabled(s, e)
    requires SenderOnly(events) && (e.SemWait? || e.SemInterrupted? || e.TestCount? || e.ScanNext?)
    ensures Inv(Next(s, e)) && Runs(start, longer, Next(s, e)) && SenderOnly(longer)
  {
    hide Inv, Next, Enabled;
    InvStep(s, e);
    RunsSnoc(start, events, s, e);
    longer := events + [e];
  }
}
