/** Assembling packets from the byte stream of one connection. */
module Framing {
  import opened Bytes

  const HEADER_LENGTH := 8
  const HEADER_BUFFER := 20
  const MAX_LENGTH := 30000 - 1000

  // ---------------------------------------------------------------------
  // Reference definition: a parser that sees the whole stream at once.

  /** The packet length a header announces. */
  function AnnouncedLength(s: seq<byte>): nat
    requires |s| >= 2
  {
    Ntohs(s[0], s[1])
  }

  predicate AcceptableLength(n: nat) {
    HEADER_LENGTH <= n <= MAX_LENGTH
  }

  /** The packets of a stream and the octets of the packet still incomplete. */
  datatype Parsed = Parsed(packets: seq<seq<byte>>, rest: seq<byte>)

  /** Read a header; drop it if its length is unacceptable, otherwise take the
      whole packet. */
  function Parse(s: seq<byte>): Parsed {
    if |s| < HEADER_LENGTH then
      Parsed([], s)
    else if !AcceptableLength(AnnouncedLength(s)) then
      Parse(s[HEADER_LENGTH..])
    else if |s| < AnnouncedLength(s) then
      Parsed([], s)
    else
      var n := AnnouncedLength(s);
      var tail := Parse(s[n..]);
      Parsed([s[..n]] + tail.packets, tail.rest)
  }

  /** A complete packet: its header announces its own length. */
  predicate IsPacket(p: seq<byte>) {
    |p| >= HEADER_LENGTH && AcceptableLength(|p|) && AnnouncedLength(p) == |p|
  }

  /** What can be left over: less than a header, or a good header whose packet
      is incomplete. */
  predicate IsIncomplete(s: seq<byte>) {
    |s| < HEADER_LENGTH || (AcceptableLength(AnnouncedLength(s)) && |s| < AnnouncedLength(s))
  }

  /** What a header decides, from its first two octets: fewer than 8 or more
      than 29000 octets and it is dropped, 8 and it is a packet, otherwise a
      body is to follow. */
  lemma HeaderDecides(h: seq<byte>)
    requires |h| == 8
    ensures var n := 256 * (h[0] as nat) + h[1] as nat;
      Parse(h) == if n < 8 || n > 29000 then Parsed([], []) else if n == 8 then Parsed([h], []) else Parsed([], h)
  {
    assert h[8..] == [] && h[..8] == h;
  }

  /** A header whose first octets are 0 and 8 is a whole packet. */
  lemma HeaderOnly(h: seq<byte>)
    requires |h| == 8 && h[0] == 0 && h[1] == 8
    ensures Parse(h) == Parsed([h], [])
  {
    HeaderDecides(h);
  }

  lemma {:induction false} ParseShape(s: seq<byte>)
    ensures IsIncomplete(Parse(s).rest)
    ensures forall i :: 0 <= i < |Parse(s).packets| ==> IsPacket(Parse(s).packets[i])
    decreases |s|
  {
    hide Ntohs;
    if |s| >= HEADER_LENGTH {
      var n := AnnouncedLength(s);
      if !AcceptableLength(n) {
        ParseShape(s[HEADER_LENGTH..]);
      } else if n <= |s| {
        ParseShape(s[n..]);
      }
    }
  }

  lemma {:induction false} ParseAppend(s: seq<byte>, t: seq<byte>)
    ensures Parse(s + t).packets == Parse(s).packets + Parse(Parse(s).rest + t).packets
    ensures Parse(s + t).rest == Parse(Parse(s).rest + t).rest
    decreases |s|
  {
    hide Ntohs;
    if |s| >= HEADER_LENGTH {
      var n := AnnouncedLength(s);
      if !AcceptableLength(n) {
        assert (s + t)[HEADER_LENGTH..] == s[HEADER_LENGTH..] + t;
        ParseAppend(s[HEADER_LENGTH..], t);
      } else if n <= |s| {
        assert (s + t)[n..] == s[n..] + t && (s + t)[..n] == s[..n];
        ParseAppend(s[n..], t);
      }
    }
  }

  lemma {:induction false} ParseIncomplete(s: seq<byte>)
    requires IsIncomplete(s)
    ensures Parse(s) == Parsed([], s)
  {
  }

  function Concat(chunks: seq<seq<byte>>): seq<byte> {
    if chunks == [] then [] else chunks[0] + Concat(chunks[1..])
  }

  /** Feeding chunks one after another, keeping the leftover in between: the
      specification of ReceiveStream. */
  function Deliver(held: seq<byte>, chunks: seq<seq<byte>>): Parsed
    decreases chunks
  {
    if chunks == [] then
      Parsed([], held)
    else
      var now := Parse(held + chunks[0]);
      var later := Deliver(now.rest, chunks[1..]);
      Parsed(now.packets + later.packets, later.rest)
  }

  /** However the stream is cut into chunks, the packets and the leftover are
      those of the one-shot parser. */
  lemma {:induction false} ChunkingIndependence(held: seq<byte>, chunks: seq<seq<byte>>)
    requires IsIncomplete(held)
    ensures Deliver(held, chunks) == Parse(held + Concat(chunks))
    decreases chunks
  {
    hide Ntohs;
    if chunks == [] {
      assert held + Concat(chunks) == held;
      ParseIncomplete(held);
    } else {
      var now := Parse(held + chunks[0]);
      ParseShape(held + chunks[0]);
      ChunkingIndependence(now.rest, chunks[1..]);
      ParseAppend(held + chunks[0], Concat(chunks[1..]));
      assert held + Concat(chunks) == held + chunks[0] + Concat(chunks[1..]);
    }
  }

  /** Two ways to cut the same stream are indistinguishable. */
  lemma SameStreamSamePackets(a: seq<seq<byte>>, b: seq<seq<byte>>)
    requires Concat(a) == Concat(b)
    ensures Deliver([], a) == Deliver([], b)
  {
    ChunkingIndependence([], a);
    ChunkingIndependence([], b);
  }

  /** How many octets the next recv asks for: the rest of the header, or of the
      packet. */
  function Wanted(held: seq<byte>): int {
    (if |held| < HEADER_LENGTH then HEADER_LENGTH else AnnouncedLength(held)) - |held|
  }

  /** Each chunk is something recv can return at that point: between one octet
      and as many as were asked for. */
  predicate Receivable(held: seq<byte>, chunks: seq<seq<byte>>)
    decreases chunks
  {
    chunks != [] ==>
      1 <= |chunks[0]| <= Wanted(held) && Receivable(Parse(held + chunks[0]).rest, chunks[1..])
  }

  /** Every stream can arrive: recv may return it octet by octet. */
  lemma {:induction false} OctetByOctet(held: seq<byte>, s: seq<byte>) returns (chunks: seq<seq<byte>>)
    requires IsIncomplete(held)
    ensures Concat(chunks) == s && Receivable(held, chunks)
    decreases s
  {
    hide Ntohs, Parse;
    if s == [] {
      chunks := [];
    } else {
      ParseShape(held + [s[0]]);
      var rest := OctetByOctet(Parse(held + [s[0]]).rest, s[1..]);
      chunks := [[s[0]]] + rest;
      assert chunks[1..] == rest && [s[0]] + s[1..] == s;
    }
  }

  function Continued(done: seq<seq<byte>>, later: Parsed): Parsed {
    Parsed(done + later.packets, later.rest)
  }

  lemma NothingYet(later: Parsed)
    ensures Continued([], later) == later
  {
    assert [] + later.packets == later.packets;
  }

  lemma DeliverNothing(done: seq<seq<byte>>, held: seq<byte>)
    ensures Continued(done, Deliver(held, [])) == Parsed(done, held)
  {
    assert done + [] == done;
  }

  /** One more chunk of a delivery. */
  lemma DeliverNext(done: seq<seq<byte>>, held: seq<byte>, chunks: seq<seq<byte>>, k: nat)
    requires k < |chunks|
    ensures var now := Parse(held + chunks[k]);
      Continued(done, Deliver(held, chunks[k..])) == Continued(done + now.packets, Deliver(now.rest, chunks[k + 1..]))
    ensures Receivable(held, chunks[k..]) ==>
      1 <= |chunks[k]| <= Wanted(held) && Receivable(Parse(held + chunks[k]).rest, chunks[k + 1..])
  {
    hide Parse;
    assert chunks[k..][1..] == chunks[k + 1..] && chunks[k..][0] == chunks[k];
  }

  lemma ParseOne(p: seq<byte>, tail: seq<byte>)
    requires IsPacket(p)
    ensures Parse(p + tail).packets == [p] + Parse(tail).packets && Parse(p + tail).rest == Parse(tail).rest
  {
    hide Ntohs;
    var s := p + tail;
    assert s[..|p|] == p && s[|p|..] == tail && AnnouncedLength(s) == |p|;
  }

  lemma ParseExact(p: seq<byte>)
    requires IsPacket(p)
    ensures Parse(p) == Parsed([p], [])
  {
    ParseOne(p, []);
    assert p + [] == p;
  }

  lemma ParseBadHeader(h: seq<byte>)
    requires |h| == HEADER_LENGTH && !AcceptableLength(AnnouncedLength(h))
    ensures Parse(h) == Parsed([], [])
  {
    hide Ntohs;
    assert h[HEADER_LENGTH..] == [];
  }

  /** Whole packets are recovered one by one, whatever follows them. */
  lemma {:induction false} ParsePackets(packets: seq<seq<byte>>, tail: seq<byte>)
    requires forall i :: 0 <= i < |packets| ==> IsPacket(packets[i])
    ensures Parse(Concat(packets) + tail).packets == packets + Parse(tail).packets
    ensures Parse(Concat(packets) + tail).rest == Parse(tail).rest
    decreases packets
  {
    hide Ntohs;
    if packets == [] {
      assert Concat(packets) + tail == tail;
    } else {
      assert Concat(packets) + tail == packets[0] + (Concat(packets[1..]) + tail);
      ParseOne(packets[0], Concat(packets[1..]) + tail);
      ParsePackets(packets[1..], tail);
    }
  }

  /** A stream of whole packets is read back in whatever chunks it arrives. */
  lemma PacketsDelivered(packets: seq<seq<byte>>, chunks: seq<seq<byte>>)
    requires forall i :: 0 <= i < |packets| ==> IsPacket(packets[i])
    requires Concat(chunks) == Concat(packets)
    ensures Deliver([], chunks) == Parsed(packets, [])
  {
    EmptyIncomplete();
    hide *;
    var s := Concat(packets);
    assert [] + s == s && s + [] == s;
    ChunkingIndependence([], chunks);
    ParsePackets(packets, []);
    assert packets + [] == packets;
  }

  lemma EmptyIncomplete()
    ensures IsIncomplete([]) && Parse([]) == Parsed([], [])
  {
  }

  /** A header with an unacceptable length costs its own eight octets and
      nothing else. */
  lemma ParseResynchronises(s: seq<byte>, header: seq<byte>, tail: seq<byte>)
    requires |header| == HEADER_LENGTH && !AcceptableLength(AnnouncedLength(header))
    requires Parse(s).rest == []
    ensures Parse(s + header + tail).packets == Parse(s).packets + Parse(tail).packets
    ensures Parse(s + header + tail).rest == Parse(tail).rest
  {
    ParseAppend(s, header + tail);
    assert s + header + tail == s + (header + tail);
    assert Parse(s).rest + (header + tail) == header + tail;
    assert (header + tail)[HEADER_LENGTH..] == tail;
  }

  // ---------------------------------------------------------------------
  // The receive state machine.

  datatype Stat = HeaderInit | HeaderReceiving | BodyInit | BodyReceiving

  /** What one call of recv returned. */
  datatype Received = Data(chunk: seq<byte>) | PeerClosed | WouldBlock | Interrupted | Failed

  /** The memory allocated for one packet: the message header, which names the
      connection and its sequence number, followed by the packet. */
  class Message {
    const connection: Connection
    const sequence: nat
    const packet: array<byte>

    constructor (connection: Connection, sequence: nat, length: nat)
      ensures this.connection == connection && this.sequence == sequence
      ensures fresh(packet) && packet.Length == length
    {
      this.connection := connection;
      this.sequence := sequence;
      packet := new byte[length];
    }
  }

  /** The packets held by a list of messages. */
  ghost function Packets(messages: seq<Message>): (p: seq<seq<byte>>)
    reads set m | m in messages :: m.packet
    ensures |p| == |messages|
  {
    if messages == [] then
      []
    else
      Packets(messages[..|messages| - 1]) + [messages[|messages| - 1].packet[..]]
  }

  lemma {:induction false} PacketsAre(messages: seq<Message>, packets: seq<seq<byte>>)
    requires |messages| == |packets|
    requires forall i :: 0 <= i < |messages| ==> messages[i].packet[..] == packets[i]
    ensures Packets(messages) == packets
  {
    if messages != [] {
      var n := |messages| - 1;
      PacketsAre(messages[..n], packets[..n]);
      assert packets == packets[..n] + [packets[n]];
    }
  }

  /** The queue of the worker pool. */
  class MessageQueue {
    var messages: seq<Message>

    constructor ()
      ensures messages == []
    {
      messages := [];
    }
  }

  /** A pooled connection: the fields that receiving and pinging use. The
      receive pointer is the buffer precvbuf with the offset precvpos. */
  class Connection {
    var iCurrsequence: nat
    var lastPingTime: int
    var curStat: Stat
    const dataHeadInfo: array<byte>
    var precvbuf: array<byte>
    var precvpos: nat
    var irecvlen: nat
    var precvMem: Message?

    ghost predicate Valid()
      reads this, dataHeadInfo, precvMem, if precvMem == null then {} else {precvMem.packet}
    {
      && dataHeadInfo.Length == HEADER_BUFFER
      && match curStat
         case HeaderInit => InHeader() && precvpos == 0
         case HeaderReceiving => InHeader() && 0 < precvpos < HEADER_LENGTH
         case BodyInit => InBody() && precvpos == HEADER_LENGTH
         case BodyReceiving => InBody() && HEADER_LENGTH < precvpos
    }

    ghost predicate InHeader()
      reads this
    {
      precvbuf == dataHeadInfo && precvMem == null && precvpos + irecvlen == HEADER_LENGTH
    }

    ghost predicate InBody()
      reads this, precvMem, if precvMem == null then {} else {precvMem.packet}
    {
      && precvMem != null && precvbuf == precvMem.packet && precvbuf != dataHeadInfo
      && precvMem.connection == this && precvMem.sequence == iCurrsequence
      && precvpos >= HEADER_LENGTH && irecvlen > 0
      && precvpos + irecvlen == precvbuf.Length
      && AcceptableLength(precvbuf.Length)
      && AnnouncedLength(precvbuf[..]) == precvbuf.Length
    }

    /** The octets received so far of the packet being assembled. */
    ghost function Held(): seq<byte>
      requires Valid()
      reads this, dataHeadInfo, precvMem, if precvMem == null then {} else {precvMem.packet}, precvbuf
    {
      precvbuf[..precvpos]
    }

    /** No queued message shares memory with what the connection writes. */
    ghost predicate Apart(queue: MessageQueue)
      reads this, queue
    {
      && (forall m :: m in queue.messages ==> m.packet != dataHeadInfo)
      && (precvMem != null ==> forall m :: m in queue.messages ==> m.packet != precvMem.packet)
    }

    /** A connection as the pool creates it. */
    constructor (now: int)
      ensures Valid() && Held() == [] && iCurrsequence == 1 && lastPingTime == now && fresh(dataHeadInfo)
    {
      iCurrsequence := 0;
      dataHeadInfo := new byte[HEADER_BUFFER];
      new;
      GetOneToUse(now);
    }

    /** Whatever state the previous lease left, the next one starts clean. */
    method GetOneToUse(now: int)
      requires dataHeadInfo.Length == HEADER_BUFFER
      modifies this
      ensures Valid() && Held() == [] && precvMem == null
      ensures iCurrsequence == old(iCurrsequence) + 1 && lastPingTime == now
    {
      iCurrsequence := iCurrsequence + 1;
      curStat := HeaderInit;
      precvbuf := dataHeadInfo;
      precvpos := 0;
      irecvlen := HEADER_LENGTH;
      precvMem := null;
      lastPingTime := now;
    }

    /** The state and the octets wanted next depend only on what is held. */
    lemma StateOfHeld()
      requires Valid()
      ensures IsIncomplete(Held())
      ensures curStat == if Held() == [] then HeaderInit else if |Held()| < HEADER_LENGTH then HeaderReceiving
                         else if |Held()| == HEADER_LENGTH then BodyInit else BodyReceiving
      ensures irecvlen == Wanted(Held())
    {
    }

    /** What a call that may finish a packet does to the queue. */
    ghost predicate Handed(before: seq<Message>, after: seq<Message>, packets: seq<seq<byte>>)
      reads this, set m | m in after :: m.packet
    {
      if packets == [] then
        after == before
      else
        && |after| == |before| + 1 && after[..|before|] == before
        && var m := after[|before|];
           m.connection == this && m.sequence == iCurrsequence && packets == [m.packet[..]]
    }

    /** qc_wait_request_handler_proc_plast: hand the finished packet to the
        pool, or free it if the client floods, and wait for a header. */
    method ProcLast(queue: MessageQueue, isflood: bool)
      requires dataHeadInfo.Length == HEADER_BUFFER
      requires precvMem != null && precvMem.packet != dataHeadInfo
      requires precvMem.connection == this && precvMem.sequence == iCurrsequence
      requires forall m :: m in queue.messages ==> m.packet != dataHeadInfo
      modifies this, queue
      ensures Valid() && Apart(queue) && Held() == [] && precvbuf == dataHeadInfo
      ensures iCurrsequence == old(iCurrsequence) && lastPingTime == old(lastPingTime)
      ensures queue.messages == old(queue.messages) + if isflood then [] else [old(precvMem)]
    {
      if !isflood {
        queue.messages := queue.messages + [precvMem];
      }
      precvMem := null;
      curStat := HeaderInit;
      precvbuf := dataHeadInfo;
      precvpos := 0;
      irecvlen := HEADER_LENGTH;
    }

    /** qc_wait_request_handler_proc_p1: the header is complete. */
    method ProcP1(queue: MessageQueue, floodEnabled: bool, flood: bool) returns (isflood: bool)
      requires dataHeadInfo.Length == HEADER_BUFFER && precvMem == null
      requires forall m :: m in queue.messages ==> m.packet != dataHeadInfo
      modifies this, queue
      ensures Valid() && Apart(queue) && iCurrsequence == old(iCurrsequence) && lastPingTime == old(lastPingTime)
      ensures precvbuf == dataHeadInfo || fresh(precvbuf)
      ensures var p := Parse(dataHeadInfo[..HEADER_LENGTH]);
        && Held() == p.rest
        && isflood == (p.packets != [] && floodEnabled && flood)
        && Handed(old(queue.messages), queue.messages, if isflood then [] else p.packets)
    {
      hide Ntohs, Parse;
      isflood := false;
      ghost var header := dataHeadInfo[..HEADER_LENGTH];
      var pkgLen := Ntohs(dataHeadInfo[0], dataHeadInfo[1]);
      if pkgLen < HEADER_LENGTH {
        ParseBadHeader(header);
        curStat := HeaderInit;
        precvbuf := dataHeadInfo;
        precvpos := 0;
        irecvlen := HEADER_LENGTH;
      } else if pkgLen > MAX_LENGTH {
        ParseBadHeader(header);
        curStat := HeaderInit;
        precvbuf := dataHeadInfo;
        precvpos := 0;
        irecvlen := HEADER_LENGTH;
      } else {
        precvMem := new Message(this, iCurrsequence, pkgLen);
        var pkt := precvMem.packet;
        forall i | 0 <= i < HEADER_LENGTH {
          pkt[i] := dataHeadInfo[i];
        }
        assert pkt[..HEADER_LENGTH] == header;
        if pkgLen == HEADER_LENGTH {
          assert pkt[..] == header;
          ParseExact(header);
          if floodEnabled {
            isflood := flood;
          }
          ProcLast(queue, isflood);
          assert dataHeadInfo[..HEADER_LENGTH] == header;
        } else {
          curStat := BodyInit;
          precvbuf := pkt;
          precvpos := HEADER_LENGTH;
          irecvlen := pkgLen - HEADER_LENGTH;
          ParseIncomplete(header);
          assert dataHeadInfo[..HEADER_LENGTH] == header;
          assert InBody();
          assert Held() == header;
        }
      }
    }

    /** recvproc: the kernel writes what arrived behind the held octets.
        closed says that zdClosesocketProc is called. */
    method RecvProc(r: Received) returns (reco: int, closed: bool)
      requires Valid()
      requires r.Data? ==> 1 <= |r.chunk| <= irecvlen
      modifies precvbuf
      ensures Valid() && Held() == old(Held())
      ensures if r.Data? then reco == |r.chunk| && !closed else reco == -1 && closed == (r.PeerClosed? || r.Failed?)
      ensures r.Data? ==> precvbuf[..precvpos + reco] == Held() + r.chunk
    {
      hide Ntohs;
      if !r.Data? {
        return -1, r.PeerClosed? || r.Failed?;
      }
      forall i | 0 <= i < |r.chunk| {
        precvbuf[precvpos + i] := r.chunk[i];
      }
      return |r.chunk|, false;
    }

    /** qc_read_request_handler: one readable event, with what recv returned.
        flood is the answer TestFlood would give. */
    method ReadRequestHandler(r: Received, queue: MessageQueue, floodEnabled: bool, flood: bool) returns (closed: bool)
      requires Valid() && Apart(queue)
      requires r.Data? ==> 1 <= |r.chunk| <= irecvlen
      modifies this, queue, dataHeadInfo, precvbuf
      ensures Valid() && Apart(queue) && iCurrsequence == old(iCurrsequence) && lastPingTime == old(lastPingTime)
      ensures precvbuf == dataHeadInfo || precvbuf == old(precvbuf) || fresh(precvbuf)
      ensures !r.Data? ==> Held() == old(Held()) && queue.messages == old(queue.messages) && closed == (r.PeerClosed? || r.Failed?)
      ensures r.Data? ==>
        var p := Parse(old(Held()) + r.chunk);
        && Held() == p.rest
        && closed == (p.packets != [] && floodEnabled && flood)
        && Handed(old(queue.messages), queue.messages, if closed then [] else p.packets)
      ensures forall m :: m in old(queue.messages) ==> m.packet[..] == old(m.packet[..])
    {
      hide Ntohs, Parse;
      var isflood := false;
      var reco;
      reco, closed := RecvProc(r);
      if reco <= 0 {
        return;
      }
      ghost var received := precvbuf[..precvpos + reco];
      Progress(reco, received);
      match curStat {
        case HeaderInit =>
          if reco == HEADER_LENGTH {
            isflood := ProcP1(queue, floodEnabled, flood);
          } else {
            curStat := HeaderReceiving;
            precvpos := precvpos + reco;
            irecvlen := irecvlen - reco;
          }
        case HeaderReceiving =>
          if irecvlen == reco {
            isflood := ProcP1(queue, floodEnabled, flood);
          } else {
            precvpos := precvpos + reco;
            irecvlen := irecvlen - reco;
          }
        case BodyInit =>
          if reco == irecvlen {
            if floodEnabled {
              isflood := flood;
            }
            ProcLast(queue, isflood);
          } else {
            curStat := BodyReceiving;
            precvpos := precvpos + reco;
            irecvlen := irecvlen - reco;
          }
        case BodyReceiving =>
          if irecvlen == reco {
            if floodEnabled {
              isflood := flood;
            }
            ProcLast(queue, isflood);
          } else {
            precvpos := precvpos + reco;
            irecvlen := irecvlen - reco;
          }
      }
      closed := isflood;
    }

    /** The messages behind the first n are of this lease and hold these packets. */
    ghost predicate Collected(messages: seq<Message>, n: nat, packets: seq<seq<byte>>)
      reads this, set m | m in messages :: m.packet
    {
      && |messages| == n + |packets|
      && forall i :: n <= i < |messages| ==>
           messages[i].connection == this && messages[i].sequence == iCurrsequence && messages[i].packet[..] == packets[i - n]
    }

    /** One readable event in a longer stream. */
    method ReceiveChunk(chunk: seq<byte>, queue: MessageQueue, ghost n: nat, ghost done: seq<seq<byte>>)
      requires Valid() && Apart(queue) && 1 <= |chunk| <= irecvlen && Collected(queue.messages, n, done)
      modifies this, queue, dataHeadInfo, precvbuf
      ensures Valid() && Apart(queue) && iCurrsequence == old(iCurrsequence)
      ensures precvbuf == dataHeadInfo || precvbuf == old(precvbuf) || fresh(precvbuf)
      ensures var now := Parse(old(Held()) + chunk);
        Held() == now.rest && Collected(queue.messages, n, done + now.packets)
      ensures queue.messages[..n] == old(queue.messages)[..n]
      ensures forall m :: m in old(queue.messages) ==> m.packet[..] == old(m.packet[..])
    {
      hide Ntohs, Parse, Valid;
      ghost var messages := queue.messages;
      var closed := ReadRequestHandler(Data(chunk), queue, false, false);
      assert forall i :: 0 <= i < |messages| ==> messages[i] in messages && queue.messages[i] == messages[i];
    }

    /** A stream received in any chunks recv may return, with flood checks off:
        what is queued and what is kept are what the parser finds in the octets
        held before and the whole stream, however it was cut. */
    method ReceiveStream(chunks: seq<seq<byte>>, queue: MessageQueue)
      requires Valid() && Apart(queue) && Receivable(Held(), chunks)
      modifies this, queue, dataHeadInfo, precvbuf
      ensures Valid() && Apart(queue) && iCurrsequence == old(iCurrsequence)
      ensures var n := |old(queue.messages)|;
        && n <= |queue.messages| && queue.messages[..n] == old(queue.messages)
        && Parsed(Packets(queue.messages[n..]), Held()) == Parse(old(Held()) + Concat(chunks)) == Deliver(old(Held()), chunks)
        && Collected(queue.messages, n, Packets(queue.messages[n..]))
      ensures forall m :: m in old(queue.messages) ==> m.packet[..] == old(m.packet[..])
    {
      hide Ntohs, Parse, Wanted, IsIncomplete, Valid, Held, Apart, Receivable, Deliver, Concat;
      ghost var held, before, buffer := Held(), queue.messages, precvbuf;
      StateOfHeld();
      ChunkingIndependence(held, chunks);
      ghost var n := |before|;
      ghost var done: seq<seq<byte>> := [];
      var k := 0;
      assert chunks[0..] == chunks;
      NothingYet(Deliver(held, chunks));
      while k < |chunks|
        invariant 0 <= k <= |chunks| && Valid() && Apart(queue) && iCurrsequence == old(iCurrsequence)
        invariant precvbuf == dataHeadInfo || precvbuf == buffer || fresh(precvbuf)
        invariant Receivable(Held(), chunks[k..])
        invariant Deliver(held, chunks) == Continued(done, Deliver(Held(), chunks[k..]))
        invariant Collected(queue.messages, n, done) && queue.messages[..n] == before
        invariant forall m :: m in before ==> m.packet[..] == old(m.packet[..])
      {
        StateOfHeld();
        DeliverNext(done, Held(), chunks, k);
        ghost var now := Parse(Held() + chunks[k]);
        ReceiveChunk(chunks[k], queue, n, done);
        done := done + now.packets;
        k := k + 1;
      }
      PacketsAre(queue.messages[n..], done);
      assert chunks[k..] == [];
      DeliverNothing(done, Held());
    }

    /** What the parser makes of the held octets once reco more have arrived. */
    lemma Progress(reco: nat, received: seq<byte>)
      requires Valid() && 0 < reco <= irecvlen && received == precvbuf[..precvpos + reco]
      ensures reco < irecvlen ==> Parse(received) == Parsed([], received)
      ensures reco == irecvlen && precvMem == null ==> received == dataHeadInfo[..HEADER_LENGTH]
      ensures reco == irecvlen && precvMem != null ==> received == precvMem.packet[..] && Parse(received) == Parsed([received], [])
    {
      hide Ntohs, Parse;
      if reco < irecvlen {
        ParseIncomplete(received);
      } else if precvMem != null {
        assert precvbuf[..] == received;
        ParseExact(received);
      }
    }
  }
}
