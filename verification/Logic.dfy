/** Checking received packets, dispatching them and building the replies. */
module Logic {
  import opened Bytes
  import opened Framing
  import Crc32

  const CMD_PING := 0
  const CMD_REGISTER := 5
  const CMD_LOGIN := 6
  const TOTAL_COMMANDS := 7

  const TYPE_LENGTH := 4
  const USERNAME_LENGTH := 56
  const PASSWORD_LENGTH := 40
  const LOGIN_LENGTH := USERNAME_LENGTH + PASSWORD_LENGTH
  const REGISTER_LENGTH := TYPE_LENGTH + LOGIN_LENGTH

  // ---------------------------------------------------------------------
  // The wire image of a reply, and what the receiver makes of a packet.

  function Code(p: seq<byte>): nat
    requires |p| >= HEADER_LENGTH
  {
    Ntohs(p[2], p[3])
  }

  function CrcField(p: seq<byte>): bv32
    requires |p| >= HEADER_LENGTH
  {
    Ntohl(p[4..8])
  }

  function Body(p: seq<byte>): seq<byte>
    requires |p| >= HEADER_LENGTH
  {
    p[HEADER_LENGTH..]
  }

  /** The checksum a sender puts into the header; zero when there is no body. */
  function ExpectedCrc(body: seq<byte>): bv32 {
    if body == [] then 0 else Crc32.Checksum(body)
  }

  function Image(code: nat, body: seq<byte>): (p: seq<byte>)
    requires code < 0x1_0000 && HEADER_LENGTH + |body| <= MAX_LENGTH
    ensures |p| == HEADER_LENGTH + |body|
  {
    Htons(HEADER_LENGTH + |body|) + Htons(code) + Htonl(ExpectedCrc(body)) + body
  }

  datatype Verdict =
    | BadCrc
    | Stale
    | UnknownCode
    | NoHandler
    | Call(code: nat, body: seq<byte>)

  /** The checks of threadRecvProcFunc in their order. live says that the
      connection still has the sequence number recorded with the packet. */
  function Judge(p: seq<byte>, live: bool): Verdict
    requires |p| >= HEADER_LENGTH
  {
    if CrcField(p) != ExpectedCrc(Body(p)) then BadCrc
    else if !live then Stale
    else if Code(p) >= TOTAL_COMMANDS then UnknownCode
    else if Code(p) !in {CMD_PING, CMD_REGISTER, CMD_LOGIN} then NoHandler
    else Call(Code(p), Body(p))
  }

  /** The reply a handler sends; content stands for the octets of a reply body,
      which the handlers leave as they find them. */
  function Answer(v: Verdict, content: seq<byte>): seq<seq<byte>>
    requires |content| == REGISTER_LENGTH
  {
    match v
    case Call(code, body) =>
      if code == CMD_PING && body == [] then [Image(CMD_PING, [])]
      else if code == CMD_REGISTER && |body| == REGISTER_LENGTH then [Image(CMD_REGISTER, content)]
      else if code == CMD_LOGIN && |body| == LOGIN_LENGTH then [Image(CMD_LOGIN, content[..LOGIN_LENGTH])]
      else []
    case _ => []
  }

  // ---------------------------------------------------------------------
  // Round trip and error detection.

  /** Every field of an image is read back as it was written. */
  lemma ImageFields(code: nat, body: seq<byte>)
    requires code < 0x1_0000 && HEADER_LENGTH + |body| <= MAX_LENGTH
    ensures var p := Image(code, body);
      IsPacket(p) && Code(p) == code && Body(p) == body && CrcField(p) == ExpectedCrc(body)
  {
    hide Ntohs, Ntohl, Htons, Htonl, ExpectedCrc;
    var p := Image(code, body);
    var n := HEADER_LENGTH + |body|;
    HtonsRoundTrip(n);
    assert p[0] == Htons(n)[0] && p[1] == Htons(n)[1];
    HtonsRoundTrip(code);
    assert p[2] == Htons(code)[0] && p[3] == Htons(code)[1];
    HtonlRoundTrip(ExpectedCrc(body));
    assert p[4..8] == Htonl(ExpectedCrc(body));
  }

  /** Where a packet's fields are: two octets of length, two of code and four of
      checksum, each most significant octet first, and then the body. */
  lemma ImageOctets(code: nat, body: seq<byte>)
    requires code < 0x1_0000 && HEADER_LENGTH + |body| <= MAX_LENGTH
    ensures var p := Image(code, body);
      && |p| == 8 + |body| && p[8..] == body
      && 256 * (p[0] as nat) + p[1] as nat == 8 + |body|
      && 256 * (p[2] as nat) + p[3] as nat == code
      && (p[4] as bv32 << 24) | (p[5] as bv32 << 16) | (p[6] as bv32 << 8) | (p[7] as bv32) ==
         if body == [] then 0 else Crc32.Checksum(body)
  {
    hide Crc32.Checksum, Htons, Htonl;
    ImageFields(code, body);
    var p := Image(code, body);
    assert [p[4], p[5], p[6], p[7]] == p[4..8];
  }

  datatype Reply = Reply(code: nat, body: seq<byte>) {
    predicate Sendable() {
      code < 0x1_0000 && HEADER_LENGTH + |body| <= MAX_LENGTH
    }

    function Packet(): seq<byte>
      requires Sendable()
    {
      Image(code, body)
    }
  }

  function Images(replies: seq<Reply>): (s: seq<seq<byte>>)
    requires forall i :: 0 <= i < |replies| ==> replies[i].Sendable()
    ensures |s| == |replies|
    ensures forall i :: 0 <= i < |replies| ==> s[i] == replies[i].Packet()
  {
    seq(|replies|, i requires 0 <= i < |replies| && replies[i].Sendable() => replies[i].Packet())
  }

  /** Replies sent one after another and received in any chunks come out one by
      one, with their codes and bodies, and pass every check. */
  lemma RepliesRoundTrip(replies: seq<Reply>, chunks: seq<seq<byte>>)
    requires forall i :: 0 <= i < |replies| ==> replies[i].Sendable()
    requires Concat(chunks) == Concat(Images(replies))
    ensures Deliver([], chunks) == Parsed(Images(replies), [])
    ensures forall i :: 0 <= i < |replies| ==> Accepted(Deliver([], chunks).packets[i], replies[i])
  {
    hide Image, IsPacket, Accepted, Parse, Deliver;
    var images := Images(replies);
    forall i | 0 <= i < |images|
      ensures IsPacket(images[i]) && Accepted(images[i], replies[i])
    {
      ImageAccepted(replies[i]);
    }
    PacketsDelivered(images, chunks);
  }

  /** The receiver reads this reply from p and no check drops it. */
  predicate Accepted(p: seq<byte>, r: Reply) {
    |p| >= HEADER_LENGTH && Code(p) == r.code && Body(p) == r.body && CrcField(p) == ExpectedCrc(Body(p))
  }

  lemma ImageAccepted(r: Reply)
    requires r.Sendable()
    ensures IsPacket(r.Packet()) && Accepted(r.Packet(), r)
  {
    hide Image, ExpectedCrc, Ntohs, Ntohl;
    ImageFields(r.code, r.body);
  }

  /** A packet whose body was damaged within 32 consecutive bits is dropped. */
  lemma DamageIsDropped(p: seq<byte>, q: seq<byte>, k: nat, n: nat, live: bool)
    requires |p| == |q| > HEADER_LENGTH && p[..HEADER_LENGTH] == q[..HEADER_LENGTH]
    requires Judge(p, true) != BadCrc
    requires n <= 32 && k + n <= 8 * |Body(p)| && Body(p) != Body(q)
    requires Crc32.Bits(Body(p))[..k] == Crc32.Bits(Body(q))[..k]
    requires Crc32.Bits(Body(p))[k + n..] == Crc32.Bits(Body(q))[k + n..]
    ensures Judge(q, live) == BadCrc
  {
    hide Crc32.Checksum, Crc32.Bits, Ntohl, Ntohs;
    assert p[4..8] == p[..HEADER_LENGTH][4..8] == q[4..8];
    Crc32.BurstDetected(Body(p), Body(q), k, n);
  }

  predicate Handled(code: nat) {
    code == CMD_PING || code == CMD_REGISTER || code == CMD_LOGIN
  }

  lemma HeaderParts(p: seq<byte>)
    requires IsPacket(p)
    ensures p == Htons(HEADER_LENGTH + |Body(p)|) + Htons(Code(p)) + Htonl(CrcField(p)) + Body(p)
  {
    hide Htons, Htonl, Ntohs, Ntohl;
    NtohsRoundTrip(p[0], p[1]);
    NtohsRoundTrip(p[2], p[3]);
    NtohlRoundTrip(p[4..8]);
    assert p == [p[0], p[1]] + [p[2], p[3]] + p[4..8] + p[8..];
  }

  /** A packet is the image of the code and body read from it if and only if
      its checksum field is the checksum of its body. */
  lemma ImageOnly(p: seq<byte>)
    requires IsPacket(p)
    ensures Code(p) < 0x1_0000 && HEADER_LENGTH + |Body(p)| <= MAX_LENGTH
    ensures p == Image(Code(p), Body(p)) <==> CrcField(p) == ExpectedCrc(Body(p))
  {
    hide Htons, Htonl, Ntohs, Ntohl, ExpectedCrc;
    HeaderParts(p);
    ImageFields(Code(p), Body(p));
  }

  /** A handler is called if and only if the packet is of the current lease and
      is, octet for octet, what a sender builds from some code with a handler
      and some body; it is called with that code and that body. */
  lemma CalledExactly(p: seq<byte>, live: bool)
    requires IsPacket(p)
    ensures Judge(p, live).Call? <==>
      live && exists r: Reply :: r.Sendable() && Handled(r.code) && p == r.Packet()
    ensures forall r: Reply :: live && r.Sendable() && Handled(r.code) && p == r.Packet() ==> Judge(p, live) == Call(r.code, r.body)
  {
    ImageOnly(p);
    hide Image, ExpectedCrc, Ntohs, Ntohl, IsPacket;
    if Judge(p, live).Call? {
      assert Reply(Code(p), Body(p)).Packet() == p;
    }
    forall r: Reply | live && r.Sendable() && Handled(r.code) && p == r.Packet()
      ensures Judge(p, live) == Call(r.code, r.body)
    {
      ImageFields(r.code, r.body);
    }
  }

  /** The code and body length of a ping, a registration and a login. */
  predicate Answered(code: nat, length: nat) {
    (code == 0 && length == 0) || (code == 5 && length == 100) || (code == 6 && length == 96)
  }

  /** A request is answered if and only if it is live and is the packet of a
      ping, a registration or a login of the right length. The reply has the
      same code and the same body length, and its body is what the handler found
      in its memory. */
  lemma AnsweredExactly(p: seq<byte>, live: bool, content: seq<byte>)
    requires IsPacket(p) && |content| == REGISTER_LENGTH
    ensures Answer(Judge(p, live), content) != [] <==>
      live && exists r: Reply :: r.Sendable() && Answered(r.code, |r.body|) && p == r.Packet()
    ensures forall r: Reply :: live && r.Sendable() && Answered(r.code, |r.body|) && p == r.Packet() ==>
      Answer(Judge(p, live), content) == [Image(r.code, content[..|r.body|])]
  {
    hide Image, Judge, Ntohs, Answer;
    CalledExactly(p, live);
    var v := Judge(p, live);
    AnswerTo(v, content);
    if Answer(v, content) != [] {
      var r: Reply :| r.Sendable() && Handled(r.code) && p == r.Packet();
      assert Answered(r.code, |r.body|);
    }
    forall r: Reply | live && r.Sendable() && Answered(r.code, |r.body|) && p == r.Packet()
      ensures Answer(v, content) == [Image(r.code, content[..|r.body|])]
    {
    }
  }

  lemma AnswerTo(v: Verdict, content: seq<byte>)
    requires |content| == REGISTER_LENGTH
    ensures Answer(v, content) ==
      if v.Call? && Answered(v.code, |v.body|) then [Image(v.code, content[..|v.body|])] else []
  {
    hide Image;
    assert content[..0] == [] && content[..100] == content;
  }

  /** Whatever a client sends, the reply is a well-formed packet that the same
      checks accept, with the code of the request. */
  lemma AnswersAreAccepted(p: seq<byte>, live: bool, content: seq<byte>)
    requires IsPacket(p) && |content| == REGISTER_LENGTH
    requires Answer(Judge(p, live), content) != []
    ensures var r := Answer(Judge(p, live), content)[0];
      IsPacket(r) && Judge(r, true) == Call(Code(p), Body(r))
  {
    hide Ntohs, Ntohl, ExpectedCrc;
    match Judge(p, live)
    case Call(code, _) =>
      ImageFields(code, if code == CMD_PING then [] else if code == CMD_REGISTER then content else content[..LOGIN_LENGTH]);
    case _ =>
  }

  // ---------------------------------------------------------------------
  // The implementation.

  /** The octets of p from start to start + 4 in the opposite order: what
      ntohl does to a field that is converted in place. */
  function Swapped(p: seq<byte>, start: nat): seq<byte>
    requires start + 4 <= |p|
  {
    p[start := p[start + 3]][start + 1 := p[start + 2]][start + 2 := p[start + 1]][start + 3 := p[start]]
  }

  lemma SwappedBody(p: seq<byte>, q: seq<byte>)
    requires |p| >= HEADER_LENGTH && q == Swapped(p, 4)
    ensures q[HEADER_LENGTH..] == Body(p) && q[..4] == p[..4]
  {
  }

  lemma Tail(a: array<byte>)
    requires a.Length >= HEADER_LENGTH
    ensures a[HEADER_LENGTH..HEADER_LENGTH + (a.Length - HEADER_LENGTH)] == a[..][HEADER_LENGTH..]
  {
  }

  class LogicSocket {
    const crc32: Crc32.Table

    ghost predicate Valid()
      reads crc32.entries
    {
      crc32.Valid()
    }

    constructor ()
      ensures Valid() && fresh(crc32.entries)
    {
      crc32 := new Crc32.Table();
    }

    method SwapInPlace(a: array<byte>, start: nat)
      requires start + 4 <= a.Length
      modifies a
      ensures a[..] == Swapped(old(a[..]), start)
    {
      a[start], a[start + 3] := a[start + 3], a[start];
      a[start + 1], a[start + 2] := a[start + 2], a[start + 1];
    }

    /** Fills the eight octets of a packet header. */
    method WriteHeader(a: array<byte>, length: nat, code: nat, crc: bv32)
      requires length < 0x1_0000 && code < 0x1_0000 && a.Length >= HEADER_LENGTH
      modifies a
      ensures a[..] == Htons(length) + Htons(code) + Htonl(crc) + old(a[HEADER_LENGTH..])
    {
      hide Htons, Htonl;
      var fields := Htons(length) + Htons(code) + Htonl(crc);
      forall i | 0 <= i < HEADER_LENGTH {
        a[i] := fields[i];
      }
      assert a[..] == fields + old(a[HEADER_LENGTH..]);
    }

    /** SendNoBodyPkgToClient: the message handed to msgSend. */
    method SendNoBodyPkgToClient(m: Message, code: nat) returns (reply: Message)
      requires code < 0x1_0000
      ensures fresh(reply.packet) && reply.connection == m.connection && reply.sequence == m.sequence
      ensures reply.packet[..] == Image(code, [])
    {
      hide Htons, Htonl;
      reply := new Message(m.connection, m.sequence, HEADER_LENGTH);
      WriteHeader(reply.packet, HEADER_LENGTH, code, 0);
      assert reply.packet[..] == Htons(HEADER_LENGTH + 0) + Htons(code) + Htonl(0) + [];
    }

    /** The reply with a body that _HandleRegister and _HandleLogIn build;
        content is what the allocated memory happens to hold. */
    method SendBodyPkgToClient(m: Message, code: nat, content: seq<byte>) returns (reply: Message)
      requires Valid() && code < 0x1_0000 && 0 < |content| <= REGISTER_LENGTH
      ensures fresh(reply.packet) && reply.connection == m.connection && reply.sequence == m.sequence
      ensures reply.packet[..] == Image(code, content)
    {
      hide Htons, Htonl, Crc32.Checksum;
      reply := new Message(m.connection, m.sequence, HEADER_LENGTH + |content|);
      var a := reply.packet;
      forall i | 0 <= i < |content| {
        a[HEADER_LENGTH + i] := content[i];
      }
      assert a[HEADER_LENGTH..] == content;
      assert a[HEADER_LENGTH..HEADER_LENGTH + |content|] == content;
      var crc := crc32.GetCrc(a, HEADER_LENGTH, |content|);
      WriteHeader(a, HEADER_LENGTH + |content|, code, crc);
    }

    /** _HandlePing: a ping carries no body; it is noted and answered. */
    method HandlePing(m: Message, bodyLength: nat, now: int) returns (reply: Message?)
      modifies m.connection`lastPingTime
      ensures bodyLength != 0 ==> reply == null && m.connection.lastPingTime == old(m.connection.lastPingTime)
      ensures bodyLength == 0 ==>
        && m.connection.lastPingTime == now
        && reply != null && reply.connection == m.connection && reply.sequence == m.sequence
        && reply.packet[..] == Image(CMD_PING, [])
    {
      if bodyLength != 0 {
        return null;
      }
      m.connection.lastPingTime := now;
      reply := SendNoBodyPkgToClient(m, CMD_PING);
    }

    /** _HandleRegister: the type, octets 8 to 11 of the packet, is converted, and
        both strings, up to octets 67 and 107, are terminated in the received
        buffer before the reply is built. */
    method HandleRegister(m: Message, bodyLength: nat, content: seq<byte>) returns (reply: Message?)
      requires Valid() && |content| == REGISTER_LENGTH
      requires m.packet.Length == HEADER_LENGTH + bodyLength
      modifies m.packet
      ensures bodyLength != REGISTER_LENGTH ==> reply == null && m.packet[..] == old(m.packet[..])
      ensures bodyLength == REGISTER_LENGTH ==>
        && m.packet[..] == Swapped(old(m.packet[..]), HEADER_LENGTH)
             [67 := 0][107 := 0]
        && reply != null && reply.connection == m.connection && reply.sequence == m.sequence
        && fresh(reply.packet) && reply.packet[..] == Image(CMD_REGISTER, content)
    {
      if bodyLength == 0 || bodyLength != REGISTER_LENGTH {
        return null;
      }
      SwapInPlace(m.packet, HEADER_LENGTH);
      m.packet[HEADER_LENGTH + TYPE_LENGTH + USERNAME_LENGTH - 1] := 0;
      m.packet[HEADER_LENGTH + TYPE_LENGTH + USERNAME_LENGTH + PASSWORD_LENGTH - 1] := 0;
      reply := SendBodyPkgToClient(m, CMD_REGISTER, content);
    }

    /** _HandleLogIn: the strings end at octets 63 and 103. */
    method HandleLogIn(m: Message, bodyLength: nat, content: seq<byte>) returns (reply: Message?)
      requires Valid() && |content| == LOGIN_LENGTH
      requires m.packet.Length == HEADER_LENGTH + bodyLength
      modifies m.packet
      ensures bodyLength != LOGIN_LENGTH ==> reply == null && m.packet[..] == old(m.packet[..])
      ensures bodyLength == LOGIN_LENGTH ==>
        && m.packet[..] == old(m.packet[..])[63 := 0][103 := 0]
        && reply != null && reply.connection == m.connection && reply.sequence == m.sequence
        && fresh(reply.packet) && reply.packet[..] == Image(CMD_LOGIN, content)
    {
      if bodyLength == 0 || bodyLength != LOGIN_LENGTH {
        return null;
      }
      m.packet[HEADER_LENGTH + USERNAME_LENGTH - 1] := 0;
      m.packet[HEADER_LENGTH + USERNAME_LENGTH + PASSWORD_LENGTH - 1] := 0;
      reply := SendBodyPkgToClient(m, CMD_LOGIN, content);
    }

    /** threadRecvProcFunc: one packet taken from the queue. The reply, if any,
        is what msgSend is called with. */
    method ThreadRecvProcFunc(m: Message, now: int, content: seq<byte>) returns (reply: Message?)
      requires Valid() && |content| == REGISTER_LENGTH
      requires IsPacket(m.packet[..])
      modifies m.packet, m.connection`lastPingTime
      ensures var p, live := old(m.packet[..]), m.connection.iCurrsequence == m.sequence;
        && (reply != null <==> Answer(Judge(p, live), content) != [])
        && (reply != null ==> reply.connection == m.connection && reply.sequence == m.sequence
                              && Answer(Judge(p, live), content) == [reply.packet[..]])
        && m.connection.lastPingTime == if Judge(p, live) == Call(CMD_PING, []) then now else old(m.connection.lastPingTime)
    {
      hide Ntohs, Htons, Htonl, Image, Crc32.Checksum;
      reply := null;
      ghost var p := m.packet[..];
      var pkgLen := Ntohs(m.packet[0], m.packet[1]);
      assert pkgLen == |p| == m.packet.Length;
      if pkgLen == HEADER_LENGTH {
        var crc := Ntohl(m.packet[4..8]);
        if crc != 0 {
          return;
        }
      } else {
        var field := Ntohl(m.packet[4..8]);
        SwapInPlace(m.packet, 4);
        SwappedBody(p, m.packet[..]);
        Tail(m.packet);
        var crc := crc32.GetCrc(m.packet, HEADER_LENGTH, pkgLen - HEADER_LENGTH);
        if crc != field {
          return;
        }
      }
      assert CrcField(p) == ExpectedCrc(Body(p));
      var code := Ntohs(m.packet[2], m.packet[3]);
      assert code == Code(p);
      if m.connection.iCurrsequence != m.sequence {
        return;
      }
      if code >= TOTAL_COMMANDS {
        return;
      }
      if code == CMD_PING {
        reply := HandlePing(m, pkgLen - HEADER_LENGTH, now);
      } else if code == CMD_REGISTER {
        reply := HandleRegister(m, pkgLen - HEADER_LENGTH, content);
      } else if code == CMD_LOGIN {
        reply := HandleLogIn(m, pkgLen - HEADER_LENGTH, content[..LOGIN_LENGTH]);
      }
    }
  }
}
