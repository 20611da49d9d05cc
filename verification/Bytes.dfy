/** Octets and the network byte order used on the wire. */
module Bytes {
  type byte = bv8

  /** The 16-bit value that `ntohs` reads from two octets. */
  function Ntohs(hi: byte, lo: byte): (n: nat)
    ensures n < 0x1_0000
  {
    256 * (hi as nat) + lo as nat
  }

  /** The octet with value n. */
  function ToOctet(n: nat): (b: byte)
    requires n < 256
    ensures b as nat == n
  {
    if n == 0 then 0 else ToOctet(n - 1) + 1
  }

  /** The two octets that `htons` writes. */
  function Htons(n: nat): (s: seq<byte>)
    requires n < 0x1_0000
    ensures |s| == 2
  {
    [ToOctet(n / 256), ToOctet(n % 256)]
  }

  lemma HtonsRoundTrip(n: nat)
    requires n < 0x1_0000
    ensures Ntohs(Htons(n)[0], Htons(n)[1]) == n
  {
    hide ToOctet;
    assert 256 * (n / 256) + n % 256 == n;
  }

  lemma OctetOf(b: byte)
    ensures ToOctet(b as nat) == b
  {
    SameValue(ToOctet(b as nat), b);
  }

  lemma SameValue(a: byte, b: byte)
    requires a as nat == b as nat
    ensures a == b
  {
    assert (a as nat) as byte == a && (b as nat) as byte == b;
  }

  /** The octets that ntohs reads are those that htons writes. */
  lemma NtohsRoundTrip(hi: byte, lo: byte)
    ensures Htons(Ntohs(hi, lo)) == [hi, lo]
  {
    hide ToOctet;
    var n := Ntohs(hi, lo);
    assert n / 256 == hi as nat && n % 256 == lo as nat;
    OctetOf(hi);
    OctetOf(lo);
  }

  /** The four octets that `htonl` writes. */
  function Htonl(v: bv32): (s: seq<byte>)
    ensures |s| == 4
  {
    [((v >> 24) & 0xff) as byte, ((v >> 16) & 0xff) as byte, ((v >> 8) & 0xff) as byte, (v & 0xff) as byte]
  }

  /** The 32-bit value that `ntohl` reads. */
  function Ntohl(s: seq<byte>): bv32
    requires |s| == 4
  {
    (s[0] as bv32 << 24) | (s[1] as bv32 << 16) | (s[2] as bv32 << 8) | (s[3] as bv32)
  }

  lemma HtonlRoundTrip(v: bv32)
    ensures Ntohl(Htonl(v)) == v
  {
  }

  /** The octets that ntohl reads are those that htonl writes. */
  lemma NtohlRoundTrip(s: seq<byte>)
    requires |s| == 4
    ensures Htonl(Ntohl(s)) == s
  {
    FieldOctets(s[0], s[1], s[2], s[3]);
    assert s == [s[0], s[1], s[2], s[3]];
  }

  lemma FieldOctets(a: byte, b: byte, c: byte, d: byte)
    ensures Htonl(Ntohl([a, b, c, d])) == [a, b, c, d]
  {
  }

  // Network byte order: numbers compare as their octets do on the wire, the
  // first octet counting most.

  /** The number an octet stands for. */
  function Val(b: byte): (n: nat)
    ensures n < 256
  {
    b as nat
  }

  lemma NtohsIs(hi: byte, lo: byte)
    ensures Ntohs(hi, lo) == 256 * Val(hi) + Val(lo)
  {
  }

  lemma SameOctet(a: byte, b: byte)
    requires Val(a) == Val(b)
    ensures a == b
  {
    SameValue(a, b);
  }

  lemma NtohsOrder(a: byte, b: byte, c: byte, d: byte)
    ensures Ntohs(a, b) < Ntohs(c, d) <==> Val(a) < Val(c) || (a == c && Val(b) < Val(d))
  {
    hide Val, Ntohs;
    NtohsIs(a, b);
    NtohsIs(c, d);
    if Val(a) == Val(c) {
      SameOctet(a, c);
    }
  }

  lemma NtohsLast(b: byte)
    ensures Ntohs(0, b) == b as nat
  {
  }

  lemma HtonsOrder(m: nat, n: nat)
    requires m < n < 0x1_0000
    ensures var s, t := Htons(m), Htons(n);
      Val(s[0]) < Val(t[0]) || (s[0] == t[0] && Val(s[1]) < Val(t[1]))
  {
    hide Val, Htons, Ntohs;
    HtonsRoundTrip(m);
    HtonsRoundTrip(n);
    NtohsOrder(Htons(m)[0], Htons(m)[1], Htons(n)[0], Htons(n)[1]);
  }

  predicate Below(a: byte, b: byte) {
    a < b
  }

  /** The octets s come before the octets t. */
  predicate Before(s: seq<byte>, t: seq<byte>)
    requires |s| == |t| == 4
  {
    || Below(s[0], t[0])
    || (s[0] == t[0] && Below(s[1], t[1]))
    || (s[..2] == t[..2] && Below(s[2], t[2]))
    || (s[..3] == t[..3] && Below(s[3], t[3]))
  }

  predicate Less(v: bv32, w: bv32) {
    v < w
  }

  function Word(a: byte, b: byte, c: byte, d: byte): bv32 {
    (a as bv32 << 24) | (b as bv32 << 16) | (c as bv32 << 8) | (d as bv32)
  }

  lemma NtohlIs(s: seq<byte>)
    requires |s| == 4
    ensures Ntohl(s) == Word(s[0], s[1], s[2], s[3])
  {
  }

  lemma FirstCounts(a: byte, b: byte, c: byte, d: byte, e: byte, f: byte, g: byte, h: byte)
    requires Below(a, e)
    ensures Less(Word(a, b, c, d), Word(e, f, g, h))
  {
  }

  lemma SecondCounts(a: byte, b: byte, c: byte, d: byte, f: byte, g: byte, h: byte)
    requires Below(b, f)
    ensures Less(Word(a, b, c, d), Word(a, f, g, h))
  {
  }

  lemma ThirdCounts(a: byte, b: byte, c: byte, d: byte, g: byte, h: byte)
    requires Below(c, g)
    ensures Less(Word(a, b, c, d), Word(a, b, g, h))
  {
  }

  lemma FourthCounts(a: byte, b: byte, c: byte, d: byte, h: byte)
    requires Below(d, h)
    ensures Less(Word(a, b, c, d), Word(a, b, c, h))
  {
  }

  lemma Trichotomy(a: byte, b: byte)
    ensures Below(a, b) || Below(b, a) || a == b
  {
  }

  lemma LessInOrder(s: seq<byte>, t: seq<byte>)
    requires |s| == |t| == 4 && Before(s, t)
    ensures Less(Ntohl(s), Ntohl(t))
  {
    hide Word, Ntohl, Below, Less;
    NtohlIs(s);
    NtohlIs(t);
    if Below(s[0], t[0]) {
      FirstCounts(s[0], s[1], s[2], s[3], t[0], t[1], t[2], t[3]);
    } else if s[0] == t[0] && Below(s[1], t[1]) {
      SecondCounts(s[0], s[1], s[2], s[3], t[1], t[2], t[3]);
    } else if s[..2] == t[..2] && Below(s[2], t[2]) {
      assert s[0] == s[..2][0] && s[1] == s[..2][1];
      assert t[0] == t[..2][0] && t[1] == t[..2][1];
      ThirdCounts(s[0], s[1], s[2], s[3], t[2], t[3]);
    } else {
      assert s[0] == s[..3][0] && s[1] == s[..3][1] && s[2] == s[..3][2];
      assert t[0] == t[..3][0] && t[1] == t[..3][1] && t[2] == t[..3][2];
      FourthCounts(s[0], s[1], s[2], s[3], t[3]);
    }
  }

  lemma BeforeOrAfter(s: seq<byte>, t: seq<byte>)
    requires |s| == |t| == 4
    ensures Before(s, t) || Before(t, s) || s == t
  {
    hide Below;
    Trichotomy(s[0], t[0]);
    Trichotomy(s[1], t[1]);
    Trichotomy(s[2], t[2]);
    Trichotomy(s[3], t[3]);
  }

  lemma LessIs(v: bv32, w: bv32)
    ensures Less(v, w) <==> v < w
    ensures Less(v, w) ==> v != w && !Less(w, v)
  {
  }

  lemma NtohlOrder(s: seq<byte>, t: seq<byte>)
    requires |s| == |t| == 4
    ensures Less(Ntohl(s), Ntohl(t)) <==> Before(s, t)
  {
    hide Ntohl, Before, Less;
    BeforeOrAfter(s, t);
    LessIs(Ntohl(s), Ntohl(t));
    LessIs(Ntohl(t), Ntohl(s));
    if Before(s, t) {
      LessInOrder(s, t);
    } else if Before(t, s) {
      LessInOrder(t, s);
    }
  }

  lemma NtohlLast(b: byte)
    ensures Ntohl([0, 0, 0, b]) == b as bv32
  {
  }

  lemma HtonlOrder(v: bv32, w: bv32)
    ensures Less(v, w) <==> Before(Htonl(v), Htonl(w))
  {
    hide Htonl, Ntohl, Before, Less;
    HtonlRoundTrip(v);
    HtonlRoundTrip(w);
    NtohlOrder(Htonl(v), Htonl(w));
  }
}
