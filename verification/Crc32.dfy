/** The CRC-32 checksum: table construction by bit reversal, the table-driven
    loop, and what the checksum detects. */
module Crc32 {
  import opened Bytes

  /** The generator polynomial, most significant coefficient first. */
  const POLYNOMIAL: bv32 := 0x04c1_1db7

  /** The same polynomial with its coefficients in transmission order. */
  const REVERSED_POLYNOMIAL: bv32 := 0xedb8_8320

  // ---------------------------------------------------------------------
  // Reference definition: a shift register fed one bit at a time.

  /** One clock of the register, least significant bit first. */
  function BitStep(c: bv32): bv32 {
    if c & 1 == 1 then (c >> 1) ^ REVERSED_POLYNOMIAL else c >> 1
  }

  function Steps(c: bv32, n: nat): bv32
    decreases n
  {
    if n == 0 then c else Steps(BitStep(c), n - 1)
  }

  /** The bits of an octet in transmission order. */
  function BitsOf(b: byte): (bits: seq<bool>)
    ensures |bits| == 8
  {
    [b & 0x01 != 0, b & 0x02 != 0, b & 0x04 != 0, b & 0x08 != 0, b & 0x10 != 0, b & 0x20 != 0, b & 0x40 != 0, b & 0x80 != 0]
  }

  function Bits(s: seq<byte>): (bits: seq<bool>)
    ensures |bits| == 8 * |s|
  {
    if s == [] then [] else BitsOf(s[0]) + Bits(s[1..])
  }

  function Xor(a: bv32, b: bv32): bv32 {
    a ^ b
  }

  function Bit(b: bool): bv32 {
    if b then 1 else 0
  }

  /** The register after one more bit of input. */
  function Feed(c: bv32, b: bool): bv32 {
    BitStep(Xor(c, Bit(b)))
  }

  function Serial(c: bv32, bits: seq<bool>): bv32
    decreases bits
  {
    if bits == [] then c else Serial(Feed(c, bits[0]), bits[1..])
  }

  /** The bit-serial CRC-32 of section 8.1.1.6.2 of ITU-T V.42. */
  function Checksum(s: seq<byte>): bv32 {
    Serial(0xffff_ffff, Bits(s)) ^ 0xffff_ffff
  }

  // ---------------------------------------------------------------------
  // Bit reversal.

  /** The word with its 32 bits in the opposite order. */
  function Reversed(v: bv32): bv32 {
    var a := ((v >> 1) & 0x5555_5555) | ((v & 0x5555_5555) << 1);
    var b := ((a >> 2) & 0x3333_3333) | ((a & 0x3333_3333) << 2);
    var c := ((b >> 4) & 0x0f0f_0f0f) | ((b & 0x0f0f_0f0f) << 4);
    var d := ((c >> 8) & 0x00ff_00ff) | ((c & 0x00ff_00ff) << 8);
    (d >> 16) | (d << 16)
  }

  lemma ReversedBit(v: bv32, k: bv32)
    requires k < 32
    ensures (Reversed(v) >> k) & 1 == (v >> (31 - k)) & 1
  {
  }

  lemma ReversedTwice(v: bv32)
    ensures Reversed(Reversed(v)) == v
  {
  }

  lemma ReversedXor(a: bv32, b: bv32)
    ensures Reversed(a ^ b) == Reversed(a) ^ Reversed(b)
  {
  }

  lemma ReversedShift(a: bv32)
    ensures Reversed(a << 1) == Reversed(a) >> 1
  {
  }

  lemma ReversedTopBit(v: bv32)
    ensures v & 0x8000_0000 != 0 <==> Reversed(v) & 1 == 1
  {
  }

  lemma ReversedOctet(v: bv32)
    requires v < 256
    ensures (Reversed(v) >> 24) << 24 == Reversed(v)
  {
  }

  /** The low n bits of ref in the opposite order. */
  function Mirror(ref: bv32, n: nat): bv32
    requires n <= 32
    decreases n
  {
    if n == 0 then 0 else LowBitAt(ref, n) | Mirror(ref >> 1, n - 1)
  }

  /** The lowest bit of ref moved to position n - 1. */
  function LowBitAt(ref: bv32, n: nat): bv32
    requires 0 < n <= 32
  {
    if ref & 1 != 0 then 1 << (n - 1) else 0
  }

  lemma {:induction false} MirrorIsReversed(ref: bv32, s: bv6)
    requires s <= 32
    ensures Mirror(ref, 32 - s as nat) == Reversed(ref) >> s
    decreases 32 - s
  {
    hide Reversed, LowBitAt;
    if s == 32 {
    } else {
      assert (s + 1) as nat == s as nat + 1;
      MirrorIsReversed(ref >> 1, s + 1);
      ReversedRightShift(ref);
      TopBitDown(Reversed(ref), s);
      LowBitPlaced(ref, s);
    }
  }

  lemma LowBitPlaced(ref: bv32, s: bv6)
    requires s < 32
    ensures LowBitAt(ref, 32 - s as nat) == if ref & 1 != 0 then 1 << (31 - s) else 0
  {
    assert (31 - s) as nat == 31 - s as nat;
  }

  lemma ReversedRightShift(a: bv32)
    ensures Reversed(a >> 1) == Reversed(a) << 1
    ensures a & 1 != 0 <==> Reversed(a) & 0x8000_0000 != 0
  {
  }

  /** The top bit moved down by s, and the rest moved down by s. */
  function TopDown(w: bv32, s: bv6): bv32
    requires s < 32
  {
    if w & 0x8000_0000 != 0 then 1 << (31 - s) else 0
  }

  function RestDown(w: bv32, s: bv6): bv32
    requires s < 32
  {
    (w & 0x7fff_ffff) >> s
  }

  lemma TopBitDown(w: bv32, s: bv6)
    requires s < 32
    ensures w >> s == TopDown(w, s) | ((w << 1) >> (s + 1))
  {
    ShiftUpDown(w, s);
    Halves(w, s);
    hide TopDown, RestDown;
  }

  lemma ShiftUpDown(w: bv32, s: bv6)
    requires s < 32
    ensures (w << 1) >> (s + 1) == RestDown(w, s)
  {
  }

  lemma Halves(w: bv32, s: bv6)
    requires s < 32
    ensures w >> s == TopDown(w, s) | RestDown(w, s)
  {
    if w & 0x8000_0000 != 0 {
      TopBitSet(w, s);
    } else {
      TopBitUnset(w, s);
    }
  }

  lemma TopBitSet(w: bv32, s: bv6)
    requires s < 32 && w & 0x8000_0000 != 0
    ensures w >> s == (1 << (31 - s)) | ((w & 0x7fff_ffff) >> s)
  {
    assert w == 0x8000_0000 | (w & 0x7fff_ffff);
    ShiftOr(0x8000_0000, w & 0x7fff_ffff, s);
    TopShifted(s);
  }

  lemma ShiftOr(a: bv32, b: bv32, s: bv6)
    requires s < 32
    ensures (a | b) >> s == (a >> s) | (b >> s)
  {
  }

  lemma TopShifted(s: bv6)
    requires s < 32
    ensures (0x8000_0000 as bv32) >> s == 1 << (31 - s)
  {
  }

  lemma TopBitUnset(w: bv32, s: bv6)
    requires s < 32 && w & 0x8000_0000 == 0
    ensures w >> s == 0 | ((w & 0x7fff_ffff) >> s)
  {
  }

  function Or(a: bv32, b: bv32): bv32 {
    a | b
  }

  lemma OrZero(a: bv32)
    ensures Or(a, 0) == a && Or(0, a) == a
  {
  }

  lemma OrAssociative(a: bv32, b: bv32, c: bv32)
    ensures Or(a, Or(b, c)) == Or(Or(a, b), c)
  {
  }

  /** One iteration of the reflection loop moves one bit. */
  lemma ReflectStep(value: bv32, ref: bv32, n: nat)
    requires 0 < n <= 32
    ensures Or(value, Mirror(ref, n)) == Or(if ref & 1 != 0 then value | (1 << (n - 1)) else value, Mirror(ref >> 1, n - 1))
  {
    OrAssociative(value, LowBitAt(ref, n), Mirror(ref >> 1, n - 1));
    OrZero(value);
    assert Mirror(ref, n) == Or(LowBitAt(ref, n), Mirror(ref >> 1, n - 1));
  }

  /** One step of the table loop, most significant bit first. */
  function TableStep(v: bv32): bv32 {
    (v << 1) ^ (if v & 0x8000_0000 != 0 then POLYNOMIAL else 0)
  }

  lemma BitStepClear(w: bv32)
    requires w & 1 == 0
    ensures BitStep(w) == w >> 1
  {
  }

  /** Reversal carries the table's left-shift step to the register's clock. */
  lemma TableStepReversed(v: bv32)
    ensures Reversed(TableStep(v)) == BitStep(Reversed(v))
  {
    if v & 0x8000_0000 == 0 {
      TableStepReversedClear(v);
    } else {
      TableStepReversedSet(v);
    }
  }

  lemma TableStepReversedClear(v: bv32)
    requires v & 0x8000_0000 == 0
    ensures Reversed(TableStep(v)) == BitStep(Reversed(v))
  {
    calc {
      Reversed(TableStep(v));
      { assert TableStep(v) == v << 1; }
      Reversed(v << 1);
      { ReversedShift(v); }
      Reversed(v) >> 1;
      { ReversedTopBit(v); BitStepClear(Reversed(v)); }
      BitStep(Reversed(v));
    }
  }

  lemma TableStepReversedSet(v: bv32)
    requires v & 0x8000_0000 != 0
    ensures Reversed(TableStep(v)) == BitStep(Reversed(v))
  {
    ReversedXor(v << 1, POLYNOMIAL);
    ReversedShift(v);
    ReversedTopBit(v);
  }

  // ---------------------------------------------------------------------
  // The register.

  lemma {:induction false} StepsLast(c: bv32, n: nat)
    ensures Steps(c, n + 1) == BitStep(Steps(c, n))
    decreases n
  {
    if n > 0 {
      StepsLast(BitStep(c), n - 1);
    }
  }

  /** The register one clock earlier. */
  function BitBack(c: bv32): bv32 {
    if c & 0x8000_0000 != 0 then ((c ^ REVERSED_POLYNOMIAL) << 1) | 1 else c << 1
  }

  /** The clock can be run backwards. */
  lemma BitStepBack(c: bv32)
    ensures BitBack(BitStep(c)) == c
  {
    if c & 1 == 1 {
      OddBack(c);
    } else {
      EvenBack(c);
    }
  }

  lemma OddBack(c: bv32)
    requires c & 1 == 1
    ensures BitBack((c >> 1) ^ REVERSED_POLYNOMIAL) == c
  {
  }

  lemma EvenBack(c: bv32)
    requires c & 1 != 1
    ensures BitBack(c >> 1) == c
  {
  }

  lemma BitStepInjective(a: bv32, b: bv32)
    requires a != b
    ensures BitStep(a) != BitStep(b)
  {
    hide BitStep, BitBack;
    BitStepBack(a);
    BitStepBack(b);
  }

  lemma {:induction false} StepsInjective(a: bv32, b: bv32, n: nat)
    requires a != b
    ensures Steps(a, n) != Steps(b, n)
    decreases n
  {
    hide BitStep;
    if n > 0 {
      BitStepInjective(a, b);
      StepsInjective(BitStep(a), BitStep(b), n - 1);
    }
  }

  predicate Odd(c: bv32) {
    c & 1 == 1
  }

  function Half(c: bv32): bv32 {
    c >> 1
  }

  lemma BitStepIs(c: bv32)
    ensures BitStep(c) == if Odd(c) then Xor(Half(c), REVERSED_POLYNOMIAL) else Half(c)
  {
  }

  lemma OddXor(x: bv32, h: bv32)
    requires !Odd(h)
    ensures Odd(Xor(x, h)) == Odd(x)
  {
  }

  lemma HalfXor(x: bv32, h: bv32)
    ensures Half(Xor(x, h)) == Xor(Half(x), Half(h))
  {
  }

  lemma XorSwap(a: bv32, b: bv32, c: bv32)
    ensures Xor(Xor(a, b), c) == Xor(Xor(a, c), b)
  {
    XorSwapped(a, b, c);
    assert Xor(Xor(a, b), c) == a ^ b ^ c;
    assert Xor(Xor(a, c), b) == a ^ c ^ b;
  }

  lemma XorSwapped(a: bv32, b: bv32, c: bv32)
    ensures a ^ b ^ c == a ^ c ^ b
  {
  }

  lemma EvenHalf(h: bv32)
    requires h & 1 == 0
    ensures !Odd(h) && Half(h) == h >> 1
  {
  }

  lemma BitStepXor(x: bv32, h: bv32)
    requires h & 1 == 0
    ensures BitStep(Xor(x, h)) == Xor(BitStep(x), h >> 1)
  {
    EvenHalf(h);
    hide Odd, Half, Xor, BitStep;
    BitStepIs(x);
    BitStepIs(Xor(x, h));
    OddXor(x, h);
    HalfXor(x, h);
    XorSwap(Half(x), Half(h), REVERSED_POLYNOMIAL);
  }

  lemma XorInjective(a: bv32, b: bv32, c: bv32)
    requires a != b
    ensures Xor(a, c) != Xor(b, c) && Xor(c, a) != Xor(c, b)
  {
  }

  lemma FeedInjective(c: bv32, d: bv32, b: bool)
    requires c != d
    ensures Feed(c, b) != Feed(d, b)
  {
    hide BitStep, Xor;
    XorInjective(c, d, Bit(b));
    BitStepInjective(Xor(c, Bit(b)), Xor(d, Bit(b)));
  }

  lemma {:induction false} SerialInjective(c: bv32, d: bv32, bits: seq<bool>)
    requires c != d
    ensures Serial(c, bits) != Serial(d, bits)
    decreases bits
  {
    hide Feed;
    if bits != [] {
      FeedInjective(c, d, bits[0]);
      SerialInjective(Feed(c, bits[0]), Feed(d, bits[0]), bits[1..]);
    }
  }

  lemma {:induction false} SerialAppend(c: bv32, x: seq<bool>, y: seq<bool>)
    ensures Serial(c, x + y) == Serial(Serial(c, x), y)
    decreases x
  {
    hide Feed;
    if x == [] {
      assert x + y == y;
    } else {
      assert (x + y)[1..] == x[1..] + y;
      SerialAppend(Feed(c, x[0]), x[1..], y);
    }
  }

  // ---------------------------------------------------------------------
  // Up to 32 bits of input act on the register as one exclusive-or.

  /** The word whose low bit is b and whose other bits are those of w. */
  function Join(w: bv32, b: bool): bv32 {
    (w << 1) | Bit(b)
  }

  /** The bits as a number, first bit least significant. */
  function Word(bits: seq<bool>): bv32 {
    if bits == [] then 0 else Join(Word(bits[1..]), bits[0])
  }

  function ToWord(n: nat): (k: bv32)
    requires n <= 32
    ensures k as nat == n
  {
    if n == 0 then 0 else ToWord(n - 1) + 1
  }

  lemma JoinFits(w: bv32, k: bv32, b: bool)
    requires 0 < k <= 31 && w >> (k - 1) == 0
    ensures Join(w, b) >> k == 0
  {
  }

  lemma FitsBelowTop(w: bv32, k: bv32)
    requires k <= 31 && w >> k == 0
    ensures w & 0x8000_0000 == 0
  {
  }

  lemma {:induction false} WordFits(bits: seq<bool>, k: bv32)
    requires k as nat == |bits| <= 31
    ensures Word(bits) >> k == 0
    decreases bits
  {
    hide Join;
    if bits != [] {
      assert (k - 1) as nat == |bits| - 1;
      WordFits(bits[1..], k - 1);
      JoinFits(Word(bits[1..]), k, bits[0]);
    }
  }

  lemma TopClear(bits: seq<bool>)
    requires |bits| <= 31
    ensures Word(bits) & 0x8000_0000 == 0
  {
    var k := ToWord(|bits|);
    WordFits(bits, k);
    FitsBelowTop(Word(bits), k);
  }

  lemma JoinInjective(v: bv32, w: bv32, a: bool, b: bool)
    requires v & 0x8000_0000 == 0 && w & 0x8000_0000 == 0
    requires v != w || a != b
    ensures Join(v, a) != Join(w, b)
  {
  }

  lemma {:induction false} WordInjective(a: seq<bool>, b: seq<bool>)
    requires |a| == |b| <= 32 && a != b
    ensures Word(a) != Word(b)
    decreases a
  {
    hide Join;
    var ra, rb := a[1..], b[1..];
    TopClear(ra);
    TopClear(rb);
    if ra != rb {
      WordInjective(ra, rb);
    } else {
      assert a == [a[0]] + ra && b == [b[0]] + rb;
    }
    JoinInjective(Word(ra), Word(rb), a[0], b[0]);
  }

  lemma XorJoin(c: bv32, w: bv32, b: bool)
    ensures Xor(c, Join(w, b)) == Xor(Xor(c, Bit(b)), w << 1)
  {
    JoinIsXor(w, b);
    assert c ^ (Bit(b) ^ (w << 1)) == (c ^ Bit(b)) ^ (w << 1);
  }

  lemma JoinIsXor(w: bv32, b: bool)
    ensures Join(w, b) == Bit(b) ^ (w << 1)
  {
    if b {
      assert (w << 1) | 1 == 1 ^ (w << 1);
    }
  }

  lemma ShiftBack(w: bv32)
    requires w & 0x8000_0000 == 0
    ensures (w << 1) & 1 == 0 && (w << 1) >> 1 == w
  {
  }

  lemma AbsorbBit(c: bv32, w: bv32, b: bool)
    requires w & 0x8000_0000 == 0
    ensures BitStep(Xor(c, Join(w, b))) == Xor(Feed(c, b), w)
  {
    hide BitStep, Xor, Join, Bit;
    XorJoin(c, w, b);
    ShiftBack(w);
    BitStepXor(Xor(c, Bit(b)), w << 1);
  }

  lemma XorZero(c: bv32)
    ensures Xor(c, 0) == c
  {
  }

  lemma {:induction false} SerialIsSteps(c: bv32, bits: seq<bool>)
    requires |bits| <= 32
    ensures Serial(c, bits) == Steps(Xor(c, Word(bits)), |bits|)
    decreases bits
  {
    hide BitStep, Feed, Xor, Join;
    if bits == [] {
      XorZero(c);
    } else {
      var rest := bits[1..];
      TopClear(rest);
      AbsorbBit(c, Word(rest), bits[0]);
      SerialIsSteps(Feed(c, bits[0]), rest);
    }
  }

  // ---------------------------------------------------------------------
  // One octet at a time.

  function ShiftedRight(h: bv32, n: nat): bv32
    decreases n
  {
    if n == 0 then h else ShiftedRight(h >> 1, n - 1)
  }

  predicate LowClear(h: bv32, n: nat)
    decreases n
  {
    n == 0 || (h & 1 == 0 && LowClear(h >> 1, n - 1))
  }

  lemma {:induction false} StepsXor(x: bv32, h: bv32, n: nat)
    requires LowClear(h, n)
    ensures Steps(Xor(x, h), n) == Xor(Steps(x, n), ShiftedRight(h, n))
    decreases n
  {
    hide BitStep, Xor;
    if n > 0 {
      BitStepXor(x, h);
      StepsXor(BitStep(x), h >> 1, n - 1);
    }
  }

  lemma WordFrom(bits: seq<bool>, k: nat)
    requires k < |bits|
    ensures Word(bits[k..]) == Join(Word(bits[k + 1..]), bits[k])
  {
    hide Join;
    assert bits[k..][1..] == bits[k + 1..];
  }

  lemma JoinOctet(b: byte)
    ensures Join(Join(Join(Join(Join(Join(Join(Join(0, b & 0x80 != 0), b & 0x40 != 0), b & 0x20 != 0), b & 0x10 != 0),
                                b & 0x08 != 0), b & 0x04 != 0), b & 0x02 != 0), b & 0x01 != 0) == b as bv32
  {
  }

  lemma WordOfEight(bits: seq<bool>)
    requires |bits| == 8
    ensures Word(bits) == Join(Join(Join(Join(Join(Join(Join(Join(0, bits[7]), bits[6]), bits[5]), bits[4]),
                                              bits[3]), bits[2]), bits[1]), bits[0])
  {
    hide Join;
    WordFrom(bits, 0);
    WordFrom(bits, 1);
    WordFrom(bits, 2);
    WordFrom(bits, 3);
    WordFrom(bits, 4);
    WordFrom(bits, 5);
    WordFrom(bits, 6);
    WordFrom(bits, 7);
    assert bits[0..] == bits;
  }

  lemma WordOfOctet(b: byte)
    ensures Word(BitsOf(b)) == b as bv32
  {
    hide Join, Word;
    WordOfEight(BitsOf(b));
    JoinOctet(b);
  }

  /** The table entry for index i: eight clocks of the register. */
  function Entry(i: byte): bv32 {
    Steps(i as bv32, 8)
  }

  /** The register after a table lookup. */
  function Advance(c: bv32, entry: bv32): bv32 {
    (c >> 8) ^ entry
  }

  function Complement(c: bv32): bv32 {
    c ^ 0xffff_ffff
  }

  /** The table index for the register's low octet and an input octet. */
  function Index(c: bv32, b: byte): byte {
    ((c & 0xff) as byte) ^ b
  }

  /** The register without its low octet. */
  function High(c: bv32): bv32 {
    c & 0xffff_ff00
  }

  lemma OctetParts(c: bv32, b: byte)
    ensures Xor(Index(c, b) as bv32, High(c)) == Xor(c, b as bv32)
  {
    hide *;
    OctetJoin(c, b);
    IndexIs(c, b);
    XorIs(Index(c, b) as bv32, High(c));
    XorIs(c, b as bv32);
    HighIs(c);
  }

  lemma IndexIs(c: bv32, b: byte)
    ensures Index(c, b) == ((c & 0xff) as byte) ^ b
  {
  }

  lemma HighIs(c: bv32)
    ensures High(c) == c & 0xffff_ff00
  {
  }

  lemma XorIs(a: bv32, b: bv32)
    ensures Xor(a, b) == a ^ b
  {
  }

  lemma OctetJoin(c: bv32, b: byte)
    ensures ((((c & 0xff) as byte) ^ b) as bv32) ^ (c & 0xffff_ff00) == c ^ (b as bv32)
  {
  }

  lemma HighShift(c: bv32, entry: bv32)
    ensures LowClear(High(c), 8)
    ensures Xor(entry, ShiftedRight(High(c), 8)) == Advance(c, entry)
  {
    OctetShift(c & 0xffff_ff00);
    ShiftOut(c);
    XorCommutes(entry, c >> 8);
  }

  lemma OctetShift(h: bv32)
    requires h & 0xff == 0
    ensures LowClear(h, 8) && ShiftedRight(h, 8) == h >> 8
  {
  }

  lemma ShiftOut(c: bv32)
    ensures (c & 0xffff_ff00) & 0xff == 0 && (c & 0xffff_ff00) >> 8 == c >> 8
  {
  }

  lemma XorCommutes(a: bv32, b: bv32)
    ensures a ^ b == b ^ a
  {
  }

  /** The table-driven step is eight clocks fed with the octet's bits. */
  lemma OctetStep(c: bv32, b: byte)
    ensures Serial(c, BitsOf(b)) == Advance(c, Entry(Index(c, b)))
  {
    hide BitStep, Xor, BitsOf, Index, High, Advance, LowClear, ShiftedRight, Serial, Word;
    var i := Index(c, b) as bv32;
    SerialIsSteps(c, BitsOf(b));
    WordOfOctet(b);
    OctetParts(c, b);
    HighShift(c, Steps(i, 8));
    StepsXor(i, High(c), 8);
  }

  // ---------------------------------------------------------------------
  // The table's construction.

  /** The register after n clocks, bit-reversed: what the table loop holds. */
  function Turned(i: byte, n: nat): bv32 {
    Reversed(Steps(i as bv32, n))
  }

  lemma MirrorOctet(i: byte)
    ensures Mirror(i as bv32, 8) << 24 == Turned(i, 0)
  {
    hide Reversed;
    assert (24 as bv6) as nat == 24;
    MirrorIsReversed(i as bv32, 24);
    ReversedOctet(i as bv32);
  }

  lemma TurnedNext(i: byte, n: nat, v: bv32)
    requires v == Turned(i, n)
    ensures TableStep(v) == Turned(i, n + 1)
  {
    hide BitStep, Reversed;
    StepsLast(i as bv32, n);
    ReversedTwice(Steps(i as bv32, n));
    TableStepReversed(v);
    ReversedTwice(TableStep(v));
  }

  lemma MirrorTurned(i: byte)
    ensures Mirror(Turned(i, 8), 32) == Entry(i)
  {
    hide Reversed, BitStep;
    assert (0 as bv6) as nat == 0;
    MirrorIsReversed(Turned(i, 8), 0);
    ReversedTwice(Steps(i as bv32, 8));
    assert Reversed(Turned(i, 8)) >> 0 == Reversed(Turned(i, 8));
  }

  // ---------------------------------------------------------------------
  // What the checksum detects.

  lemma {:induction false} BitsAppend(s: seq<byte>, t: seq<byte>)
    ensures Bits(s + t) == Bits(s) + Bits(t)
  {
    if s == [] {
      assert s + t == t;
    } else {
      assert (s + t)[1..] == s[1..] + t;
      BitsAppend(s[1..], t);
    }
  }

  lemma OctetBitsInjective(a: byte, b: byte)
    requires BitsOf(a) == BitsOf(b)
    ensures a == b
  {
    hide Join;
    WordOfOctet(a);
    WordOfOctet(b);
  }

  lemma {:induction false} BitsInjective(a: seq<byte>, b: seq<byte>)
    requires |a| == |b| && Bits(a) == Bits(b)
    ensures a == b
  {
    hide BitsOf;
    if a != [] {
      assert BitsOf(a[0]) == Bits(a)[..8] && BitsOf(b[0]) == Bits(b)[..8];
      assert Bits(a[1..]) == Bits(a)[8..] && Bits(b[1..]) == Bits(b)[8..];
      OctetBitsInjective(a[0], b[0]);
      BitsInjective(a[1..], b[1..]);
      assert a == [a[0]] + a[1..] && b == [b[0]] + b[1..];
    }
  }

  /** Bit strings that agree outside a window of at most 32 bits leave
      different registers. */
  lemma WindowDetected(c: bv32, before: seq<bool>, x: seq<bool>, y: seq<bool>, after: seq<bool>)
    requires |x| == |y| <= 32 && x != y
    ensures Serial(c, before + x + after) != Serial(c, before + y + after)
  {
    hide Steps, Xor, Word;
    var d := Serial(c, before);
    SerialAppend(c, before + x, after);
    SerialAppend(c, before, x);
    SerialAppend(c, before + y, after);
    SerialAppend(c, before, y);
    SerialIsSteps(d, x);
    SerialIsSteps(d, y);
    WordInjective(x, y);
    XorInjective(Word(x), Word(y), d);
    StepsInjective(Xor(d, Word(x)), Xor(d, Word(y)), |x|);
    SerialInjective(Serial(d, x), Serial(d, y), after);
  }

  /** Damage confined to 32 consecutive bits always changes the checksum. */
  lemma BurstDetected(a: seq<byte>, b: seq<byte>, k: nat, n: nat)
    requires |a| == |b| && a != b && n <= 32 && k + n <= 8 * |a|
    requires Bits(a)[..k] == Bits(b)[..k] && Bits(a)[k + n..] == Bits(b)[k + n..]
    ensures Checksum(a) != Checksum(b)
  {
    var p, q := Bits(a), Bits(b);
    assert p == p[..k] + p[k..k + n] + p[k + n..];
    assert q == p[..k] + q[k..k + n] + p[k + n..];
    if p[k..k + n] == q[k..k + n] {
      BitsInjective(a, b);
    }
    WindowDetected(0xffff_ffff, p[..k], p[k..k + n], q[k..k + n], p[k + n..]);
    XorInjective(Serial(0xffff_ffff, p), Serial(0xffff_ffff, q), 0xffff_ffff);
  }

  /** In particular, damage confined to four consecutive octets. */
  lemma FourOctetsDetected(before: seq<byte>, x: seq<byte>, y: seq<byte>, after: seq<byte>)
    requires |x| == |y| <= 4 && x != y
    ensures Checksum(before + x + after) != Checksum(before + y + after)
  {
    var a, b := before + x + after, before + y + after;
    BitsAppend(before + x, after);
    BitsAppend(before, x);
    BitsAppend(before + y, after);
    BitsAppend(before, y);
    var k := |before|;
    assert a[k..k + |x|] == x && b[k..k + |x|] == y;
    var p, q := Bits(a), Bits(b);
    assert p[..8 * k] == Bits(before) == q[..8 * k];
    assert p[8 * k + 8 * |x|..] == Bits(after) == q[8 * k + 8 * |x|..];
    BurstDetected(a, b, 8 * k, 8 * |x|);
  }

  /** The register after the first k octets of s. */
  function Register(s: seq<byte>, k: nat): bv32
    requires k <= |s|
  {
    Serial(0xffff_ffff, Bits(s[..k]))
  }

  lemma RegisterStart(s: seq<byte>)
    ensures Register(s, 0) == 0xffff_ffff
  {
  }

  lemma RegisterNext(s: seq<byte>, k: nat)
    requires k < |s|
    ensures Register(s, k + 1) == Advance(Register(s, k), Entry(Index(Register(s, k), s[k])))
  {
    hide Feed, BitsOf, Advance, Entry, Index;
    assert s[..k + 1] == s[..k] + [s[k]];
    BitsAppend(s[..k], [s[k]]);
    assert Bits([s[k]]) == BitsOf(s[k]);
    SerialAppend(0xffff_ffff, Bits(s[..k]), BitsOf(s[k]));
    OctetStep(Register(s, k), s[k]);
  }

  lemma RegisterEnd(s: seq<byte>)
    ensures Checksum(s) == Complement(Register(s, |s|))
  {
    assert s[..|s|] == s;
  }

  // ---------------------------------------------------------------------
  // The implementation.

  // The register along the digits 1 to 9.

  lemma Digits1To3()
    ensures Advance(0xffff_ffff, Entry(Index(0xffff_ffff, 0x31))) == 0x7c23_1048
    ensures Advance(0x7c23_1048, Entry(Index(0x7c23_1048, 0x32))) == 0xb0ac_bb32
    ensures Advance(0xb0ac_bb32, Entry(Index(0xb0ac_bb32, 0x33))) == 0x77b7_9c2d
  {
  }

  lemma Digits4To6()
    ensures Advance(0x77b7_9c2d, Entry(Index(0x77b7_9c2d, 0x34))) == 0x641c_1f5c
    ensures Advance(0x641c_1f5c, Entry(Index(0x641c_1f5c, 0x35))) == 0x340a_c5e3
    ensures Advance(0x340a_c5e3, Entry(Index(0x340a_c5e3, 0x36))) == 0xf68d_2c9e
  {
  }

  lemma Digits7To9()
    ensures Advance(0xf68d_2c9e, Entry(Index(0xf68d_2c9e, 0x37))) == 0xaffc_9660
    ensures Advance(0xaffc_9660, Entry(Index(0xaffc_9660, 0x38))) == 0x651f_2550
    ensures Advance(0x651f_2550, Entry(Index(0x651f_2550, 0x39))) == 0x340b_c6d9
  {
  }

  /** The check value published with the standard: the checksum of the digits
      1 to 9. */
  lemma CheckValue()
    ensures Checksum([0x31, 0x32, 0x33, 0x34, 0x35, 0x36, 0x37, 0x38, 0x39]) == 0xcbf4_3926
  {
    hide Checksum, Register, Advance, Entry, Index;
    var s: seq<byte> := [0x31, 0x32, 0x33, 0x34, 0x35, 0x36, 0x37, 0x38, 0x39];
    Digits1To3();
    Digits4To6();
    Digits7To9();
    RegisterStart(s);
    RegisterNext(s, 0);
    RegisterNext(s, 1);
    RegisterNext(s, 2);
    RegisterNext(s, 3);
    RegisterNext(s, 4);
    RegisterNext(s, 5);
    RegisterNext(s, 6);
    RegisterNext(s, 7);
    RegisterNext(s, 8);
    RegisterEnd(s);
  }

  class Table {
    const entries: array<bv32>

    /** Every entry is what the register makes of its index. */
    ghost predicate Valid()
      reads entries
    {
      entries.Length == 256 && forall i: byte :: entries[i as nat] == Entry(i)
    }

    constructor ()
      ensures Valid() && fresh(entries)
    {
      entries := new bv32[256];
      new;
      Init();
    }

    /** The low ch bits of word, in the opposite order. */
    static method Reflect(word: bv32, ch: nat) returns (value: bv32)
      requires 0 < ch <= 32
      ensures value == Mirror(word, ch)
    {
      hide Or;
      value := 0;
      var ref := word;
      var i := 1;
      OrZero(Mirror(word, ch));
      while i < ch + 1
        invariant 1 <= i <= ch + 1
        invariant Or(value, Mirror(ref, ch + 1 - i)) == Mirror(word, ch)
      {
        ReflectStep(value, ref, ch + 1 - i);
        if ref & 1 != 0 {
          value := value | (1 << (ch - i));
        }
        ref := ref >> 1;
        i := i + 1;
      }
      OrZero(value);
    }

    method Init()
      requires entries.Length == 256
      modifies entries
      ensures Valid()
    {
      hide ToOctet, Entry;
      for i := 0 to 256
        invariant forall k :: 0 <= k < i ==> entries[k] == Entry(ToOctet(k))
      {
        InitEntry(i);
      }
      AllEntries();
    }

    /** Every octet is the octet of its own value. */
    lemma AllEntries()
      requires entries.Length == 256 && forall k :: 0 <= k < 256 ==> entries[k] == Entry(ToOctet(k))
      ensures Valid()
    {
      hide ToOctet, Entry;
      forall i: byte
        ensures entries[i as nat] == Entry(i)
      {
        OctetOf(i);
      }
    }

    /** The body of the table loop, for entry i. */
    method InitEntry(i: nat)
      requires entries.Length == 256 && i < 256
      modifies entries
      ensures entries[i] == Entry(ToOctet(i))
      ensures forall k :: 0 <= k < 256 && k != i ==> entries[k] == old(entries[k])
    {
      hide *;
      var octet := ToOctet(i);
      var r := Reflect(octet as bv32, 8);
      entries[i] := r << 24;
      MirrorOctet(octet);
      for j := 0 to 8
        invariant entries[i] == Turned(octet, j)
        invariant forall k :: 0 <= k < 256 && k != i ==> entries[k] == old(entries[k])
      {
        TurnedNext(octet, j, entries[i]);
        entries[i] := TableStep(entries[i]);
      }
      MirrorTurned(octet);
      r := Reflect(entries[i], 32);
      entries[i] := r;
    }

    /** The checksum of size octets of buffer, starting at start. */
    method GetCrc(buffer: array<byte>, start: nat, size: nat) returns (crc: bv32)
      requires Valid()
      requires start + size <= buffer.Length
      ensures crc == Checksum(buffer[start..start + size])
    {
      ghost var s := buffer[start..start + size];
      assert entries.Length == 256 && forall i: byte :: entries[i as nat] == Entry(i);
      hide *;
      RegisterStart(s);
      crc := 0xffff_ffff;
      var p := start;
      var len := size;
      while len > 0
        invariant p + len == start + size
        invariant 0 <= p - start <= size == |s|
        invariant crc == Register(s, p - start)
      {
        RegisterNext(s, p - start);
        var index := Index(crc, buffer[p]);
        len := len - 1;
        crc := Advance(crc, entries[index as nat]);
        p := p + 1;
      }
      RegisterEnd(s);
      crc := Complement(crc);
    }
  }
}
