/** The bounded formatter: format strings interpreted into a limited buffer,
    and numbers rendered in base 10 or 16. */
module Printf {
  import opened Common

  const TWO_TO_THE_32 := 0x1_0000_0000
  const TWO_TO_THE_64 := 0x1_0000_0000_0000_0000
  const INT64_LEN := 20
  const MAX_UINT32 := 0xffff_ffff
  const LOWER := "0123456789abcdef"
  const UPPER := "0123456789ABCDEF"

  // ---------------------------------------------------------------------
  // Digits.

  predicate Base(base: nat) {
    base == 10 || base == 16
  }

  function DigitChar(d: nat, upper: bool): char
    requires d < 16
  {
    if upper then UPPER[d] else LOWER[d]
  }

  function DigitValue(c: char): nat {
    if '0' <= c <= '9' then c as int - '0' as int
    else if 'a' <= c <= 'f' then c as int - 'a' as int + 10
    else if 'A' <= c <= 'F' then c as int - 'A' as int + 10
    else 16
  }

  lemma DigitCharValue(d: nat, upper: bool)
    requires d < 16
    ensures DigitValue(DigitChar(d, upper)) == d
    ensures DigitChar(d, upper) == '0' <==> d == 0
    ensures d < 10 ==> DigitChar(d, upper) == ('0' as int + d) as char
  {
  }

  /** The number as written, most significant digit first. */
  function Digits(v: nat, base: nat, upper: bool): (s: string)
    requires Base(base)
    ensures |s| >= 1
  {
    if v < base then [DigitChar(v, upper)] else Digits(v / base, base, upper) + [DigitChar(v % base, upper)]
  }

  function Value(s: string, base: nat): nat {
    if s == [] then 0 else Value(s[..|s| - 1], base) * base + DigitValue(s[|s| - 1])
  }

  /** Digits of the base, all from one case, with no superfluous leading zero. */
  predicate Proper(s: string, base: nat, upper: bool) {
    && s != []
    && (forall i :: 0 <= i < |s| ==> DigitValue(s[i]) < base && DigitValue(s[i]) < 16 && s[i] == DigitChar(DigitValue(s[i]), upper))
    && (|s| > 1 ==> s[0] != '0')
  }

  function Pow(base: nat, n: nat): nat {
    if n == 0 then 1 else base * Pow(base, n - 1)
  }

  lemma {:induction false} PowAdd(base: nat, m: nat, n: nat)
    ensures Pow(base, m + n) == Pow(base, m) * Pow(base, n)
  {
    if m > 0 {
      PowAdd(base, m - 1, n);
      assert base * (Pow(base, m - 1) * Pow(base, n)) == base * Pow(base, m - 1) * Pow(base, n);
    }
  }

  lemma DivMod(v: nat, base: nat)
    requires Base(base)
    ensures v / base * base + v % base == v && v % base < base && (v >= base ==> 0 < v / base < v)
  {
  }

  lemma {:induction false} DigitsValue(v: nat, base: nat, upper: bool)
    requires Base(base)
    ensures Value(Digits(v, base, upper), base) == v
  {
    hide DigitValue, DigitChar, Value;
    var s := Digits(v, base, upper);
    DivMod(v, base);
    ValueLast(s, base);
    if v < base {
      assert s[..0] == "";
      NoValue(base);
      DigitCharValue(v, upper);
    } else {
      DigitsValue(v / base, base, upper);
      assert s[..|s| - 1] == Digits(v / base, base, upper);
      DigitCharValue(v % base, upper);
    }
  }

  lemma NoValue(base: nat)
    ensures Value("", base) == 0
  {
  }

  lemma {:induction false} DigitsProper(v: nat, base: nat, upper: bool)
    requires Base(base)
    ensures Proper(Digits(v, base, upper), base, upper)
    ensures v == 0 <==> Digits(v, base, upper)[0] == '0'
  {
    hide DigitValue, DigitChar;
    DivMod(v, base);
    DigitCharValue(v % base, upper);
    if v < base {
      DigitCharValue(v, upper);
    } else {
      DigitsProper(v / base, base, upper);
    }
  }

  /** The digits parse back to the value and have no superfluous zero. */
  lemma DigitsParseBack(v: nat, base: nat, upper: bool)
    requires Base(base)
    ensures Value(Digits(v, base, upper), base) == v
    ensures Proper(Digits(v, base, upper), base, upper)
    ensures v == 0 <==> Digits(v, base, upper)[0] == '0'
  {
    DigitsValue(v, base, upper);
    DigitsProper(v, base, upper);
    hide Digits, Value, Proper;
  }

  lemma ProperInit(s: string, base: nat, upper: bool)
    requires Proper(s, base, upper) && |s| > 1
    ensures Proper(s[..|s| - 1], base, upper) && s[..|s| - 1][0] == s[0] != '0'
    ensures DigitValue(s[|s| - 1]) < base && DigitValue(s[|s| - 1]) < 16
    ensures s[|s| - 1] == DigitChar(DigitValue(s[|s| - 1]), upper)
  {
    hide DigitValue, DigitChar;
  }

  /** They are the only such representation. */
  lemma {:induction false} DigitsUnique(s: string, base: nat, upper: bool)
    requires Base(base) && s != [] && Proper(s, base, upper)
    ensures s == Digits(Value(s, base), base, upper)
  {
    hide Proper, DigitValue, DigitChar, Value;
    if |s| == 1 {
      OneDigit(s, base, upper);
    } else {
      var init, last := s[..|s| - 1], s[|s| - 1];
      assert s == init + [last];
      ProperInit(s, base, upper);
      DigitsUnique(init, base, upper);
      LeadingDigit(init, base, upper);
      LastDigit(Value(init, base), DigitValue(last), base, upper);
      ValueLast(s, base);
    }
  }

  lemma OneDigit(s: string, base: nat, upper: bool)
    requires Base(base) && Proper(s, base, upper) && |s| == 1
    ensures s == Digits(Value(s, base), base, upper)
  {
    assert s[..0] == [];
    assert Value(s, base) == DigitValue(s[0]);
    assert s == [DigitChar(DigitValue(s[0]), upper)];
  }

  lemma ValueLast(s: string, base: nat)
    requires s != []
    ensures Value(s, base) == Value(s[..|s| - 1], base) * base + DigitValue(s[|s| - 1])
  {
  }

  lemma LastDigit(v: nat, d: nat, base: nat, upper: bool)
    requires Base(base) && d < base && v > 0
    ensures Digits(v * base + d, base, upper) == Digits(v, base, upper) + [DigitChar(d, upper)]
  {
    QuotientRemainder(v, d, base);
  }

  lemma LeadingDigit(s: string, base: nat, upper: bool)
    requires Base(base) && s != [] && s[0] != '0'
    requires s == Digits(Value(s, base), base, upper)
    ensures Value(s, base) > 0
  {
    DigitsParseBack(Value(s, base), base, upper);
  }

  lemma QuotientRemainder(v: nat, d: nat, base: nat)
    requires Base(base) && d < base && v > 0
    ensures (v * base + d) / base == v && (v * base + d) % base == d && v * base + d >= base
  {
  }

  lemma {:induction false} DigitsFit(v: nat, base: nat, upper: bool, n: nat)
    requires Base(base) && n >= 1 && v < Pow(base, n)
    ensures |Digits(v, base, upper)| <= n
    decreases n
  {
    if v >= base {
      assert Pow(base, n) == base * Pow(base, n - 1);
      assert v / base < Pow(base, n - 1);
      DigitsFit(v / base, base, upper, n - 1);
    }
  }

  /** Every 64-bit value fits the 20 digit slots. */
  lemma DigitsFitSlots(v: nat, base: nat, upper: bool)
    requires Base(base) && v < TWO_TO_THE_64
    ensures |Digits(v, base, upper)| <= INT64_LEN
  {
    hide Digits;
    if base == 10 {
      assert Pow(10, 5) == 100_000;
      PowAdd(10, 5, 5);
      PowAdd(10, 10, 10);
      DigitsFit(v, 10, upper, 20);
    } else {
      assert Pow(16, 4) == 0x1_0000;
      PowAdd(16, 4, 4);
      PowAdd(16, 8, 8);
      DigitsFit(v, 16, upper, 16);
    }
  }

  function Padding(zero: char, digits: nat, width: nat): string {
    seq(if digits < width then width - digits else 0, i => zero)
  }

  function BaseOf(hexadecimal: nat): nat {
    if hexadecimal == 0 then 10 else 16
  }

  /** A number padded on the left to a width. */
  function Field(v: nat, zero: char, hexadecimal: nat, width: nat): string {
    var digits := Digits(v, BaseOf(hexadecimal), hexadecimal >= 2);
    Padding(zero, |digits|, width) + digits
  }

  /** Unclipped, a number takes its width or its digits, whichever is more. */
  lemma FieldLength(v: nat, zero: char, hexadecimal: nat, width: nat)
    ensures |Field(v, zero, hexadecimal, width)| ==
      var n := |Digits(v, BaseOf(hexadecimal), hexadecimal >= 2)|; if n < width then width else n
  {
  }

  /** What a field contains: the padding character everywhere before the digits. */
  lemma FieldContents(v: nat, zero: char, hexadecimal: nat, width: nat)
    ensures var f, digits := Field(v, zero, hexadecimal, width), Digits(v, BaseOf(hexadecimal), hexadecimal >= 2);
      && |digits| <= |f| && f[|f| - |digits|..] == digits
      && forall i :: 0 <= i < |f| - |digits| ==> f[i] == zero
  {
    hide Digits;
  }

  lemma {:induction false} ValueZeros(zeros: string, s: string, base: nat)
    requires forall i :: 0 <= i < |zeros| ==> zeros[i] == '0'
    ensures Value(zeros + s, base) == Value(s, base)
    decreases |zeros| + |s|
  {
    hide DigitValue;
    var t := zeros + s;
    if s != "" {
      ValueZeros(zeros, s[..|s| - 1], base);
      assert t[..|t| - 1] == zeros + s[..|s| - 1];
    } else if zeros != "" {
      ValueZeros(zeros[..|zeros| - 1], "", base);
      assert t == zeros && zeros[..|zeros| - 1] + "" == zeros[..|zeros| - 1];
      DigitZero();
    }
  }

  lemma DigitZero()
    ensures DigitValue('0') == 0
  {
  }

  /** A field padded with zeros reads as the number, whatever the width. */
  lemma FieldValue(v: nat, hexadecimal: nat, width: nat)
    ensures Value(Field(v, '0', hexadecimal, width), BaseOf(hexadecimal)) == v
  {
    hide Digits, Value;
    var digits := Digits(v, BaseOf(hexadecimal), hexadecimal >= 2);
    ValueZeros(Padding('0', |digits|, width), digits, BaseOf(hexadecimal));
    DigitsParseBack(v, BaseOf(hexadecimal), hexadecimal >= 2);
  }

  // ---------------------------------------------------------------------
  // Writing into the buffer.

  /** o with t written from k on. */
  function Put(o: seq<char>, k: nat, t: string): seq<char>
    requires k + |t| <= |o|
  {
    o[..k] + t + o[k + |t|..]
  }

  /** What of t can be written between k and last. */
  function Clip(t: string, k: nat, last: nat): (r: string)
    requires k <= last
    ensures k + |r| <= last && r <= t
  {
    t[..Min(|t|, last - k)]
  }

  /** Writing changes exactly the characters from k to k + |t|. */
  lemma PutExactly(o: seq<char>, k: nat, t: string)
    requires k + |t| <= |o|
    ensures |Put(o, k, t)| == |o|
    ensures forall i :: 0 <= i < |o| ==> Put(o, k, t)[i] == if k <= i < k + |t| then t[i - k] else o[i]
  {
  }

  /** What is written is a prefix of t: all of it, or as much as there is room. */
  lemma ClipExactly(t: string, k: nat, last: nat)
    requires k <= last
    ensures var r := Clip(t, k, last);
      r <= t && |r| == (if |t| < last - k then |t| else last - k)
  {
  }

  lemma PutPut(o: seq<char>, k: nat, a: string, b: string)
    requires k + |a| + |b| <= |o|
    ensures Put(Put(o, k, a), k + |a|, b) == Put(o, k, a + b)
  {
  }

  /** Writing on, where the first part was not clipped. */
  lemma PutClip(o: seq<char>, k: nat, last: nat, a: string, b: string)
    requires k + |a| <= last <= |o|
    ensures Clip(a, k, last) == a
    ensures Put(Put(o, k, a), k + |a|, Clip(b, k + |a|, last)) == Put(o, k, Clip(a + b, k, last))
    ensures |a| + |Clip(b, k + |a|, last)| == |Clip(a + b, k, last)|
  {
    assert Clip(a + b, k, last) == a + Clip(b, k + |a|, last);
    PutPut(o, k, a, Clip(b, k + |a|, last));
  }

  /** Nothing more is written once the buffer is full. */
  lemma ClipFull(k: nat, last: nat, a: string, b: string)
    requires k <= last <= k + |a|
    ensures Clip(a + b, k, last) == Clip(a, k, last)
  {
  }

  method SetChar(buf: array<char>, k: nat, c: char)
    requires k < buf.Length
    modifies buf
    ensures buf[..] == Put(old(buf[..]), k, [c])
  {
    buf[k] := c;
  }

  /** Writes t until it ends or the buffer does. */
  method PutText(buf: array<char>, pos: nat, last: nat, t: string) returns (end: nat)
    requires pos <= last <= buf.Length
    modifies buf
    ensures end == pos + |Clip(t, pos, last)| && buf[..] == Put(old(buf[..]), pos, Clip(t, pos, last))
  {
    end := pos;
    ghost var o := buf[..];
    assert Put(o, pos, t[..0]) == o;
    while end - pos < |t| && end < last
      invariant pos <= end <= last && end - pos <= |t|
      invariant buf[..] == Put(o, pos, t[..end - pos])
    {
      PutPut(o, pos, t[..end - pos], [t[end - pos]]);
      assert t[..end - pos] + [t[end - pos]] == t[..end - pos + 1];
      SetChar(buf, end, t[end - pos]);
      end := end + 1;
    }
  }

  /** The digits of a value, filled in from the back of temp; the loops of
      qc_sprintf_num. */
  method FillDigits(temp: array<char>, ui64: nat, hexadecimal: nat) returns (p: nat)
    requires temp.Length == INT64_LEN + 1 && ui64 < TWO_TO_THE_64
    modifies temp
    ensures p < INT64_LEN && temp[p..INT64_LEN] == Digits(ui64, BaseOf(hexadecimal), hexadecimal >= 2)
  {
    hide Digits;
    DigitsFitSlots(ui64, BaseOf(hexadecimal), hexadecimal >= 2);
    if hexadecimal == 0 {
      if ui64 <= MAX_UINT32 {
        p := FillDecimal32(temp, ui64);
      } else {
        p := FillDecimal(temp, ui64);
      }
    } else if hexadecimal == 1 {
      p := FillHex(temp, ui64, LOWER);
    } else {
      p := FillHex(temp, ui64, UPPER);
    }
  }

  /** The loop that works on a 32-bit variable. */
  method FillDecimal32(temp: array<char>, ui64: nat) returns (p: nat)
    requires temp.Length == INT64_LEN + 1 && ui64 <= MAX_UINT32 && |Digits(ui64, 10, false)| <= INT64_LEN
    modifies temp
    ensures p < INT64_LEN && temp[p..INT64_LEN] == Digits(ui64, 10, false)
  {
    hide Digits;
    var ui32: nat := ui64 % TWO_TO_THE_32;
    p := INT64_LEN;
    var more := true;
    while more
      invariant 0 <= p <= INT64_LEN && Filling(temp[p..INT64_LEN], ui64, ui32, 10, false, more)
      decreases ui32, more
    {
      DigitCharValue(ui32 % 10, false);
      p := FillOne(temp, p, ui64, ui32, 10, false, ('0' as int + ui32 % 10) as char);
      ui32 := ui32 / 10;
      more := ui32 != 0;
    }
  }

  method FillDecimal(temp: array<char>, ui64: nat) returns (p: nat)
    requires temp.Length == INT64_LEN + 1 && |Digits(ui64, 10, false)| <= INT64_LEN
    modifies temp
    ensures p < INT64_LEN && temp[p..INT64_LEN] == Digits(ui64, 10, false)
  {
    hide Digits;
    var v: nat := ui64;
    p := INT64_LEN;
    var more := true;
    while more
      invariant 0 <= p <= INT64_LEN && Filling(temp[p..INT64_LEN], ui64, v, 10, false, more)
      decreases v, more
    {
      DigitCharValue(v % 10, false);
      p := FillOne(temp, p, ui64, v, 10, false, ('0' as int + v % 10) as char);
      v := v / 10;
      more := v != 0;
    }
  }

  /** The last four bits pick the digit from the table. */
  method FillHex(temp: array<char>, ui64: nat, hex: string) returns (p: nat)
    requires temp.Length == INT64_LEN + 1 && (hex == LOWER || hex == UPPER) && |Digits(ui64, 16, hex == UPPER)| <= INT64_LEN
    modifies temp
    ensures p < INT64_LEN && temp[p..INT64_LEN] == Digits(ui64, 16, hex == UPPER)
  {
    hide Digits;
    assert |hex| == 16;
    var v: nat := ui64;
    p := INT64_LEN;
    var more := true;
    while more
      invariant 0 <= p <= INT64_LEN && Filling(temp[p..INT64_LEN], ui64, v, 16, hex == UPPER, more)
      decreases v, more
    {
      p := FillOne(temp, p, ui64, v, 16, hex == UPPER, hex[v % 16]);
      v := v / 16;
      more := v != 0;
    }
  }

  /** The low digits of ui64 are done, and v is what remains of it. */
  predicate Filling(done: string, ui64: nat, v: nat, base: nat, upper: bool, more: bool)
    requires Base(base)
  {
    if more then
      (v > 0 || done == []) && Digits(ui64, base, upper) == Digits(v, base, upper) + done
    else
      v == 0 && Digits(ui64, base, upper) == done
  }

  lemma FillingNext(done: string, ui64: nat, v: nat, base: nat, upper: bool)
    requires Base(base) && Filling(done, ui64, v, base, upper, true)
    ensures |done| < |Digits(ui64, base, upper)|
    ensures Filling([DigitChar(v % base, upper)] + done, ui64, v / base, base, upper, v / base != 0)
  {
    hide DigitChar;
    var c := DigitChar(v % base, upper);
    if v >= base {
      assert Digits(v, base, upper) + done == Digits(v / base, base, upper) + ([c] + done);
    }
  }

  method FillOne(temp: array<char>, p: nat, ghost ui64: nat, ghost v: nat, ghost base: nat, ghost upper: bool, c: char)
    returns (q: nat)
    requires temp.Length == INT64_LEN + 1 && p <= INT64_LEN && Base(base)
    requires Filling(temp[p..INT64_LEN], ui64, v, base, upper, true) && |Digits(ui64, base, upper)| <= INT64_LEN
    requires c == DigitChar(v % base, upper)
    modifies temp
    ensures p >= 1 && q == p - 1 && Filling(temp[q..INT64_LEN], ui64, v / base, base, upper, v / base != 0)
  {
    hide Digits, Filling, DigitChar;
    ghost var done := temp[p..INT64_LEN];
    FillingNext(done, ui64, v, base, upper);
    q := p - 1;
    temp[q] := c;
    assert temp[q..INT64_LEN] == [c] + done;
  }

  /** qc_sprintf_num. */
  method SprintfNum(buf: array<char>, pos: nat, last: nat, ui64: nat, zero: char, hexadecimal: nat, width: nat) returns (end: nat)
    requires pos <= last <= buf.Length && ui64 < TWO_TO_THE_64
    modifies buf
    ensures var t := Clip(Field(ui64, zero, hexadecimal, width), pos, last);
      end == pos + |t| && buf[..] == Put(old(buf[..]), pos, t)
  {
    hide Digits, Put, Padding;
    var temp := new char[INT64_LEN + 1];
    var p := FillDigits(temp, ui64, hexadecimal);
    var len := INT64_LEN - p;
    ghost var digits := Digits(ui64, BaseOf(hexadecimal), hexadecimal >= 2);
    assert |temp[p..INT64_LEN]| == len;
    ghost var o := buf[..];
    end := PadLeft(buf, pos, last, zero, len, width);
    if end + len >= last {
      len := last - end;
    }
    ghost var pad := Padding(zero, |digits|, width);
    if end - pos == |pad| {
      PutClip(o, pos, last, pad, digits);
    } else {
      ClipFull(pos, last, pad, digits);
      PutNothing(buf[..], end, last);
    }
    end := CopyDigits(buf, end, temp, p, len, digits, last);
  }

  /** The padding loop of qc_sprintf_num. */
  method PadLeft(buf: array<char>, pos: nat, last: nat, zero: char, digits: nat, width: nat) returns (end: nat)
    requires pos <= last <= buf.Length
    modifies buf
    ensures var t := Clip(Padding(zero, digits, width), pos, last);
      end == pos + |t| && buf[..] == Put(old(buf[..]), pos, t)
  {
    ghost var o := buf[..];
    ghost var pad := Padding(zero, digits, width);
    var len := digits;
    end := pos;
    assert Put(o, pos, pad[..0]) == o;
    while len < width && end < last
      invariant pos <= end <= last && len == digits + (end - pos) && end - pos <= |pad|
      invariant buf[..] == Put(o, pos, pad[..end - pos])
    {
      PutPut(o, pos, pad[..end - pos], [zero]);
      assert pad[..end - pos] + [zero] == pad[..end - pos + 1];
      SetChar(buf, end, zero);
      end := end + 1;
      len := len + 1;
    }
  }

  method CopyDigits(buf: array<char>, pos: nat, temp: array<char>, p: nat, len: nat, ghost digits: string, ghost last: nat) returns (end: nat)
    requires temp != buf && temp.Length == INT64_LEN + 1 && p < INT64_LEN && temp[p..INT64_LEN] == digits
    requires pos <= last <= buf.Length && len == |Clip(digits, pos, last)|
    modifies buf
    ensures end == pos + len && buf[..] == Put(old(buf[..]), pos, Clip(digits, pos, last))
  {
    assert temp[p..p + len] == digits[..len];
    ghost var o := buf[..];
    forall i | 0 <= i < len {
      buf[pos + i] := temp[p + i];
    }
    end := pos + len;
    assert buf[..] == Put(o, pos, digits[..len]);
  }

  // ---------------------------------------------------------------------
  // Format strings.

  datatype Arg = Int(value: int) | Text(text: string)

  /** A directive: the padding, the width, whether the number is signed, 0 for
      decimal, 1 and 2 for lower and upper case hexadecimal, and the
      conversion character. */
  datatype Directive = Directive(zero: char, width: nat, sign: bool, hex: nat, conv: char)

  /** The character at i, as in a C string. */
  function At(fmt: string, i: nat): char {
    if i < |fmt| then fmt[i] else '\0'
  }

  predicate IsDigit(c: char) {
    '0' <= c <= '9'
  }

  function AfterDigits(fmt: string, i: nat): (j: nat)
    ensures i <= j && (i <= |fmt| ==> j <= |fmt|)
    decreases |fmt| - i
  {
    if IsDigit(At(fmt, i)) then AfterDigits(fmt, i + 1) else i
  }

  predicate IsFlag(c: char) {
    c == 'u' || c == 'x' || c == 'X'
  }

  /** Reads flags: whether the number is signed, its base, and where they end. */
  function Flags(fmt: string, i: nat, sign: bool, hex: nat): (r: (bool, nat, nat))
    ensures i <= r.2 && (i <= |fmt| ==> r.2 <= |fmt|)
    decreases |fmt| - i
  {
    match At(fmt, i)
    case 'u' => Flags(fmt, i + 1, false, hex)
    case 'X' => Flags(fmt, i + 1, false, 2)
    case 'x' => Flags(fmt, i + 1, false, 1)
    case _ => (sign, hex, i)
  }

  function AfterPrecision(fmt: string, i: nat): (j: nat)
    ensures i <= j && (i <= |fmt| ==> j <= |fmt|)
  {
    if At(fmt, i) == '.' then AfterDigits(fmt, i + 1) else i
  }

  /** The directive whose % is at i, and where its conversion character is. */
  function Parsed(fmt: string, i: nat): (r: (Directive, nat))
    requires i < |fmt|
    ensures i < r.1 <= |fmt|
  {
    var j := AfterDigits(fmt, i + 1);
    var flags := Flags(fmt, j, true, 0);
    var k := AfterPrecision(fmt, flags.2);
    var zero := if At(fmt, i + 1) == '0' then '0' else ' ';
    (Directive(zero, Value(fmt[i + 1..j], 10) % TWO_TO_THE_64, flags.0, flags.1, At(fmt, k)), k)
  }

  predicate TakesArg(conv: char) {
    conv == 'd' || conv == 'i' || conv == 'L' || conv == 'p' || conv == 's' || conv == 'P'
  }

  /** The argument has the directive's type. The least 64-bit integer is not
      accepted: negating it overflows. */
  predicate Accepts(d: Directive, arg: Arg) {
    match d.conv
    case 's' => arg.Text? && '\0' !in arg.text
    case 'p' => arg.Int? && 0 <= arg.value < TWO_TO_THE_64
    case 'P' => arg.Int? && -TWO_TO_THE_32 / 2 <= arg.value < TWO_TO_THE_32 / 2
    case 'd' => arg.Int? && if d.sign then -TWO_TO_THE_32 / 2 <= arg.value < TWO_TO_THE_32 / 2 else 0 <= arg.value < TWO_TO_THE_32
    case _ => arg.Int? && if d.sign then -TWO_TO_THE_64 / 2 < arg.value < TWO_TO_THE_64 / 2 else 0 <= arg.value < TWO_TO_THE_64
  }

  /** The ranges of the types: every value but the least 64-bit integer. */
  lemma AcceptedRanges(d: Directive, v: int)
    ensures d.conv == 'P' || (d.conv == 'd' && d.sign) ==> (Accepts(d, Int(v)) <==> -2147483648 <= v <= 2147483647)
    ensures d.conv == 'd' && !d.sign ==> (Accepts(d, Int(v)) <==> 0 <= v <= 4294967295)
    ensures (d.conv == 'i' || d.conv == 'L') && d.sign ==>
      (Accepts(d, Int(v)) <==> -9223372036854775808 < v <= 9223372036854775807)
    ensures d.conv == 'p' || ((d.conv == 'i' || d.conv == 'L') && !d.sign) ==>
      (Accepts(d, Int(v)) <==> 0 <= v <= 18446744073709551615)
  {
  }

  /** The argument, if any, is there and has the right type. */
  predicate Supplied(d: Directive, args: seq<Arg>) {
    TakesArg(d.conv) ==> args != [] && Accepts(d, args[0])
  }

  function Remaining(d: Directive, args: seq<Arg>): seq<Arg>
    requires Supplied(d, args)
  {
    if TakesArg(d.conv) then args[1..] else args
  }

  /** The sign comes before the padding and does not count for the width. */
  function Number(v: int, zero: char, hex: nat, width: nat): string {
    if v < 0 then "-" + Field(-v, zero, hex, width) else Field(v, zero, hex, width)
  }

  function Shown(d: Directive, args: seq<Arg>): string
    requires Supplied(d, args)
  {
    match d.conv
    case 's' => args[0].text
    case 'p' => Number(args[0].value, '0', 2, 16)
    case c => if TakesArg(c) then Number(args[0].value, d.zero, d.hex, d.width) else [c]
  }

  /** Every directive from i on is complete, is not %f and has its argument. */
  predicate WellFormed(fmt: string, i: nat, args: seq<Arg>)
    decreases |fmt| - i
  {
    i < |fmt| ==>
      if fmt[i] != '%' then
        WellFormed(fmt, i + 1, args)
      else
        var (d, k) := Parsed(fmt, i);
        k < |fmt| && d.conv != 'f' && Supplied(d, args) && WellFormed(fmt, k + 1, Remaining(d, args))
  }

  /** The rendering of fmt from i on, without any bound. */
  function Render(fmt: string, i: nat, args: seq<Arg>): string
    requires WellFormed(fmt, i, args)
    decreases |fmt| - i
  {
    if i >= |fmt| then ""
    else if fmt[i] != '%' then [fmt[i]] + Render(fmt, i + 1, args)
    else
      var (d, k) := Parsed(fmt, i);
      Shown(d, args) + Render(fmt, k + 1, Remaining(d, args))
  }

  /** How a number appears: a minus sign if and only if it is negative, then the
      padding character up to the width, which does not count the sign, and
      then the digits. */
  predicate Appears(s: string, v: int, zero: char, hex: nat, width: nat) {
    var sign := if v < 0 then 1 else 0;
    var digits := Digits(if v < 0 then -v else v, BaseOf(hex), hex >= 2);
    && |s| == sign + (if |digits| < width then width else |digits|)
    && (v < 0 <==> s[0] == '-')
    && (forall i :: sign <= i < |s| - |digits| ==> s[i] == zero)
    && s[|s| - |digits|..] == digits
  }

  lemma NumberAppears(v: int, zero: char, hex: nat, width: nat)
    requires zero == '0' || zero == ' '
    ensures Appears(Number(v, zero, hex, width), v, zero, hex, width)
  {
    hide Digits, Field, DigitChar, DigitValue;
    var m := if v < 0 then -v else v;
    var f, digits := Field(m, zero, hex, width), Digits(m, BaseOf(hex), hex >= 2);
    FieldContents(m, zero, hex, width);
    FieldLength(m, zero, hex, width);
    FirstIsNoMinus(m, zero, hex, width);
    if v < 0 {
      var s := Number(v, zero, hex, width);
      assert s == "-" + f;
      assert s[|s| - |digits|..] == f[|f| - |digits|..];
    }
  }

  lemma FirstIsNoMinus(m: nat, zero: char, hex: nat, width: nat)
    requires zero == '0' || zero == ' '
    ensures Field(m, zero, hex, width) != "" && Field(m, zero, hex, width)[0] != '-'
  {
    var digits := Digits(m, BaseOf(hex), hex >= 2);
    hide Digits, DigitChar, DigitValue, Field;
    DigitsParseBack(m, BaseOf(hex), hex >= 2);
    NoMinus(digits[0], hex >= 2);
    FieldContents(m, zero, hex, width);
    assert Field(m, zero, hex, width)[|Field(m, zero, hex, width)| - |digits|..][0] == digits[0];
  }

  lemma NoMinus(c: char, upper: bool)
    requires DigitValue(c) < 16
    ensures c != '-'
  {
  }

  /** Drops the blanks in front. */
  function Unpadded(s: string): string {
    if s != "" && s[0] == ' ' then Unpadded(s[1..]) else s
  }

  /** The number a reader makes of it. */
  function ReadBack(s: string, base: nat): int {
    if s != "" && s[0] == '-' then 0 - Value(Unpadded(s[1..]), base) else Value(Unpadded(s), base)
  }

  lemma {:induction false} UnpaddedBlanks(n: nat, s: string)
    requires s != "" && s[0] != ' '
    ensures Unpadded(Padding(' ', 0, n) + s) == s
  {
    var t := Padding(' ', 0, n) + s;
    if n > 0 {
      UnpaddedBlanks(n - 1, s);
      assert t[1..] == Padding(' ', 0, n - 1) + s;
    } else {
      assert t == s;
    }
  }

  lemma NoBlank(c: char)
    requires DigitValue(c) < 16
    ensures c != ' '
  {
  }

  lemma FieldReadBack(v: nat, zero: char, hex: nat, width: nat)
    requires zero == '0' || zero == ' '
    ensures Value(Unpadded(Field(v, zero, hex, width)), BaseOf(hex)) == v
  {
    var digits := Digits(v, BaseOf(hex), hex >= 2);
    DigitsParseBack(v, BaseOf(hex), hex >= 2);
    NoBlank(digits[0]);
    hide Digits, DigitValue, DigitChar, Value;
    if zero == '0' {
      FieldValue(v, hex, width);
    } else {
      var n := if |digits| < width then width - |digits| else 0;
      UnpaddedBlanks(n, digits);
      assert Padding(' ', |digits|, width) == Padding(' ', 0, n);
    }
  }

  /** Every number reads back as itself, with either padding and any width. */
  lemma NumberReadBack(v: int, zero: char, hex: nat, width: nat)
    requires zero == '0' || zero == ' '
    ensures ReadBack(Number(v, zero, hex, width), BaseOf(hex)) == v
  {
    hide Digits, DigitValue, DigitChar, Value, Field, Unpadded;
    NumberAppears(v, zero, hex, width);
    var m := if v < 0 then -v else v;
    FieldReadBack(m, zero, hex, width);
    if v < 0 {
      assert Number(v, zero, hex, width)[1..] == Field(m, zero, hex, width);
    }
  }

  /** What %d, %i, %L and %P write. */
  lemma ShownNumber(d: Directive, args: seq<Arg>)
    requires Supplied(d, args) && (d.zero == '0' || d.zero == ' ')
    requires d.conv == 'd' || d.conv == 'i' || d.conv == 'L' || d.conv == 'P'
    ensures Appears(Shown(d, args), args[0].value, d.zero, d.hex, d.width)
    ensures ReadBack(Shown(d, args), BaseOf(d.hex)) == args[0].value
  {
    hide Number, Appears, ReadBack;
    NumberAppears(args[0].value, d.zero, d.hex, d.width);
    NumberReadBack(args[0].value, d.zero, d.hex, d.width);
  }

  /** What %p writes: sixteen upper-case hexadecimal digits. */
  lemma ShownPointer(d: Directive, args: seq<Arg>)
    requires Supplied(d, args) && d.conv == 'p'
    ensures |Shown(d, args)| == 16 && Value(Shown(d, args), 16) == args[0].value
    ensures forall i :: 0 <= i < 16 ==> Shown(d, args)[i] in UPPER
  {
    var v: nat := args[0].value;
    var digits := Digits(v, 16, true);
    PointerFits(v);
    FieldContents(v, '0', 2, 16);
    FieldLength(v, '0', 2, 16);
    FieldValue(v, 2, 16);
    DigitsParseBack(v, 16, true);
    hide Digits, Value, Field, DigitValue, Proper;
    var s := Shown(d, args);
    assert s == Field(v, '0', 2, 16);
    UpperDigits(digits);
    forall i | 0 <= i < 16
      ensures s[i] in UPPER
    {
      if i < 16 - |digits| {
        assert UPPER[0] == '0';
      } else {
        assert s[i] == digits[i - (16 - |digits|)];
      }
    }
  }

  lemma UpperDigits(digits: string)
    requires Proper(digits, 16, true)
    ensures forall i :: 0 <= i < |digits| ==> digits[i] in UPPER
  {
    hide DigitValue;
  }

  lemma PointerFits(v: nat)
    requires v < TWO_TO_THE_64
    ensures |Digits(v, 16, true)| <= 16
  {
    hide Digits;
    assert Pow(16, 4) == 0x1_0000;
    PowAdd(16, 4, 4);
    PowAdd(16, 8, 8);
    DigitsFit(v, 16, true, 16);
  }

  // ---------------------------------------------------------------------
  // The interpreter.

  lemma WidthStep(v: nat, d: nat)
    ensures (v % TWO_TO_THE_64 * 10 + d) % TWO_TO_THE_64 == (v * 10 + d) % TWO_TO_THE_64
  {
    var q := v / TWO_TO_THE_64;
    assert v * 10 + d == TWO_TO_THE_64 * (10 * q) + (v % TWO_TO_THE_64 * 10 + d);
  }

  lemma SliceLast(fmt: string, i: nat, j: nat)
    requires i <= j < |fmt|
    ensures var s := fmt[i..j + 1];
      s == fmt[i..j] + [fmt[j]] && |s| > 0 && s[..|s| - 1] == fmt[i..j] && s[|s| - 1] == fmt[j]
  {
  }

  lemma AfterDigitsNext(fmt: string, j: nat)
    ensures AfterDigits(fmt, j) == if IsDigit(At(fmt, j)) then AfterDigits(fmt, j + 1) else j
  {
  }

  lemma ReadDigit(fmt: string, i: nat, j: nat)
    requires i <= j < |fmt| && IsDigit(fmt[j])
    ensures Value(fmt[i..j + 1], 10) % TWO_TO_THE_64 ==
      (Value(fmt[i..j], 10) % TWO_TO_THE_64 * 10 + (fmt[j] as int - '0' as int)) % TWO_TO_THE_64
  {
    hide Value;
    WidthStep(Value(fmt[i..j], 10), DigitValue(fmt[j]));
    SliceLast(fmt, i, j);
    ValueLast(fmt[i..j + 1], 10);
  }

  /** Reads a decimal number into an unsigned 64-bit variable. */
  method ReadNumber(fmt: string, i: nat) returns (n: nat, j: nat)
    requires i <= |fmt|
    ensures j == AfterDigits(fmt, i) && n == Value(fmt[i..j], 10) % TWO_TO_THE_64
  {
    hide Value, AfterDigits, DigitValue;
    n, j := 0, i;
    NoValue(10);
    assert fmt[i..i] == "";
    AfterDigitsNext(fmt, j);
    while IsDigit(At(fmt, j))
      invariant i <= j <= |fmt| && AfterDigits(fmt, i) == AfterDigits(fmt, j)
      invariant AfterDigits(fmt, j) == if IsDigit(At(fmt, j)) then AfterDigits(fmt, j + 1) else j
      invariant n == Value(fmt[i..j], 10) % TWO_TO_THE_64
      decreases |fmt| - j
    {
      ReadDigit(fmt, i, j);
      AfterDigitsNext(fmt, j + 1);
      n := (n * 10 + (fmt[j] as int - '0' as int)) % TWO_TO_THE_64;
      j := j + 1;
    }
  }

  /** The scan of one directive in qc_vslprintf. */
  method ScanDirective(fmt: string, i: nat) returns (d: Directive, k: nat)
    requires i < |fmt|
    ensures (d, k) == Parsed(fmt, i)
  {
    hide Value;
    var zero := if At(fmt, i + 1) == '0' then '0' else ' ';
    var width;
    width, k := ReadNumber(fmt, i + 1);
    ghost var j := k;
    var sign, hex: nat := true, 0;
    while IsFlag(At(fmt, k))
      invariant j <= k <= |fmt| && Flags(fmt, j, true, 0) == Flags(fmt, k, sign, hex)
      decreases |fmt| - k
    {
      match At(fmt, k) {
        case 'u' => sign := false;
        case 'X' => hex, sign := 2, false;
        case 'x' => hex, sign := 1, false;
      }
      k := k + 1;
    }
    if At(fmt, k) == '.' {
      var frac_width;
      frac_width, k := ReadNumber(fmt, k + 1);
    }
    d := Directive(zero, width, sign, hex, At(fmt, k));
  }

  /** What the conversion character writes. */
  method PutDirective(buf: array<char>, pos: nat, last: nat, d: Directive, args: seq<Arg>) returns (end: nat)
    requires pos < last <= buf.Length && Supplied(d, args) && d.conv != 'f'
    modifies buf
    ensures var t := Clip(Shown(d, args), pos, last);
      end == pos + |t| && buf[..] == Put(old(buf[..]), pos, t)
  {
    hide Digits, Field;
    var i64: int, ui64: nat := 0, 0;
    var zero, sign, hex, width := d.zero, d.sign, d.hex, d.width;
    match d.conv {
      case 's' =>
        end := PutText(buf, pos, last, args[0].text);
        return;
      case 'd' =>
        if sign { i64 := args[0].value; } else { ui64 := args[0].value; }
      case 'i' =>
        if sign { i64 := args[0].value; } else { ui64 := args[0].value; }
      case 'L' =>
        if sign { i64 := args[0].value; } else { ui64 := args[0].value; }
      case 'p' =>
        ui64, hex, sign, zero, width := args[0].value, 2, false, '0', 16;
      case 'P' =>
        i64, sign := args[0].value, true;
      case c =>
        SetChar(buf, pos, c);
        end := pos + 1;
        return;
    }
    end := PutNumber(buf, pos, last, i64, ui64, sign, zero, hex, width);
  }

  /** The common tail of the number conversions. */
  method PutNumber(buf: array<char>, pos: nat, last: nat, i64: int, unsigned: nat, sign: bool, zero: char, hex: nat, width: nat)
    returns (end: nat)
    requires pos < last <= buf.Length && unsigned < TWO_TO_THE_64
    requires -TWO_TO_THE_64 / 2 < i64 < TWO_TO_THE_64 / 2
    modifies buf
    ensures var t := Clip(Number(if sign then i64 else unsigned, zero, hex, width), pos, last);
      end == pos + |t| && buf[..] == Put(old(buf[..]), pos, t)
  {
    hide Field;
    var ui64: nat := unsigned;
    end := pos;
    if sign {
      if i64 < 0 {
        PutClip(buf[..], pos, last, "-", Field(-i64, zero, hex, width));
        SetChar(buf, end, '-');
        end := end + 1;
        ui64 := -i64;
      } else {
        ui64 := i64;
      }
    }
    end := SprintfNum(buf, end, last, ui64, zero, hex, width);
  }

  /** qc_vslprintf writes exactly the prefix of the unbounded rendering that
      fits, changes nothing else, and returns the matching end. */
  method VslPrintf(buf: array<char>, pos: nat, last: nat, fmt: string, args: seq<Arg>) returns (end: nat)
    requires pos <= last <= buf.Length && '\0' !in fmt && WellFormed(fmt, 0, args)
    modifies buf
    ensures var t := Clip(Render(fmt, 0, args), pos, last);
      end == pos + |t| && buf[..] == Put(old(buf[..]), pos, t)
  {
    hide Parsed, Shown, Supplied, Remaining, Put, Clip, Render, WellFormed;
    ghost var o, done := buf[..], "";
    var i, n := 0, 0;
    end := pos;
    PutNothing(o, pos, last);
    assert args[0..] == args && "" + Render(fmt, 0, args) == Render(fmt, 0, args);
    while At(fmt, i) != '\0' && end < last
      invariant 0 <= i <= |fmt| && 0 <= n <= |args| && WellFormed(fmt, i, args[n..])
      invariant done + Render(fmt, i, args[n..]) == Render(fmt, 0, args)
      invariant pos <= end <= last && end == pos + |Clip(done, pos, last)|
      invariant buf[..] == Put(o, pos, Clip(done, pos, last))
      decreases |fmt| - i
    {
      ClipShort(done, pos, last);
      if fmt[i] == '%' {
        var d, k := ScanDirective(fmt, i);
        RenderDirective(fmt, i, args[n..], done);
        PutClip(o, pos, last, done, Shown(d, args[n..]));
        done := done + Shown(d, args[n..]);
        end := PutDirective(buf, end, last, d, args[n..]);
        RemainingSuffix(d, args, n);
        i := k + 1;
        if TakesArg(d.conv) {
          n := n + 1;
        }
      } else {
        RenderLiteral(fmt, i, args[n..], done);
        PutClip(o, pos, last, done, [fmt[i]]);
        ClipOne(fmt[i], end, last);
        done := done + [fmt[i]];
        SetChar(buf, end, fmt[i]);
        end := end + 1;
        i := i + 1;
      }
    }
    ClipDone(fmt, i, args[n..], done, pos, last);
  }

  lemma PutNothing(o: seq<char>, pos: nat, last: nat)
    requires pos <= last <= |o|
    ensures Clip("", pos, last) == "" && Put(o, pos, "") == o
  {
  }

  lemma ClipShort(done: string, pos: nat, last: nat)
    requires pos <= last && pos + |Clip(done, pos, last)| < last
    ensures Clip(done, pos, last) == done
  {
  }

  lemma ClipOne(c: char, pos: nat, last: nat)
    requires pos < last
    ensures Clip([c], pos, last) == [c]
  {
  }

  /** The loop ends at the end of the format or of the buffer. */
  lemma ClipDone(fmt: string, i: nat, args: seq<Arg>, done: string, pos: nat, last: nat)
    requires WellFormed(fmt, i, args) && pos <= last
    requires i == |fmt| || pos + |Clip(done, pos, last)| == last
    ensures Clip(done + Render(fmt, i, args), pos, last) == Clip(done, pos, last)
  {
    if i == |fmt| {
      assert done + "" == done;
    }
  }

  lemma RenderLiteral(fmt: string, i: nat, args: seq<Arg>, done: string)
    requires i < |fmt| && fmt[i] != '%' && WellFormed(fmt, i, args)
    ensures WellFormed(fmt, i + 1, args)
    ensures done + Render(fmt, i, args) == (done + [fmt[i]]) + Render(fmt, i + 1, args)
  {
  }

  lemma RenderDirective(fmt: string, i: nat, args: seq<Arg>, done: string)
    requires i < |fmt| && fmt[i] == '%' && WellFormed(fmt, i, args)
    ensures var (d, k) := Parsed(fmt, i);
      && k < |fmt| && d.conv != 'f' && Supplied(d, args) && WellFormed(fmt, k + 1, Remaining(d, args))
      && done + Render(fmt, i, args) == (done + Shown(d, args)) + Render(fmt, k + 1, Remaining(d, args))
  {
    hide Parsed, Shown, Supplied, Remaining;
  }

  lemma RemainingSuffix(d: Directive, args: seq<Arg>, n: nat)
    requires n <= |args| && Supplied(d, args[n..])
    ensures TakesArg(d.conv) ==> n < |args| && Remaining(d, args[n..]) == args[n + 1..]
    ensures !TakesArg(d.conv) ==> Remaining(d, args[n..]) == args[n..]
  {
  }

  // ---------------------------------------------------------------------
  // Formats put together from their parts.

  /** A part of a format: a character, or a directive with its argument. */
  datatype Item = Literal(c: char) | Convert(d: Directive, args: seq<Arg>)

  /** A directive that can be written down. */
  predicate Written(d: Directive) {
    && (d.zero == '0' || d.zero == ' ') && d.width < TWO_TO_THE_64
    && d.hex <= 2 && (d.sign ==> d.hex == 0)
    && !IsDigit(d.conv) && !IsFlag(d.conv) && d.conv != '.' && d.conv != '\0' && d.conv != 'f'
  }

  predicate Sound(item: Item) {
    match item
    case Literal(c) => c != '%' && c != '\0'
    case Convert(d, args) =>
      && Written(d) && |args| == (if TakesArg(d.conv) then 1 else 0) && Supplied(d, args)
  }

  function WidthText(d: Directive): string {
    (if d.zero == '0' then "0" else "") + WidthDigits(d.width)
  }

  function FlagText(d: Directive): string {
    if d.sign then "" else if d.hex == 0 then "u" else if d.hex == 1 then "x" else "X"
  }

  /** The source text of an item. */
  function Source(item: Item): string {
    match item
    case Literal(c) => [c]
    case Convert(d, _) => "%" + WidthText(d) + FlagText(d) + [d.conv]
  }

  function Meaning(item: Item): string
    requires Sound(item)
  {
    match item
    case Literal(c) => [c]
    case Convert(d, args) => Shown(d, args)
  }

  function ItemArgs(item: Item): seq<Arg> {
    if item.Literal? then [] else item.args
  }

  function Format(items: seq<Item>): string {
    if items == [] then "" else Source(items[0]) + Format(items[1..])
  }

  function AllArgs(items: seq<Item>): seq<Arg> {
    if items == [] then [] else ItemArgs(items[0]) + AllArgs(items[1..])
  }

  function AllMeanings(items: seq<Item>): string
    requires forall i :: 0 <= i < |items| ==> Sound(items[i])
  {
    if items == [] then "" else Meaning(items[0]) + AllMeanings(items[1..])
  }

  lemma {:induction false} AfterDigitsSpan(fmt: string, i: nat, j: nat)
    requires i <= j <= |fmt| && (forall n :: i <= n < j ==> IsDigit(fmt[n])) && !IsDigit(At(fmt, j))
    ensures AfterDigits(fmt, i) == j
    decreases j - i
  {
    if i < j {
      AfterDigitsSpan(fmt, i + 1, j);
    }
  }

  lemma {:induction false} ValueZero(s: string)
    ensures Value("0" + s, 10) == Value(s, 10)
  {
    var t := "0" + s;
    if s == [] {
      assert t[..0] == [];
    } else {
      ValueZero(s[..|s| - 1]);
      assert t[..|t| - 1] == "0" + s[..|s| - 1];
    }
  }

  lemma {:induction false} DecimalDigits(v: nat)
    ensures forall i :: 0 <= i < |Digits(v, 10, false)| ==> IsDigit(Digits(v, 10, false)[i])
  {
    DigitCharValue(v % 10, false);
    if v >= 10 {
      DecimalDigits(v / 10);
    }
  }

  /** The width in decimal; nothing for no width. */
  function WidthDigits(width: nat): string {
    if width > 0 then Digits(width, 10, false) else ""
  }

  lemma WidthDigitsValue(width: nat)
    ensures Value(WidthDigits(width), 10) == width
    ensures forall i :: 0 <= i < |WidthDigits(width)| ==> IsDigit(WidthDigits(width)[i])
    ensures WidthDigits(width) != "" ==> WidthDigits(width)[0] != '0'
  {
    hide Digits, Value, Proper, IsDigit;
    DigitsParseBack(width, 10, false);
    DecimalDigits(width);
    NoValue(10);
  }

  lemma WidthTextValue(d: Directive)
    requires Written(d)
    ensures Value(WidthText(d), 10) == d.width
    ensures forall i :: 0 <= i < |WidthText(d)| ==> IsDigit(WidthText(d)[i])
    ensures d.zero == '0' <==> WidthText(d) != "" && WidthText(d)[0] == '0'
  {
    hide Value, WidthDigits;
    var digits := WidthDigits(d.width);
    WidthDigitsValue(d.width);
    ValueZero(digits);
    if d.zero == '0' {
      assert WidthText(d) == "0" + digits;
    } else {
      assert WidthText(d) == digits;
    }
  }

  lemma FlagsRead(fmt: string, j: nat, d: Directive)
    requires Written(d) && j + |FlagText(d)| < |fmt| && fmt[j..j + |FlagText(d)|] == FlagText(d)
    requires fmt[j + |FlagText(d)|] == d.conv
    ensures Flags(fmt, j, true, 0) == (d.sign, d.hex, j + |FlagText(d)|)
  {
    assert FlagText(d) != "" ==> fmt[j] == FlagText(d)[0];
  }

  lemma Parts(fmt: string, i: nat, width: string, flags: string, c: char, post: string)
    requires i <= |fmt| && fmt[i..] == "%" + width + flags + [c] + post
    ensures var j := i + 1 + |width|;
      && j + |flags| < |fmt| && fmt[i] == '%' && fmt[i + 1..j] == width
      && fmt[j..j + |flags|] == flags && fmt[j + |flags|] == c
    ensures forall n :: i + 1 <= n < i + 1 + |width| ==> fmt[n] == width[n - (i + 1)]
  {
    var s := fmt[i..];
    var j := 1 + |width|;
    assert s[0] == '%' && s[1..j] == width && s[j..j + |flags|] == flags && s[j + |flags|] == c;
    assert fmt[i + 1..i + j] == s[1..j];
    assert fmt[i + j..i + j + |flags|] == s[j..j + |flags|];
  }

  lemma SourceIs(d: Directive)
    ensures Source(Convert(d, [])) == "%" + WidthText(d) + FlagText(d) + [d.conv]
    ensures |Source(Convert(d, []))| == |WidthText(d)| + |FlagText(d)| + 2
  {
  }

  /** A directive written down is read back. */
  lemma DirectiveRoundTrip(fmt: string, i: nat, d: Directive, post: string)
    requires Written(d) && i <= |fmt| && fmt[i..] == Source(Convert(d, [])) + post
    ensures i < |fmt| && fmt[i] == '%'
    ensures Parsed(fmt, i) == (d, i + |Source(Convert(d, []))| - 1)
  {
    hide Digits, Value, WidthText, WidthDigits, Flags, FlagText, AfterDigits, Written, IsDigit, Parsed, Source;
    var width, flags := WidthText(d), FlagText(d);
    SourceIs(d);
    WidthTextValue(d);
    var j := i + 1 + |width|;
    Parts(fmt, i, width, flags, d.conv, post);
    FlagsRead(fmt, j, d);
    NoDigitAfter(fmt, j, d);
    AfterDigitsSpan(fmt, i + 1, j);
    PlainConversion(d);
    ZeroFlag(fmt, i + 1, width, d);
    ParsedIs(fmt, i, d, j, j + |flags|);
  }

  lemma ParsedIs(fmt: string, i: nat, d: Directive, j: nat, k: nat)
    requires i < |fmt| && AfterDigits(fmt, i + 1) == j && Flags(fmt, j, true, 0) == (d.sign, d.hex, k)
    requires At(fmt, k) == d.conv != '.' && Value(fmt[i + 1..j], 10) == d.width < TWO_TO_THE_64
    requires d.zero == if At(fmt, i + 1) == '0' then '0' else ' '
    ensures Parsed(fmt, i) == (d, k)
  {
    hide AfterDigits, Flags, Value, IsDigit;
  }

  lemma PlainConversion(d: Directive)
    requires Written(d)
    ensures d.conv != '.' && d.width < TWO_TO_THE_64 && (d.zero == '0' || d.zero == ' ')
  {
  }

  lemma ZeroFlag(fmt: string, i: nat, width: string, d: Directive)
    requires i + |width| <= |fmt| && fmt[i..i + |width|] == width && !IsDigit(At(fmt, i + |width|))
    requires d.zero == '0' <==> width != "" && width[0] == '0'
    ensures At(fmt, i) == '0' <==> d.zero == '0'
  {
    assert width != "" ==> fmt[i] == width[0];
  }

  lemma NoDigitAfter(fmt: string, j: nat, d: Directive)
    requires Written(d) && j + |FlagText(d)| < |fmt| && fmt[j..j + |FlagText(d)|] == FlagText(d)
    requires fmt[j + |FlagText(d)|] == d.conv
    ensures !IsDigit(At(fmt, j))
  {
    assert FlagText(d) != "" ==> fmt[j] == FlagText(d)[0];
  }

  lemma LiteralStep(fmt: string, i: nat, args: seq<Arg>)
    requires i < |fmt| && fmt[i] != '%' && WellFormed(fmt, i + 1, args)
    ensures WellFormed(fmt, i, args) && Render(fmt, i, args) == [fmt[i]] + Render(fmt, i + 1, args)
  {
  }

  lemma ConvertStep(fmt: string, i: nat, d: Directive, k: nat, args: seq<Arg>, rest: seq<Arg>)
    requires i < |fmt| && fmt[i] == '%' && Parsed(fmt, i) == (d, k) && k < |fmt| && d.conv != 'f'
    requires Supplied(d, args) && rest == Remaining(d, args) && WellFormed(fmt, k + 1, rest)
    ensures WellFormed(fmt, i, args) && Render(fmt, i, args) == Shown(d, args) + Render(fmt, k + 1, rest)
  {
    hide Parsed, Shown, Supplied, Remaining;
  }

  /** An item's arguments come before those of the items behind it. */
  lemma ConvertArgs(item: Item, rest: seq<Arg>)
    requires item.Convert? && Sound(item)
    ensures Supplied(item.d, item.args + rest) && Remaining(item.d, item.args + rest) == rest
    ensures Shown(item.d, item.args + rest) == Meaning(item)
  {
    hide Number;
    assert |item.args| == 1 ==> (item.args + rest)[0] == item.args[0];
    if |item.args| == 1 {
      assert (item.args + rest)[1..] == rest;
    } else {
      assert item.args == [] && [] + rest == rest;
    }
  }

  /** What is read at the start of an item. */
  lemma ItemRead(fmt: string, i: nat, item: Item, post: string)
    requires Sound(item) && i <= |fmt| && fmt[i..] == Source(item) + post
    ensures i < i + |Source(item)| <= |fmt| && fmt[i + |Source(item)|..] == post
    ensures item.Literal? ==> |Source(item)| == 1 && fmt[i] == item.c && item.c != '%' && Meaning(item) == [item.c]
    ensures item.Convert? ==> fmt[i] == '%' && item.d.conv != 'f' && Parsed(fmt, i) == (item.d, i + |Source(item)| - 1)
  {
    hide Parsed, Supplied, WidthText, FlagText;
    assert fmt[i + |Source(item)|..] == fmt[i..][|Source(item)|..];
    if item.Convert? {
      DirectiveRoundTrip(fmt, i, item.d, post);
    }
  }

  lemma RenderEnd(fmt: string)
    ensures WellFormed(fmt, |fmt|, []) && Render(fmt, |fmt|, []) == ""
  {
  }

  /** The rendering of a format is that of its parts, in order, each with its
      own argument. */
  lemma {:induction false} RenderItems(fmt: string, i: nat, items: seq<Item>)
    requires i <= |fmt| && fmt[i..] == Format(items) && forall n :: 0 <= n < |items| ==> Sound(items[n])
    ensures WellFormed(fmt, i, AllArgs(items))
    ensures Render(fmt, i, AllArgs(items)) == AllMeanings(items)
    decreases items
  {
    hide Source, Parsed, Supplied, Remaining, Shown, WellFormed, Render, Sound, Meaning;
    if items == [] {
      RenderEnd(fmt);
    } else {
      var item, k, rest := items[0], i + |Source(items[0])|, AllArgs(items[1..]);
      ItemRead(fmt, i, item, Format(items[1..]));
      RenderItems(fmt, k, items[1..]);
      match item
      case Literal(c) =>
        assert [] + rest == rest;
        LiteralStep(fmt, i, rest);
      case Convert(d, args) =>
        ConvertArgs(item, rest);
        ConvertStep(fmt, i, d, k - 1, args + rest, rest);
    }
  }

  // ---------------------------------------------------------------------
  // Some formats and what they give.

  /** A format that is one directive. */
  lemma Single(fmt: string, d: Directive, args: seq<Arg>)
    requires Sound(Convert(d, args)) && fmt == Source(Convert(d, args))
    ensures WellFormed(fmt, 0, args) && Render(fmt, 0, args) == Shown(d, args)
  {
    hide Source, WellFormed, Render, Shown, Written;
    var item := Convert(d, args);
    assert [item][1..] == [] && Source(item) + "" == Source(item) && args + [] == args;
    assert fmt[0..] == fmt && Shown(d, args) + "" == Shown(d, args);
    RenderItems(fmt, 0, [item]);
  }

  lemma TwoDigits()
    ensures WellFormed("%02d", 0, [Int(5)]) && Render("%02d", 0, [Int(5)]) == "05"
  {
    var d, args := Directive('0', 2, true, 0, 'd'), [Int(5)];
    assert Digits(2, 10, false) == "2" && Digits(5, 10, false) == "5";
    hide WellFormed, Render, Digits;
    assert Source(Convert(d, args)) == "%02d";
    Single("%02d", d, args);
    assert Shown(d, args) == "05";
  }

  lemma TwoPlaces()
    ensures WellFormed("%2d", 0, [Int(5)]) && Render("%2d", 0, [Int(5)]) == " 5"
  {
    var d, args := Directive(' ', 2, true, 0, 'd'), [Int(5)];
    assert Digits(2, 10, false) == "2" && Digits(5, 10, false) == "5";
    hide WellFormed, Render, Digits;
    assert Source(Convert(d, args)) == "%2d";
    Single("%2d", d, args);
    assert Shown(d, args) == " 5";
  }

  lemma LowerCase()
    ensures WellFormed("%xd", 0, [Int(255)]) && Render("%xd", 0, [Int(255)]) == "ff"
  {
    var d, args := Directive(' ', 0, false, 1, 'd'), [Int(255)];
    assert Digits(15, 16, false) == "f" && Digits(255, 16, false) == "ff";
    hide WellFormed, Render, Digits;
    assert Source(Convert(d, args)) == "%xd";
    Single("%xd", d, args);
    assert Shown(d, args) == "ff";
  }

  lemma UpperCase()
    ensures WellFormed("%Xd", 0, [Int(255)]) && Render("%Xd", 0, [Int(255)]) == "FF"
  {
    var d, args := Directive(' ', 0, false, 2, 'd'), [Int(255)];
    assert Digits(15, 16, true) == "F" && Digits(255, 16, true) == "FF";
    hide WellFormed, Render, Digits;
    assert Source(Convert(d, args)) == "%Xd";
    Single("%Xd", d, args);
    assert Shown(d, args) == "FF";
  }

  /** A string is written as it is. */
  lemma Strings(text: string)
    requires '\0' !in text
    ensures WellFormed("%s", 0, [Text(text)]) && Render("%s", 0, [Text(text)]) == text
  {
    var d, args := Directive(' ', 0, true, 0, 's'), [Text(text)];
    hide WellFormed, Render;
    assert Source(Convert(d, args)) == "%s";
    Single("%s", d, args);
  }

  lemma PrecisionParsed()
    ensures Parsed("%.3d", 0) == (Directive(' ', 0, true, 0, 'd'), 3)
  {
    var fmt := "%.3d";
    assert fmt[1..1] == "" && AfterDigits(fmt, 3) == 3;
  }

  /** A precision is read and has no effect on a number. */
  lemma Precision(v: int)
    requires -2147483648 <= v <= 2147483647
    ensures WellFormed("%.3d", 0, [Int(v)]) && WellFormed("%d", 0, [Int(v)])
    ensures Render("%.3d", 0, [Int(v)]) == Render("%d", 0, [Int(v)])
  {
    hide Parsed, Shown;
    var d, args := Directive(' ', 0, true, 0, 'd'), [Int(v)];
    PrecisionParsed();
    assert Source(Convert(d, args)) == "%d";
    Single("%d", d, args);
    hide WellFormed, Render, Source;
    RenderEnd("%.3d");
    assert Remaining(d, args) == [];
    ConvertStep("%.3d", 0, d, 3, args, []);
    assert Shown(d, args) + "" == Shown(d, args);
  }

  /** Two percent signs give one. */
  lemma Percent()
    ensures WellFormed("%%", 0, []) && Render("%%", 0, []) == "%"
  {
    hide WellFormed, Render;
    var d := Directive(' ', 0, true, 0, '%');
    assert Source(Convert(d, [])) == "%%";
    Single("%%", d, []);
  }

  lemma Plain(v: nat, zero: char)
    ensures Field(v, zero, 0, 0) == Digits(v, 10, false)
  {
    hide Digits;
    assert Padding(zero, |Digits(v, 10, false)|, 0) == "";
  }

  /** Every unsigned 64-bit value, up to 18446744073709551615, is written with
      the digits that read as it. */
  lemma Unsigned(v: nat)
    requires v <= 18446744073709551615
    ensures WellFormed("%uL", 0, [Int(v)])
    ensures Render("%uL", 0, [Int(v)]) == Digits(v, 10, false) && Value(Render("%uL", 0, [Int(v)]), 10) == v
  {
    hide WellFormed, Render, Digits, Value, Field;
    var d, args := Directive(' ', 0, false, 0, 'L'), [Int(v)];
    assert Source(Convert(d, args)) == "%uL";
    Single("%uL", d, args);
    Plain(v, ' ');
    DigitsParseBack(v, 10, false);
  }

  /** The sign comes first and does not count for the width. */
  lemma SignFirst()
    ensures WellFormed("%05d", 0, [Int(-42)]) && Render("%05d", 0, [Int(-42)]) == "-00042"
  {
    var d, args := Directive('0', 5, true, 0, 'd'), [Int(-42)];
    assert Digits(5, 10, false) == "5" && Digits(4, 10, false) == "4" && Digits(42, 10, false) == "42";
    hide WellFormed, Render, Digits;
    assert Source(Convert(d, args)) == "%05d";
    Single("%05d", d, args);
    assert Field(42, '0', 0, 5) == "00042";
  }
}
