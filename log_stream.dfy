// LogStream: the formatting front end of the logger. FixedBuffer is a
// fixed-size character array with a write cursor; LogStream renders values
// into it. Integers are rendered by convert, which writes the digits least
// significant first and then reverses them in place, exactly as the source
// does; the results are proved equal to the renderings of module Text.
module LogStreams {
  import opened Text

  const kSmallBuffer: nat := 4000
  const kLargeBuffer: nat := 4000 * 1000
  /** The room formatInteger and the pointer output insist on. */
  const kMaxNumericSize: nat := 32

  /** The table convert indexes with a signed remainder: zero sits at index 9. */
  const kDigits: string := "9876543210123456789"
  const kDigitsHex: string := "0123456789ABCDEF"

  /** Operand ranges of the integer types on an LP64 platform. */
  datatype IntKind = Short | UShort | Int | UInt | Long | ULong | LongLong | ULongLong

  /** The smallest value of a type. */
  function MinOf(k: IntKind): int
  {
    match k
    case Short => -0x8000
    case Int => -0x8000_0000
    case Long => -0x8000_0000_0000_0000
    case LongLong => -0x8000_0000_0000_0000
    case _ => 0
  }

  /** One more than the largest value of a type. */
  function LimitOf(k: IntKind): int
  {
    match k
    case Short => 0x8000
    case UShort => 0x1_0000
    case Int => 0x8000_0000
    case UInt => 0x1_0000_0000
    case Long => 0x8000_0000_0000_0000
    case LongLong => 0x8000_0000_0000_0000
    case _ => 0x1_0000_0000_0000_0000
  }

  predicate InRange(k: IntKind, v: int)
  {
    MinOf(k) <= v < LimitOf(k)
  }

  /** short and unsigned short are written as int and unsigned int. */
  function Widen(k: IntKind): (w: IntKind)
    ensures k == Short ==> w == Int
    ensures k == UShort ==> w == UInt
    ensures k != Short && k != UShort ==> w == k
  {
    match k
    case Short => Int
    case UShort => UInt
    case _ => k
  }

  /** Widening keeps every value of the narrow type representable and unchanged in sign. */
  lemma WidenKeepsValue(k: IntKind, v: int)
    requires InRange(k, v)
    ensures InRange(Widen(k), v)
    ensures MinOf(Widen(k)) < 0 <==> MinOf(k) < 0
  {
  }

  /** Within the 64-bit signed or unsigned range. */
  predicate Fits64(v: int)
  {
    -0x8000_0000_0000_0000 <= v < 0x1_0000_0000_0000_0000
  }

  lemma KindsFit64(k: IntKind, v: int)
    requires InRange(k, v)
    ensures Fits64(v)
  {
  }

  /** C's / and % truncate toward zero. */
  function CDiv(a: int, b: int): int
    requires b > 0
  {
    if a >= 0 then a / b else -((-a) / b)
  }

  function CRem(a: int, b: int): int
    requires b > 0
  {
    a - b * CDiv(a, b)
  }

  function Abs(x: int): nat
  {
    if x < 0 then -x else x
  }

  /** One step of convert: the remainder's table entry is the last decimal digit of |i|. */
  lemma ConvertStep(i: int)
    ensures -9 <= CRem(i, 10) <= 9
    ensures kDigits[9 + CRem(i, 10)] == DigitChar(Abs(i) % 10)
    ensures Abs(CDiv(i, 10)) == Abs(i) / 10
    ensures (i >= 0 ==> CDiv(i, 10) >= 0) && (i <= 0 ==> CDiv(i, 10) <= 0)
  {
    var d := Abs(i) % 10;
    if i >= 0 {
      assert CRem(i, 10) == d;
    } else {
      assert CRem(i, 10) == -d;
    }
    assert d == 0 || d == 1 || d == 2 || d == 3 || d == 4 || d == 5 || d == 6 || d == 7 || d == 8 || d == 9;
  }

  /** The digits of a in the given base, least significant first. */
  function LowDigits(a: nat, base: nat): (s: string)
    requires IsBase(base)
    ensures |s| >= 1
    decreases a
  {
    [DigitChar(a % base)] + (if a < base then [] else LowDigits(a / base, base))
  }

  /** The digits still to be produced while the quotient is i. */
  function Rest(i: nat, base: nat): string
    requires IsBase(base)
  {
    if i == 0 then [] else LowDigits(i, base)
  }

  function Reverse(s: string): (r: string)
    ensures |r| == |s|
  {
    if s == [] then [] else Reverse(s[1..]) + [s[0]]
  }

  lemma {:induction false} ReverseAt(s: string, k: nat)
    requires k < |s|
    ensures Reverse(s)[k] == s[|s| - 1 - k]
    decreases |s|
  {
    if k < |s| - 1 {
      ReverseAt(s[1..], k);
    }
  }

  lemma {:induction false} ReverseAppend(s: string, c: char)
    ensures Reverse(s + [c]) == [c] + Reverse(s)
    decreases |s|
  {
    if s != [] {
      assert (s + [c])[1..] == s[1..] + [c];
      ReverseAppend(s[1..], c);
    } else {
      assert [c][1..] == [];
    }
  }

  /** Reversing the digit stream convert produces gives the usual rendering. */
  lemma {:induction false} LowDigitsReversed(a: nat, base: nat)
    requires IsBase(base)
    ensures Reverse(LowDigits(a, base)) == Digits(a, base)
    decreases a
  {
    var s := LowDigits(a, base);
    assert Reverse(s) == Reverse(s[1..]) + [DigitChar(a % base)];
    if a >= base {
      assert s[1..] == LowDigits(a / base, base);
      LowDigitsReversed(a / base, base);
      assert Digits(a, base) == Digits(a / base, base) + [DigitChar(a % base)];
    } else {
      assert s[1..] == [];
    }
  }

  lemma {:induction false} DigitsFit(base: nat, a: nat, k: nat)
    requires IsBase(base) && 1 <= k && a < Pow(base, k)
    ensures |LowDigits(a, base)| <= k
  {
    DigitsLength(a, base, k);
    LowDigitsReversed(a, base);
  }

  /** A 64-bit value has at most 20 decimal digits (19 when negative) and 16 hex digits. */
  lemma SixtyFourBitDigits(v: int)
    requires Fits64(v)
    ensures v < 0 ==> |LowDigits(Abs(v), 10)| <= 19
    ensures v >= 0 ==> |LowDigits(v, 10)| <= 20 && |LowDigits(v, 16)| <= 16
  {
    PowersOfTen();
    PowersOfSixteen();
    if v < 0 {
      DigitsFit(10, Abs(v), 19);
    } else {
      DigitsFit(10, v, 20);
      DigitsFit(16, v, 16);
    }
  }

  lemma PowersOfTen()
    ensures Pow(10, 19) == 10000000000000000000 && Pow(10, 20) == 100000000000000000000
  {
    assert Pow(10, 4) == 10000;
    assert Pow(10, 8) == 100000000;
    assert Pow(10, 12) == 1000000000000;
    assert Pow(10, 16) == 10000000000000000;
  }

  lemma PowersOfSixteen()
    ensures Pow(16, 16) == 0x1_0000_0000_0000_0000
  {
    assert Pow(16, 4) == 0x1_0000;
    assert Pow(16, 8) == 0x1_0000_0000;
    assert Pow(16, 12) == 0x1_0000_0000_0000;
  }

  /** The facts about division by the base the digit loops rely on. */
  lemma DivBase(a: nat, base: nat)
    requires IsBase(base)
    ensures a % base < base && a / base <= a
    ensures a < base <==> a / base == 0
    ensures a > 0 ==> a / base < a
  {
    if base == 10 {
      assert a % 10 < 10 && (a < 10 <==> a / 10 == 0);
    } else {
      assert a % 16 < 16 && (a < 16 <==> a / 16 == 0);
    }
  }

  /** The do-while's first round always produces the last digit, even of zero. */
  lemma FirstDigit(a: nat, base: nat)
    requires IsBase(base)
    ensures [DigitChar(a % base)] + Rest(a / base, base) == LowDigits(a, base)
  {
    DivBase(a, base);
  }

  /** Producing the next digit moves it from the pending digits to the written ones. */
  lemma PendingStep(w: string, c: char, tail: string, all: string)
    requires w + ([c] + tail) == all
    ensures |w| < |all|
    ensures (w + [c]) + tail == all
  {
    assert (w + [c]) + tail == w + ([c] + tail);
  }

  /** One round of convert's loop, stated on the values it leaves behind. */
  lemma DecimalStep(w: string, i: int, all: string)
    requires i != 0 && w + Rest(Abs(i), 10) == all
    ensures |w| < |all|
    ensures -9 <= CRem(i, 10) <= 9
    ensures (w + [kDigits[9 + CRem(i, 10)]]) + Rest(Abs(CDiv(i, 10)), 10) == all
    ensures (i >= 0 ==> CDiv(i, 10) >= 0) && (i <= 0 ==> CDiv(i, 10) <= 0)
    ensures Abs(CDiv(i, 10)) < Abs(i)
  {
    ConvertStep(i);
    FirstDigit(Abs(i), 10);
    PendingStep(w, DigitChar(Abs(i) % 10), Rest(Abs(i) / 10, 10), all);
  }

  /** One round of convertHex's loop. */
  lemma HexStep(w: string, i: nat, all: string)
    requires i != 0 && w + Rest(i, 16) == all
    ensures |w| < |all|
    ensures (w + [kDigitsHex[i % 16]]) + Rest(i / 16, 16) == all
  {
    FirstDigit(i, 16);
    PendingStep(w, DigitChar(i % 16), Rest(i / 16, 16), all);
  }

  /** The body of operator<<(const void*): "0x" and the hex digits of p at buf[start..]. */
  method FormatPointer(buf: array<char>, start: nat, p: nat) returns (len: nat)
    requires Fits64(p) && start + 19 <= buf.Length
    modifies buf
    ensures start + len <= buf.Length
    ensures buf[start..start + len] == "0x" + Digits(p, 16)
    ensures buf[..start] == old(buf[..start])
  {
    buf[start] := '0';
    buf[start + 1] := 'x';
    ghost var head := buf[..start + 2];
    assert head[..start] == old(buf[..start]);
    var n := ConvertHex(buf, start + 2, p);
    ghost var digits := buf[start + 2..start + 2 + n];
    assert buf[..start + 2] == head;
    assert buf[start] == head[start] == '0' && buf[start + 1] == head[start + 1] == 'x';
    len := n + 2;
    ghost var whole := buf[start..start + len];
    assert whole[0] == '0' && whole[1] == 'x' && whole[2..] == digits;
    SplitTwo(whole);
  }

  lemma SplitTwo(s: string)
    requires |s| >= 2
    ensures s == [s[0], s[1]] + s[2..]
  {
  }

  /** A sequence holding s's elements back to front is Reverse(s). */
  lemma ReversedPointwise(r: string, s: string)
    requires |r| == |s| && forall k :: 0 <= k < |s| ==> r[k] == s[|s| - 1 - k]
    ensures r == Reverse(s)
  {
    forall k | 0 <= k < |s|
      ensures r[k] == Reverse(s)[k]
    {
      ReverseAt(s, k);
    }
  }

  /** Writes the terminating NUL at p, keeping everything before it. */
  method Terminate(buf: array<char>, start: nat, p: nat)
    requires start <= p < buf.Length
    modifies buf
    ensures buf[p] == '\0'
    ensures buf[..start] == old(buf[..start]) && buf[start..p] == old(buf[start..p])
  {
    buf[p] := '\0';
  }

  /** std::reverse(buf + lo, buf + hi). */
  method ReverseRange(buf: array<char>, lo: nat, hi: nat, ghost s: string)
    requires lo <= hi <= buf.Length && buf[lo..hi] == s
    modifies buf
    ensures buf[lo..hi] == Reverse(s)
    ensures buf[..lo] == old(buf[..lo]) && buf[hi..] == old(buf[hi..])
  {
    var i, j := lo, hi;
    while i + 1 < j
      invariant lo <= i <= j <= hi && i - lo == hi - j
      invariant forall k :: lo <= k < i ==> buf[k] == s[hi - 1 - k]
      invariant forall k :: j <= k < hi ==> buf[k] == s[hi - 1 - k]
      invariant forall k :: i <= k < j ==> buf[k] == s[k - lo]
      invariant forall k :: 0 <= k < lo ==> buf[k] == old(buf[k])
      invariant forall k :: hi <= k < buf.Length ==> buf[k] == old(buf[k])
    {
      buf[i], buf[j - 1] := buf[j - 1], buf[i];
      i, j := i + 1, j - 1;
    }
    assert buf[..lo] == old(buf[..lo]);
    assert buf[hi..] == old(buf[hi..]);
    forall k | lo <= k < hi
      ensures buf[k] == s[hi - 1 - k]
    {
      if i <= k < j {
        assert k - lo == hi - 1 - k;
      }
    }
    ghost var r := buf[lo..hi];
    assert forall k :: 0 <= k < |r| ==> r[k] == buf[lo + k];
    ReversedPointwise(r, s);
  }

  /**
   * The while part of convert's do-while: the digits still pending in the
   * quotient i go to buf[p..], after the digits w already written.
   */
  method EmitPendingDecimal(buf: array<char>, start: nat, p0: nat, i0: int, ghost w0: string, ghost all: string)
    returns (p: nat)
    requires start <= p0 <= buf.Length && start + |all| <= buf.Length && |w0| == p0 - start
    requires buf[start..p0] == w0 && w0 + Rest(Abs(i0), 10) == all
    modifies buf
    ensures p == start + |all| && buf[start..p] == all
    ensures buf[..start] == old(buf[..start])
  {
    var i := i0;
    p := p0;
    ghost var w := w0;
    while i != 0
      invariant start <= p <= start + |all| && |w| == p - start && w + Rest(Abs(i), 10) == all
      invariant forall k :: start <= k < p ==> buf[k] == w[k - start]
      invariant forall k :: 0 <= k < start ==> buf[k] == old(buf[k])
      decreases Abs(i)
    {
      DecimalStep(w, i, all);
      var lsd := CRem(i, 10);
      i := CDiv(i, 10);
      buf[p] := kDigits[9 + lsd];
      w := w + [buf[p]];
      p := p + 1;
    }
    assert buf[start..p] == w;
  }

  /**
   * The do-while loop of convert: the decimal digits of |value| at
   * buf[start..], least significant first; the returned p is one past them.
   */
  method EmitDecimalDigits(buf: array<char>, start: nat, value: int) returns (p: nat)
    requires Fits64(value) && start + 20 <= buf.Length
    modifies buf
    ensures start < p <= start + (if value < 0 then 19 else 20)
    ensures buf[start..p] == LowDigits(Abs(value), 10)
    ensures buf[..start] == old(buf[..start])
  {
    SixtyFourBitDigits(value);
    ghost var all := LowDigits(Abs(value), 10);
    ConvertStep(value);
    FirstDigit(Abs(value), 10);
    buf[start] := kDigits[9 + CRem(value, 10)];
    assert buf[start..start + 1] == [DigitChar(Abs(value) % 10)];
    p := EmitPendingDecimal(buf, start, start + 1, CDiv(value, 10), [DigitChar(Abs(value) % 10)], all);
  }

  /** convert's digits, least significant first, then '-' for a negative value. */
  method EmitReversedDecimal(buf: array<char>, start: nat, value: int) returns (p: nat)
    requires Fits64(value) && start + 21 <= buf.Length
    modifies buf
    ensures start < p <= start + 20
    ensures buf[start..p] == LowDigits(Abs(value), 10) + (if value < 0 then "-" else "")
    ensures buf[..start] == old(buf[..start])
  {
    p := EmitDecimalDigits(buf, start, value);
    ghost var all := buf[start..p];
    if value < 0 {
      ghost var before := buf[..start];
      buf[p] := '-';
      assert buf[start..p + 1] == all + ['-'] && buf[..start] == before;
      p := p + 1;
    } else {
      assert all + "" == all;
    }
  }

  /**
   * detail::convert(buf, value): writes the decimal rendering of value at
   * buf[start..], NUL-terminated, and returns its length. The symmetric
   * table gives the digit of a negative remainder, so the most negative
   * value needs no special case. A 64-bit value needs at most 21 characters.
   */
  method Convert(buf: array<char>, start: nat, value: int) returns (len: nat)
    requires Fits64(value) && start + 21 <= buf.Length
    modifies buf
    ensures start + len < buf.Length
    ensures buf[start..start + len] == DecimalString(value)
    ensures buf[start + len] == '\0'
    ensures buf[..start] == old(buf[..start])
  {
    var p := EmitReversedDecimal(buf, start, value);
    len := p - start;
    assert p == start + len && p < buf.Length;
    ghost var written := buf[start..p];
    ReverseRange(buf, start, p, written);
    ghost var r := buf[start..p];
    ReversedRendering(value, written, r);
    Terminate(buf, start, p);
    assert buf[start..start + len] == r;
  }

  /** What convertHex writes before its reverse, reversed, is the hex rendering. */
  lemma HexRendering(value: nat, written: string, r: string)
    requires written == LowDigits(value, 16) && r == Reverse(written)
    ensures r == Digits(value, 16)
  {
    LowDigitsReversed(value, 16);
  }

  /** What convert writes before its reverse, reversed, is the decimal rendering. */
  lemma ReversedRendering(value: int, written: string, r: string)
    requires written == LowDigits(Abs(value), 10) + (if value < 0 then "-" else "")
    requires r == Reverse(written)
    ensures r == DecimalString(value)
  {
    LowDigitsReversed(Abs(value), 10);
    if value < 0 {
      ReverseAppend(LowDigits(Abs(value), 10), '-');
    } else {
      assert written == LowDigits(Abs(value), 10);
    }
  }

  /** The while part of convertHex's do-while, as EmitPendingDecimal. */
  method EmitPendingHex(buf: array<char>, start: nat, p0: nat, i0: nat, ghost w0: string, ghost all: string)
    returns (p: nat)
    requires start <= p0 <= buf.Length && start + |all| <= buf.Length && |w0| == p0 - start
    requires buf[start..p0] == w0 && w0 + Rest(i0, 16) == all
    modifies buf
    ensures p == start + |all| && buf[start..p] == all
    ensures buf[..start] == old(buf[..start])
  {
    var i := i0;
    p := p0;
    ghost var w := w0;
    while i != 0
      invariant start <= p <= start + |all| && |w| == p - start && w + Rest(i, 16) == all
      invariant forall k :: start <= k < p ==> buf[k] == w[k - start]
      invariant forall k :: 0 <= k < start ==> buf[k] == old(buf[k])
    {
      HexStep(w, i, all);
      var lsd := i % 16;
      i := i / 16;
      buf[p] := kDigitsHex[lsd];
      w := w + [buf[p]];
      p := p + 1;
    }
    assert buf[start..p] == w;
  }

  /** The do-while loop of convertHex: the hex digits of value, least significant first. */
  method EmitHexDigits(buf: array<char>, start: nat, value: nat) returns (p: nat)
    requires Fits64(value) && start + 16 <= buf.Length
    modifies buf
    ensures start < p <= start + 16
    ensures buf[start..p] == LowDigits(value, 16)
    ensures buf[..start] == old(buf[..start])
  {
    SixtyFourBitDigits(value);
    ghost var all := LowDigits(value, 16);
    FirstDigit(value, 16);
    buf[start] := kDigitsHex[value % 16];
    assert buf[start..start + 1] == [DigitChar(value % 16)];
    p := EmitPendingHex(buf, start, start + 1, value / 16, [DigitChar(value % 16)], all);
  }

  /** detail::convertHex(buf, value): upper-case hex digits, no leading zeros, NUL-terminated. */
  method ConvertHex(buf: array<char>, start: nat, value: nat) returns (len: nat)
    requires Fits64(value) && start + 17 <= buf.Length
    modifies buf
    ensures start + len < buf.Length
    ensures buf[start..start + len] == Digits(value, 16)
    ensures buf[start + len] == '\0'
    ensures buf[..start] == old(buf[..start])
  {
    var p := EmitHexDigits(buf, start, value);
    len := p - start;
    assert p == start + len && p < buf.Length;
    ghost var all := buf[start..p];
    ReverseRange(buf, start, p, all);
    ghost var r := buf[start..p];
    HexRendering(value, all, r);
    Terminate(buf, start, p);
    assert buf[start..start + len] == r;
  }

  /** The length of a NUL-terminated string: the characters before the first NUL. */
  function CStrLen(s: string): (n: nat)
    requires '\0' in s
    ensures n < |s| && s[n] == '\0' && '\0' !in s[..n]
  {
    if s[0] == '\0' then 0 else assert '\0' in s[1..]; assert s[..1 + CStrLen(s[1..])] == [s[0]] + s[1..][..CStrLen(s[1..])]; 1 + CStrLen(s[1..])
  }

  /**
   * FixedBuffer<SIZE>: SIZE characters, of which the first length are held;
   * the template is instantiated with kSmallBuffer and kLargeBuffer.
   */
  class FixedBuffer {
    const data: array<char>
    var cur: nat

    ghost predicate Valid()
      reads this
    {
      cur <= data.Length
    }

    constructor (size: nat)
      ensures Valid() && fresh(data) && data.Length == size
      ensures AsString() == []
    {
      data := new char[size];
      cur := 0;
    }

    /** asString(): the held characters. */
    function AsString(): (s: string)
      requires Valid()
      reads this, data
      ensures |s| == cur
    {
      data[..cur]
    }

    function Length(): (n: int)
      requires Valid()
      reads this, data
      ensures n == |AsString()|
    {
      cur
    }

    function Avail(): (n: int)
      requires Valid()
      reads this, data
      ensures n >= 0 && Length() + n == data.Length
    {
      data.Length - cur
    }

    /** append(buf, len): copies only when strictly more room than len is left. */
    method Append(buf: seq<char>)
      requires Valid()
      modifies this`cur, data
      ensures Valid()
      ensures old(Avail()) > |buf| ==> AsString() == old(AsString()) + buf
      ensures old(Avail()) <= |buf| ==> cur == old(cur) && unchanged(data)
    {
      if Avail() > |buf| {
        ghost var held := data[..cur];
        var i := 0;
        while i < |buf|
          invariant 0 <= i <= |buf| && cur == old(cur) && cur + |buf| < data.Length
          invariant forall k :: 0 <= k < cur ==> data[k] == held[k]
          invariant forall k :: 0 <= k < i ==> data[cur + k] == buf[k]
        {
          data[cur + i] := buf[i];
          i := i + 1;
        }
        assert data[..cur + |buf|] == held + buf;
        cur := cur + |buf|;
      }
    }

    /** add(len): takes len characters already written at the cursor into the held text. */
    method Add(len: nat)
      requires Valid() && cur + len <= data.Length
      modifies this`cur
      ensures Valid() && cur == old(cur) + len
      ensures AsString() == old(AsString()) + data[old(cur)..cur]
    {
      assert data[..cur + len] == data[..cur] + data[cur..cur + len];
      cur := cur + len;
    }

    /** reset(): nothing is held; the characters stay in the array. */
    method Reset()
      modifies this`cur
      ensures Valid() && AsString() == []
    {
      cur := 0;
    }
  }

  class LogStream {
    const buffer: FixedBuffer

    ghost predicate Valid()
      reads this, buffer
    {
      buffer.Valid() && buffer.data.Length == kSmallBuffer
    }

    constructor ()
      ensures Valid() && fresh(buffer) && fresh(buffer.data)
      ensures buffer.AsString() == []
    {
      buffer := new FixedBuffer(kSmallBuffer);
    }

    /** operator<<(bool): "1" or "0". */
    method WriteBool(v: bool)
      requires Valid()
      modifies buffer`cur, buffer.data
      ensures Valid()
      ensures old(buffer.Avail()) > 1 ==> buffer.AsString() == old(buffer.AsString()) + (if v then "1" else "0")
      ensures old(buffer.Avail()) <= 1 ==> buffer.cur == old(buffer.cur) && unchanged(buffer.data)
    {
      buffer.Append(if v then "1" else "0");
    }

    /** operator<<(char): the one character. */
    method WriteChar(c: char)
      requires Valid()
      modifies buffer`cur, buffer.data
      ensures Valid()
      ensures old(buffer.Avail()) > 1 ==> buffer.AsString() == old(buffer.AsString()) + [c]
      ensures old(buffer.Avail()) <= 1 ==> buffer.cur == old(buffer.cur) && unchanged(buffer.data)
    {
      buffer.Append([c]);
    }

    /** operator<<(const char*): the characters before the terminating NUL. */
    method WriteCString(v: string)
      requires Valid() && '\0' in v
      modifies buffer`cur, buffer.data
      ensures Valid()
      ensures old(buffer.Avail()) > CStrLen(v) ==> buffer.AsString() == old(buffer.AsString()) + v[..CStrLen(v)]
      ensures old(buffer.Avail()) <= CStrLen(v) ==> buffer.cur == old(buffer.cur) && unchanged(buffer.data)
    {
      buffer.Append(v[..CStrLen(v)]);
    }

    /** operator<<(const string&) and operator<<(const StringPiece&): all of v. */
    method WriteString(v: string)
      requires Valid()
      modifies buffer`cur, buffer.data
      ensures Valid()
      ensures old(buffer.Avail()) > |v| ==> buffer.AsString() == old(buffer.AsString()) + v
      ensures old(buffer.Avail()) <= |v| ==> buffer.cur == old(buffer.cur) && unchanged(buffer.data)
    {
      buffer.Append(v);
    }

    /** formatInteger(v): the decimal rendering, only when 32 characters are free. */
    method FormatInteger(v: int)
      requires Valid() && Fits64(v)
      modifies buffer`cur, buffer.data
      ensures Valid()
      ensures old(buffer.Avail()) >= kMaxNumericSize ==> buffer.AsString() == old(buffer.AsString()) + DecimalString(v)
      ensures old(buffer.Avail()) < kMaxNumericSize ==> buffer.cur == old(buffer.cur) && unchanged(buffer.data)
    {
      if buffer.Avail() >= kMaxNumericSize {
        var len := Convert(buffer.data, buffer.cur, v);
        assert buffer.data[..buffer.cur] == old(buffer.AsString());
        buffer.Add(len);
      }
    }

    /** The integer operator<< overloads: short and unsigned short go through int and unsigned int. */
    method WriteInteger(kind: IntKind, v: int)
      requires Valid() && InRange(kind, v)
      modifies buffer`cur, buffer.data
      ensures Valid()
      ensures old(buffer.Avail()) >= kMaxNumericSize ==> buffer.AsString() == old(buffer.AsString()) + DecimalString(v)
      ensures old(buffer.Avail()) < kMaxNumericSize ==> buffer.cur == old(buffer.cur) && unchanged(buffer.data)
    {
      WidenKeepsValue(kind, v);
      KindsFit64(Widen(kind), v);
      FormatInteger(v);
    }

    /** operator<<(const void*): "0x" and the address in hex, only when 32 characters are free. */
    method WritePointer(p: nat)
      requires Valid() && Fits64(p)
      modifies buffer`cur, buffer.data
      ensures Valid()
      ensures old(buffer.Avail()) >= kMaxNumericSize ==> buffer.AsString() == old(buffer.AsString()) + "0x" + Digits(p, 16)
      ensures old(buffer.Avail()) < kMaxNumericSize ==> buffer.cur == old(buffer.cur) && unchanged(buffer.data)
    {
      if buffer.Avail() >= kMaxNumericSize {
        var len := FormatPointer(buffer.data, buffer.cur, p);
        assert buffer.data[..buffer.cur] == old(buffer.AsString());
        buffer.Add(len);
      }
    }

    /** append(data, len): the first len characters. */
    method Append(data: seq<char>, len: int)
      requires Valid() && 0 <= len <= |data|
      modifies buffer`cur, buffer.data
      ensures Valid()
      ensures old(buffer.Avail()) > len ==> buffer.AsString() == old(buffer.AsString()) + data[..len]
      ensures old(buffer.Avail()) <= len ==> buffer.cur == old(buffer.cur) && unchanged(buffer.data)
    {
      buffer.Append(data[..len]);
    }

    method ResetBuffer()
      requires Valid()
      modifies buffer`cur
      ensures Valid() && buffer.AsString() == []
    {
      buffer.Reset();
    }
  }
}
