// StringPiece: a non-owning (pointer, length) view of bytes, with the
// memcmp-based comparison operators.
module StringPieces {
  import opened Bytes

  /** memcmp(a, b, n): the sign of the first differing unsigned byte among
      the first n, or 0 when they agree. */
  function Memcmp(a: seq<byte>, b: seq<byte>, n: nat): (r: int)
    requires n <= |a| && n <= |b|
    decreases n
  {
    if n == 0 then 0
    else if a[0] != b[0] then a[0] - b[0]
    else Memcmp(a[1..], b[1..], n - 1)
  }

  lemma {:induction false} MemcmpZero(a: seq<byte>, b: seq<byte>, n: nat)
    requires n <= |a| && n <= |b|
    ensures Memcmp(a, b, n) == 0 <==> a[..n] == b[..n]
    decreases n
  {
    if n > 0 {
      MemcmpZero(a[1..], b[1..], n - 1);
      assert a[..n] == [a[0]] + a[1..][..n - 1];
      assert b[..n] == [b[0]] + b[1..][..n - 1];
    }
  }

  function Min(a: int, b: int): int { if a < b then a else b }

  /** Lexicographic order on byte strings, defined independently of memcmp:
      a proper prefix is smaller, otherwise the first differing byte decides. */
  function LexLess(a: seq<byte>, b: seq<byte>): bool
  {
    if a == [] then b != []
    else if b == [] then false
    else if a[0] != b[0] then a[0] < b[0]
    else LexLess(a[1..], b[1..])
  }

  /** operator== */
  function Equals(x: seq<byte>, y: seq<byte>): bool
  {
    |x| == |y| && Memcmp(x, y, |x|) == 0
  }

  /** operator!= */
  function NotEquals(x: seq<byte>, y: seq<byte>): bool
  {
    !Equals(x, y)
  }

  /** operator< (the STRINGPIECE_BINARY_PREDICATE(<, <) expansion) */
  function Less(x: seq<byte>, y: seq<byte>): bool
  {
    var r := Memcmp(x, y, Min(|x|, |y|));
    r < 0 || (r == 0 && |x| < |y|)
  }

  /** operator<= */
  function LessEq(x: seq<byte>, y: seq<byte>): bool
  {
    var r := Memcmp(x, y, Min(|x|, |y|));
    r < 0 || (r == 0 && |x| <= |y|)
  }

  /** operator>= */
  function GreaterEq(x: seq<byte>, y: seq<byte>): bool
  {
    var r := Memcmp(x, y, Min(|x|, |y|));
    r > 0 || (r == 0 && |x| >= |y|)
  }

  /** operator> */
  function Greater(x: seq<byte>, y: seq<byte>): bool
  {
    var r := Memcmp(x, y, Min(|x|, |y|));
    r > 0 || (r == 0 && |x| > |y|)
  }

  /** compare(): negative, zero or positive. */
  function Compare(x: seq<byte>, y: seq<byte>): int
  {
    var r := Memcmp(x, y, Min(|x|, |y|));
    if r == 0 then (if |x| < |y| then -1 else if |x| > |y| then 1 else 0) else r
  }

  /** starts_with() */
  function StartsWith(x: seq<byte>, prefix: seq<byte>): bool
  {
    |x| >= |prefix| && Memcmp(x, prefix, |prefix|) == 0
  }

  lemma {:induction false} MemcmpAntisymmetric(a: seq<byte>, b: seq<byte>, n: nat)
    requires n <= |a| && n <= |b|
    ensures Memcmp(b, a, n) == -Memcmp(a, b, n)
    decreases n
  {
    if n > 0 && a[0] == b[0] {
      MemcmpAntisymmetric(a[1..], b[1..], n - 1);
    }
  }

  /** Memcmp over the common length decides LexLess. */
  lemma {:induction false} MemcmpLex(a: seq<byte>, b: seq<byte>)
    ensures var r := Memcmp(a, b, Min(|a|, |b|));
      LexLess(a, b) <==> (r < 0 || (r == 0 && |a| < |b|))
    decreases |a|
  {
    if a != [] && b != [] && a[0] == b[0] {
      MemcmpLex(a[1..], b[1..]);
    }
  }

  lemma EqualsIsEquality(x: seq<byte>, y: seq<byte>)
    ensures Equals(x, y) <==> x == y
    ensures NotEquals(x, y) <==> x != y
  {
    if |x| == |y| {
      MemcmpZero(x, y, |x|);
      assert x[..|x|] == x && y[..|y|] == y;
    }
  }

  lemma LessIsLex(x: seq<byte>, y: seq<byte>)
    ensures Less(x, y) <==> LexLess(x, y)
  {
    MemcmpLex(x, y);
  }

  lemma GreaterIsReversedLess(x: seq<byte>, y: seq<byte>)
    ensures Greater(x, y) <==> LexLess(y, x)
  {
    MemcmpLex(y, x);
    MemcmpAntisymmetric(x, y, Min(|x|, |y|));
  }

  /** <= is < or ==; >= is > or ==. */
  lemma NonStrictOrders(x: seq<byte>, y: seq<byte>)
    ensures LessEq(x, y) <==> (LexLess(x, y) || x == y)
    ensures GreaterEq(x, y) <==> (LexLess(y, x) || x == y)
  {
    MemcmpLex(x, y);
    MemcmpLex(y, x);
    MemcmpAntisymmetric(x, y, Min(|x|, |y|));
    var n := Min(|x|, |y|);
    MemcmpZero(x, y, n);
    if |x| == |y| {
      assert x[..n] == x && y[..n] == y;
    }
  }

  /** compare() is negative exactly for <, zero exactly for ==, positive exactly for >. */
  lemma CompareSign(x: seq<byte>, y: seq<byte>)
    ensures Compare(x, y) < 0 <==> LexLess(x, y)
    ensures Compare(x, y) == 0 <==> x == y
    ensures Compare(x, y) > 0 <==> LexLess(y, x)
  {
    NonStrictOrders(x, y);
    LessIsLex(x, y);
    GreaterIsReversedLess(x, y);
  }

  lemma StartsWithIsPrefix(x: seq<byte>, prefix: seq<byte>)
    ensures StartsWith(x, prefix) <==> prefix <= x
  {
    if |x| >= |prefix| {
      MemcmpZero(x, prefix, |prefix|);
      assert prefix[..|prefix|] == prefix;
    }
  }

  /** strlen: the index of the first NUL byte. */
  function StrLen(s: seq<byte>): (n: nat)
    requires 0 in s
    ensures n < |s| && s[n] == 0 && 0 !in s[..n]
  {
    if s[0] == 0 then 0 else assert 0 in s[1..]; 1 + StrLen(s[1..])
  }

  /**
   * A view of `length` bytes starting at `ptr_`. `mem` stands for the
   * bytes addressable from `ptr_` onwards; a NULL pointer has none.
   */
  class StringPiece {
    var mem: seq<byte>
    var length: int

    ghost predicate Valid() reads this { 0 <= length <= |mem| }

    /** The viewed bytes, [ptr_, ptr_ + length_). */
    function View(): (v: seq<byte>)
      reads this
      requires Valid()
      ensures |v| == length
    {
      mem[..length]
    }

    /** StringPiece(): NULL, 0. */
    constructor ()
      ensures Valid() && mem == [] && length == 0 && View() == []
    {
      mem := [];
      length := 0;
    }

    /** StringPiece(const char*): the bytes up to the terminating NUL. */
    constructor FromCString(str: seq<byte>)
      requires 0 in str
      ensures Valid() && mem == str && length == StrLen(str)
      ensures 0 !in View() && View() + [0] <= str
    {
      mem := str;
      length := StrLen(str);
    }

    /** StringPiece(const string&): the whole string. */
    constructor FromString(str: seq<byte>)
      ensures Valid() && View() == str
    {
      mem := str;
      length := |str|;
    }

    /** StringPiece(const char* offset, int len). */
    constructor FromRange(offset: seq<byte>, len: int)
      requires 0 <= len <= |offset|
      ensures Valid() && mem == offset && View() == offset[..len]
    {
      mem := offset;
      length := len;
    }

    function Size(): (n: int)
      reads this
      requires Valid()
      ensures n == |View()|
    {
      length
    }

    function Empty(): (b: bool)
      reads this
      requires Valid()
      ensures b <==> View() == []
    {
      length == 0
    }

    /** operator[](i) */
    function At(i: int): (c: byte)
      reads this
      requires Valid() && 0 <= i < length
      ensures c == View()[i]
    {
      mem[i]
    }

    method Clear()
      modifies this
      ensures Valid() && mem == [] && View() == []
    {
      mem := [];
      length := 0;
    }

    /** set(const char* buffer, int len) */
    method Set(buffer: seq<byte>, len: int)
      requires 0 <= len <= |buffer|
      modifies this
      ensures Valid() && mem == buffer && View() == buffer[..len]
    {
      mem := buffer;
      length := len;
    }

    /** set(const char* str) */
    method SetCString(str: seq<byte>)
      requires 0 in str
      modifies this
      ensures Valid() && mem == str && length == StrLen(str)
    {
      mem := str;
      length := StrLen(str);
    }

    method RemovePrefix(n: int)
      requires Valid() && 0 <= n <= length
      modifies this
      ensures Valid() && mem == old(mem[n..]) && length == old(length) - n
      ensures View() == old(View())[n..]
    {
      mem := mem[n..];
      length := length - n;
    }

    method RemoveSuffix(n: int)
      requires Valid() && 0 <= n <= length
      modifies this
      ensures Valid() && mem == old(mem) && length == old(length) - n
      ensures View() == old(View())[..old(length) - n]
    {
      length := length - n;
    }

    /** as_string(): a copy of the viewed bytes. */
    function AsString(): (s: seq<byte>)
      reads this
      requires Valid()
      ensures |s| == length && forall i :: 0 <= i < length ==> s[i] == mem[i]
    {
      mem[..length]
    }
  }
}
