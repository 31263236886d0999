// Textual renderings of integers shared by the logging code, the channel
// debug strings and the connection names: the digits of a number in base 10
// or 16, most significant first, with no leading zeros.
module Text {

  /** The digit character for 0 <= d < 16; hexadecimal digits are upper case. */
  function DigitChar(d: nat): (c: char)
    requires d < 16
    ensures d < 10 ==> c == '0' + d as char
    ensures 10 <= d ==> c == 'A' + (d - 10) as char
  {
    "0123456789ABCDEF"[d]
  }

  /** The value of a digit character, the inverse of DigitChar. */
  function DigitValue(c: char): (d: int)
    ensures 0 <= d < 16 ==> DigitChar(d) == c
  {
    if '0' <= c <= '9' then (c - '0') as int
    else if 'A' <= c <= 'F' then (c - 'A') as int + 10
    else -1
  }

  predicate IsBase(base: nat)
  {
    base == 10 || base == 16
  }

  /** The digits of n in the given base, most significant first; "0" for zero. */
  function Digits(n: nat, base: nat): (s: string)
    requires IsBase(base)
    ensures |s| >= 1 && 0 <= DigitValue(s[0]) < base
    decreases n
  {
    if n < base then [DigitChar(n)] else Digits(n / base, base) + [DigitChar(n % base)]
  }

  /** The number a digit string denotes, read most significant first. */
  function DigitsValue(s: string, base: nat): int
    requires IsBase(base)
  {
    if s == [] then 0 else DigitsValue(s[..|s| - 1], base) * base + DigitValue(s[|s| - 1])
  }

  lemma DigitInverse(d: nat)
    requires d < 16
    ensures DigitValue(DigitChar(d)) == d
  {
  }

  lemma DigitsValueSnoc(t: string, c: char, base: nat)
    requires IsBase(base)
    ensures DigitsValue(t + [c], base) == DigitsValue(t, base) * base + DigitValue(c)
  {
    assert (t + [c])[..|t|] == t;
  }

  lemma {:induction false} DigitsRoundTrip(n: nat, base: nat)
    requires IsBase(base)
    ensures DigitsValue(Digits(n, base), base) == n
    decreases n
  {
    if n >= base {
      var q, r := n / base, n % base;
      DigitsRoundTrip(q, base);
      DigitsValueSnoc(Digits(q, base), DigitChar(r), base);
      DigitInverse(r);
      assert n == q * base + r;
    } else {
      DigitInverse(n);
      DigitsValueSnoc([], DigitChar(n), base);
    }
  }

  /** Only zero is written with a leading '0'. */
  lemma {:induction false} DigitsShape(n: nat, base: nat)
    requires IsBase(base)
    ensures Digits(n, base)[0] == '0' <==> n == 0
    decreases n
  {
    if n >= base {
      DigitsShape(n / base, base);
    }
  }

  function Pow(base: nat, k: nat): (r: nat)
    requires IsBase(base)
    ensures r >= 1
  {
    if k == 0 then 1 else base * Pow(base, k - 1)
  }

  /** A number below base^k has at most k digits. */
  lemma {:induction false} DigitsLength(n: nat, base: nat, k: nat)
    requires IsBase(base) && 1 <= k && n < Pow(base, k)
    ensures |Digits(n, base)| <= k
    decreases k
  {
    if n >= base {
      assert k > 1;
      assert n / base < Pow(base, k - 1);
      DigitsLength(n / base, base, k - 1);
    }
  }

  /** The decimal rendering of x, with a leading '-' for negative values. */
  function DecimalString(x: int): (s: string)
    ensures |s| >= 1
    ensures s[0] == '-' <==> x < 0
  {
    assert DigitValue('-') == -1;
    if x < 0 then "-" + Digits(-x, 10) else Digits(x, 10)
  }

  /** Reads back what DecimalString writes. */
  function ParseDecimal(s: string): int
  {
    if s != [] && s[0] == '-' then -DigitsValue(s[1..], 10) else DigitsValue(s, 10)
  }

  /** A concatenation splits back into its parts. */
  lemma SplitConcat(a: string, b: string)
    ensures (a + b)[..|a|] == a && (a + b)[|a|..] == b
  {
  }

  lemma ConcatAssoc(a: string, b: string, c: string)
    ensures a + (b + c) == (a + b) + c
  {
  }

  lemma DecimalRoundTrip(x: int)
    ensures ParseDecimal(DecimalString(x)) == x
  {
    if x < 0 {
      DigitsRoundTrip(-x, 10);
      assert DecimalString(x)[1..] == Digits(-x, 10);
    } else {
      DigitsRoundTrip(x, 10);
      DigitsShape(x, 10);
      assert DigitValue('-') == -1;
    }
  }

  /** Distinct integers are written differently. */
  lemma DecimalInjective(x: int, y: int)
    requires DecimalString(x) == DecimalString(y)
    ensures x == y
  {
    DecimalRoundTrip(x);
    DecimalRoundTrip(y);
  }
}
