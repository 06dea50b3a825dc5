/**
 * Java's 64-bit `long` and the few operations on it that the order path uses:
 * two's-complement wrap-around, `<<`, `>>`, `|`, `&`, `Long.intValue()` and
 * `Long.toString()`. Values are Dafny integers restricted to the long range;
 * the bitwise operators are defined arithmetically on the unsigned 64-bit
 * pattern, so no bit-vector/integer conversion is needed in the proofs.
 */
module JavaLong {

  const MIN_LONG: int := -0x8000_0000_0000_0000
  const MAX_LONG: int := 0x7FFF_FFFF_FFFF_FFFF
  const TWO_64: int := 0x1_0000_0000_0000_0000
  const TWO_32: int := 0x1_0000_0000

  /** A value of Java type `long`. */
  type Long = x: int | MIN_LONG <= x <= MAX_LONG

  /** The `long` that arithmetic result `x` becomes after 64-bit wrap-around. */
  function Wrap(x: int): (r: Long)
    ensures (r - x) % TWO_64 == 0
    ensures MIN_LONG <= x <= MAX_LONG ==> r == x
  {
    (x - MIN_LONG) % TWO_64 + MIN_LONG
  }

  /** The unsigned reading of a long's 64-bit pattern. */
  function Unsigned(x: Long): (u: nat)
    ensures u < TWO_64
    ensures Wrap(u) == x
    ensures x >= 0 ==> u == x
  {
    if x < 0 then x + TWO_64 else x
  }

  function Pow2(k: nat): (r: nat)
    ensures r > 0
  {
    if k == 0 then 1 else 2 * Pow2(k - 1)
  }

  lemma {:induction false} Pow2Add(a: nat, b: nat)
    ensures Pow2(a + b) == Pow2(a) * Pow2(b)
  {
    if a > 0 {
      Pow2Add(a - 1, b);
    }
  }

  lemma Pow2Of32()
    ensures Pow2(32) == TWO_32
  {
    assert Pow2(8) == 256;
    Pow2Add(8, 8);
    Pow2Add(16, 16);
  }

  /** Bitwise OR of two non-negative bit patterns. */
  function BitOr(a: nat, b: nat): (r: nat)
    ensures a <= r && b <= r && r <= a + b
    decreases a + b
  {
    if a == 0 then b
    else if b == 0 then a
    else 2 * BitOr(a / 2, b / 2) + (if a % 2 == 1 || b % 2 == 1 then 1 else 0)
  }

  /** Bitwise AND of two non-negative bit patterns. */
  function BitAnd(a: nat, b: nat): (r: nat)
    ensures r <= a && r <= b
    decreases a + b
  {
    if a == 0 || b == 0 then 0
    else 2 * BitAnd(a / 2, b / 2) + (if a % 2 == 1 && b % 2 == 1 then 1 else 0)
  }

  /** Java `a | b` on longs. */
  function Or(a: Long, b: Long): (r: Long)
    ensures 0 <= a && 0 <= b && a + b <= MAX_LONG ==> a <= r <= a + b
  {
    Wrap(BitOr(Unsigned(a), Unsigned(b)))
  }

  /** Java `a & b` on longs. */
  function And(a: Long, b: Long): (r: Long)
    ensures 0 <= b ==> 0 <= r <= b
  {
    Wrap(BitAnd(Unsigned(a), Unsigned(b)))
  }

  /** Java `x << n` on a long: the shift distance is taken modulo 64 and the result wraps. */
  function ShiftLeft(x: Long, n: int): (r: Long)
    ensures (r - x * Pow2(n % 64)) % TWO_64 == 0
    ensures MIN_LONG <= x * Pow2(n % 64) <= MAX_LONG ==> r == x * Pow2(n % 64)
  {
    Wrap(x * Pow2(n % 64))
  }

  /**
   * Java `x >> n` on a long: an arithmetic shift, which rounds towards
   * negative infinity like Dafny's division by a positive divisor.
   */
  function ShiftRight(x: Long, n: int): (r: int)
    ensures Pow2(n % 64) * r <= x < Pow2(n % 64) * r + Pow2(n % 64)
  {
    x / Pow2(n % 64)
  }

  /**
   * OR-ing a value below 2^k into a pattern whose low k bits are clear is
   * addition: the two operands share no set bit.
   */
  lemma {:induction false} OrDisjoint(k: nat, m: nat, b: nat)
    requires b < Pow2(k)
    ensures BitOr(m * Pow2(k), b) == m * Pow2(k) + b
  {
    if k > 0 && m > 0 && b > 0 {
      var half := Pow2(k - 1);
      Halve(m, half, 0);
      assert m * Pow2(k) / 2 == m * half && m * Pow2(k) % 2 == 0;
      OrDisjoint(k - 1, m, b / 2);
    }
  }

  /**
   * Masking with 2^k - 1 recovers the low part of a pattern built as
   * m * 2^k + b with b below 2^k.
   */
  lemma {:induction false} AndLowMask(k: nat, m: nat, b: nat)
    requires b < Pow2(k)
    ensures BitAnd(m * Pow2(k) + b, Pow2(k) - 1) == b
  {
    if k > 0 {
      var half := Pow2(k - 1);
      var x := m * Pow2(k) + b;
      Halve(m, half, b);
      assert x / 2 == m * half + b / 2 && x % 2 == b % 2;
      assert (Pow2(k) - 1) / 2 == half - 1 && (Pow2(k) - 1) % 2 == 1;
      AndLowMask(k - 1, m, b / 2);
    }
  }

  /** Halving m * 2h + b shifts both parts right by one bit. */
  lemma Halve(m: nat, h: nat, b: nat)
    requires b < 2 * h
    ensures (m * (2 * h) + b) / 2 == m * h + b / 2
    ensures (m * (2 * h) + b) % 2 == b % 2
  {
    assert m * (2 * h) == 2 * (m * h);
  }

  /** Java `Long.intValue()`: the low 32 bits read as a signed `int`. */
  function IntValue(x: Long): (r: int)
    ensures -0x8000_0000 <= r < 0x8000_0000
    ensures (r - x) % TWO_32 == 0
    ensures -0x8000_0000 <= x < 0x8000_0000 ==> r == x
  {
    (x + 0x8000_0000) % TWO_32 - 0x8000_0000
  }

  function Digit(d: nat): (c: char)
    requires d < 10
    ensures '0' <= c <= '9'
  {
    "0123456789"[d]
  }

  /** Decimal digits of a non-negative number, without leading zeros. */
  function NatString(n: nat): (s: string)
    ensures |s| >= 1
    ensures forall i :: 0 <= i < |s| ==> '0' <= s[i] <= '9'
  {
    if n < 10 then [Digit(n)] else NatString(n / 10) + [Digit(n % 10)]
  }

  /** Java `Long.toString(x)`. */
  function DecimalString(x: int): (s: string)
    ensures |s| >= 1
    ensures s[0] == '-' <==> x < 0
    ensures x >= 0 ==> '0' <= s[0] <= '9'
    ensures forall i :: 1 <= i < |s| ==> '0' <= s[i] <= '9'
  {
    if x < 0 then "-" + NatString(-x) else NatString(x)
  }

  lemma {:induction false} NatStringInjective(a: nat, b: nat)
    requires NatString(a) == NatString(b)
    ensures a == b
  {
    var s := NatString(a);
    if a < 10 && b < 10 {
      assert Digit(a) == Digit(b);
    } else if a < 10 || b < 10 {
      // the longer string has at least two digits: impossible
    } else {
      assert s[..|s| - 1] == NatString(a / 10) && s[|s| - 1] == Digit(a % 10);
      assert s[..|s| - 1] == NatString(b / 10) && s[|s| - 1] == Digit(b % 10);
      NatStringInjective(a / 10, b / 10);
    }
  }

  /** Distinct numbers print differently, so strings built from them name different things. */
  lemma DecimalStringInjective(a: int, b: int)
    requires DecimalString(a) == DecimalString(b)
    ensures a == b
  {
    if a < 0 {
      assert NatString(-a) == DecimalString(a)[1..];
      assert NatString(-b) == DecimalString(b)[1..];
      NatStringInjective(-a, -b);
    } else {
      NatStringInjective(a, b);
    }
  }
}
