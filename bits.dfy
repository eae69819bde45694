/** The BigInteger arithmetic behind the `!` and `~` operators: the factorial
    product and the bit flips of BigInteger.flipBit, on Java's infinite
    two's-complement view of integers (bit s of x is floor(x / 2^s) mod 2). */
module Bits {
  import opened Values

  /** n! for n >= 1, and 1 for every n <= 0 (the loop does not run). */
  function Factorial(n: int): (f: nat)
    ensures f >= 1
    decreases if n < 0 then 0 else n
  {
    if n <= 0 then 1 else n * Factorial(n - 1)
  }

  /** Every k in 1..n divides n!. */
  lemma {:induction false} FactorialDivisible(n: int, k: int)
    requires 1 <= k <= n
    ensures Factorial(n) % k == 0
    decreases n
  {
    if k == n {
      assert Factorial(n) == k * Factorial(n - 1);
      MulMod(Factorial(n - 1), k);
    } else {
      FactorialDivisible(n - 1, k);
      var f := Factorial(n - 1);
      var q := f / k;
      assert Factorial(n) == n * f;
      DivExact(f, k);
      Regroup(n, k, q);
      MulMod(n * q, k);
    }
  }

  lemma DivExact(x: int, k: int)
    requires k >= 1 && x % k == 0
    ensures x == k * (x / k)
  {
  }

  lemma Regroup(n: int, k: int, q: int)
    ensures n * (k * q) == k * (n * q)
  {
  }

  lemma MulMod(q: int, k: int)
    requires k >= 1
    ensures (k * q) % k == 0
  {
    DivMod(k * q, k, q, 0);
  }

  /** Division with remainder is unique. */
  lemma DivMod(x: int, p: int, q: int, r: int)
    requires p > 0 && 0 <= r < p && x == p * q + r
    ensures x / p == q && x % p == r
  {
    var q' := x / p;
    var r' := x % p;
    assert x == p * q' + r';
    var d := q - q';
    assert p * d == r' - r by {
      assert p * q - p * q' == p * d;
    }
    if d > 0 {
      MulAtLeast(p, d);
    }
  }

  lemma MulAtLeast(p: int, d: int)
    requires p > 0 && d >= 1
    ensures p * d >= p
  {
    var e := d - 1;
    assert p * d == p + p * e;
  }

  /** Bit s of x. */
  function Bit(x: int, s: nat): (b: int)
    ensures b == 0 || b == 1
  {
    (x / Pow2(s)) % 2
  }

  /** BigInteger.flipBit(s) */
  function FlipBit(x: int, s: nat): int
  {
    if Bit(x, s) == 1 then x - Pow2(s) else x + Pow2(s)
  }

  /** BigInteger.bitLength(): the number of bits below the sign, 0 for 0 and -1.
      It is the least such count: bit c-1 is the highest one that differs from the
      sign. */
  function BitLength(n: int): (c: nat)
    ensures c > 0 && n >= 0 ==> Pow2(c - 1) <= n
    ensures c > 0 && n < 0 ==> n < -(Pow2(c - 1) as int)
    decreases if n >= 0 then n else -n
  {
    if n == 0 || n == -1 then 0 else 1 + BitLength(n / 2)
  }

  /** A value with bit length c lies in [0, 2^c) or in [-2^c, 0). */
  lemma {:induction false} BitLengthRange(n: int)
    ensures n >= 0 ==> n < Pow2(BitLength(n))
    ensures n < 0 ==> -(Pow2(BitLength(n)) as int) <= n
    decreases if n >= 0 then n else -n
  {
    if n != 0 && n != -1 {
      BitLengthRange(n / 2);
    }
  }

  /** The value after flipping bits 0..k-1 of n one at a time, as the loop of `~`
      does. */
  function FlipLow(n: int, k: nat): int
  {
    if k == 0 then n else FlipBit(FlipLow(n, k - 1), k - 1)
  }

  /** Flipping the k low bits replaces the low part n mod 2^k by its complement
      2^k - 1 - (n mod 2^k) and keeps the rest. */
  lemma {:induction false} FlipLowValue(n: int, k: nat)
    ensures FlipLow(n, k) == n - 2 * (n % Pow2(k)) + Pow2(k) - 1
  {
    if k > 0 {
      FlipLowValue(n, k - 1);
      var p := Pow2(k - 1);
      var m := n % p;
      var x := FlipLow(n, k - 1);
      HighPartKept(n, p);
      ModDouble(n, p);
      assert Bit(x, k - 1) == (n / p) % 2;
    }
  }

  /** With the low part below p replaced by its complement, the part above p is
      unchanged. */
  lemma HighPartKept(n: int, p: int)
    requires p > 0
    ensures (n - 2 * (n % p) + p - 1) / p == n / p
  {
    var m := n % p;
    assert n - 2 * m + p - 1 == p * (n / p) + (p - 1 - m);
    DivMod(n - 2 * m + p - 1, p, n / p, p - 1 - m);
  }

  /** The remainder modulo 2p adds bit log2(p) to the remainder modulo p. */
  lemma ModDouble(n: int, p: int)
    requires p > 0
    ensures n % (2 * p) == n % p + p * ((n / p) % 2)
  {
    var q := n / p;
    var b := q % 2;
    assert q == 2 * (q / 2) + b;
    assert p * q == (2 * p) * (q / 2) + p * b;
    assert n == (2 * p) * (q / 2) + (p * b + n % p);
    DivMod(n, 2 * p, q / 2, p * b + n % p);
  }

  /** The body of `~` on n: 1 when n has no bits below its sign (0 and -1),
      otherwise n with its bitLength low bits flipped. */
  function Complement(n: int): (r: int)
    ensures n >= 0 ==> r >= 0
    ensures n < -1 ==> r < 0
  {
    var c := BitLength(n);
    if c == 0 then 1
    else
      BitLengthRange(n);
      FlipLowValue(n, c);
      if n >= 0 then DivMod(n, Pow2(c), 0, n); FlipLow(n, c)
      else DivMod(n, Pow2(c), -1, n + Pow2(c)); FlipLow(n, c)
  }

  /** On a natural number with c significant bits, `~` gives its c-bit one's
      complement, again a number of at most c bits. */
  lemma ComplementOfNatural(n: int)
    requires n > 0
    ensures Complement(n) == Pow2(BitLength(n)) - 1 - n
    ensures 0 <= Complement(n) < Pow2(BitLength(n))
  {
    var c := BitLength(n);
    BitLengthRange(n);
    FlipLowValue(n, c);
    DivMod(n, Pow2(c), 0, n);
  }

  /** On a negative number below -1, `~` gives -n - 1 - 2^c. */
  lemma ComplementOfNegative(n: int)
    requires n < -1
    ensures Complement(n) == -n - 1 - Pow2(BitLength(n))
  {
    var c := BitLength(n);
    BitLengthRange(n);
    FlipLowValue(n, c);
    DivMod(n, Pow2(c), -1, n + Pow2(c));
  }

  /** BigInteger.intValue(): the low 32 bits of n read as a two's complement int. */
  function IntValue(n: int): (r: int)
    ensures -0x8000_0000 <= r < 0x8000_0000
    ensures (n - r) % 0x1_0000_0000 == 0
    ensures -0x8000_0000 <= n < 0x8000_0000 ==> r == n
  {
    var low := n % 0x1_0000_0000;
    if low >= 0x8000_0000 then low - 0x1_0000_0000 else low
  }
}
