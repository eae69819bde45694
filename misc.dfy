/** Misc.java: the helpers the engine and the console use.  Each Java method is a
    Dafny method with its loop, proved against a function that states what it
    computes. */
module Misc {
  import opened Outcomes
  import opened Text
  import opened Values
  import Bits

  /** The string whose byte pair k (two characters) is byte pair L-1-k of `s`,
      where L = |s| / 2; a trailing odd character is dropped. */
  function PairReversed(s: string): (r: string)
    ensures |r| == 2 * (|s| / 2)
  {
    var l := |s| / 2;
    seq(2 * l, k requires 0 <= k < 2 * l => s[2 * (l - 1 - k / 2) + k % 2])
  }

  /** Byte pair i of the input is byte pair L-1-i of the output. */
  lemma PairMoves(s: string, i: int)
    requires 0 <= i < |s| / 2
    ensures PairReversed(s)[2 * (|s| / 2 - 1 - i)] == s[2 * i]
    ensures PairReversed(s)[2 * (|s| / 2 - 1 - i) + 1] == s[2 * i + 1]
  {
    var l := |s| / 2;
    var j := l - 1 - i;
    Bits.DivMod(2 * j, 2, j, 0);
    Bits.DivMod(2 * j + 1, 2, j, 1);
  }

  /** Reversing the byte pairs twice gives back a string of even length. */
  lemma PairReversedInvolution(s: string)
    requires |s| % 2 == 0
    ensures PairReversed(PairReversed(s)) == s
  {
    var l := |s| / 2;
    var r := PairReversed(s);
    var rr := PairReversed(r);
    assert |rr| == |s|;
    forall k | 0 <= k < |s|
      ensures rr[k] == s[k]
    {
      var j := 2 * (l - 1 - k / 2) + k % 2;
      Bits.DivMod(j, 2, l - 1 - k / 2, k % 2);
      assert rr[k] == r[j];
      assert 2 * (l - 1 - j / 2) + j % 2 == k;
    }
  }

  /** Misc.reverseHex */
  method ReverseHex(originalHex: string) returns (r: string)
    ensures r == PairReversed(originalHex)
  {
    var lengthInBytes := |originalHex| / 2;
    var chars := new char[lengthInBytes * 2];
    var index := 0;
    while index < lengthInBytes
      invariant 0 <= index <= lengthInBytes
      invariant forall k :: 0 <= k < 2 * lengthInBytes && k / 2 >= lengthInBytes - index ==>
        chars[k] == originalHex[2 * (lengthInBytes - 1 - k / 2) + k % 2]
    {
      var reversedIndex := lengthInBytes - 1 - index;
      Bits.DivMod(reversedIndex * 2, 2, reversedIndex, 0);
      Bits.DivMod(reversedIndex * 2 + 1, 2, reversedIndex, 1);
      chars[reversedIndex * 2] := originalHex[index * 2];
      chars[reversedIndex * 2 + 1] := originalHex[index * 2 + 1];
      index := index + 1;
    }
    r := chars[..];
  }

  /** The Fibonacci numbers: F(0) = 0, F(1) = 1, F(n) = F(n-1) + F(n-2). */
  function Fib(n: nat): nat
  {
    if n < 2 then n else Fib(n - 1) + Fib(n - 2)
  }

  /** Misc.iterativeFibonacci: the result is COMPLEX with imaginary part 0; the
      additions of MyComplex.add are on whole numbers here, so they are exact. */
  method IterativeFibonacci(number: int) returns (r: Result<Value>)
    ensures number < 0 ==> r == Err(NegativeInput)
    ensures number >= 0 ==> r == Ok(Complex(Fib(number) as real, 0.0))
  {
    if number < 0 {
      return Err(NegativeInput);
    }
    if number == 0 || number == 1 {
      return Ok(Complex(number as real, 0.0));
    }
    var first := 0;
    var second := 1;
    var third := first + second;
    var i := 3;
    while i <= number
      invariant 3 <= i <= number + 1
      invariant first == Fib(i - 3) && second == Fib(i - 2) && third == Fib(i - 1)
    {
      first := second;
      second := third;
      third := first + second;
      i := i + 1;
    }
    return Ok(Complex(third as real, 0.0));
  }

  /** The string after k rounds of String.replace. */
  ghost function Iterate(s: string, a: string, b: string, k: nat): string
    decreases k
  {
    if k == 0 then s else Iterate(Replace(s, a, b), a, b, k - 1)
  }

  ghost predicate IsFixpoint(s: string, a: string, b: string)
  {
    Replace(s, a, b) == s
  }

  /** Misc.realReplaceAll: String.replace repeated until nothing changes.  The Java
      loop runs forever when no round is a fixpoint; `k` is a number of rounds
      after which one is. */
  function RealReplaceAll(s: string, a: string, b: string, ghost k: nat): (r: string)
    requires IsFixpoint(Iterate(s, a, b, k), a, b)
    ensures IsFixpoint(r, a, b)
    ensures a != [] && a != b ==> !Occurs(r, a)
    decreases k
  {
    var n := Replace(s, a, b);
    if n == s then
      if a != [] && a != b then FixpointHasNoTarget(s, a, b); s else s
    else RealReplaceAll(n, a, b, k - 1)
  }

  /** Once a round is a fixpoint, every later round gives the same string. */
  lemma {:induction false} IterateStable(s: string, a: string, b: string, j: nat, m: nat)
    requires j <= m && IsFixpoint(Iterate(s, a, b, j), a, b)
    ensures Iterate(s, a, b, m) == Iterate(s, a, b, j)
    decreases j
  {
    if j == 0 {
      FixpointIterate(s, a, b, m);
    } else {
      IterateStable(Replace(s, a, b), a, b, j - 1, m - 1);
    }
  }

  lemma {:induction false} FixpointIterate(s: string, a: string, b: string, m: nat)
    requires IsFixpoint(s, a, b)
    ensures Iterate(s, a, b, m) == s
    decreases m
  {
    if m > 0 {
      FixpointIterate(s, a, b, m - 1);
    }
  }

  /** realReplaceAll returns the first fixpoint, whichever bound proves it exists. */
  lemma {:induction false} RealReplaceAllIgnoresBound(s: string, a: string, b: string, k1: nat, k2: nat)
    requires IsFixpoint(Iterate(s, a, b, k1), a, b) && IsFixpoint(Iterate(s, a, b, k2), a, b)
    ensures RealReplaceAll(s, a, b, k1) == RealReplaceAll(s, a, b, k2)
    decreases k1
  {
    if Replace(s, a, b) != s {
      RealReplaceAllIgnoresBound(Replace(s, a, b), a, b, k1 - 1, k2 - 1);
    }
  }

  /** The loop of Misc.realReplaceAll. */
  method RealReplaceAllLoop(s: string, a: string, b: string, ghost k: nat) returns (r: string)
    requires IsFixpoint(Iterate(s, a, b, k), a, b)
    ensures r == RealReplaceAll(s, a, b, k)
  {
    r := s;
    ghost var left := k;
    while true
      invariant IsFixpoint(Iterate(r, a, b, left), a, b)
      invariant RealReplaceAll(r, a, b, left) == RealReplaceAll(s, a, b, k)
      decreases left
    {
      var n := Replace(r, a, b);
      if n == r {
        return n;
      }
      r := n;
      left := left - 1;
    }
  }

  /** The coefficients of the antiderivative with constant 0 of the polynomial with
      coefficients `c` (lowest degree first). */
  function Antiderivative(c: seq<real>): (out: seq<real>)
    ensures |out| == |c| + 1 && out[0] == 0.0
  {
    [0.0] + seq(|c|, s requires 0 <= s < |c| => c[s] / (s + 1) as real)
  }

  /** The coefficients of the derivative of a polynomial. */
  function Derivative(c: seq<real>): (d: seq<real>)
    ensures |c| > 0 ==> |d| == |c| - 1
  {
    if c == [] then [] else seq(|c| - 1, s requires 0 <= s < |c| - 1 => (s + 1) as real * c[s + 1])
  }

  /** The derivative of the antiderivative is the polynomial itself. */
  lemma DeriveAntiderivative(c: seq<real>)
    ensures Derivative(Antiderivative(c)) == c
  {
    var a := Antiderivative(c);
    var d := Derivative(a);
    forall s | 0 <= s < |c|
      ensures d[s] == c[s]
    {
      assert a[s + 1] == c[s] / (s + 1) as real;
    }
  }

  /** Misc.antiDerive, up to the PolynomialFunction it builds from its array. */
  method AntiDerive(input: seq<real>) returns (out: array<real>)
    ensures fresh(out) && out[..] == Antiderivative(input)
  {
    out := new real[|input| + 1];
    out[0] := 0.0;
    var s := 1;
    while s < out.Length
      invariant 1 <= s <= out.Length
      invariant out[0] == 0.0
      invariant forall j :: 1 <= j < s ==> out[j] == input[j - 1] / j as real
    {
      out[s] := input[s - 1] / s as real;
      s := s + 1;
    }
  }
}
