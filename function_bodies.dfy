/** The bodies of the functions the Expression constructor registers, applied to
    the list of evaluated parameters.  IF, SEQ, MAX, MIN, ARR, FIB and the
    functions that only read or rebuild a value are modelled, and so are HMEAN and
    the digit-swapping NSWP and BSWP; the bodies that call into a library
    (trigonometry, the other statistics, random numbers, primes, polynomials, `H`)
    are the `library` field of `Arith`. */
module FunctionBodies {
  import opened Outcomes
  import opened Values
  import OperatorBodies
  import Misc
  import Text
  import Literals
  import Bits

  /** What MAX and MIN compare: the absolute value when the first parameter is
      COMPLEX, otherwise the real part. */
  function Key(arith: Arith, v: Value, complex: bool): real
  {
    if complex then arith.abs(Re(v), Im(v)) else Re(v)
  }

  /** The loop of MAX (`greater`) or MIN over the parameters `ps`: `save` is
      replaced by every parameter whose key is strictly beyond its own. */
  function Select(arith: Arith, ps: seq<Value>, save: Value, complex: bool, greater: bool): (r: Value)
    ensures r == save || r in ps
    ensures greater ==> Key(arith, save, complex) <= Key(arith, r, complex)
    ensures greater ==> forall i :: 0 <= i < |ps| ==> Key(arith, ps[i], complex) <= Key(arith, r, complex)
    ensures !greater ==> Key(arith, r, complex) <= Key(arith, save, complex)
    ensures !greater ==> forall i :: 0 <= i < |ps| ==> Key(arith, r, complex) <= Key(arith, ps[i], complex)
    decreases |ps|
  {
    if ps == [] then save
    else
      var p := ps[0];
      var beyond := if greater then Key(arith, p, complex) > Key(arith, save, complex)
                    else Key(arith, p, complex) < Key(arith, save, complex);
      Select(arith, ps[1..], if beyond then p else save, complex, greater)
  }

  /** The for loop of MAX and MIN. */
  method SelectLoop(arith: Arith, ps: seq<Value>, init: Value, complex: bool, greater: bool)
    returns (save: Value)
    ensures save == Select(arith, ps, init, complex, greater)
  {
    save := init;
    var i := 0;
    while i < |ps|
      invariant 0 <= i <= |ps|
      invariant Select(arith, ps[i..], save, complex, greater) == Select(arith, ps, init, complex, greater)
    {
      var p := ps[i];
      assert ps[i..][1..] == ps[i + 1..];
      if greater && Key(arith, p, complex) > Key(arith, save, complex) {
        save := p;
      } else if !greater && Key(arith, p, complex) < Key(arith, save, complex) {
        save := p;
      }
      i := i + 1;
    }
  }

  /** The type MAX and MIN give their result. */
  function ResultTag(args: seq<Value>): NumType
    requires args != []
  {
    if TypeOf(args[0]) == COMPLEX then COMPLEX else REAL
  }

  /** MAX as the source writes it: the search starts from Double.MIN_VALUE. */
  function MaxAsWritten(arith: Arith, args: seq<Value>): (r: Result<Value>)
    ensures r.Err? <==> args == []
    ensures r.Ok? ==> r.value == Retag(Real(MinDouble), ResultTag(args))
                      || exists i :: 0 <= i < |args| && r.value == Retag(args[i], ResultTag(args))
    ensures r.Ok? ==> Key(arith, Real(MinDouble), ResultTag(args) == COMPLEX) <= Key(arith, r.value, ResultTag(args) == COMPLEX)
    ensures r.Ok? ==> forall i :: 0 <= i < |args| ==>
      Key(arith, args[i], ResultTag(args) == COMPLEX) <= Key(arith, r.value, ResultTag(args) == COMPLEX)
  {
    if args == [] then Err(RequiresParameter("MAX"))
    else
      var complex := TypeOf(args[0]) == COMPLEX;
      Ok(Retag(Select(arith, args, Real(MinDouble), complex, true), ResultTag(args)))
  }

  /** MAX as its description promises: the search starts from the first parameter,
      so the result is the (retyped) parameter with the biggest key. */
  function Max(arith: Arith, args: seq<Value>): (r: Result<Value>)
    ensures r.Err? <==> args == []
    ensures r.Ok? ==> exists i :: 0 <= i < |args| && r.value == Retag(args[i], ResultTag(args))
    ensures r.Ok? ==> forall i :: 0 <= i < |args| ==>
      Key(arith, args[i], ResultTag(args) == COMPLEX) <= Key(arith, r.value, ResultTag(args) == COMPLEX)
  {
    if args == [] then Err(RequiresParameter("MAX"))
    else
      var complex := TypeOf(args[0]) == COMPLEX;
      var s := Select(arith, args, args[0], complex, true);
      assert s in args;
      Ok(Retag(s, ResultTag(args)))
  }

  /** MAX(-1, -2) gives Double.MIN_VALUE, which is none of its parameters and is
      bigger than both; the corrected MAX gives -1. */
  lemma MaxOfNegatives(arith: Arith)
    ensures MaxAsWritten(arith, [Real(-1.0), Real(-2.0)]) == Ok(Real(MinDouble))
    ensures Max(arith, [Real(-1.0), Real(-2.0)]) == Ok(Real(-1.0))
  {
    var args := [Real(-1.0), Real(-2.0)];
    assert MinDouble > 0.0;
    assert args[1..][1..] == [];
    assert Select(arith, args, Real(MinDouble), false, true) == Real(MinDouble);
    assert Select(arith, args, args[0], false, true) == Real(-1.0);
  }

  /** MIN: the search starts from Double.MAX_VALUE; the error message names MAX. */
  function Min(arith: Arith, args: seq<Value>): (r: Result<Value>)
    ensures r.Err? <==> args == []
  {
    if args == [] then Err(RequiresParameter("MAX"))
    else
      var complex := TypeOf(args[0]) == COMPLEX;
      Ok(Retag(Select(arith, args, Real(MaxDouble), complex, false), ResultTag(args)))
  }

  /** On real parameters (none of them above Double.MAX_VALUE, as for every finite
      double) MIN gives a value whose real part is the smallest real part. */
  lemma MinIsLeast(arith: Arith, args: seq<Value>)
    requires args != [] && TypeOf(args[0]) != COMPLEX
    requires forall i :: 0 <= i < |args| ==> Re(args[i]) <= MaxDouble
    ensures Min(arith, args).Ok?
    ensures forall i :: 0 <= i < |args| ==> Re(Min(arith, args).value) <= Re(args[i])
    ensures exists i :: 0 <= i < |args| && Re(Min(arith, args).value) == Re(args[i])
  {
    var s := Select(arith, args, Real(MaxDouble), false, false);
    if s == Real(MaxDouble) {
      assert Re(s) <= Re(args[0]);
    } else {
      var i :| 0 <= i < |args| && args[i] == s;
    }
  }

  /** SEQ's elements: `count` reals from `start` in steps of `step`. */
  function Sequence(start: real, step: real, count: int): (r: seq<Value>)
    ensures |r| == if count < 0 then 0 else count
    ensures forall k :: 0 <= k < |r| ==> r[k] == Real(start + (k as real) * step)
  {
    if count <= 0 then []
    else Sequence(start, step, count - 1) + [Real(start + ((count - 1) as real) * step)]
  }

  /** The loop of SEQ; doubles are exact reals here, so `start += step` adds no
      rounding. */
  method SequenceLoop(first: real, step: real, count: int) returns (arr: seq<Value>)
    ensures arr == Sequence(first, step, count)
  {
    var start := first;
    arr := [];
    var s := 0;
    while s < count
      invariant 0 <= s && (count >= 0 ==> s <= count) && (count < 0 ==> s == 0)
      invariant start == first + s as real * step
      invariant arr == Sequence(first, step, s)
    {
      assert Sequence(first, step, s + 1) == Sequence(first, step, s) + [Real(first + (s as real) * step)];
      arr := arr + [Real(start)];
      start := start + step;
      s := s + 1;
    }
  }

  /** IF: the third parameter when the first is 0, otherwise the second; a
      parameter that is not there is an IndexOutOfBounds. */
  function If(args: seq<Value>): (r: Result<Value>)
    ensures |args| >= 3 ==> r == Ok(if Re(args[0]) == 0.0 then args[2] else args[1])
  {
    if |args| < 1 then Err(IndexOutOfBounds)
    else if Re(args[0]) == 0.0 then (if |args| < 3 then Err(IndexOutOfBounds) else Ok(args[2]))
    else if |args| < 2 then Err(IndexOutOfBounds)
    else Ok(args[1])
  }

  /** FIB: Misc.iterativeFibonacci((int) p1.real). */
  function Fibonacci(v: Value): (r: Result<Value>)
    ensures ToInt(Re(v)) < 0 <==> r == Err(NegativeInput)
    ensures r.Ok? ==> r.value == Complex(Misc.Fib(ToInt(Re(v))) as real, 0.0)
  {
    var n := ToInt(Re(v));
    if n < 0 then Err(NegativeInput) else Ok(Complex(Misc.Fib(n) as real, 0.0))
  }

  /** The hexadecimal digits of a non-negative number in reverse order, read back
      in base 16. */
  function SwapNibbles(n: nat): nat
  {
    var u := Text.Reversed(Literals.RadixText(n, 16));
    ReversedDigits(Literals.RadixText(n, 16));
    Literals.DigitsValue(u, 16)
  }

  /** Reversing a canonical digit string keeps it a canonical digit string. */
  lemma ReversedDigits(t: string)
    requires Literals.AllDigits(t, 16) && Literals.Canonical(t, 16)
    ensures Literals.AllDigits(Text.Reversed(t), 16) && Literals.Canonical(Text.Reversed(t), 16)
  {
    var u := Text.Reversed(t);
    forall k | 0 <= k < |u|
      ensures Literals.DigitValue(u[k], 16).Some?
      ensures u[k] == Literals.DigitChar(Literals.DigitValue(u[k], 16).value, 16)
    {
      assert u[k] == t[|t| - 1 - k];
    }
  }

  /** NSWP: BigInteger.toString(16) of (long) p.real, reversed and read back with
      `new BigInteger(s, 16)`, as a COMPLEX value.  The minus sign of a negative
      number ends up last, where BigInteger refuses it. */
  function NibbleSwap(v: Value): (r: Result<Value>)
    ensures ToLong(Re(v)) < 0 <==> r.Err?
    ensures r.Err? ==> r.error.NumberFormat?
    ensures r.Ok? ==> r.value == Complex(SwapNibbles(ToLong(Re(v))) as real, 0.0)
  {
    var n := ToLong(Re(v));
    var t := Literals.RadixText(n, 16);
    var u := Text.Reversed(t);
    if n < 0 then
      Literals.MinusInsideRefused(u, 16, |u| - 1);
      Literals.ParseRadix(u, 16).PropagateFailure()
    else
      ReversedDigits(t);
      Literals.UnsignedDigits(u, 16);
      Literals.ParseUnsigned(u, 16);
      Ok(Complex(Literals.DigitsValue(u, 16) as real, 0.0))
  }

  /** Swapping the nibbles twice gives the number back when its last hexadecimal
      digit is not 0. */
  lemma SwapNibblesTwice(n: nat)
    requires n % 16 != 0
    ensures SwapNibbles(SwapNibbles(n)) == n
  {
    var t := Literals.RadixText(n, 16);
    var u := Text.Reversed(t);
    ReversedDigits(t);
    Literals.RadixTextEnds(n, 16);
    assert u[0] == Literals.DigitChar(n % 16, 16);
    assert Literals.DigitValue('0', 16) == Some(0);
    Literals.TextOfDigits(u, 16);
    assert Text.Reversed(u) == t;
    Literals.RadixDigits(n, 16);
  }

  /** A trailing hexadecimal 0 becomes a leading zero and is lost: 0x10 swaps to 1,
      as 1 does. */
  lemma SwapNibblesLosesTrailingZero()
    ensures SwapNibbles(0x10) == 1 && SwapNibbles(1) == 1
  {
    Literals.RadixTextSplit(0x10, 16);
    assert Literals.RadixText(0x10, 16) == "10";
    assert Text.Reversed("10") == "01";
    assert "01"[..1] == "0";
    assert Text.Reversed("1") == "1";
  }

  /** Hexadecimal digits trade places: 0x12 swaps to 0x21. */
  lemma SwapNibblesExample()
    ensures SwapNibbles(0x12) == 0x21
  {
    Literals.RadixTextSplit(0x12, 16);
    assert Literals.RadixText(0x12, 16) == "12";
    assert Text.Reversed("12") == "21";
    assert "21"[..1] == "2";
  }

  /** The padding loop of BSWP's text: zeros appended until the length is a multiple
      of 4. */
  function PadToWord(s: string): (r: string)
    ensures |r| % 4 == 0 && |s| <= |r| < |s| + 4
    ensures r[..|s|] == s && forall k :: |s| <= k < |r| ==> r[k] == '0'
  {
    s + seq((4 - |s| % 4) % 4, _ => '0')
  }

  /** `while (s.length() % 4 != 0) s = s + "0";` */
  method PadToWordLoop(s0: string) returns (s: string)
    ensures s == PadToWord(s0)
  {
    s := s0;
    while |s| % 4 != 0
      invariant |s0| <= |s| <= |PadToWord(s0)|
      invariant s == PadToWord(s0)[..|s|]
      decreases |PadToWord(s0)| - |s|
    {
      s := s + "0";
    }
  }

  /** A positive multiple of four is at least four, and it stays even with two
      more characters. */
  lemma WordLength(m: nat)
    requires m % 4 == 0 && m >= 1
    ensures m >= 4 && m % 2 == 0 && (m + 2) % 2 == 0
  {
    var words := m / 4;
    assert m == 4 * words;
    Bits.DivMod(m, 2, 2 * words, 0);
    Bits.DivMod(m + 2, 2, 2 * words + 1, 0);
  }

  /** The text BSWP reverses: the hexadecimal text of n padded with zeros to whole
      16-bit words, with two more zeros in front when intValue() is below 256. */
  function Widened(n: int): (w: string)
    ensures |w| % 2 == 0 && |w| >= 4
  {
    var padded := PadToWord(Literals.RadixText(n, 16));
    WordLength(|padded|);
    if Bits.IntValue(n) < 256 then "00" + padded else padded
  }

  /** The text BSWP hands to `new BigInteger(s, 16)`: Misc.reverseHex of Widened. */
  function ByteSwapText(n: int): (t: string)
  {
    Misc.PairReversed(Widened(n))
  }

  /** The padded hexadecimal text of a non-negative number is all digits. */
  lemma PaddedDigits(n: nat)
    ensures Literals.AllDigits(PadToWord(Literals.RadixText(n, 16)), 16)
  {
    var t := Literals.RadixText(n, 16);
    var p := PadToWord(t);
    assert Literals.DigitValue('0', 16).Some?;
    forall k | 0 <= k < |p| ensures Literals.DigitValue(p[k], 16).Some? {
      if k < |t| {
        assert p[k] == p[..|t|][k] == t[k];
      }
    }
  }

  /** reverseHex only moves characters, so digits stay digits. */
  lemma PairReversedDigits(w: string)
    requires Literals.AllDigits(w, 16)
    ensures Literals.AllDigits(Misc.PairReversed(w), 16)
  {
  }

  /** Widened text of a non-negative number is made of hexadecimal digits. */
  lemma WidenedDigits(n: nat)
    ensures Literals.AllDigits(Widened(n), 16) && Literals.AllDigits(ByteSwapText(n), 16)
    ensures ByteSwapText(n) != [] && ByteSwapText(n)[0] != '-' && ByteSwapText(n)[0] != '+'
  {
    PaddedDigits(n);
    assert Literals.DigitValue('0', 16).Some?;
    var w := Widened(n);
    assert Literals.AllDigits(w, 16);
    PairReversedDigits(w);
    Literals.UnsignedDigits(ByteSwapText(n), 16);
  }

  /** The number BSWP computes for a non-negative n. */
  function SwapBytes(n: nat): nat
  {
    WidenedDigits(n);
    Literals.DigitsValue(ByteSwapText(n), 16)
  }

  /** The minus sign of a negative number moves off the front with its byte pair,
      and BigInteger refuses it there. */
  lemma ByteSwapNegative(n: int)
    requires n < 0
    ensures Literals.ParseRadix(ByteSwapText(n), 16).Err?
  {
    var t := Literals.RadixText(n, 16);
    var p := PadToWord(t);
    assert p[0] == p[..|t|][0] == t[0] == '-';
    var w := Widened(n);
    var i := if Bits.IntValue(n) < 256 then 1 else 0;
    assert w[2 * i] == '-';
    Misc.PairMoves(w, i);
    Literals.MinusInsideRefused(ByteSwapText(n), 16, 2 * (|w| / 2 - 1 - i));
  }

  /** BSWP: (long) p.real as Widened text, byte pairs reversed, read back in base 16
      as a COMPLEX value; a negative number is a NumberFormatException. */
  function ByteSwap(v: Value): (r: Result<Value>)
    ensures ToLong(Re(v)) < 0 <==> r.Err?
    ensures r.Err? ==> r.error.NumberFormat?
    ensures r.Ok? ==> r.value == Complex(SwapBytes(ToLong(Re(v))) as real, 0.0)
  {
    var n := ToLong(Re(v));
    if n < 0 then
      ByteSwapNegative(n);
      Literals.ParseRadix(ByteSwapText(n), 16).PropagateFailure()
    else
      WidenedDigits(n);
      Literals.ParseUnsigned(ByteSwapText(n), 16);
      Ok(Complex(Literals.DigitsValue(ByteSwapText(n), 16) as real, 0.0))
  }

  /** Reversing the byte pairs of BSWP's text again gives back the widened text:
      byte pair i of Widened(n) is byte pair L-1-i of what is read back. */
  lemma ByteSwapUndone(n: int)
    ensures Misc.PairReversed(ByteSwapText(n)) == Widened(n)
  {
    Misc.PairReversedInvolution(Widened(n));
  }

  /** The texts BSWP builds for 0x1234 and 0x12: no widening for the first, two
      zeros in front and two behind for the second. */
  lemma WidenedExamples()
    ensures Widened(0x1234) == "1234" && Widened(0x12) == "001200"
  {
    Literals.RadixTextSplit(0x1234, 16);
    Literals.RadixTextSplit(0x123, 16);
    Literals.RadixTextSplit(0x12, 16);
    assert Literals.RadixText(0x1234, 16) == "1234";
    assert Literals.RadixText(0x12, 16) == "12";
    assert Bits.IntValue(0x1234) == 0x1234 && Bits.IntValue(0x12) == 0x12;
    assert PadToWord("1234") == "1234";
    assert PadToWord("12") == "1200";
  }

  /** The byte pairs of 0x1234 and of the widened 0x12 reversed. */
  lemma PairsOf1234()
    ensures ByteSwapText(0x1234) == "3412"
  {
    WidenedExamples();
  }

  lemma PairsOf12()
    ensures ByteSwapText(0x12) == "001200"
  {
    WidenedExamples();
  }

  /** The hexadecimal digit strings of the examples read back. */
  lemma HexValue3412()
    ensures Literals.AllDigits("3412", 16) && Literals.DigitsValue("3412", 16) == 0x3412
  {
    assert "3412"[..3] == "341" && "341"[..2] == "34" && "34"[..1] == "3";
    assert Literals.DigitsValue("34", 16) == 0x34;
    assert Literals.DigitsValue("341", 16) == 0x341;
  }

  lemma HexValue001200()
    ensures Literals.AllDigits("001200", 16) && Literals.DigitsValue("001200", 16) == 0x1200
  {
    assert "001200"[..5] == "00120" && "00120"[..4] == "0012" && "0012"[..3] == "001";
    assert "001"[..2] == "00" && "00"[..1] == "0";
    assert Literals.DigitsValue("00", 16) == 0;
    assert Literals.DigitsValue("001", 16) == 1;
    assert Literals.DigitsValue("0012", 16) == 0x12;
    assert Literals.DigitsValue("00120", 16) == 0x120;
  }

  /** Byte pairs swap places: 0x1234 becomes 0x3412. */
  lemma SwapBytesExample()
    ensures SwapBytes(0x1234) == 0x3412
  {
    PairsOf1234();
    HexValue3412();
  }

  /** 0x12 is padded to 0x1200 and gets two zeros in front, so it comes back as
      0x1200. */
  lemma SwapBytesPadded()
    ensures SwapBytes(0x12) == 0x1200
  {
    PairsOf12();
    HexValue001200();
  }

  /** The sum HMEAN accumulates: 0 plus 1/p for each parameter p, in list order. */
  function Reciprocals(arith: Arith, args: seq<Value>): (r: Value)
    ensures r.Num?
    ensures TypeOf(r) == REAL <==> forall i :: 0 <= i < |args| ==> TypeOf(args[i]) == REAL
  {
    if args == [] then Real(0.0)
    else
      var prefix := args[..|args| - 1];
      var last := OperatorBodies.Binary(arith, "divide", Real(1.0), args[|args| - 1]);
      var r := OperatorBodies.Binary(arith, "add", Reciprocals(arith, prefix), last);
      assert forall i :: 0 <= i < |prefix| ==> prefix[i] == args[i];
      r
  }

  /** HMEAN: the number of parameters divided by the modulus of the sum of their
      reciprocals, as a REAL; no parameter is an error. */
  function HarmonicMean(arith: Arith, args: seq<Value>): (r: Result<Value>)
    ensures r.Err? <==> args == []
    ensures r.Err? ==> r.error == RequiresParameter("MEAN")
    ensures r.Ok? ==> r.value.Num? && TypeOf(r.value) == REAL
  {
    if args == [] then Err(RequiresParameter("MEAN"))
    else
      var sum := Reciprocals(arith, args);
      Ok(OperatorBodies.Binary(arith, "divide", Real(|args| as real), Real(arith.abs(Re(sum), Im(sum)))))
  }

  /** The loop of HMEAN. */
  method HarmonicMeanLoop(arith: Arith, parameters: seq<Value>) returns (r: Result<Value>)
    ensures r == HarmonicMean(arith, parameters)
  {
    if |parameters| == 0 {
      return Err(RequiresParameter("MEAN"));
    }
    var res := Real(0.0);
    var num := 0;
    while num < |parameters|
      invariant 0 <= num <= |parameters|
      invariant res == Reciprocals(arith, parameters[..num])
    {
      assert parameters[..num + 1][..num] == parameters[..num];
      res := OperatorBodies.Binary(arith, "add", res, OperatorBodies.Binary(arith, "divide", Real(1.0), parameters[num]));
      num := num + 1;
    }
    assert parameters[..num] == parameters;
    res := Real(arith.abs(Re(res), Im(res)));
    r := Ok(OperatorBodies.Binary(arith, "divide", Real(num as real), res));
  }

  /** The body of the registered function called `name` (upper-cased) applied to
      the evaluated parameters. */
  function ApplyFunction(arith: Arith, name: string, args: seq<Value>): (r: Result<Value>)
    ensures name in {"FIB", "IM", "RE", "ABS", "NOT", "ROU", "MERS", "NSWP", "BSWP"} && args == [] ==> r == Err(IndexOutOfBounds)
    ensures (name == "NSWP" || name == "BSWP") && args != [] ==>
              (r.Err? <==> ToLong(Re(args[0])) < 0) && (r.Err? ==> r.error.NumberFormat?)
    ensures name == "HMEAN" ==> (r.Err? <==> args == [])
    ensures name == "SEQ" && |args| < 3 ==> r == Err(IndexOutOfBounds)
    ensures (name == "PERC" || name == "PER") && |args| < 2 ==> r == Err(IndexOutOfBounds)
    ensures name == "MAX" || name == "MIN" ==> (r.Err? <==> args == [])
    ensures name == "ARR" ==> r == Ok(Arr(args))
  {
    if name == "IF" then If(args)
    else if name == "MAX" then Max(arith, args)
    else if name == "MIN" then Min(arith, args)
    else if name == "ARR" then Ok(Arr(args))
    else if name == "SEQ" then
      (if |args| < 3 then Err(IndexOutOfBounds)
       else Ok(Arr(Sequence(Re(args[0]), Re(args[1]), ToInt(Re(args[2]))))))
    else if name == "HMEAN" then HarmonicMean(arith, args)
    else if name in {"FIB", "IM", "RE", "ABS", "NOT", "ROU", "MERS", "NSWP", "BSWP"} then
      (if args == [] then Err(IndexOutOfBounds)
       else var p := args[0];
         if name == "FIB" then Fibonacci(p)
         else if name == "IM" then Ok(Real(Im(p)))
         else if name == "RE" then Ok(Real(Re(p)))
         else if name == "ABS" then Ok(Real(arith.abs(Re(p), Im(p))))
         else if name == "NOT" then Ok(Real(if arith.abs(Re(p), Im(p)) == 0.0 then 1.0 else 0.0))
         else if name == "ROU" then Ok(Real(ToInt(Re(p) + 0.5) as real))
         else if name == "NSWP" then NibbleSwap(p)
         else if name == "BSWP" then ByteSwap(p)
         else Ok(OperatorBodies.Binary(arith, "subtract", OperatorBodies.Binary(arith, "pow", Real(2.0), p), Real(1.0))))
    else if name == "PERC" || name == "PER" then
      (if |args| < 2 then Err(IndexOutOfBounds)
       else if name == "PERC" then
         Ok(OperatorBodies.Binary(arith, "multiply", OperatorBodies.Binary(arith, "divide", args[0], Real(100.0)), args[1]))
       else
         Ok(OperatorBodies.Binary(arith, "divide", OperatorBodies.Binary(arith, "multiply", args[0], Real(100.0)), args[1])))
    else arith.library(name, args)
  }

  /** A function result carries no variable name its parameters did not carry:
      IF, MAX and MIN hand back a parameter, ARR the parameters themselves, and the
      other bodies build fresh values. */
  lemma ResultNames(arith: Arith, name: string, args: seq<Value>, keys: set<string>)
    requires LibraryMakesNoNames(arith)
    requires forall i :: 0 <= i < |args| ==> NamesWithin(args[i], keys)
    ensures ApplyFunction(arith, name, args).Ok? ==> NamesWithin(ApplyFunction(arith, name, args).value, keys)
  {
    var r := ApplyFunction(arith, name, args);
    if r.Ok? {
      if name == "MAX" || name == "MIN" {
        var complex := TypeOf(args[0]) == COMPLEX;
        var init := if name == "MAX" then args[0] else Real(MaxDouble);
        var s := Select(arith, args, init, complex, name == "MAX");
        assert NamesWithin(s, keys);
      } else if name == "IF" {
        assert r.value == args[if Re(args[0]) == 0.0 then 2 else 1];
      } else if name == "ARR" {
        assert r.value == Arr(args);
      } else if name == "SEQ" {
        var items := Sequence(Re(args[0]), Re(args[1]), ToInt(Re(args[2])));
        assert forall k :: 0 <= k < |items| ==> items[k].Num?;
      } else if name in {"FIB", "IM", "RE", "ABS", "NOT", "ROU", "MERS", "NSWP", "BSWP", "HMEAN", "PERC", "PER"} {
        assert r.value.Num?;
      } else {
        NamesWithinMore(r.value, {}, keys);
      }
    }
  }
}
