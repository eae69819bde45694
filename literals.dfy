/** Expression.isNumber and the radix literals that shuntingYard rewrites to decimal
    text with java.math.BigInteger. */
module Literals {
  import opened Outcomes
  import opened Text
  import Tokenizer
  import Bits

  /** The characters the final loop of isNumber accepts. */
  predicate LiteralChar(c: char)
  {
    IsDigit(c) || c == '-' || c == '.' || c == 'e' || c == 'i' || c == 'E' || c == '+'
  }

  /** Expression.isNumber.  A prefix `x` (but not the word `xor`), `b` followed by 0 or
      1, or `o` (but not the word `or`) marks a radix literal; `st.charAt(1)` fails on
      the one-letter string "b", and `st.charAt(0)` on the empty string. */
  function IsNumber(st: string): (r: Result<bool>)
    ensures r.Err? <==> st == [] || st == "b"
    ensures r.Err? ==> r.error == IndexOutOfBounds
    ensures r == Ok(true) && st[0] != 'x' && st[0] != 'b' && st[0] != 'o' ==>
      |st| > 1 || IsDigit(st[0]) || st[0] == '.' || st[0] == 'i'
    ensures ((StartsWith(st, "x") && st != "xor") || (StartsWith(st, "o") && st != "or")
             || (|st| > 1 && st[0] == 'b' && st[1] in "01")) ==> r == Ok(true)
    ensures st == "xor" || st == "or" || (|st| > 1 && st[0] == 'b' && st[1] !in "01") ==> r == Ok(false)
    ensures st != [] && st[0] !in "xbo" && st != "-" && st != "+" && st[0] !in "eE" ==>
      r == Ok(forall k :: 0 <= k < |st| ==> LiteralChar(st[k]))
    ensures st != [] && (st == "-" || st == "+" || st[0] in "eE") ==> r == Ok(false)
  {
    if StartsWith(st, "x") && st != "xor" then Ok(true)
    else if StartsWith(st, "b") && |st| < 2 then Err(IndexOutOfBounds)
    else if StartsWith(st, "b") && (st[1] == '0' || st[1] == '1') then Ok(true)
    else if StartsWith(st, "o") && st != "or" then Ok(true)
    else if st == [] then Err(IndexOutOfBounds)
    else if st == "-" || st == "+" then Ok(false)
    else if st[0] == 'e' || st[0] == 'E' then Ok(false)
    else Ok(forall k :: 0 <= k < |st| ==> LiteralChar(st[k]))
  }

  /** Every number token the tokenizer produces is classified as a number. */
  lemma NumberTokensAreNumbers(t: string)
    requires Tokenizer.NumericToken(t)
    requires |t| > 0 && (IsDigit(t[0]) || (|t| > 1 && t[0] == '-' && IsDigit(t[1])))
    ensures IsNumber(t) == Ok(true)
  {
    forall k | 0 <= k < |t| ensures LiteralChar(t[k]) {
      assert Tokenizer.NumberChar(t[k]) || (k == 0 && t[k] == '-')
        || ((t[k] == '-' || t[k] == '+') && 0 < k && (t[k - 1] == 'e' || t[k - 1] == 'E'));
    }
  }

  /** The words that spell operators are not numbers, although they start with the
      radix prefixes `x` and `o`. */
  lemma OperatorWordsAreNotNumbers()
    ensures IsNumber("xor") == Ok(false) && IsNumber("or") == Ok(false)
    ensures IsNumber("x1F") == Ok(true) && IsNumber("b101") == Ok(true) && IsNumber("bar") == Ok(false)
  {
    assert !LiteralChar("xor"[0]);
    assert !LiteralChar("or"[0]);
    assert !LiteralChar("bar"[0]);
  }

  /** Character.digit(c, radix) for the ASCII digits and letters: None for a character
      that is no digit in that radix. */
  function DigitValue(c: char, radix: nat): (d: Option<nat>)
    ensures d.Some? ==> d.value < radix
  {
    var v: int :=
      if '0' <= c <= '9' then c as int - '0' as int
      else if 'a' <= c <= 'z' then c as int - 'a' as int + 10
      else if 'A' <= c <= 'Z' then c as int - 'A' as int + 10
      else radix;
    if v < radix then Some(v) else None
  }

  predicate AllDigits(ds: string, radix: nat)
  {
    forall k :: 0 <= k < |ds| ==> DigitValue(ds[k], radix).Some?
  }

  /** The number a string of digits denotes in `radix`, most significant first. */
  function DigitsValue(ds: string, radix: nat): nat
    requires AllDigits(ds, radix)
  {
    if ds == [] then 0
    else
      var high := DigitsValue(ds[..|ds| - 1], radix);
      MulNonNegative(high, radix);
      high * radix + DigitValue(ds[|ds| - 1], radix).value
  }

  lemma MulNonNegative(a: nat, b: nat)
    ensures a * b >= 0
  {
  }

  /** Splitting n into its last digit in `radix` and the number before it. */
  lemma SplitLast(n: nat, radix: nat)
    requires radix >= 2
    ensures n == (n / radix) * radix + n % radix && 0 <= n % radix < radix
    ensures n >= radix ==> 1 <= n / radix < n
  {
    Bits.DivMod(n, radix, n / radix, n % radix);
    if n >= radix {
      Bits.MulAtLeast(radix, n / radix);
    }
  }

  /** new BigInteger(val, radix): an optional sign, then at least one digit. */
  function ParseRadix(val: string, radix: nat): (r: Result<int>)
    requires 2 <= radix <= 36
    ensures r.Err? <==> (val == [] || val == "-" || val == "+"
                         || !AllDigits(if val[0] == '-' || val[0] == '+' then val[1..] else val, radix))
    ensures r.Err? ==> r.error == NumberFormat(val)
  {
    if val == [] then Err(NumberFormat(val))
    else
      var neg := val[0] == '-';
      var ds := if neg || val[0] == '+' then val[1..] else val;
      if ds == [] || !AllDigits(ds, radix) then Err(NumberFormat(val))
      else if neg then Ok(-(DigitsValue(ds, radix) as int))
      else Ok(DigitsValue(ds, radix))
  }

  /** Character.forDigit(d, radix): a decimal digit, or a lower-case letter from 10 on. */
  function DigitChar(d: nat, radix: nat): (c: char)
    requires d < radix <= 36
    ensures DigitValue(c, radix) == Some(d)
  {
    if d < 10 then ('0' as int + d) as char else ('a' as int + d - 10) as char
  }

  /** Every character is the digit BigInteger.toString would write for its value:
      no upper-case letters. */
  predicate Canonical(ds: string, radix: nat)
    requires radix <= 36
  {
    forall k :: 0 <= k < |ds| ==>
      DigitValue(ds[k], radix).Some? && ds[k] == DigitChar(DigitValue(ds[k], radix).value, radix)
  }

  /** BigInteger.toString(radix): a minus sign for negative numbers, then the digits
      without leading zeros. */
  function RadixText(n: int, radix: nat): (s: string)
    requires 2 <= radix <= 36
    ensures s != []
    ensures n >= 0 ==> AllDigits(s, radix) && Canonical(s, radix)
    ensures n < 0 ==> s == "-" + RadixText(-n, radix)
    decreases if n < 0 then 1 - n else n
  {
    if n < 0 then "-" + RadixText(-n, radix)
    else if n < radix then [DigitChar(n, radix)]
    else
      SplitLast(n, radix);
      var high := RadixText(n / radix, radix);
      CanonicalAppend(high, n % radix, radix);
      high + [DigitChar(n % radix, radix)]
  }

  /** Appending the digit of d keeps a canonical digit string canonical. */
  lemma CanonicalAppend(ds: string, d: nat, radix: nat)
    requires d < radix <= 36 && AllDigits(ds, radix) && Canonical(ds, radix)
    ensures AllDigits(ds + [DigitChar(d, radix)], radix) && Canonical(ds + [DigitChar(d, radix)], radix)
  {
  }

  /** The text of a non-negative number from the radix on is the text of n / radix
      followed by the digit of n % radix. */
  lemma RadixTextSplit(n: nat, radix: nat)
    requires 2 <= radix <= 36 && n >= radix
    ensures 1 <= n / radix < n && n == (n / radix) * radix + n % radix
    ensures RadixText(n, radix) == RadixText(n / radix, radix) + [DigitChar(n % radix, radix)]
  {
    SplitLast(n, radix);
  }

  /** The text of a non-negative number ends with the digit of n % radix and, from
      the radix on, does not start with 0. */
  lemma {:induction false} RadixTextEnds(n: nat, radix: nat)
    requires 2 <= radix <= 36
    ensures var s := RadixText(n, radix); s[|s| - 1] == DigitChar(n % radix, radix)
    ensures n >= radix ==> RadixText(n, radix)[0] != '0'
    decreases n
  {
    if n >= radix {
      var q := n / radix;
      RadixTextSplit(n, radix);
      var s := RadixText(n, radix);
      assert s[0] == RadixText(q, radix)[0];
      if q >= radix {
        RadixTextEnds(q, radix);
      } else {
        assert RadixText(q, radix) == [DigitChar(q, radix)];
        assert DigitValue('0', radix) == Some(0);
      }
    } else {
      Bits.DivMod(n, radix, 0, n);
    }
  }

  /** Reading the digits of a non-negative number back gives the number. */
  lemma {:induction false} RadixDigits(n: nat, radix: nat)
    requires 2 <= radix <= 36
    ensures DigitsValue(RadixText(n, radix), radix) == n
    decreases n
  {
    if n >= radix {
      var q, d := n / radix, n % radix;
      RadixTextSplit(n, radix);
      RadixDigits(q, radix);
      var s := RadixText(n, radix);
      assert s[..|s| - 1] == RadixText(q, radix);
      assert DigitsValue(s, radix) == DigitsValue(RadixText(q, radix), radix) * radix + d;
    }
  }

  /** A canonical digit string with no leading zero is the text of its own value. */
  lemma {:induction false} TextOfDigits(ds: string, radix: nat)
    requires 2 <= radix <= 36 && ds != [] && AllDigits(ds, radix) && Canonical(ds, radix)
    requires |ds| > 1 ==> ds[0] != '0'
    ensures RadixText(DigitsValue(ds, radix), radix) == ds
    decreases |ds|
  {
    var hi := ds[..|ds| - 1];
    var last := ds[|ds| - 1];
    var d := DigitValue(last, radix).value;
    var v := DigitsValue(ds, radix);
    assert last == DigitChar(d, radix);
    if |ds| > 1 {
      var hv := DigitsValue(hi, radix);
      assert v == hv * radix + d;
      TextOfDigits(hi, radix);
      LeadingDigitPositive(hi, radix);
      Bits.MulAtLeast(radix, hv);
      Bits.DivMod(v, radix, hv, d);
      RadixTextSplit(v, radix);
      assert ds == hi + [last];
    } else {
      assert hi == [] && DigitsValue(hi, radix) == 0;
      assert v == 0 * radix + d == d;
      assert ds == [last];
    }
  }

  /** A canonical digit string that does not start with 0 denotes a positive number. */
  lemma {:induction false} LeadingDigitPositive(ds: string, radix: nat)
    requires 2 <= radix <= 36 && ds != [] && AllDigits(ds, radix) && Canonical(ds, radix) && ds[0] != '0'
    ensures DigitsValue(ds, radix) > 0
    decreases |ds|
  {
    if |ds| > 1 {
      var hi := ds[..|ds| - 1];
      LeadingDigitPositive(hi, radix);
      Bits.MulAtLeast(DigitsValue(hi, radix), radix);
    } else {
      assert ds[0] == DigitChar(DigitValue(ds[0], radix).value, radix);
    }
  }

  /** The text shuntingYard writes for a radix literal reads back as the same
      number, in any radix. */
  lemma RadixRoundTrip(n: int, radix: nat)
    requires 2 <= radix <= 36
    ensures ParseRadix(RadixText(n, radix), radix) == Ok(n)
  {
    if n < 0 {
      NegativeRoundTrip(n, radix);
    } else {
      RadixDigits(n, radix);
      UnsignedDigits(RadixText(n, radix), radix);
      ParseUnsigned(RadixText(n, radix), radix);
    }
  }

  /** The negative half of RadixRoundTrip: a minus sign before the digits of -n. */
  lemma NegativeRoundTrip(n: int, radix: nat)
    requires 2 <= radix <= 36 && n < 0
    ensures ParseRadix(RadixText(n, radix), radix) == Ok(n)
  {
    var ds := RadixText(-n, radix);
    assert RadixText(n, radix) == "-" + ds;
    RadixDigits(-n, radix);
    assert DigitsValue(ds, radix) == -n;
    ParseNegative(ds, radix);
  }

  lemma UnsignedDigits(ds: string, radix: nat)
    requires ds != [] && AllDigits(ds, radix)
    ensures ds[0] != '-' && ds[0] != '+'
  {
    assert DigitValue(ds[0], radix).Some?;
  }

  lemma ParseUnsigned(ds: string, radix: nat)
    requires 2 <= radix <= 36
    requires ds != [] && AllDigits(ds, radix) && ds[0] != '-' && ds[0] != '+'
    ensures ParseRadix(ds, radix) == Ok(DigitsValue(ds, radix))
  {
  }

  lemma ParseNegative(ds: string, radix: nat)
    requires 2 <= radix <= 36
    requires ds != [] && AllDigits(ds, radix)
    ensures ParseRadix("-" + ds, radix) == Ok(-(DigitsValue(ds, radix) as int))
  {
    var val := "-" + ds;
    assert val[0] == '-' && val[1..] == ds;
  }

  /** A minus sign anywhere but at the front makes `new BigInteger(val, radix)`
      throw a NumberFormatException. */
  lemma MinusInsideRefused(val: string, radix: nat, p: nat)
    requires 2 <= radix <= 36 && 1 <= p < |val| && val[p] == '-'
    ensures ParseRadix(val, radix).Err?
  {
    var ds := if val[0] == '-' || val[0] == '+' then val[1..] else val;
    var q := if val[0] == '-' || val[0] == '+' then p - 1 else p;
    assert ds[q] == '-' && DigitValue('-', radix).None?;
  }

  /** What shuntingYard writes to the output for a token isNumber accepted: the
      decimal value of a hexadecimal (`x`), binary (`b`) or octal (`o`) literal, and
      any other number token unchanged. */
  function NumberOutput(token: string): (r: Result<string>)
    requires token != []
    ensures r.Ok? && token[0] != 'x' && token[0] != 'b' && token[0] != 'o' ==> r.value == token
    ensures r.Ok? && (token[0] == 'x' || token[0] == 'b' || token[0] == 'o') ==>
      var radix := if token[0] == 'x' then 16 else if token[0] == 'b' then 2 else 8;
      ParseRadix(token[1..], radix).Ok?
      && ParseRadix(r.value, 10) == ParseRadix(token[1..], radix)
    ensures r.Err? ==> r.error == NumberFormat(token[1..])
  {
    var radix := if token[0] == 'x' then 16 else if token[0] == 'b' then 2 else 8;
    if token[0] == 'x' || token[0] == 'b' || token[0] == 'o' then
      var n :- ParseRadix(token[1..], radix);
      RadixRoundTrip(n, 10);
      Ok(RadixText(n, 10))
    else Ok(token)
  }
}
