/** MathTools.java: copies of two Misc helpers.  Each copy is proved against the
    same function as its Misc original, so the two agree on every input. */
module MathTools {
  import opened Outcomes
  import opened Values
  import Bits
  import Misc

  /** MathTools.reverseHex */
  method ReverseHex(originalHex: string) returns (r: string)
    ensures r == Misc.PairReversed(originalHex)
  {
    var lengthInBytes := |originalHex| / 2;
    var chars := new char[lengthInBytes * 2];
    for index := 0 to lengthInBytes
      invariant forall k :: 0 <= k < 2 * lengthInBytes && k / 2 >= lengthInBytes - index ==>
        chars[k] == originalHex[2 * (lengthInBytes - 1 - k / 2) + k % 2]
    {
      var reversedIndex := lengthInBytes - 1 - index;
      Bits.DivMod(reversedIndex * 2, 2, reversedIndex, 0);
      Bits.DivMod(reversedIndex * 2 + 1, 2, reversedIndex, 1);
      chars[reversedIndex * 2] := originalHex[index * 2];
      chars[reversedIndex * 2 + 1] := originalHex[index * 2 + 1];
    }
    r := chars[..];
  }

  /** MathTools.iterativeFibonacci */
  method IterativeFibonacci(number: int) returns (r: Result<Value>)
    ensures number < 0 ==> r == Err(NegativeInput)
    ensures number >= 0 ==> r == Ok(Complex(Misc.Fib(number) as real, 0.0))
  {
    if number < 0 {
      return Err(NegativeInput);
    }
    if number == 0 || number == 1 {
      return Ok(Complex(number as real, 0.0));
    }
    var first, second := 0, 1;
    var third := first + second;
    for i := 3 to number + 1
      invariant first == Misc.Fib(i - 3) && second == Misc.Fib(i - 2) && third == Misc.Fib(i - 1)
    {
      first := second;
      second := third;
      third := first + second;
    }
    return Ok(Complex(third as real, 0.0));
  }
}
