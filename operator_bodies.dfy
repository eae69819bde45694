/** The bodies of the operators the Expression constructor registers: what each
    computes from its left operand v1 and its right operand v2.  Everything the
    bodies hand to Apache Commons Math or to double arithmetic goes through the
    `Arith` record; the array operators, assignment, factorial and bitwise
    negation are modelled exactly. */
module OperatorBodies {
  import opened Outcomes
  import opened Text
  import opened Values
  import Variables
  import Bits

  /** What an operator body leaves: the variable store (changed only by `->`) and
      the value or the exception. */
  datatype Effect = Effect(store: Variables.Store, result: Result<Value>)

  /** MyComplex.add/subtract/multiply/divide/pow, named by `operation`. */
  function Binary(arith: Arith, operation: string, a: Value, b: Value): (r: Value)
    ensures !r.Arr? && !r.Named?
    ensures TypeOf(r) == REAL <==> TypeOf(a) == REAL && TypeOf(b) == REAL
  {
    var (x, y) := arith.complexOp(operation, Re(a), Im(a), Re(b), Im(b));
    Num(Promote(a, b), x, y)
  }

  /** `+`: on an array, a new array holding the old elements and then v2. */
  function Plus(arith: Arith, v1: Value, v2: Value): (r: Value)
    ensures v1.Arr? ==> r.Arr? && |r.items| == |v1.items| + 1
    ensures v1.Arr? ==> r.items[..|v1.items|] == v1.items && r.items[|v1.items|] == v2
    ensures !v1.Arr? ==> r == Binary(arith, "add", v1, v2)
  {
    if v1.Arr? then Arr(v1.items + [v2]) else Binary(arith, "add", v1, v2)
  }

  /** `list.removeIf(o -> o.equals(v2))` on a copy of the list. */
  function RemoveEqual(arith: Arith, items: seq<Value>, v: Value): (r: seq<Value>)
    ensures |r| <= |items|
    ensures forall i :: 0 <= i < |r| ==> r[i] in items && !JavaEquals(arith, r[i], v)
  {
    if items == [] then []
    else if JavaEquals(arith, items[0], v) then RemoveEqual(arith, items[1..], v)
    else [items[0]] + RemoveEqual(arith, items[1..], v)
  }

  /** Every element not equal to the removed value survives the removal. */
  lemma {:induction false} RemoveEqualKeeps(arith: Arith, items: seq<Value>, v: Value, i: int)
    requires 0 <= i < |items| && !JavaEquals(arith, items[i], v)
    ensures items[i] in RemoveEqual(arith, items, v)
  {
    if i > 0 {
      RemoveEqualKeeps(arith, items[1..], v, i - 1);
    }
  }

  /** The elements are kept in their order: removal commutes with concatenation. */
  lemma {:induction false} RemoveEqualAppend(arith: Arith, a: seq<Value>, b: seq<Value>, v: Value)
    ensures RemoveEqual(arith, a + b, v) == RemoveEqual(arith, a, v) + RemoveEqual(arith, b, v)
  {
    if a == [] {
      assert a + b == b;
    } else {
      assert (a + b)[0] == a[0] && (a + b)[1..] == a[1..] + b;
      RemoveEqualAppend(arith, a[1..], b, v);
    }
  }

  /** `-`: on an array, a new array without the elements equal to v2. */
  function Minus(arith: Arith, v1: Value, v2: Value): (r: Value)
    ensures v1.Arr? ==> r.Arr? && forall i :: 0 <= i < |r.items| ==>
      r.items[i] in v1.items && !JavaEquals(arith, r.items[i], v2)
    ensures !v1.Arr? ==> r == Binary(arith, "subtract", v1, v2)
  {
    if v1.Arr? then Arr(RemoveEqual(arith, v1.items, v2)) else Binary(arith, "subtract", v1, v2)
  }

  /** `&&` as the source writes it: 1 exactly when both operands are 0. */
  function AndAsWritten(v1: Value, v2: Value): (r: Value)
    ensures r == Real(1.0) <==> Re(v1) == 0.0 && Re(v2) == 0.0
    ensures r == Real(0.0) || r == Real(1.0)
  {
    Real(if Re(v1) == 0.0 && Re(v2) == 0.0 then 1.0 else 0.0)
  }

  /** `&&` as its description promises: 1 exactly when both operands are not 0. */
  function And(v1: Value, v2: Value): (r: Value)
    ensures r == Real(1.0) <==> Re(v1) != 0.0 && Re(v2) != 0.0
    ensures r == Real(0.0) || r == Real(1.0)
  {
    Real(if Re(v1) != 0.0 && Re(v2) != 0.0 then 1.0 else 0.0)
  }

  /** `||`: 0 exactly when both operands are 0. */
  function Or(v1: Value, v2: Value): (r: Value)
    ensures r == Real(0.0) <==> Re(v1) == 0.0 && Re(v2) == 0.0
    ensures r == Real(0.0) || r == Real(1.0)
  {
    Real(if Re(v1) == 0.0 && Re(v2) == 0.0 then 0.0 else 1.0)
  }

  /** `1 && 1` gives 0 and `0 && 0` gives 1 as written; the corrected `&&` gives 1
      and 0, and agrees with `||` on operands that are 0 or 1 only where both are
      equal. */
  lemma AndInverted()
    ensures AndAsWritten(Real(1.0), Real(1.0)) == Real(0.0)
    ensures AndAsWritten(Real(0.0), Real(0.0)) == Real(1.0)
    ensures And(Real(1.0), Real(1.0)) == Real(1.0)
    ensures And(Real(0.0), Real(0.0)) == Real(0.0)
  {
  }

  /** De Morgan: the corrected `&&` is 1 exactly when `||` of the negations is 0. */
  lemma AndOrDuality(v1: Value, v2: Value)
    ensures And(v1, v2) == Real(1.0) <==>
      Or(Real(if Re(v1) == 0.0 then 1.0 else 0.0), Real(if Re(v2) == 0.0 then 1.0 else 0.0)) == Real(0.0)
  {
  }

  /** The comparison of two reals a `op` b. */
  predicate Holds(op: string, a: real, b: real)
  {
    if op == ">" then a > b
    else if op == ">=" then a >= b
    else if op == "<" then a < b
    else if op == "<=" then a <= b
    else if op == "=" then a == b
    else a != b
  }

  /** The comparison operators: on two REAL operands the real parts are compared,
      otherwise the absolute values. */
  function Compare(arith: Arith, op: string, v1: Value, v2: Value): (r: Value)
    ensures r == Real(0.0) || r == Real(1.0)
    ensures TypeOf(v1) == REAL && TypeOf(v2) == REAL ==> (r == Real(1.0) <==> Holds(op, Re(v1), Re(v2)))
    ensures !(TypeOf(v1) == REAL && TypeOf(v2) == REAL) ==>
      (r == Real(1.0) <==> Holds(op, arith.abs(Re(v1), Im(v1)), arith.abs(Re(v2), Im(v2))))
  {
    var holds :=
      if TypeOf(v1) == REAL && TypeOf(v2) == REAL then Holds(op, Re(v1), Re(v2))
      else Holds(op, arith.abs(Re(v1), Im(v1)), arith.abs(Re(v2), Im(v2)));
    Real(if holds then 1.0 else 0.0)
  }

  /** `->`: the left operand must be a value read from a variable; the right
      operand is put under that variable's name and is the result. */
  function SetVariable(store: Variables.Store, v1: Value, v2: Value): (e: Effect)
    ensures !v1.Named? ==> e == Effect(store, Err(LhsNotVariable))
    ensures v1.Named? && Variables.Assign(store, v1.name, v2).Ok? ==>
      e.result == Ok(v2) && Variables.Lookup(e.store, v1.name) == Some(v2)
    ensures e.result.Ok? ==> v1.Named? && e.store.Keys == store.Keys + {Fold(v1.name)}
    ensures e.result.Err? ==> e.store == store
  {
    if !v1.Named? then Effect(store, Err(LhsNotVariable))
    else
      match Variables.Assign(store, v1.name, v2)
      case Err(err) => Effect(store, Err(err))
      case Ok(s) =>
        Variables.PutThenGet(store, v1.name, v2, v1.name);
        Effect(s, Ok(v2))
  }

  /** `!`: the factorial of (long) v1.real, as a COMPLEX value. */
  function FactorialOf(v1: Value): (r: Value)
    ensures TypeOf(r) == COMPLEX && Im(r) == 0.0 && Re(r) >= 1.0
  {
    Complex(Bits.Factorial(ToLong(Re(v1))) as real, 0.0)
  }

  /** `~`: the bits of (long) v2.real below its bit length flipped, as a REAL. */
  function ComplementOf(v2: Value): (r: Value)
    ensures TypeOf(r) == REAL && Im(r) == 0.0
  {
    Real(Bits.Complement(ToLong(Re(v2))) as real)
  }

  /** The factorial loop of `!`. */
  method FactorialLoop(n: int) returns (f: nat)
    ensures f == Bits.Factorial(n)
  {
    f := 1;
    var i := 1;
    while i <= n
      invariant 1 <= i && (n >= 0 ==> i <= n + 1) && (n < 0 ==> i == 1)
      invariant f == Bits.Factorial(i - 1)
    {
      assert Bits.Factorial(i) == i * f;
      f := f * i;
      i := i + 1;
    }
  }

  /** The body of `~` with its bit loop. */
  method ComplementLoop(n: int) returns (r: int)
    ensures r == Bits.Complement(n)
  {
    var c := Bits.BitLength(n);
    if c == 0 {
      return 1;
    }
    r := n;
    var s := 0;
    while s < c
      invariant 0 <= s <= c
      invariant r == Bits.FlipLow(n, s)
    {
      r := if Bits.Bit(r, s) == 1 then r - Pow2(s) else r + Pow2(s);
      s := s + 1;
    }
  }

  /** The body of the registered operator called `name` applied to (v1, v2). */
  function ApplyOperator(arith: Arith, store: Variables.Store, name: string, v1: Value, v2: Value): (e: Effect)
    ensures name != "->" ==> e.store == store
    ensures name == "->" && e.result.Ok? ==> v1.Named? && e.store.Keys == store.Keys + {Fold(v1.name)}
  {
    if name == "->" then SetVariable(store, v1, v2)
    else Effect(store,
      if name == "+" then Ok(Plus(arith, v1, v2))
      else if name == "-" then Ok(Minus(arith, v1, v2))
      else if name == "*" then Ok(Binary(arith, "multiply", v1, v2))
      else if name == "/" then Ok(Binary(arith, "divide", v1, v2))
      else if name == "^" then Ok(Binary(arith, "pow", v1, v2))
      else if name == "%" then Ok(Real(arith.remainder(Re(v1), Re(v2))))
      else if name == "&&" then Ok(And(v1, v2))
      else if name == "||" then Ok(Or(v1, v2))
      else if name in {">", ">=", "<", "<=", "=", "!="} then Ok(Compare(arith, name, v1, v2))
      else if name in {"or", "and", "xor", "shl", "shr"} then Ok(Real(arith.bitwise(name, Re(v1), Re(v2))))
      else if name == "!" then Ok(FactorialOf(v1))
      else if name == "~" then Ok(ComplementOf(v2))
      else Err(UnknownOperatorOrFunction(name)))
  }
}
