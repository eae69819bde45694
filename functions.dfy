/** LazyFunction.java and Function.java: the function record, and the function
    registry the Expression constructor fills.  Function.lazyEval, which needs the
    evaluator's deferred values, is modelled in module Evaluator. */
module Functions {
  import opened Outcomes
  import opened Text

  /** A function of the registry: its name, its parameter count (negative for a
      variable count, -1 by convention) and an optional description; getNumParams is the
      field itself. */
  datatype LazyFunction = LazyFunction(name: string, numParams: int, desc: Option<string>)

  /** LazyFunction(String, int): the name is stored upper-cased (Locale.ROOT). */
  function NewLazyFunction(name: string, numParams: int): (f: LazyFunction)
    ensures f.name == ToUpper(name) && f.numParams == numParams && f.desc.None?
  {
    LazyFunction(ToUpper(name), numParams, None)
  }

  /** Function(String, int): forwards both arguments to LazyFunction. */
  function NewFunction(name: string, numParams: int): (f: LazyFunction)
    ensures f.name == ToUpper(name) && f.numParams == numParams && f.desc.None?
  {
    NewLazyFunction(name, numParams)
  }

  /** Function(String, int, String): forwards to LazyFunction, then sets the
      description. */
  function NewFunctionWithDesc(name: string, numParams: int, desc: Option<string>): (f: LazyFunction)
    ensures f.name == ToUpper(name) && f.numParams == numParams && f.desc == desc
  {
    NewLazyFunction(name, numParams).(desc := desc)
  }

  /** Any negative parameter count means "variable". */
  predicate NumParamsVaries(f: LazyFunction) { f.numParams < 0 }

  /** The documented marker -1 is a variable count, whichever constructor is used;
      a count of zero or more is fixed. */
  lemma VariadicMarker(name: string, desc: Option<string>, n: int)
    ensures NumParamsVaries(NewFunction(name, -1)) && NumParamsVaries(NewFunctionWithDesc(name, -1, desc))
    ensures n >= 0 ==> !NumParamsVaries(NewFunction(name, n))
  {
  }

  /** A function map ordered by String.CASE_INSENSITIVE_ORDER, as a lookup by the
      folded name. */
  type FunctionMap = string -> Option<LazyFunction>

  /** The function map the Expression constructor fills with addFunction, as a
      lookup: the map is a TreeMap ordered by String.CASE_INSENSITIVE_ORDER, so it is
      queried here with the folded name. */
  function Registry(key: string): Option<LazyFunction>
  {
    if key == "not" then Some(NewFunctionWithDesc("NOT", 1, Some("evaluates to 0 if argument != 0")))
    else if key == "rnd" then Some(NewFunctionWithDesc("RND", 2, Some("Give random number in the range between first and second argument")))
    else if key == "mrs" then Some(NewFunctionWithDesc("MRS", 0, Some("Mersenne twister random generator")))
    else if key == "bin" then Some(NewFunctionWithDesc("BIN", 2, Some("Binomial Coefficient 'n choose k'")))
    else if key == "stir" then Some(NewFunctionWithDesc("STIR", 2, Some("Stirling number of 2nd kind: http://mathworld.wolfram.com/StirlingNumberoftheSecondKind.html")))
    else if key == "sin" then Some(NewFunctionWithDesc("SIN", 1, Some("Sine function")))
    else if key == "cos" then Some(NewFunctionWithDesc("COS", 1, Some("Cosine function")))
    else if key == "tan" then Some(NewFunctionWithDesc("TAN", 1, Some("Tangent")))
    else if key == "asin" then Some(NewFunctionWithDesc("ASIN", 1, Some("Reverse Sine")))
    else if key == "acos" then Some(NewFunctionWithDesc("ACOS", 1, Some("Reverse Cosine")))
    else if key == "atan" then Some(NewFunctionWithDesc("ATAN", 1, Some("Reverse Tangent")))
    else if key == "sinh" then Some(NewFunctionWithDesc("SINH", 1, Some("Hyperbolic Sine")))
    else if key == "cosh" then Some(NewFunctionWithDesc("COSH", 1, Some("Hyperbolic Cosine")))
    else if key == "tanh" then Some(NewFunctionWithDesc("TANH", 1, Some("Hyperbolic Tangent")))
    else if key == "rad" then Some(NewFunctionWithDesc("RAD", 1, Some("Transform degree to radian")))
    else if key == "deg" then Some(NewFunctionWithDesc("DEG", 1, Some("Transform radian to degree")))
    else if key == "max" then Some(NewFunctionWithDesc("MAX", -1, Some("Find the biggest value in a list")))
    else if key == "if" then Some(NewFunctionWithDesc("IF", 3, Some("Conditional: give param3 if param1 is 0, otherwise param2")))
    else if key == "perc" then Some(NewFunctionWithDesc("PERC", 2, Some("Get param1 percent of param2")))
    else if key == "per" then Some(NewFunctionWithDesc("PER", 2, Some("How many percent is param1 of param2")))
    else if key == "h" then Some(NewFunctionWithDesc("H", 1, Some("Evaluate _history element")))
    else if key == "mers" then Some(NewFunctionWithDesc("MERS", 1, Some("Calculate Mersenne Number")))
    else if key == "gcd" then Some(NewFunctionWithDesc("GCD", 2, Some("Find greatest common divisor of 2 values")))
    else if key == "lcm" then Some(NewFunctionWithDesc("LCM", 2, Some("Find least common multiple of 2 values")))
    else if key == "amean" then Some(NewFunctionWithDesc("AMEAN", -1, Some("Arithmetic mean of a set of values")))
    else if key == "seq" then Some(NewFunctionWithDesc("SEQ", 3, Some("Generate Sequence p1=start, p2=step, p3=count")))
    else if key == "prod" then Some(NewFunctionWithDesc("PROD", -1, Some("Product of real values")))
    else if key == "sum" then Some(NewFunctionWithDesc("SUM", -1, Some("Sum of values")))
    else if key == "ang" then Some(NewFunctionWithDesc("ANG", 1, Some("Angle phi of complex number in radians")))
    else if key == "im" then Some(NewFunctionWithDesc("IM", 1, Some("Get imaginary part")))
    else if key == "re" then Some(NewFunctionWithDesc("RE", 1, Some("Get real part")))
    else if key == "pol" then Some(NewFunctionWithDesc("POL", 2, Some("Make complex number from polar coords. angle is first arg")))
    else if key == "gmean" then Some(NewFunctionWithDesc("GMEAN", -1, Some("Geometric mean of a set of values")))
    else if key == "hmean" then Some(NewFunctionWithDesc("HMEAN", -1, Some("Harmonic mean of a set of values")))
    else if key == "var" then Some(NewFunctionWithDesc("VAR", -1, Some("Variance of a set of values")))
    else if key == "npr" then Some(NewFunctionWithDesc("NPR", 1, Some("Next prime number greater or equal the argument")))
    else if key == "nswp" then Some(NewFunctionWithDesc("NSWP", 1, Some("Swap nibbles")))
    else if key == "bswp" then Some(NewFunctionWithDesc("BSWP", 1, Some("Swap bytes")))
    else if key == "pyt" then Some(NewFunctionWithDesc("PYT", 2, Some("Pythagoras's result = sqrt(param1^2+param2^2) https://en.wikipedia.org/wiki/Pythagorean_theorem")))
    else if key == "fib" then Some(NewFunctionWithDesc("FIB", 1, Some("Fibonacci number")))
    else if key == "min" then Some(NewFunctionWithDesc("MIN", -1, Some("Find the smallest in a list of values")))
    else if key == "abs" then Some(NewFunctionWithDesc("ABS", 1, Some("Get absolute value of a number")))
    else if key == "ln" then Some(NewFunctionWithDesc("LN", 1, Some("Logarithm base e of the argument")))
    else if key == "log" then Some(NewFunctionWithDesc("LOG", 1, Some("Logarithm base 10 of the argument")))
    else if key == "floor" then Some(NewFunctionWithDesc("FLOOR", 1, Some("Rounds DOWN to nearest Integer")))
    else if key == "ceil" then Some(NewFunctionWithDesc("CEIL", 1, Some("Rounds UP to nearest Integer")))
    else if key == "rou" then Some(NewFunctionWithDesc("ROU", 1, Some("Rounds to nearest Integer")))
    else if key == "sqrt" then Some(NewFunctionWithDesc("SQRT", 1, Some("Square root")))
    else if key == "arr" then Some(NewFunctionWithDesc("ARR", -1, Some("Create array")))
    else if key == "poly" then Some(NewFunctionWithDesc("POLY", -1, Some("Treat array as Polynom")))
    else if key == "derive" then Some(NewFunctionWithDesc("DERIVE", -1, Some("Make derivative of polynomial")))
    else if key == "integrate" then Some(NewFunctionWithDesc("INTEGRATE", -1, Some("Make antiderivative of polynomial. Constant is always zero")))
    else if key == "pval" then Some(NewFunctionWithDesc("PVAL", 2, Some("Compute value of polynom for the given argument.")))
    else None
  }

  /** functions.containsKey(token.toUpperCase(Locale.ROOT)) */
  predicate Contains(fns: FunctionMap, token: string)
  {
    fns(Fold(ToUpper(token))).Some?
  }

  /** functions.get(token.toUpperCase(Locale.ROOT)) */
  function Get(fns: FunctionMap, token: string): LazyFunction
    requires Contains(fns, token)
  {
    fns(Fold(ToUpper(token))).value
  }

  /** Upper-casing before the lookup changes nothing: the map ignores case anyway. */
  lemma LookupIgnoresCase(fns: FunctionMap, token: string)
    ensures Contains(fns, token) <==> fns(Fold(token)).Some?
    ensures Contains(fns, token) ==> Get(fns, token) == fns(Fold(token)).value
  {
    FoldOfUpper(token);
  }
}
