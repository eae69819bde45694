/** The values the evaluator passes around (MyComplex and its PitDecimal subclass)
    and the numeric primitives it borrows from the Java platform and from Apache
    Commons Math.  Doubles are modelled as exact reals; everything numeric that the
    engine delegates to a library is a field of the `Arith` record, so that every
    statement proved here holds for whatever those libraries compute. */
module Values {
  import opened Outcomes
  import opened Text

  /** MyComplex.type */
  datatype ValueType = REAL | COMPLEX | ARRAY

  /** The type tag a scalar can carry. */
  type NumType = t: ValueType | t != ARRAY witness REAL

  datatype Value =
    | Num(tag: NumType, re: real, im: real)
      /** A scalar pushed by the evaluator for a variable token: PitDecimal with its
          varToken, the only kind of value `->` accepts on its left. */
    | Named(name: string, tag: NumType, re: real, im: real)
    | Arr(items: seq<Value>)

  /** MyComplex.type of a value. */
  function TypeOf(v: Value): (t: ValueType)
    ensures t == ARRAY <==> v.Arr?
  {
    if v.Arr? then ARRAY else v.tag
  }

  /** MyComplex.real: an array keeps the field's initial 0.0. */
  function Re(v: Value): real
  {
    if v.Arr? then 0.0 else v.re
  }

  /** MyComplex.imaginary */
  function Im(v: Value): real
  {
    if v.Arr? then 0.0 else v.im
  }

  /** `new MyComplex(double)` */
  function Real(x: real): (v: Value)
    ensures TypeOf(v) == REAL && Re(v) == x && Im(v) == 0.0
  {
    Num(REAL, x, 0.0)
  }

  /** `new MyComplex(double, double)` and `new MyComplex(BigInteger, BigInteger)` */
  function Complex(x: real, y: real): (v: Value)
    ensures TypeOf(v) == COMPLEX && Re(v) == x && Im(v) == y
  {
    Num(COMPLEX, x, y)
  }

  /** The tag rule of MyComplex.add/subtract/multiply/divide/pow: the result is REAL
      exactly when both operands are REAL, and COMPLEX otherwise. */
  function Promote(a: Value, b: Value): (t: NumType)
    ensures t == REAL <==> TypeOf(a) == REAL && TypeOf(b) == REAL
  {
    if TypeOf(a) == REAL && TypeOf(b) == REAL then REAL else COMPLEX
  }

  /** `v.type = t` on an object: a scalar keeps its parts (and its variable name), an
      array object keeps only its zero real and imaginary fields. */
  function Retag(v: Value, t: NumType): (w: Value)
    ensures TypeOf(w) == t && Re(w) == Re(v) && Im(w) == Im(v)
    ensures v.Named? ==> w.Named? && w.name == v.name
  {
    match v
    case Num(_, x, y) => Num(t, x, y)
    case Named(n, _, x, y) => Named(n, t, x, y)
    case Arr(_) => Num(t, 0.0, 0.0)
  }

  /** Every variable name carried by a value, arrays included, is one of `keys`
      ignoring case (`keys` holds folded names, as the variable store does). */
  predicate NamesWithin(v: Value, keys: set<string>)
  {
    match v
    case Num(_, _, _) => true
    case Named(n, _, _, _) => Fold(n) in keys
    case Arr(items) => forall i :: 0 <= i < |items| ==> NamesWithin(items[i], keys)
  }

  /** A value whose names are among fewer keys has them among more keys. */
  lemma {:induction false} NamesWithinMore(v: Value, keys: set<string>, more: set<string>)
    requires NamesWithin(v, keys) && keys <= more
    ensures NamesWithin(v, more)
  {
    if v.Arr? {
      forall i | 0 <= i < |v.items|
        ensures NamesWithin(v.items[i], more)
      {
        NamesWithinMore(v.items[i], keys, more);
      }
    }
  }

  /** Numeric primitives supplied by the platform and by Apache Commons Math. */
  datatype Arith = Arith(
    /** Double.parseDouble; None is a NumberFormatException. */
    parse: string -> Option<real>,
    /** Complex add/subtract/multiply/divide/pow on (real, imaginary) pairs, by
        operator name. */
    complexOp: (string, real, real, real, real) -> (real, real),
    /** Complex.abs */
    abs: (real, real) -> real,
    /** The double remainder operator. */
    remainder: (real, real) -> real,
    /** `(long)a | (long)b` and its siblings for or/and/xor/shl/shr, converted back
        to double. */
    bitwise: (string, real, real) -> real,
    /** CollectionUtils.isEqualCollection on two lists of MyComplex objects. */
    arrayEquals: (seq<Value>, seq<Value>) -> bool,
    /** The functions of the registry whose bodies live in a library. */
    library: (string, seq<Value>) -> Result<Value>
  )

  /** The libraries build fresh MyComplex objects: their results carry no variable
      name. */
  ghost predicate LibraryMakesNoNames(arith: Arith)
  {
    forall f, args :: arith.library(f, args).Ok? ==> NamesWithin(arith.library(f, args).value, {})
  }

  /** MyComplex.equals(o) called on `self`: REAL compares real parts, COMPLEX both
      parts, ARRAY the element collections.  For a scalar `self`, equal parts make
      equal values, and equal values share their real part; the relation is not
      symmetric, since a REAL ignores the imaginary part of `other`. */
  predicate JavaEquals(arith: Arith, self: Value, other: Value): (b: bool)
    ensures !self.Arr? && Re(self) == Re(other) && Im(self) == Im(other) ==> b
    ensures !self.Arr? && b ==> Re(self) == Re(other)
  {
    match TypeOf(self)
    case REAL => Re(self) == Re(other)
    case COMPLEX => Re(self) == Re(other) && Im(self) == Im(other)
    case ARRAY => arith.arrayEquals(self.items, if other.Arr? then other.items else [])
  }

  /** Truncation of a real toward zero, the rounding of Java's narrowing casts. */
  function Truncate(x: real): (n: int)
    ensures 0.0 <= x ==> n as real <= x < n as real + 1.0
    ensures x <= 0.0 ==> n as real - 1.0 < x <= n as real
  {
    if x >= 0.0 then x.Floor else -((-x).Floor)
  }

  const LongMin: int := -0x8000_0000_0000_0000
  const LongMax: int := 0x7FFF_FFFF_FFFF_FFFF
  const IntMin: int := -0x8000_0000
  const IntMax: int := 0x7FFF_FFFF

  /** `(long) d`: truncation toward zero, saturating at the long range. */
  function ToLong(x: real): (n: int)
    ensures LongMin <= n <= LongMax
    ensures LongMin <= Truncate(x) <= LongMax ==> n == Truncate(x)
    ensures Truncate(x) > LongMax ==> n == LongMax
    ensures Truncate(x) < LongMin ==> n == LongMin
  {
    var t := Truncate(x);
    if t < LongMin then LongMin else if t > LongMax then LongMax else t
  }

  /** `(int) d`: truncation toward zero, saturating at the int range. */
  function ToInt(x: real): (n: int)
    ensures IntMin <= n <= IntMax
    ensures IntMin <= Truncate(x) <= IntMax ==> n == Truncate(x)
    ensures Truncate(x) > IntMax ==> n == IntMax
    ensures Truncate(x) < IntMin ==> n == IntMin
  {
    var t := Truncate(x);
    if t < IntMin then IntMin else if t > IntMax then IntMax else t
  }

  function Pow2(n: nat): (p: nat)
    ensures p >= 1
  {
    if n == 0 then 1 else 2 * Pow2(n - 1)
  }

  /** Double.MIN_VALUE, the smallest positive double, 2^-1074. */
  const MinDouble: real := 1.0 / Pow2(1074) as real

  /** Double.MAX_VALUE, (2 - 2^-52) * 2^1023. */
  const MaxDouble: real := (Pow2(53) - 1) as real * Pow2(971) as real
}
