/** Operator.java: the operator record, and the operator registry the Expression
    constructor fills. */
module Operators {
  import opened Outcomes
  import opened Text

  /** An operator: its name (the pattern the tokenizer matches), its precedence, its
      associativity and an optional description.  All fields are final in Java, so a
      value of this datatype never changes after construction; getPrecedence and
      isLeftAssoc are the fields themselves. */
  datatype Operator = Operator(name: string, precedence: int, leftAssoc: bool, desc: Option<string>)

  /** Operator(String, int, boolean, String) */
  function NewOperatorWithDesc(name: string, precedence: int, leftAssoc: bool, desc: Option<string>): (o: Operator)
    ensures o.name == name && o.desc == desc
    ensures o.precedence == precedence && o.leftAssoc == leftAssoc
  {
    Operator(name, precedence, leftAssoc, desc)
  }

  /** Operator(String, int, boolean): delegates with a null description. */
  function NewOperator(name: string, precedence: int, leftAssoc: bool): (o: Operator)
    ensures o.name == name && o.desc.None?
    ensures o.precedence == precedence && o.leftAssoc == leftAssoc
  {
    NewOperatorWithDesc(name, precedence, leftAssoc, None)
  }

  /** An operator map ordered by String.CASE_INSENSITIVE_ORDER, as a lookup by the
      folded name. */
  type OperatorMap = string -> Option<Operator>

  /** The operator map the Expression constructor fills with addOperator, as a
      lookup: the map is a TreeMap ordered by String.CASE_INSENSITIVE_ORDER, so it is
      queried here with the folded name (every registered name is already folded). */
  function Registry(key: string): Option<Operator>
  {
    if key == "+" then Some(NewOperatorWithDesc("+", 20, true, Some("Addition")))
    else if key == "-" then Some(NewOperatorWithDesc("-", 20, true, Some("Subtraction")))
    else if key == "*" then Some(NewOperatorWithDesc("*", 30, true, Some("Real number multiplication")))
    else if key == "/" then Some(NewOperatorWithDesc("/", 30, true, Some("Real number division")))
    else if key == "%" then Some(NewOperatorWithDesc("%", 30, true, Some("Remainder of integer division")))
    else if key == "^" then Some(NewOperatorWithDesc("^", 40, false, Some("Exponentation. See: https://en.wikipedia.org/wiki/Exponentiation")))
    else if key == "&&" then Some(NewOperatorWithDesc("&&", 4, false, Some("Logical AND. Evaluates to 1 if both operands are not 0")))
    else if key == "||" then Some(NewOperatorWithDesc("||", 2, false, Some("Logical OR. Evaluates to 0 if both operands are 0")))
    else if key == ">" then Some(NewOperatorWithDesc(">", 10, false, Some("Greater than. See: See: https://en.wikipedia.org/wiki/Inequality_(mathematics)")))
    else if key == ">=" then Some(NewOperatorWithDesc(">=", 10, false, Some("Greater or equal")))
    else if key == "<" then Some(NewOperatorWithDesc("<", 10, false, Some("Less than. See: https://en.wikipedia.org/wiki/Inequality_(mathematics)")))
    else if key == "<=" then Some(NewOperatorWithDesc("<=", 10, false, Some("less or equal")))
    else if key == "->" then Some(NewOperatorWithDesc("->", 7, false, Some("Set variable v to new value ")))
    else if key == "=" then Some(NewOperatorWithDesc("=", 7, false, Some("Equality")))
    else if key == "!=" then Some(NewOperatorWithDesc("!=", 7, false, Some("Inequality. See: https://en.wikipedia.org/wiki/Inequality_(mathematics)")))
    else if key == "or" then Some(NewOperatorWithDesc("or", 7, false, Some("Bitwise OR. See: https://en.wikipedia.org/wiki/Logical_disjunction")))
    else if key == "and" then Some(NewOperatorWithDesc("and", 7, false, Some("Bitwise AND. See: https://en.wikipedia.org/wiki/Logical_conjunction")))
    else if key == "xor" then Some(NewOperatorWithDesc("xor", 7, false, Some("Bitwise XOR, See: https://en.wikipedia.org/wiki/Exclusive_or")))
    else if key == "!" then Some(NewOperatorWithDesc("!", 50, true, Some("Factorial. See https://en.wikipedia.org/wiki/Factorial")))
    else if key == "~" then Some(NewOperatorWithDesc("~", 8, false, Some("Bitwise negation")))
    else if key == "shl" then Some(NewOperatorWithDesc("shl", 8, false, Some("Left Bit shift")))
    else if key == "shr" then Some(NewOperatorWithDesc("shr", 8, false, Some("Right bit shift")))
    else None
  }

  /** operators.containsKey(token) */
  predicate Contains(ops: OperatorMap, token: string)
  {
    ops(Fold(token)).Some?
  }

  /** operators.get(token) */
  function Get(ops: OperatorMap, token: string): Operator
    requires Contains(ops, token)
  {
    ops(Fold(token)).value
  }

  /** The minus sign is an operator: the tokenizer relies on it for a '-' it does not
      fuse into a number. */
  lemma MinusIsOperator()
    ensures Contains(Registry, "-") && Get(Registry, "-").precedence == 20 && Get(Registry, "-").leftAssoc
  {
    FoldIdentity("-");
  }
}
