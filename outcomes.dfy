/** Results and errors of the evaluator.  Every exception the Java engine throws on
    the modelled paths is one constructor of `Error`; `Result` carries either a value
    or the error that aborted the computation. */
module Outcomes {

  datatype Option<+T> = None | Some(value: T)

  datatype Error =
    | UnknownOperator(text: string, position: int)   // Tokenizer: symbol run that is no operator
    | IndexOutOfBounds                                // String.charAt / List.get past the end
    | NullPointer                                     // TreeMap.containsKey(null) on the operator map
    | NumberFormat(text: string)                      // BigInteger(String, radix) / Double.parseDouble
    | MissingParameters(op: string, charPosition: Option<int>) // operator without operands
    | ParseErrorForFunction(lastFunction: Option<string>) // ',' outside a parameter list
    | MissingOperator(position: int)                  // '(' right after a number
    | MismatchedParentheses
    | UnknownOperatorOrFunction(name: string)         // non-operator left on the parser stack
    | WrongParameterCount(fn: string, expected: int, got: int)
    | ScopeExceeded                                   // function with no enclosing scope
    | UnhandledParameterLists                         // validate: more than one scope left
    | TooManyNumbers                                  // validate: final count > 1
    | EmptyExpression                                 // validate: final count < 1
    | EmptyStack                                      // java.util.EmptyStackException
    | NullOperand                                     // the PARAMS_START marker used as a value
    | NotAllowedFirstChar(c: char)                    // Variables.put of a reserved name
    | LhsNotVariable                                  // '->' on something that is not a variable
    | RequiresParameter(fn: string)             // MAX/MIN/AMEAN/... called with no argument
    | NegativeInput                                   // iterativeFibonacci(n) with n < 0
    | Foreign(message: string)                        // raised inside library-backed code

  datatype Result<+T> = Ok(value: T) | Err(error: Error) {
    predicate IsFailure() { Err? }
    function PropagateFailure<U>(): Result<U>
      requires Err?
    {
      Err(error)
    }
    function Extract(): T
      requires Ok?
    {
      value
    }
  }

  /** Outcome of an operation that returns nothing (`void` in Java) but may throw. */
  datatype Outcome = Pass | Fail(error: Error) {
    predicate IsFailure() { Fail? }
    function PropagateFailure<U>(): Result<U>
      requires Fail?
    {
      Err(error)
    }
  }
}
