/** Expression.shuntingYard as a function of the input, the expression's operator
    and function maps and the variable store: the tokens are read one by one with
    Tokenizer.Scan, each token is one `Step`, and `Finish` empties the operator stack.
    The operator stack is a sequence whose last element is the top. */
module Parser {
  import opened Outcomes
  import opened Text
  import opened Values
  import Variables
  import Operators
  import Functions
  import Tokenizer
  import Literals

  /** The local state of shuntingYard between two tokens: the output queue, the
      operator stack, the last function name seen, the previous token, and the
      variable store, which auto-declaration extends. */
  datatype PState = PState(output: seq<string>, stack: seq<string>, lastFunction: Option<string>,
                           previous: Option<string>, store: Variables.Store)

  /** The state before the first token. */
  function Start(store: Variables.Store): PState
  {
    PState([], [], None, None, store)
  }

  /** What shuntingYard leaves behind: the store with its auto-declared variables (kept
      when a later token fails), and the RPN token list or the error. */
  datatype Parse = Parse(store: Variables.Store, rpn: Result<seq<string>>)

  datatype Popped = Popped(stack: seq<string>, output: seq<string>)

  /** The elements of `s` from the top down. */
  function Reverse(s: seq<string>): (r: seq<string>)
    ensures |r| == |s|
    ensures forall i :: 0 <= i < |s| ==> r[i] == s[|s| - 1 - i]
  {
    if s == [] then [] else [s[|s| - 1]] + Reverse(s[..|s| - 1])
  }

  /** Operator o1 makes the stacked operator o2 go first: o1 is left-associative and
      does not bind tighter than o2, or o1 binds less tightly than o2. */
  predicate Outranked(o1: Operators.Operator, o2: Operators.Operator)
  {
    (o1.leftAssoc && o1.precedence <= o2.precedence) || o1.precedence < o2.precedence
  }

  /** The stacked token `t2` is an operator that goes before `o1`. */
  predicate PopsBefore(ops: Operators.OperatorMap, o1: Operators.Operator, t2: string)
  {
    Operators.Contains(ops, t2) && Outranked(o1, Operators.Get(ops, t2))
  }

  /** The operator loop before pushing o1: the stack is popped to the output while its
      top goes before o1. */
  function PopOperators(ops: Operators.OperatorMap, o1: Operators.Operator, stack: seq<string>,
                        output: seq<string>): (p: Popped)
    ensures |p.stack| <= |stack| && p.stack == stack[..|p.stack|]
    ensures p.output == output + Reverse(stack[|p.stack|..])
    ensures forall i :: |p.stack| <= i < |stack| ==> PopsBefore(ops, o1, stack[i])
    ensures p.stack != [] ==> !PopsBefore(ops, o1, p.stack[|p.stack| - 1])
    decreases |stack|
  {
    if stack != [] && PopsBefore(ops, o1, stack[|stack| - 1]) then
      var p := PopOperators(ops, o1, stack[..|stack| - 1], output + [stack[|stack| - 1]]);
      PopOperatorsStep(ops, o1, stack, stack[..|stack| - 1], output, p);
      p
    else Popped(stack, output)
  }

  /** One more operator popped in front of those the recursive call popped. */
  lemma PopOperatorsStep(ops: Operators.OperatorMap, o1: Operators.Operator, stack: seq<string>,
                         below: seq<string>, output: seq<string>, p: Popped)
    requires stack != [] && below == stack[..|stack| - 1] && PopsBefore(ops, o1, stack[|stack| - 1])
    requires |p.stack| <= |below| && p.stack == below[..|p.stack|]
    requires p.output == output + [stack[|stack| - 1]] + Reverse(below[|p.stack|..])
    requires forall i :: |p.stack| <= i < |below| ==> PopsBefore(ops, o1, below[i])
    ensures p.stack == stack[..|p.stack|]
    ensures p.output == output + Reverse(stack[|p.stack|..])
    ensures forall i :: |p.stack| <= i < |stack| ==> PopsBefore(ops, o1, stack[i])
  {
    PoppedTop(stack, output, p);
  }

  /** Popping the top and then the part of the stack above `kept` pops, in that order,
      exactly the part above `kept`. */
  lemma PoppedTop(stack: seq<string>, output: seq<string>, p: Popped)
    requires stack != [] && |p.stack| < |stack| && p.stack == stack[..|stack| - 1][..|p.stack|]
    requires p.output == output + [stack[|stack| - 1]] + Reverse(stack[..|stack| - 1][|p.stack|..])
    ensures p.stack == stack[..|p.stack|]
    ensures p.output == output + Reverse(stack[|p.stack|..])
    ensures forall i :: |p.stack| <= i < |stack| - 1 ==> stack[..|stack| - 1][i] == stack[i]
  {
    var top, mid := stack[|stack| - 1], stack[|p.stack|..|stack| - 1];
    assert stack[..|stack| - 1][|p.stack|..] == mid;
    assert stack[|p.stack|..] == mid + [top];
    assert Reverse(mid + [top]) == [top] + Reverse(mid);
  }

  /** The loop of ',' and ')': the stack is popped to the output down to the nearest
      "(" (which stays), or until it is empty. */
  function PopToParen(stack: seq<string>, output: seq<string>): (p: Popped)
    ensures |p.stack| <= |stack| && p.stack == stack[..|p.stack|]
    ensures p.output == output + Reverse(stack[|p.stack|..])
    ensures forall i :: |p.stack| <= i < |stack| ==> stack[i] != "("
    ensures p.stack != [] ==> p.stack[|p.stack| - 1] == "("
    decreases |stack|
  {
    if stack != [] && stack[|stack| - 1] != "(" then
      var top, below := stack[|stack| - 1], stack[..|stack| - 1];
      var p := PopToParen(below, output + [top]);
      PoppedTop(stack, output, p);
      p
    else Popped(stack, output)
  }

  /** The `,` branch: the previous token must not be an operator (`containsKey(null)`
      on the case-insensitive operator map throws when there is none), and the stack
      is popped down to the "(" of the enclosing parameter list, which must exist. */
  function OnComma(ops: Operators.OperatorMap, st: PState, pos: int): (r: Result<PState>)
    ensures r.Ok? ==> r.value.stack != [] && r.value.stack[|r.value.stack| - 1] == "("
    ensures r.Ok? ==> r.value.store == st.store
    ensures r.Err? ==> ParseFailure(r.error)
  {
    if st.previous.None? then Err(NullPointer)
    else if Operators.Contains(ops, st.previous.value) then
      Err(MissingParameters(st.previous.value, Some(pos - 1 - |st.previous.value|)))
    else
      var p := PopToParen(st.stack, st.output);
      if p.stack == [] then Err(ParseErrorForFunction(st.lastFunction))
      else Ok(st.(stack := p.stack, output := p.output))
  }

  /** The operator branch: an operator may not follow "(" or ","; the operators that
      go before it are moved to the output, then it is pushed. */
  function OnOperator(ops: Operators.OperatorMap, st: PState, t: string, pos: int): (r: Result<PState>)
    requires Operators.Contains(ops, t)
    ensures r.Err? <==> st.previous == Some(",") || st.previous == Some("(")
    ensures r.Ok? ==> r.value.stack != [] && r.value.stack[|r.value.stack| - 1] == t
    ensures r.Ok? ==> r.value.store == st.store
  {
    if st.previous == Some(",") || st.previous == Some("(") then
      Err(MissingParameters(t, Some(pos - |t|)))
    else
      var p := PopOperators(ops, Operators.Get(ops, t), st.stack, st.output);
      Ok(st.(stack := p.stack + [t], output := p.output))
  }

  /** The "(" branch: a "(" right after a number is a missing operator; after a
      function name it also goes to the output, where it marks the start of the
      parameter list. */
  function OnOpen(fns: Functions.FunctionMap, st: PState, pos: int): (r: Result<PState>)
    ensures r.Ok? ==> r.value.stack == st.stack + ["("] && r.value.store == st.store
    ensures r.Ok? ==> (r.value.output == st.output + ["("] || r.value.output == st.output)
    ensures r.Ok? && r.value.output != st.output ==>
      st.previous.Some? && Functions.Contains(fns, st.previous.value)
    ensures r.Err? ==> ParseFailure(r.error)
  {
    if st.previous.Some? then
      var prevIsNumber :- Literals.IsNumber(st.previous.value);
      if prevIsNumber then Err(MissingOperator(pos))
      else if Functions.Contains(fns, st.previous.value) then
        Ok(st.(output := st.output + ["("], stack := st.stack + ["("]))
      else Ok(st.(stack := st.stack + ["("]))
    else Ok(st.(stack := st.stack + ["("]))
  }

  /** The ")" branch: the previous token must not be an operator, the stack is popped
      down to the matching "(", which is dropped, and a function name under it goes to
      the output. */
  function OnClose(ops: Operators.OperatorMap, fns: Functions.FunctionMap, st: PState, pos: int): (r: Result<PState>)
    ensures r.Ok? ==> r.value.store == st.store && |r.value.stack| < |st.stack|
    ensures r.Err? ==> ParseFailure(r.error)
  {
    if st.previous.None? then Err(NullPointer)
    else if Operators.Contains(ops, st.previous.value) then
      Err(MissingParameters(st.previous.value, Some(pos - 1 - |st.previous.value|)))
    else
      var p := PopToParen(st.stack, st.output);
      if p.stack == [] then Err(MismatchedParentheses)
      else
        var stack := p.stack[..|p.stack| - 1];
        if stack != [] && Functions.Contains(fns, stack[|stack| - 1]) then
          Ok(st.(stack := stack[..|stack| - 1], output := p.output + [stack[|stack| - 1]]))
        else Ok(st.(stack := stack, output := p.output))
  }

  /** One pass of the token loop of shuntingYard; `pos` is tokenizer.getPos() after
      the token was read.  The branches are tried in the source's order, and
      previousToken becomes the token on every path that does not throw. */
  function Step(ops: Operators.OperatorMap, fns: Functions.FunctionMap, st: PState, t: string, pos: int): (r: Result<PState>)
    ensures r.Ok? ==> r.value.previous == Some(t)
    ensures r.Ok? ==> st.store.Keys <= r.value.store.Keys
    ensures r.Ok? ==> forall k :: k in st.store ==> r.value.store[k] == st.store[k]
    ensures r.Ok? ==> forall k :: k in r.value.store && k !in st.store ==> r.value.store[k].value == Complex(0.0, 0.0)
  {
    var isNum :- Literals.IsNumber(t);
    var next :-
      if isNum then
        var out :- Literals.NumberOutput(t);
        Ok(st.(output := st.output + [out]))
      else if Variables.Contains(st.store, t) then
        Ok(st.(output := st.output + [t]))
      else if Functions.Contains(fns, t) then
        Ok(st.(stack := st.stack + [t], lastFunction := Some(t)))
      else if (IsLetter(t[0]) || t[0] == '_') && !Operators.Contains(ops, t) then
        var store :- Variables.Assign(st.store, t, Complex(0.0, 0.0));
        Ok(st.(store := store, output := st.output + [t]))
      else if t == "," then OnComma(ops, st, pos)
      else if Operators.Contains(ops, t) then OnOperator(ops, st, t, pos)
      else if t == "(" then OnOpen(fns, st, pos)
      else if t == ")" then OnClose(ops, fns, st, pos)
      else Ok(st);
    Ok(next.(previous := Some(t)))
  }

  /** An exception the parser can throw: never one from popping an empty evaluation
      stack or from a missing operand. */
  predicate ParseFailure(e: Error) {
    e != EmptyStack && e != NullOperand
  }

  /** The parser's exceptions never come from popping an empty evaluation stack or
      from a missing operand. */
  lemma StepErrors(ops: Operators.OperatorMap, fns: Functions.FunctionMap, st: PState, t: string, pos: int)
    ensures Step(ops, fns, st, t, pos).Err? ==> ParseFailure(Step(ops, fns, st, t, pos).error)
  {
    var isNum := Literals.IsNumber(t);
    if isNum.Ok? && !isNum.value && !Variables.Contains(st.store, t) && !Functions.Contains(fns, t) {
      if (IsLetter(t[0]) || t[0] == '_') && !Operators.Contains(ops, t) {
        var a := Variables.Assign(st.store, t, Complex(0.0, 0.0));
        assert a.Err? ==> ParseFailure(a.error);
      }
    }
  }

  /** The loop that empties the operator stack at the end: a parenthesis left over
      is a mismatch, a function name left over is unknown. */
  function Finish(ops: Operators.OperatorMap, stack: seq<string>, output: seq<string>): (r: Result<seq<string>>)
    ensures r.Ok? ==> r.value == output + Reverse(stack)
    ensures r.Ok? ==> forall i :: 0 <= i < |stack| ==> Operators.Contains(ops, stack[i])
    decreases |stack|
  {
    if stack == [] then Ok(output)
    else
      var e := stack[|stack| - 1];
      if e == "(" || e == ")" then Err(MismatchedParentheses)
      else if !Operators.Contains(ops, e) then Err(UnknownOperatorOrFunction(e))
      else Finish(ops, stack[..|stack| - 1], output + [e])
  }

  /** The token loop from tokenizer position `pos` of the trimmed input `s`, then the
      final loop.  The tokenizer's previous token is always the parser's. */
  function Run(ops: Operators.OperatorMap, fns: Functions.FunctionMap, s: string, pos: nat, st: PState): (p: Parse)
    ensures st.store.Keys <= p.store.Keys
    ensures forall k :: k in st.store ==> p.store[k] == st.store[k]
    ensures forall k :: k in p.store && k !in st.store ==> p.store[k].value == Complex(0.0, 0.0)
    decreases |s| - pos
  {
    if pos >= |s| then Parse(st.store, Finish(ops, st.stack, st.output))
    else
      match Tokenizer.Scan(ops, s, pos, st.previous)
      case Err(e) => Parse(st.store, Err(e))
      case Ok(sc) =>
        match Step(ops, fns, st, sc.token, sc.next)
        case Err(e) => Parse(st.store, Err(e))
        case Ok(next) => Run(ops, fns, s, sc.next, next)
  }

  /** Expression.shuntingYard(expression): parsing keeps every variable and only
      declares new ones, bound to 0. */
  function ShuntingYard(ops: Operators.OperatorMap, fns: Functions.FunctionMap, store: Variables.Store,
                        expression: string): (p: Parse)
    ensures store.Keys <= p.store.Keys
    ensures forall k :: k in store ==> p.store[k] == store[k]
    ensures forall k :: k in p.store && k !in store ==> p.store[k].value == Complex(0.0, 0.0)
  {
    Run(ops, fns, Trim(expression), 0, Start(store))
  }
}
