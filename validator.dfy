/** Expression.validate: the RPN list is checked against a stack of per-scope
    counts, one scope per open parameter list, each count being the number of
    values that scope holds.  The stack is a sequence whose last element is the
    top. */
module Validator {
  import opened Outcomes
  import Variables
  import Operators
  import Functions

  /** How validate and eval classify an RPN token; both test in this order. */
  datatype Kind = OperatorToken | VariableToken | FunctionToken | OpenParen | Literal

  function KindOf(ops: Operators.OperatorMap, fns: Functions.FunctionMap, store: Variables.Store,
                  t: string): (k: Kind)
    ensures k == OperatorToken <==> Operators.Contains(ops, t)
    ensures k == VariableToken <==> !Operators.Contains(ops, t) && Variables.Contains(store, t)
    ensures k == FunctionToken <==>
      !Operators.Contains(ops, t) && !Variables.Contains(store, t) && Functions.Contains(fns, t)
    ensures k == OpenParen ==> t == "("
  {
    if Operators.Contains(ops, t) then OperatorToken
    else if Variables.Contains(store, t) then VariableToken
    else if Functions.Contains(fns, t) then FunctionToken
    else if t == "(" then OpenParen
    else Literal
  }

  /** One pass of the loop of validate over the scope stack `scopes`. */
  function ScopeStep(ops: Operators.OperatorMap, fns: Functions.FunctionMap, store: Variables.Store,
                     scopes: seq<nat>, t: string): (r: Result<seq<nat>>)
    requires scopes != []
    ensures r.Ok? ==> r.value != [] && |r.value| >= |scopes| - 1
  {
    var top := scopes[|scopes| - 1];
    var below := scopes[..|scopes| - 1];
    match KindOf(ops, fns, store, t)
    case OperatorToken =>
      if top < 2 then Err(MissingParameters(t, None)) else Ok(below + [top - 1])
    case VariableToken => Ok(below + [top + 1])
    case FunctionToken =>
      var f := Functions.Get(fns, t);
      if !Functions.NumParamsVaries(f) && top != f.numParams then
        Err(WrongParameterCount(t, f.numParams, top))
      else if below == [] then Err(ScopeExceeded)
      else Ok(below[..|below| - 1] + [below[|below| - 1] + 1])
    case OpenParen => Ok(scopes + [0])
    case Literal => Ok(below + [top + 1])
  }

  /** The scope stack after one successful pass, kind by kind. */
  lemma ScopeStepValue(ops: Operators.OperatorMap, fns: Functions.FunctionMap, store: Variables.Store,
                       scopes: seq<nat>, t: string)
    requires scopes != [] && ScopeStep(ops, fns, store, scopes, t).Ok?
    ensures var r := ScopeStep(ops, fns, store, scopes, t).value; var n := |scopes|;
      && (KindOf(ops, fns, store, t) == OperatorToken ==> r == scopes[..n - 1] + [scopes[n - 1] - 1])
      && (KindOf(ops, fns, store, t) == FunctionToken ==> n >= 2 && r == scopes[..n - 2] + [scopes[n - 2] + 1])
      && (KindOf(ops, fns, store, t) == OpenParen ==> r == scopes + [0])
      && (KindOf(ops, fns, store, t) in {VariableToken, Literal} ==> r == scopes[..n - 1] + [scopes[n - 1] + 1])
  {
    var below := scopes[..|scopes| - 1];
    if KindOf(ops, fns, store, t) == FunctionToken {
      assert below[..|below| - 1] == scopes[..|scopes| - 2];
    }
  }

  /** The checks after the loop: one scope is left, holding exactly one value. */
  function FinalCheck(scopes: seq<nat>): (r: Outcome)
    requires scopes != []
    ensures r.Pass? <==> scopes == [1]
  {
    if |scopes| > 1 then Fail(UnhandledParameterLists)
    else if scopes[0] > 1 then Fail(TooManyNumbers)
    else if scopes[0] < 1 then Fail(EmptyExpression)
    else Pass
  }

  /** The loop of validate from the scope stack `scopes`; it can only pass when
      every open parameter list still has a token left to close it. */
  function ValidateFrom(ops: Operators.OperatorMap, fns: Functions.FunctionMap, store: Variables.Store,
                        scopes: seq<nat>, rpn: seq<string>): (r: Outcome)
    requires scopes != []
    ensures r.Pass? ==> |scopes| <= |rpn| + 1
    decreases |rpn|
  {
    if rpn == [] then FinalCheck(scopes)
    else
      match ScopeStep(ops, fns, store, scopes, rpn[0])
      case Err(e) => Fail(e)
      case Ok(next) => ValidateFrom(ops, fns, store, next, rpn[1..])
  }

  /** Expression.validate(rpn), starting from the global scope [0]: an empty list is
      an empty expression, and a list that passes cannot start with an operator or a
      function. */
  function Validate(ops: Operators.OperatorMap, fns: Functions.FunctionMap, store: Variables.Store,
                    rpn: seq<string>): (r: Outcome)
    ensures rpn == [] ==> r == Fail(EmptyExpression)
    ensures r.Pass? ==> rpn != [] && KindOf(ops, fns, store, rpn[0]) != OperatorToken
                                  && KindOf(ops, fns, store, rpn[0]) != FunctionToken
  {
    ValidateFrom(ops, fns, store, [0], rpn)
  }

  /** The scope stack after the loop over all of `rpn`, or the error that stops it. */
  function Scopes(ops: Operators.OperatorMap, fns: Functions.FunctionMap, store: Variables.Store,
                  scopes: seq<nat>, rpn: seq<string>): (r: Result<seq<nat>>)
    requires scopes != []
    ensures r.Ok? ==> r.value != []
    decreases |rpn|
  {
    if rpn == [] then Ok(scopes)
    else
      match ScopeStep(ops, fns, store, scopes, rpn[0])
      case Err(e) => Err(e)
      case Ok(next) => Scopes(ops, fns, store, next, rpn[1..])
  }

  /** validate accepts exactly when the loop gets through the list and leaves the
      single global scope holding one value. */
  lemma {:induction false} AcceptsExactlyOne(ops: Operators.OperatorMap, fns: Functions.FunctionMap,
                                             store: Variables.Store, scopes: seq<nat>, rpn: seq<string>)
    requires scopes != []
    ensures ValidateFrom(ops, fns, store, scopes, rpn).Pass? <==> Scopes(ops, fns, store, scopes, rpn) == Ok([1])
    decreases |rpn|
  {
    if rpn != [] {
      match ScopeStep(ops, fns, store, scopes, rpn[0])
      case Err(_) =>
      case Ok(next) => AcceptsExactlyOne(ops, fns, store, next, rpn[1..]);
    }
  }

  /** The scope stack after a prefix of the list, and the loop continuing from it. */
  lemma {:induction false} ScopesAppend(ops: Operators.OperatorMap, fns: Functions.FunctionMap,
                                        store: Variables.Store, scopes: seq<nat>, rpn: seq<string>, t: string)
    requires scopes != []
    ensures Scopes(ops, fns, store, scopes, rpn + [t]) ==
      (match Scopes(ops, fns, store, scopes, rpn)
       case Err(e) => Err(e)
       case Ok(s) => ScopeStep(ops, fns, store, s, t))
    decreases |rpn|
  {
    if rpn == [] {
      assert [t][1..] == [];
    } else {
      assert (rpn + [t])[1..] == rpn[1..] + [t];
      match ScopeStep(ops, fns, store, scopes, rpn[0])
      case Err(_) =>
      case Ok(next) => ScopesAppend(ops, fns, store, next, rpn[1..], t);
    }
  }

  /** An operator needs two values in its scope: `1 +` is refused. */
  lemma OperatorNeedsTwo(ops: Operators.OperatorMap, fns: Functions.FunctionMap, store: Variables.Store)
    requires Operators.Contains(ops, "+") && !Operators.Contains(ops, "1") && !Variables.Contains(store, "1")
    requires !Functions.Contains(fns, "1")
    ensures Validate(ops, fns, store, ["1", "+"]) == Fail(MissingParameters("+", None))
  {
    assert ["1", "+"][1..] == ["+"];
  }

  /** A fixed-arity function call that does not get its parameter count is refused,
      whatever else the list holds. */
  lemma WrongArity(ops: Operators.OperatorMap, fns: Functions.FunctionMap, store: Variables.Store,
                   scopes: seq<nat>, t: string)
    requires scopes != [] && KindOf(ops, fns, store, t) == FunctionToken
    requires var f := Functions.Get(fns, t); !Functions.NumParamsVaries(f) && scopes[|scopes| - 1] != f.numParams
    ensures ScopeStep(ops, fns, store, scopes, t).Err?
    ensures ScopeStep(ops, fns, store, scopes, t).error.WrongParameterCount?
  {
  }
}
