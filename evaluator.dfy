/** Expression.eval as a function of the RPN list.  The evaluator's stack holds
    LazyNumber objects: the PARAMS_START marker, or a deferred computation.  An
    operator token pushes a computation that evaluates both operands only when it
    is itself evaluated; a function token evaluates its parameters at once
    (Function.lazyEval) and pushes a computation of the body; the value of the
    expression is the evaluation of the final top of the stack.  The variable
    store is threaded through, since `->` writes to it whenever it is evaluated. */
module Evaluator {
  import opened Outcomes
  import opened Values
  import Variables
  import Operators
  import Functions
  import opened Validator
  import OperatorBodies
  import FunctionBodies

  /** A LazyNumber on the evaluator's stack. */
  datatype Slot =
    | ParamsStart
    | Pending(thunk: Thunk)

  /** The computation a LazyNumber performs when evaluated: a constant, an operator
      applied to the two entries it popped, or a function body applied to the
      parameter values lazyEval computed. */
  datatype Thunk =
    | Const(v: Value)
    | OpApp(op: string, left: Slot, right: Slot)
    | FnCall(fn: string, args: seq<Value>)

  /** LazyNumber.eval() with the store: PARAMS_START yields null, which no operator
      body accepts; an operator evaluates its left operand (popped second) first.
      Evaluation never removes a variable: only `->` changes the store, and it adds
      or overwrites one. */
  function Force(arith: Arith, store: Variables.Store, s: Slot): (e: OperatorBodies.Effect)
    ensures store.Keys <= e.store.Keys
    ensures s.ParamsStart? ==> e.result == Err(NullOperand)
    decreases s
  {
    match s
    case ParamsStart => OperatorBodies.Effect(store, Err(NullOperand))
    case Pending(Const(v)) => OperatorBodies.Effect(store, Ok(v))
    case Pending(FnCall(f, args)) => OperatorBodies.Effect(store, FunctionBodies.ApplyFunction(arith, f, args))
    case Pending(OpApp(op, l, r)) =>
      var left := Force(arith, store, l);
      if left.result.Err? then left
      else
        var right := Force(arith, left.store, r);
        if right.result.Err? then right
        else OperatorBodies.ApplyOperator(arith, right.store, op, left.result.value, right.result.value)
  }

  /** What forcing a list of entries leaves: the store and the values, or the
      exception that stopped it. */
  datatype Forced = Forced(store: Variables.Store, values: Result<seq<Value>>)

  /** The loop of Function.lazyEval: every parameter is evaluated, in list order,
      before the body is run. */
  function ForceAll(arith: Arith, store: Variables.Store, params: seq<Slot>): (f: Forced)
    ensures f.values.Ok? ==> |f.values.value| == |params|
    ensures store.Keys <= f.store.Keys
    decreases |params|
  {
    if params == [] then Forced(store, Ok([]))
    else
      var prefix := ForceAll(arith, store, params[..|params| - 1]);
      if prefix.values.Err? then prefix
      else
        var last := Force(arith, prefix.store, params[|params| - 1]);
        match last.result
        case Err(e) => Forced(last.store, Err(e))
        case Ok(v) => Forced(last.store, Ok(prefix.values.value + [v]))
  }

  /** Each evaluated parameter is the value of the parameter in the same place,
      evaluated in the store the earlier parameters left. */
  lemma {:induction false} ForceAllInOrder(arith: Arith, store: Variables.Store, params: seq<Slot>, k: int)
    requires ForceAll(arith, store, params).values.Ok? && 0 <= k < |params|
    ensures var before := ForceAll(arith, store, params[..k]);
      && before.values.Ok?
      && Force(arith, before.store, params[k]).result == Ok(ForceAll(arith, store, params).values.value[k])
    decreases |params|
  {
    var n := |params| - 1;
    if k < n {
      assert params[..n][..k] == params[..k];
      ForceAllInOrder(arith, store, params[..n], k);
    } else {
      assert params[..k] == params[..n];
    }
  }

  /** An exception while evaluating a parameter ends the loop: the later parameters
      are not evaluated. */
  lemma {:induction false} ForceAllStops(arith: Arith, store: Variables.Store, params: seq<Slot>, k: int)
    requires 0 <= k <= |params| && ForceAll(arith, store, params[..k]).values.Err?
    ensures ForceAll(arith, store, params) == ForceAll(arith, store, params[..k])
    decreases |params|
  {
    if k < |params| {
      var n := |params| - 1;
      assert params[..n][..k] == params[..k];
      ForceAllStops(arith, store, params[..n], k);
    } else {
      assert params[..k] == params;
    }
  }

  /** Function.lazyEval: the parameters are evaluated in a loop; the body itself is
      deferred. */
  method LazyEval(arith: Arith, store: Variables.Store, lazyParams: seq<Slot>) returns (f: Forced)
    ensures f == ForceAll(arith, store, lazyParams)
  {
    var params: seq<Value> := [];
    var s := store;
    var i := 0;
    while i < |lazyParams|
      invariant 0 <= i <= |lazyParams|
      invariant ForceAll(arith, store, lazyParams[..i]) == Forced(s, Ok(params))
    {
      assert lazyParams[..i + 1][..i] == lazyParams[..i];
      var e := Force(arith, s, lazyParams[i]);
      if e.result.Err? {
        ForceAllStops(arith, store, lazyParams, i + 1);
        return Forced(e.store, Err(e.result.error));
      }
      params := params + [e.result.value];
      s := e.store;
      i := i + 1;
    }
    assert lazyParams[..i] == lazyParams;
    f := Forced(s, Ok(params));
  }

  /** `new MyComplex(token)`, or for a token ending in `i` `new MyComplex("0", x)`
      with x the token without its `i` ("1" when nothing is left). */
  function ParseLiteral(arith: Arith, t: string): (r: Result<Value>)
    ensures r.Ok? && |t| > 0 && t[|t| - 1] == 'i' ==> TypeOf(r.value) == COMPLEX && Re(r.value) == 0.0
    ensures r.Ok? && !(|t| > 0 && t[|t| - 1] == 'i') ==> TypeOf(r.value) == REAL && Some(Re(r.value)) == arith.parse(t)
    ensures r.Err? ==> r.error.NumberFormat?
    ensures |t| > 0 && t[|t| - 1] == 'i' ==>
      var str := if |t| == 1 then "1" else t[..|t| - 1];
      (r.Ok? <==> arith.parse(str).Some?) && (r.Ok? ==> Some(Im(r.value)) == arith.parse(str))
    ensures !(|t| > 0 && t[|t| - 1] == 'i') ==> (r.Ok? <==> arith.parse(t).Some?)
  {
    if |t| > 0 && t[|t| - 1] == 'i' then
      var str := if |t| == 1 then "1" else t[..|t| - 1];
      match arith.parse(str)
      case None => Err(NumberFormat(str))
      case Some(y) => Ok(Complex(0.0, y))
    else
      match arith.parse(t)
      case None => Err(NumberFormat(t))
      case Some(x) => Ok(Real(x))
  }

  /** The index of the nearest PARAMS_START below the top, if any. */
  function MarkerIndex(stack: seq<Slot>): (m: int)
    ensures -1 <= m < |stack|
    ensures m >= 0 ==> stack[m] == ParamsStart
    ensures forall i :: m < i < |stack| ==> stack[i] != ParamsStart
    decreases |stack|
  {
    if stack == [] then -1
    else if stack[|stack| - 1] == ParamsStart then |stack| - 1
    else MarkerIndex(stack[..|stack| - 1])
  }

  /** What one pass of the loop of eval leaves: the store, and the new stack or the
      exception. */
  datatype Step = Step(store: Variables.Store, stack: Result<seq<Slot>>)

  /** A variable is pushed as a copy that remembers the variable's name (a
      PitDecimal), unless it holds an array, which is pushed itself. */
  function VariableEntry(v: Value, t: string): (e: Value)
    ensures v.Arr? ==> e == v
    ensures !v.Arr? ==> e.Named? && e.name == t && Re(e) == Re(v) && Im(e) == Im(v) && TypeOf(e) == TypeOf(v)
  {
    if v.Arr? then v else Named(t, v.tag, v.re, v.im)
  }

  /** One pass of the loop of eval over the token `t`. */
  function EvalToken(ops: Operators.OperatorMap, fns: Functions.FunctionMap, arith: Arith,
                     store: Variables.Store, stack: seq<Slot>, t: string): (r: Step)
    ensures r.stack.Ok? && Validator.KindOf(ops, fns, store, t) != Validator.FunctionToken ==> r.store == store
    ensures store.Keys <= r.store.Keys
  {
    match Validator.KindOf(ops, fns, store, t)
    case OperatorToken =>
      if |stack| < 2 then Step(store, Err(EmptyStack))
      else
        var n := |stack|;
        var op := Operators.Get(ops, t).name;
        Step(store, Ok(stack[..n - 2] + [Pending(OpApp(op, stack[n - 2], stack[n - 1]))]))
    case VariableToken =>
      var v := Variables.Lookup(store, t).value;
      Step(store, Ok(stack + [Pending(Const(VariableEntry(v, t)))]))
    case FunctionToken =>
      var f := Functions.Get(fns, t);
      var m := MarkerIndex(stack);
      if m < 0 then Step(store, Err(EmptyStack))
      else
        var forced := ForceAll(arith, store, stack[m + 1..]);
        if forced.values.Err? then Step(forced.store, Err(forced.values.error))
        else Step(forced.store, Ok(stack[..m] + [Pending(FnCall(f.name, forced.values.value))]))
    case OpenParen => Step(store, Ok(stack + [ParamsStart]))
    case Literal =>
      match ParseLiteral(arith, t)
      case Err(e) => Step(store, Err(e))
      case Ok(v) => Step(store, Ok(stack + [Pending(Const(v))]))
  }

  /** A literal token pushes its parsed value, or fails as its parse fails. */
  lemma LiteralToken(ops: Operators.OperatorMap, fns: Functions.FunctionMap, arith: Arith,
                     store: Variables.Store, stack: seq<Slot>, t: string)
    requires Validator.KindOf(ops, fns, store, t) == Validator.Literal
    ensures var step := EvalToken(ops, fns, arith, store, stack, t);
      && step.store == store
      && (ParseLiteral(arith, t).Err? ==> step.stack == Err(ParseLiteral(arith, t).error))
      && (ParseLiteral(arith, t).Ok? ==> step.stack == Ok(stack + [Pending(Const(ParseLiteral(arith, t).value))]))
  {
  }

  /** A function token inside a parameter list forces the parameters above the
      marker and replaces them, marker included, by the pending call. */
  lemma FunctionTokenStep(ops: Operators.OperatorMap, fns: Functions.FunctionMap, arith: Arith,
                          store: Variables.Store, stack: seq<Slot>, t: string)
    requires Validator.KindOf(ops, fns, store, t) == Validator.FunctionToken
    ensures MarkerIndex(stack) < 0 ==> EvalToken(ops, fns, arith, store, stack, t) == Step(store, Err(EmptyStack))
    ensures MarkerIndex(stack) >= 0 ==>
      var m := MarkerIndex(stack); var forced := ForceAll(arith, store, stack[m + 1..]);
      var step := EvalToken(ops, fns, arith, store, stack, t);
      && step.store == forced.store
      && (forced.values.Err? ==> step.stack == Err(forced.values.error))
      && (forced.values.Ok? ==>
            step.stack == Ok(stack[..m] + [Pending(FnCall(Functions.Get(fns, t).name, forced.values.value))]))
  {
  }

  /** The loop of eval over the rest of the list; it never removes a variable. */
  function Run(ops: Operators.OperatorMap, fns: Functions.FunctionMap, arith: Arith,
               store: Variables.Store, stack: seq<Slot>, rpn: seq<string>): (r: Step)
    ensures store.Keys <= r.store.Keys
    decreases |rpn|
  {
    if rpn == [] then Step(store, Ok(stack))
    else
      var step := EvalToken(ops, fns, arith, store, stack, rpn[0]);
      if step.stack.Err? then step
      else Run(ops, fns, arith, step.store, step.stack.value, rpn[1..])
  }

  /** The value of eval: `null` (None) when the final top is PARAMS_START. */
  datatype Final = Final(store: Variables.Store, result: Result<Option<Value>>)

  /** `stack.pop().eval()` after the loop. */
  function PopFinal(arith: Arith, store: Variables.Store, stack: seq<Slot>): (f: Final)
    ensures stack == [] ==> f == Final(store, Err(EmptyStack))
  {
    if stack == [] then Final(store, Err(EmptyStack))
    else if stack[|stack| - 1] == ParamsStart then Final(store, Ok(None))
    else
      var e := Force(arith, store, stack[|stack| - 1]);
      if e.result.Err? then Final(e.store, Err(e.result.error)) else Final(e.store, Ok(Some(e.result.value)))
  }

  /** Expression.eval on the RPN list `rpn`: the empty list pops an empty stack, and
      no variable is ever removed. */
  function Eval(ops: Operators.OperatorMap, fns: Functions.FunctionMap, arith: Arith,
                store: Variables.Store, rpn: seq<string>): (r: Final)
    ensures rpn == [] ==> r == Final(store, Err(EmptyStack))
    ensures store.Keys <= r.store.Keys
  {
    var run := Run(ops, fns, arith, store, [], rpn);
    if run.stack.Err? then Final(run.store, Err(run.stack.error))
    else PopFinal(arith, run.store, run.stack.value)
  }

  /** The loop over `a + b` is the loop over `a`, then, unless that stopped with an
      exception, the loop over `b` from where it left off. */
  lemma {:induction false} RunAppend(ops: Operators.OperatorMap, fns: Functions.FunctionMap, arith: Arith,
                                     store: Variables.Store, stack: seq<Slot>, a: seq<string>, b: seq<string>)
    ensures var ra := Run(ops, fns, arith, store, stack, a);
      Run(ops, fns, arith, store, stack, a + b) ==
        if ra.stack.Err? then ra else Run(ops, fns, arith, ra.store, ra.stack.value, b)
    decreases |a|
  {
    if a != [] {
      assert (a + b)[0] == a[0] && (a + b)[1..] == a[1..] + b;
      var step := EvalToken(ops, fns, arith, store, stack, a[0]);
      if step.stack.Ok? {
        RunAppend(ops, fns, arith, step.store, step.stack.value, a[1..], b);
      }
    } else {
      assert a + b == b;
    }
  }

  /** Operator tokens take the entry pushed first as their left operand: on two
      constants a then b, the operator body gets (a, b). */
  lemma OperandOrder(ops: Operators.OperatorMap, fns: Functions.FunctionMap, arith: Arith,
                     store: Variables.Store, rest: seq<Slot>, a: Value, b: Value, t: string)
    requires Validator.KindOf(ops, fns, store, t) == Validator.OperatorToken
    ensures var step := EvalToken(ops, fns, arith, store, rest + [Pending(Const(a)), Pending(Const(b))], t);
      && step.stack.Ok? && |step.stack.value| == |rest| + 1
      && step.stack.value[..|rest|] == rest
      && Force(arith, store, step.stack.value[|rest|]) ==
         OperatorBodies.ApplyOperator(arith, store, Operators.Get(ops, t).name, a, b)
  {
    var stack := rest + [Pending(Const(a)), Pending(Const(b))];
    assert stack[..|stack| - 2] == rest;
  }

  /** A function token takes exactly the entries above the nearest PARAMS_START,
      evaluated in the order they were pushed, and removes the marker. */
  lemma FunctionTakesSegment(ops: Operators.OperatorMap, fns: Functions.FunctionMap, arith: Arith,
                             store: Variables.Store, rest: seq<Slot>, params: seq<Slot>, t: string)
    requires Validator.KindOf(ops, fns, store, t) == Validator.FunctionToken
    requires forall i :: 0 <= i < |params| ==> params[i] != ParamsStart
    requires ForceAll(arith, store, params).values.Ok?
    ensures var step := EvalToken(ops, fns, arith, store, rest + [ParamsStart] + params, t);
      var forced := ForceAll(arith, store, params);
      && step.stack.Ok? && step.store == forced.store
      && step.stack.value == rest + [Pending(FnCall(Functions.Get(fns, t).name, forced.values.value))]
      && |forced.values.value| == |params|
  {
    var stack := rest + [ParamsStart] + params;
    var m := MarkerIndex(stack);
    assert stack[|rest|] == ParamsStart;
    assert m == |rest|;
    assert stack[m + 1..] == params && stack[..m] == rest;
  }
}
