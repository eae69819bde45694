/** What validate guarantees about eval.  The scope stack of validate is the shape
    of eval's stack of LazyNumbers: one count per PARAMS_START marker (and one for
    the bottom), each count being the number of entries above that marker.  When
    validate accepts a list, eval never runs out of stack and never uses the marker
    as a value, and its final stack holds exactly one deferred computation, so the
    expression has a (non-null) value unless an operator or function body fails. */
module Soundness {
  import opened Outcomes
  import opened Text
  import opened Values
  import Variables
  import Operators
  import Functions
  import opened Validator
  import OperatorBodies
  import FunctionBodies
  import opened Evaluator
  import Parser
  import Tokenizer

  /** The scope counts a stack of LazyNumbers stands for. */
  function Shape(stack: seq<Slot>): (s: seq<nat>)
    ensures s != []
    decreases |stack|
  {
    if stack == [] then [0]
    else
      var below := Shape(stack[..|stack| - 1]);
      if stack[|stack| - 1] == ParamsStart then below + [0]
      else below[..|below| - 1] + [below[|below| - 1] + 1]
  }

  /** Every name a stored value carries is a variable of the store. */
  ghost predicate Closed(store: Variables.Store)
  {
    forall f :: f in store ==> NamesWithin(store[f].value, store.Keys)
  }

  /** A deferred computation that never reaches a marker and carries only names
      of `keys`. */
  predicate Sound(s: Slot, keys: set<string>)
    decreases s
  {
    match s
    case ParamsStart => false
    case Pending(Const(v)) => NamesWithin(v, keys)
    case Pending(FnCall(_, args)) => forall i :: 0 <= i < |args| ==> NamesWithin(args[i], keys)
    case Pending(OpApp(_, l, r)) => Sound(l, keys) && Sound(r, keys)
  }

  /** Every entry of the stack is a marker or a sound computation. */
  predicate WellFormed(stack: seq<Slot>, keys: set<string>)
  {
    forall i :: 0 <= i < |stack| ==> stack[i] == ParamsStart || Sound(stack[i], keys)
  }

  /** The exceptions that come from the evaluator's own stack discipline. */
  predicate StackError(e: Error)
  {
    e == EmptyStack || e == NullOperand
  }

  /** The library functions fail, if at all, for reasons of their own. */
  ghost predicate LibraryErrorsForeign(arith: Arith)
  {
    forall f, args :: arith.library(f, args).Err? ==> !StackError(arith.library(f, args).error)
  }

  /** `->` on operands with known names keeps the set of variables (its left
      operand names one of them) and keeps the store closed. */
  lemma AssignSafe(store: Variables.Store, v1: Value, v2: Value)
    requires Closed(store) && NamesWithin(v1, store.Keys) && NamesWithin(v2, store.Keys)
    ensures var e := OperatorBodies.SetVariable(store, v1, v2);
      && e.store.Keys == store.Keys && Closed(e.store)
      && (e.result.Ok? ==> NamesWithin(e.result.value, store.Keys))
      && (e.result.Err? ==> !StackError(e.result.error))
  {
    var e := OperatorBodies.SetVariable(store, v1, v2);
    if e.result.Ok? {
      var key := store[Fold(v1.name)].key;
      assert e.store == store[Fold(v1.name) := Variables.Binding(key, v2)];
    }
  }

  /** The other operator bodies build values from their operands' parts, or
      arrays from their elements. */
  lemma ValueOperatorNames(arith: Arith, store: Variables.Store, name: string, v1: Value, v2: Value)
    requires name != "->"
    requires NamesWithin(v1, store.Keys) && NamesWithin(v2, store.Keys)
    ensures var e := OperatorBodies.ApplyOperator(arith, store, name, v1, v2);
      && (e.result.Ok? ==> NamesWithin(e.result.value, store.Keys))
      && (e.result.Err? ==> !StackError(e.result.error))
  {
    var e := OperatorBodies.ApplyOperator(arith, store, name, v1, v2);
    if name == "-" && v1.Arr? {
      var r := OperatorBodies.Minus(arith, v1, v2);
      assert e.result == Ok(r);
      forall i | 0 <= i < |r.items|
        ensures NamesWithin(r.items[i], store.Keys)
      {
        var j :| 0 <= j < |v1.items| && v1.items[j] == r.items[i];
      }
    } else if name == "+" && v1.Arr? {
      var r := OperatorBodies.Plus(arith, v1, v2);
      assert e.result == Ok(r);
      assert forall i :: 0 <= i < |v1.items| ==> r.items[i] == v1.items[i];
    } else if e.result.Ok? {
      assert !e.result.value.Named? && !e.result.value.Arr?;
    }
  }

  /** An operator body keeps the set of variables, keeps the store closed, adds
      no name and never fails for want of stack. */
  lemma OperatorSafe(arith: Arith, store: Variables.Store, name: string, v1: Value, v2: Value)
    requires Closed(store) && NamesWithin(v1, store.Keys) && NamesWithin(v2, store.Keys)
    ensures var e := OperatorBodies.ApplyOperator(arith, store, name, v1, v2);
      && e.store.Keys == store.Keys && Closed(e.store)
      && (e.result.Ok? ==> NamesWithin(e.result.value, store.Keys))
      && (e.result.Err? ==> !StackError(e.result.error))
  {
    if name == "->" {
      AssignSafe(store, v1, v2);
    } else {
      ValueOperatorNames(arith, store, name, v1, v2);
    }
  }

  /** Function bodies fail only for reasons of their own. */
  lemma FunctionSafe(arith: Arith, name: string, args: seq<Value>)
    requires LibraryErrorsForeign(arith)
    ensures FunctionBodies.ApplyFunction(arith, name, args).Err? ==>
      !StackError(FunctionBodies.ApplyFunction(arith, name, args).error)
  {
  }

  /** Evaluating a sound computation keeps the set of variables and the store
      closed, gives a value with known names, and never fails for want of stack. */
  lemma {:induction false} ForceSafe(arith: Arith, store: Variables.Store, s: Slot)
    requires LibraryMakesNoNames(arith) && LibraryErrorsForeign(arith)
    requires Closed(store) && Sound(s, store.Keys)
    ensures var e := Force(arith, store, s);
      && e.store.Keys == store.Keys && Closed(e.store)
      && (e.result.Ok? ==> NamesWithin(e.result.value, store.Keys))
      && (e.result.Err? ==> !StackError(e.result.error))
    decreases s
  {
    match s
    case Pending(Const(v)) =>
    case Pending(FnCall(f, args)) =>
      FunctionSafe(arith, f, args);
      FunctionBodies.ResultNames(arith, f, args, store.Keys);
    case Pending(OpApp(op, l, r)) =>
      ForceSafe(arith, store, l);
      var left := Force(arith, store, l);
      if left.result.Ok? {
        ForceSafe(arith, left.store, r);
        var right := Force(arith, left.store, r);
        if right.result.Ok? {
          OperatorSafe(arith, right.store, op, left.result.value, right.result.value);
        }
      }
  }

  /** The same for the parameters lazyEval evaluates. */
  lemma {:induction false} ForceAllSafe(arith: Arith, store: Variables.Store, params: seq<Slot>)
    requires LibraryMakesNoNames(arith) && LibraryErrorsForeign(arith)
    requires Closed(store) && forall i :: 0 <= i < |params| ==> Sound(params[i], store.Keys)
    ensures var f := ForceAll(arith, store, params);
      && f.store.Keys == store.Keys && Closed(f.store)
      && (f.values.Ok? ==> forall i :: 0 <= i < |f.values.value| ==> NamesWithin(f.values.value[i], store.Keys))
      && (f.values.Err? ==> !StackError(f.values.error))
    decreases |params|
  {
    if params != [] {
      var n := |params| - 1;
      ForceAllSafe(arith, store, params[..n]);
      var prefix := ForceAll(arith, store, params[..n]);
      if prefix.values.Ok? {
        ForceSafe(arith, prefix.store, params[n]);
      }
    }
  }

  /** The entries above the nearest marker are as many as the top count of the
      shape, and below the marker lies the shape without its top. */
  lemma {:induction false} ShapeSegment(stack: seq<Slot>)
    ensures var m := MarkerIndex(stack); var s := Shape(stack);
      && |stack| - m - 1 == s[|s| - 1]
      && (m < 0 <==> |s| == 1)
      && (m >= 0 ==> Shape(stack[..m]) == s[..|s| - 1])
    decreases |stack|
  {
    if stack != [] {
      var n := |stack| - 1;
      if stack[n] != ParamsStart {
        ShapeSegment(stack[..n]);
        var m := MarkerIndex(stack[..n]);
        if m >= 0 {
          assert stack[..n][..m] == stack[..m];
        }
      } else {
        assert stack[..n] == stack[..|stack| - 1];
      }
    }
  }

  /** Pushing a marker opens a scope; pushing a value counts it in the top scope. */
  lemma {:induction false} PushShape(stack: seq<Slot>, s: Slot)
    ensures var below := Shape(stack);
      Shape(stack + [s]) == if s == ParamsStart then below + [0] else below[..|below| - 1] + [below[|below| - 1] + 1]
  {
    var t := stack + [s];
    assert t[..|t| - 1] == stack;
    assert t[|t| - 1] == s;
  }

  /** Well-formedness survives pushing a marker or a sound computation. */
  lemma {:induction false} PushWellFormed(stack: seq<Slot>, s: Slot, keys: set<string>)
    requires WellFormed(stack, keys) && (s == ParamsStart || Sound(s, keys))
    ensures WellFormed(stack + [s], keys)
  {
    assert forall i :: 0 <= i < |stack| ==> (stack + [s])[i] == stack[i];
  }

  /** The shape after two values are pushed and then replaced by one. */
  lemma {:induction false} ReplaceTwoShape(rest: seq<Slot>, a: Slot, b: Slot, c: Slot)
    requires a != ParamsStart && b != ParamsStart && c != ParamsStart
    ensures var sh := Shape(rest + [a, b]);
      Shape(rest + [c]) == sh[..|sh| - 1] + [sh[|sh| - 1] - 1]
  {
    PushTwoShape(rest, a, b);
    PushShape(rest, c);
    TwoBumps(Shape(rest), Shape(rest + [a, b]), Shape(rest + [c]));
  }

  /** Two values pushed in a row add two to the top count. */
  lemma {:induction false} PushTwoShape(rest: seq<Slot>, a: Slot, b: Slot)
    requires a != ParamsStart && b != ParamsStart
    ensures var sh0, sh := Shape(rest), Shape(rest + [a, b]);
      |sh| == |sh0| && sh[..|sh| - 1] == sh0[..|sh0| - 1] && sh[|sh| - 1] == sh0[|sh0| - 1] + 2
  {
    PushShape(rest, a);
    assert rest + [a] + [b] == rest + [a, b];
    PushShape(rest + [a], b);
  }

  /** Counting two values and taking one away counts one value. */
  lemma TwoBumps(sh0: seq<nat>, sh: seq<nat>, sc: seq<nat>)
    requires sh0 != [] && |sh| == |sh0| && sh[..|sh| - 1] == sh0[..|sh0| - 1] && sh[|sh| - 1] == sh0[|sh0| - 1] + 2
    requires sc == sh0[..|sh0| - 1] + [sh0[|sh0| - 1] + 1]
    ensures sc == sh[..|sh| - 1] + [sh[|sh| - 1] - 1]
  {
  }

  /** A top scope counting two or more values has two non-marker entries on top. */
  lemma TwoOperands(stack: seq<Slot>)
    requires Shape(stack)[|Shape(stack)| - 1] >= 2
    ensures |stack| >= 2 && stack[|stack| - 2] != ParamsStart && stack[|stack| - 1] != ParamsStart
  {
    ShapeSegment(stack);
    assert MarkerIndex(stack) < |stack| - 2;
  }

  /** Replacing the two top entries of a scope by the operator computation over
      them takes one from the scope's count. */
  lemma OperatorShape(stack: seq<Slot>, keys: set<string>, op: string)
    requires WellFormed(stack, keys) && Shape(stack)[|Shape(stack)| - 1] >= 2
    ensures var n := |stack|; var sh := Shape(stack);
      && n >= 2
      && var next := stack[..n - 2] + [Pending(OpApp(op, stack[n - 2], stack[n - 1]))];
      && WellFormed(next, keys)
      && Shape(next) == sh[..|sh| - 1] + [sh[|sh| - 1] - 1]
  {
    var n := |stack|;
    TwoOperands(stack);
    var rest, a, b := stack[..n - 2], stack[n - 2], stack[n - 1];
    var s := Pending(OpApp(op, a, b));
    assert WellFormed(rest + [s], keys) by {
      assert Sound(s, keys);
      PushWellFormed(rest, s, keys);
    }
    var sh := Shape(stack);
    assert Shape(rest + [s]) == sh[..|sh| - 1] + [sh[|sh| - 1] - 1] by {
      assert stack == rest + [a, b];
      ReplaceTwoShape(rest, a, b, s);
    }
  }

  /** An operator token replaces the two top entries of a scope by one. */
  lemma OperatorStep(ops: Operators.OperatorMap, fns: Functions.FunctionMap, arith: Arith,
                     store: Variables.Store, stack: seq<Slot>, t: string)
    requires KindOf(ops, fns, store, t) == OperatorToken
    requires WellFormed(stack, store.Keys) && Shape(stack)[|Shape(stack)| - 1] >= 2
    ensures var step := EvalToken(ops, fns, arith, store, stack, t); var sh := Shape(stack);
      && step.store == store && step.stack.Ok? && WellFormed(step.stack.value, store.Keys)
      && Shape(step.stack.value) == sh[..|sh| - 1] + [sh[|sh| - 1] - 1]
  {
    var op := Operators.Get(ops, t).name;
    OperatorShape(stack, store.Keys, op);
    var n := |stack|;
    assert EvalToken(ops, fns, arith, store, stack, t) ==
      Step(store, Ok(stack[..n - 2] + [Pending(OpApp(op, stack[n - 2], stack[n - 1]))]));
  }

  /** The shape after a scope is closed by one value pushed below its marker. */
  lemma {:induction false} CloseScopeShape(stack: seq<Slot>, c: Slot)
    requires MarkerIndex(stack) >= 0 && c != ParamsStart
    ensures var sh := Shape(stack);
      |sh| >= 2 && Shape(stack[..MarkerIndex(stack)] + [c]) == sh[..|sh| - 2] + [sh[|sh| - 2] + 1]
  {
    var m := MarkerIndex(stack);
    var sh := Shape(stack);
    ShapeSegment(stack);
    var below := Shape(stack[..m]);
    assert below == sh[..|sh| - 1];
    assert |sh| >= 2;
    PushShape(stack[..m], c);
    assert below[..|below| - 1] == sh[..|sh| - 2];
    assert below[|below| - 1] == sh[|sh| - 2];
  }

  /** A function token evaluates the entries above the nearest marker and
      replaces them and the marker by one entry of the scope below. */
  lemma FunctionStep(ops: Operators.OperatorMap, fns: Functions.FunctionMap, arith: Arith,
                     store: Variables.Store, stack: seq<Slot>, t: string)
    requires LibraryMakesNoNames(arith) && LibraryErrorsForeign(arith)
    requires KindOf(ops, fns, store, t) == FunctionToken
    requires Closed(store) && WellFormed(stack, store.Keys) && |Shape(stack)| >= 2
    ensures var step := EvalToken(ops, fns, arith, store, stack, t); var sh := Shape(stack);
      && step.store.Keys == store.Keys && Closed(step.store)
      && (step.stack.Err? ==> !StackError(step.stack.error))
      && (step.stack.Ok? ==>
            WellFormed(step.stack.value, store.Keys) && Shape(step.stack.value) == sh[..|sh| - 2] + [sh[|sh| - 2] + 1])
  {
    ShapeSegment(stack);
    var m := MarkerIndex(stack);
    ParamsSafe(arith, store, stack, m);
    var forced := ForceAll(arith, store, stack[m + 1..]);
    FunctionTokenStep(ops, fns, arith, store, stack, t);
    if forced.values.Ok? {
      CallPushed(stack, Pending(FnCall(Functions.Get(fns, t).name, forced.values.value)), store.Keys);
    }
  }

  /** Forcing the entries above a marker of a well-formed stack is safe. */
  lemma ParamsSafe(arith: Arith, store: Variables.Store, stack: seq<Slot>, m: int)
    requires LibraryMakesNoNames(arith) && LibraryErrorsForeign(arith)
    requires Closed(store) && WellFormed(stack, store.Keys) && m == MarkerIndex(stack) >= 0
    ensures var f := ForceAll(arith, store, stack[m + 1..]);
      && f.store.Keys == store.Keys && Closed(f.store)
      && (f.values.Ok? ==> forall i :: 0 <= i < |f.values.value| ==> NamesWithin(f.values.value[i], store.Keys))
      && (f.values.Err? ==> !StackError(f.values.error))
  {
    var params := stack[m + 1..];
    assert forall i :: 0 <= i < |params| ==> params[i] == stack[m + 1 + i];
    ForceAllSafe(arith, store, params);
  }

  /** Replacing a parameter list and its marker by a sound call keeps the stack
      well formed and counts the call in the scope below. */
  lemma CallPushed(stack: seq<Slot>, s: Slot, keys: set<string>)
    requires MarkerIndex(stack) >= 0 && WellFormed(stack, keys) && s != ParamsStart && Sound(s, keys)
    ensures var sh := Shape(stack); var m := MarkerIndex(stack);
      && |sh| >= 2 && WellFormed(stack[..m] + [s], keys)
      && Shape(stack[..m] + [s]) == sh[..|sh| - 2] + [sh[|sh| - 2] + 1]
  {
    var m := MarkerIndex(stack);
    CloseScopeShape(stack, s);
    PushWellFormed(stack[..m], s, keys);
  }

  /** A variable pushes one sound entry. */
  lemma VariableStep(ops: Operators.OperatorMap, fns: Functions.FunctionMap, arith: Arith,
                     store: Variables.Store, stack: seq<Slot>, t: string)
    requires KindOf(ops, fns, store, t) == VariableToken
    requires Closed(store) && WellFormed(stack, store.Keys)
    ensures var step := EvalToken(ops, fns, arith, store, stack, t); var sh := Shape(stack);
      && step.store == store && step.stack.Ok?
      && WellFormed(step.stack.value, store.Keys)
      && Shape(step.stack.value) == sh[..|sh| - 1] + [sh[|sh| - 1] + 1]
  {
    var v := Variables.Lookup(store, t).value;
    var s := Pending(Const(VariableEntry(v, t)));
    assert EvalToken(ops, fns, arith, store, stack, t) == Step(store, Ok(stack + [s]));
    assert NamesWithin(v, store.Keys);
    PushShape(stack, s);
    PushWellFormed(stack, s, store.Keys);
  }

  /** An opening parenthesis pushes the marker, opening a scope. */
  lemma OpenStep(ops: Operators.OperatorMap, fns: Functions.FunctionMap, arith: Arith,
                 store: Variables.Store, stack: seq<Slot>, t: string)
    requires KindOf(ops, fns, store, t) == OpenParen
    requires WellFormed(stack, store.Keys)
    ensures var step := EvalToken(ops, fns, arith, store, stack, t);
      && step.store == store && step.stack.Ok?
      && WellFormed(step.stack.value, store.Keys)
      && Shape(step.stack.value) == Shape(stack) + [0]
  {
    assert EvalToken(ops, fns, arith, store, stack, t) == Step(store, Ok(stack + [ParamsStart]));
    PushShape(stack, ParamsStart);
    PushWellFormed(stack, ParamsStart, store.Keys);
  }

  /** A literal pushes one sound entry, or fails with a number-format error. */
  lemma LiteralStep(ops: Operators.OperatorMap, fns: Functions.FunctionMap, arith: Arith,
                    store: Variables.Store, stack: seq<Slot>, t: string)
    requires KindOf(ops, fns, store, t) == Literal
    requires WellFormed(stack, store.Keys)
    ensures var step := EvalToken(ops, fns, arith, store, stack, t); var sh := Shape(stack);
      && step.store == store
      && (step.stack.Err? ==> step.stack.error.NumberFormat?)
      && (step.stack.Ok? ==>
            WellFormed(step.stack.value, store.Keys) && Shape(step.stack.value) == sh[..|sh| - 1] + [sh[|sh| - 1] + 1])
  {
    LiteralToken(ops, fns, arith, store, stack, t);
    var lit := ParseLiteral(arith, t);
    if lit.Ok? {
      var s := Pending(Const(lit.value));
      PushShape(stack, s);
      PushWellFormed(stack, s, store.Keys);
    }
  }

  /** One pass of eval's loop on a token validate accepts takes a well-formed stack
      of the shape validate expects to a well-formed stack of the next shape. */
  lemma StepSafe(ops: Operators.OperatorMap, fns: Functions.FunctionMap, arith: Arith,
                 store0: Variables.Store, store: Variables.Store, stack: seq<Slot>, t: string)
    requires LibraryMakesNoNames(arith) && LibraryErrorsForeign(arith)
    requires Closed(store) && store.Keys == store0.Keys && WellFormed(stack, store.Keys)
    requires ScopeStep(ops, fns, store0, Shape(stack), t).Ok?
    ensures var step := EvalToken(ops, fns, arith, store, stack, t);
      && step.store.Keys == store.Keys && Closed(step.store)
      && (step.stack.Err? ==> !StackError(step.stack.error))
      && (step.stack.Ok? ==> WellFormed(step.stack.value, store.Keys)
                             && Shape(step.stack.value) == ScopeStep(ops, fns, store0, Shape(stack), t).value)
  {
    assert Variables.Contains(store, t) == Variables.Contains(store0, t);
    var kind := KindOf(ops, fns, store, t);
    assert kind == KindOf(ops, fns, store0, t);
    if kind == FunctionToken {
      FunctionStepSafe(ops, fns, arith, store0, store, stack, t);
    } else {
      ValueStepSafe(ops, fns, arith, store0, store, stack, t);
    }
  }

  lemma FunctionStepSafe(ops: Operators.OperatorMap, fns: Functions.FunctionMap, arith: Arith,
                         store0: Variables.Store, store: Variables.Store, stack: seq<Slot>, t: string)
    requires LibraryMakesNoNames(arith) && LibraryErrorsForeign(arith)
    requires Closed(store) && WellFormed(stack, store.Keys)
    requires KindOf(ops, fns, store, t) == FunctionToken && KindOf(ops, fns, store0, t) == FunctionToken
    requires ScopeStep(ops, fns, store0, Shape(stack), t).Ok?
    ensures var step := EvalToken(ops, fns, arith, store, stack, t);
      && step.store.Keys == store.Keys && Closed(step.store)
      && (step.stack.Err? ==> !StackError(step.stack.error))
      && (step.stack.Ok? ==> WellFormed(step.stack.value, store.Keys)
                             && Shape(step.stack.value) == ScopeStep(ops, fns, store0, Shape(stack), t).value)
  {
    var sh := Shape(stack);
    Validator.ScopeStepValue(ops, fns, store0, sh, t);
    assert |sh| >= 2 && ScopeStep(ops, fns, store0, sh, t).value == sh[..|sh| - 2] + [sh[|sh| - 2] + 1];
    FunctionStep(ops, fns, arith, store, stack, t);
  }

  lemma ValueStepSafe(ops: Operators.OperatorMap, fns: Functions.FunctionMap, arith: Arith,
                      store0: Variables.Store, store: Variables.Store, stack: seq<Slot>, t: string)
    requires Closed(store) && WellFormed(stack, store.Keys)
    requires KindOf(ops, fns, store, t) != FunctionToken && KindOf(ops, fns, store0, t) == KindOf(ops, fns, store, t)
    requires ScopeStep(ops, fns, store0, Shape(stack), t).Ok?
    ensures var step := EvalToken(ops, fns, arith, store, stack, t);
      && step.store == store
      && (step.stack.Err? ==> !StackError(step.stack.error))
      && (step.stack.Ok? ==> WellFormed(step.stack.value, store.Keys)
                             && Shape(step.stack.value) == ScopeStep(ops, fns, store0, Shape(stack), t).value)
  {
    Validator.ScopeStepValue(ops, fns, store0, Shape(stack), t);
    if KindOf(ops, fns, store, t) == OperatorToken {
      OperatorStep(ops, fns, arith, store, stack, t);
    } else if KindOf(ops, fns, store, t) == VariableToken {
      VariableStep(ops, fns, arith, store, stack, t);
    } else if KindOf(ops, fns, store, t) == OpenParen {
      OpenStep(ops, fns, arith, store, stack, t);
    } else {
      LiteralStep(ops, fns, arith, store, stack, t);
    }
  }

  /** eval's loop on a list that validate accepts from the current shape ends,
      unless a body fails, with a single sound computation on the stack. */
  lemma {:induction false} RunSafe(ops: Operators.OperatorMap, fns: Functions.FunctionMap, arith: Arith,
                                   store0: Variables.Store, store: Variables.Store, stack: seq<Slot>,
                                   rpn: seq<string>)
    requires LibraryMakesNoNames(arith) && LibraryErrorsForeign(arith)
    requires Closed(store) && store.Keys == store0.Keys && WellFormed(stack, store.Keys)
    requires ValidateFrom(ops, fns, store0, Shape(stack), rpn).Pass?
    ensures var run := Run(ops, fns, arith, store, stack, rpn);
      && run.store.Keys == store.Keys && Closed(run.store)
      && (run.stack.Err? ==> !StackError(run.stack.error))
      && (run.stack.Ok? ==> |run.stack.value| == 1 && Sound(run.stack.value[0], store.Keys))
    decreases |rpn|
  {
    if rpn == [] {
      var s := Shape(stack);
      assert s == [1];
      ShapeSegment(stack);
    } else {
      StepSafe(ops, fns, arith, store0, store, stack, rpn[0]);
      var step := EvalToken(ops, fns, arith, store, stack, rpn[0]);
      if step.stack.Ok? {
        RunSafe(ops, fns, arith, store0, step.store, step.stack.value, rpn[1..]);
      }
    }
  }

  /** The main guarantee: on a list validate accepts, with a closed store, eval
      never fails with an empty stack or a marker used as a value, never gives null,
      and leaves the same set of variables. */
  lemma ValidatedEvalSafe(ops: Operators.OperatorMap, fns: Functions.FunctionMap, arith: Arith,
                          store: Variables.Store, rpn: seq<string>)
    requires LibraryMakesNoNames(arith) && LibraryErrorsForeign(arith)
    requires Closed(store)
    requires Validate(ops, fns, store, rpn).Pass?
    ensures var run := Run(ops, fns, arith, store, [], rpn);
      run.stack.Ok? ==> |run.stack.value| == 1 && run.stack.value[0].Pending?
    ensures var r := Eval(ops, fns, arith, store, rpn);
      && (r.result.Err? ==> !StackError(r.result.error))
      && (r.result.Ok? ==> r.result.value.Some?)
      && r.store.Keys == store.Keys && Closed(r.store)
      && Validate(ops, fns, r.store, rpn).Pass?
  {
    RunSafe(ops, fns, arith, store, store, [], rpn);
    var run := Run(ops, fns, arith, store, [], rpn);
    var r := Eval(ops, fns, arith, store, rpn);
    if run.stack.Ok? {
      assert r == PopFinal(arith, run.store, run.stack.value);
      PopFinalSafe(arith, run.store, run.stack.value);
    } else {
      assert r == Final(run.store, Err(run.stack.error));
    }
    ValidateSameKeys(ops, fns, store, r.store, [0], rpn);
  }

  /** The final pop of a single sound computation gives a value and keeps the store closed. */
  lemma PopFinalSafe(arith: Arith, store: Variables.Store, stack: seq<Slot>)
    requires LibraryMakesNoNames(arith) && LibraryErrorsForeign(arith)
    requires Closed(store) && |stack| == 1 && Sound(stack[0], store.Keys)
    ensures var f := PopFinal(arith, store, stack);
      && (f.result.Err? ==> !StackError(f.result.error))
      && (f.result.Ok? ==> f.result.value.Some?)
      && f.store.Keys == store.Keys && Closed(f.store)
  {
    ForceSafe(arith, store, stack[0]);
  }

  /** validate reads the store only through its set of variables. */
  lemma {:induction false} ValidateSameKeys(ops: Operators.OperatorMap, fns: Functions.FunctionMap,
                                            store: Variables.Store, other: Variables.Store,
                                            scopes: seq<nat>, rpn: seq<string>)
    requires store.Keys == other.Keys && scopes != []
    ensures ValidateFrom(ops, fns, store, scopes, rpn) == ValidateFrom(ops, fns, other, scopes, rpn)
    decreases |rpn|
  {
    if rpn != [] {
      assert Variables.Contains(store, rpn[0]) == Variables.Contains(other, rpn[0]);
      assert ScopeStep(ops, fns, store, scopes, rpn[0]) == ScopeStep(ops, fns, other, scopes, rpn[0]);
      match ScopeStep(ops, fns, store, scopes, rpn[0])
      case Err(_) =>
      case Ok(next) => ValidateSameKeys(ops, fns, store, other, next, rpn[1..]);
    }
  }

  /** shuntingYard keeps the store closed: it only adds variables holding 0. */
  lemma ParseKeepsClosed(ops: Operators.OperatorMap, fns: Functions.FunctionMap, store: Variables.Store,
                         expression: string)
    requires Closed(store)
    ensures Closed(Parser.ShuntingYard(ops, fns, store, expression).store)
  {
    var after := Parser.ShuntingYard(ops, fns, store, expression).store;
    forall f | f in after
      ensures NamesWithin(after[f].value, after.Keys)
    {
      if f in store {
        NamesWithinMore(store[f].value, store.Keys, after.Keys);
      }
    }
  }

  /** shuntingYard's exceptions are parse errors, never stack errors. */
  lemma {:induction false} ParseErrorsNotStack(ops: Operators.OperatorMap, fns: Functions.FunctionMap,
                                               s: string, pos: nat, st: Parser.PState)
    ensures Parser.Run(ops, fns, s, pos, st).rpn.Err? ==> !StackError(Parser.Run(ops, fns, s, pos, st).rpn.error)
    decreases |s| - pos
  {
    if pos < |s| {
      match Tokenizer.Scan(ops, s, pos, st.previous)
      case Err(e) =>
      case Ok(sc) =>
        match Parser.Step(ops, fns, st, sc.token, sc.next)
        case Err(e) => Parser.StepErrors(ops, fns, st, sc.token, sc.next);
        case Ok(next) => ParseErrorsNotStack(ops, fns, s, sc.next, next);
    } else {
      FinishErrorsNotStack(ops, st.stack, st.output);
    }
  }

  lemma {:induction false} FinishErrorsNotStack(ops: Operators.OperatorMap, stack: seq<string>, output: seq<string>)
    ensures Parser.Finish(ops, stack, output).Err? ==> !StackError(Parser.Finish(ops, stack, output).error)
    decreases |stack|
  {
    if stack != [] {
      FinishErrorsNotStack(ops, stack[..|stack| - 1], output + [stack[|stack| - 1]]);
    }
  }

  /** validate's exceptions are never stack errors. */
  lemma {:induction false} ValidateErrorsNotStack(ops: Operators.OperatorMap, fns: Functions.FunctionMap,
                                                  store: Variables.Store, scopes: seq<nat>, rpn: seq<string>)
    requires scopes != []
    ensures ValidateFrom(ops, fns, store, scopes, rpn).Fail? ==> !StackError(ValidateFrom(ops, fns, store, scopes, rpn).error)
    decreases |rpn|
  {
    if rpn != [] {
      match ScopeStep(ops, fns, store, scopes, rpn[0])
      case Err(_) =>
      case Ok(next) => ValidateErrorsNotStack(ops, fns, store, next, rpn[1..]);
    }
  }

  /** What getRPN can throw, from shuntingYard or from validate, is never a stack
      error, and the store it leaves is closed. */
  lemma ParseThenValidate(ops: Operators.OperatorMap, fns: Functions.FunctionMap, store: Variables.Store,
                          expression: string)
    requires Closed(store)
    ensures var p := Parser.ShuntingYard(ops, fns, store, expression);
      && Closed(p.store)
      && (p.rpn.Err? ==> !StackError(p.rpn.error))
      && (p.rpn.Ok? && Validate(ops, fns, p.store, p.rpn.value).Fail? ==>
            !StackError(Validate(ops, fns, p.store, p.rpn.value).error))
  {
    var p := Parser.ShuntingYard(ops, fns, store, expression);
    ParseKeepsClosed(ops, fns, store, expression);
    ParseErrorsNotStack(ops, fns, Text.Trim(expression), 0, Parser.Start(store));
    if p.rpn.Ok? {
      ValidateErrorsNotStack(ops, fns, p.store, [0], p.rpn.value);
    }
  }
}
