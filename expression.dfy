/** The Expression class: an infix expression over a shared variable store, turned
    into an RPN list once (shuntingYard, then validate) and evaluated with a stack
    of deferred computations.  The operator and function maps are the registries the
    constructor fills; the numeric libraries are the `Arith` record it is given. */
module Expressions {
  import opened Outcomes
  import opened Text
  import opened Values
  import Variables
  import Operators
  import Functions
  import Tokenizer
  import Parser
  import Literals
  import Validator
  import opened Evaluator
  import Soundness

  class Expression {
    /** The operators the constructor registers. */
    const ops: Operators.OperatorMap
    /** The functions the constructor registers. */
    const fns: Functions.FunctionMap
    const arith: Arith
    /** The store shared with the console and with other expressions. */
    const mainVars: Variables.Variables
    const expression: string
    /** The cached RPN list; None is Java's null. */
    var rpn: Option<seq<string>>

    /** A cached list is one validate accepts in the current store. */
    ghost predicate Valid()
      reads this, mainVars
    {
      rpn.Some? ==> Validator.Validate(ops, fns, mainVars.bindings, rpn.value).Pass?
    }

    /** Expression(expression, hist, vars); the history serves only `H`, which is
        not part of this model. */
    constructor (expression: string, vars: Variables.Variables, arith: Arith)
      ensures this.expression == expression && mainVars == vars && this.arith == arith
      ensures forall k :: ops(k) == Operators.Registry(k)
      ensures forall k :: fns(k) == Functions.Registry(k)
      ensures rpn == None && Valid()
    {
      ops := Operators.Registry;
      fns := Functions.Registry;
      this.expression := expression;
      mainVars := vars;
      this.arith := arith;
      rpn := None;
    }

    /** The final loop of shuntingYard: the operator stack is emptied onto the
        output. */
    method FinishLoop(stack: seq<string>, output: seq<string>) returns (r: Result<seq<string>>)
      ensures r == Parser.Finish(ops, stack, output)
    {
      var st := stack;
      var out := output;
      while st != []
        invariant Parser.Finish(ops, st, out) == Parser.Finish(ops, stack, output)
        decreases |st|
      {
        var element := st[|st| - 1];
        if element == "(" || element == ")" {
          return Err(MismatchedParentheses);
        }
        if !Operators.Contains(ops, element) {
          return Err(UnknownOperatorOrFunction(element));
        }
        out := out + [element];
        st := st[..|st| - 1];
      }
      r := Ok(out);
    }

    /** Expression.shuntingYard(expression): the token loop drives a Tokenizer and
        writes the auto-declared variables into the store as it goes. */
    method ShuntingYard() returns (r: Result<seq<string>>)
      modifies mainVars
      ensures var p := Parser.ShuntingYard(ops, fns, old(mainVars.bindings), expression);
        r == p.rpn && mainVars.bindings == p.store
    {
      var tokenizer := new Tokenizer.Tokenizer(ops, expression);
      var st := Parser.Start(mainVars.bindings);
      ghost var goal := Parser.ShuntingYard(ops, fns, mainVars.bindings, expression);
      while tokenizer.HasNext()
        invariant fresh(tokenizer) && tokenizer.Valid()
        invariant tokenizer.input == Trim(expression) && tokenizer.ops == ops
        invariant tokenizer.previousToken == st.previous && mainVars.bindings == st.store
        invariant Parser.Run(ops, fns, tokenizer.input, tokenizer.pos, st) == goal
        decreases |tokenizer.input| - tokenizer.pos
      {
        var t := tokenizer.Next();
        if t.Err? {
          return Err(t.error);
        }
        var token := t.value.value;
        var next := Parser.Step(ops, fns, st, token, tokenizer.pos);
        if next.Err? {
          return Err(next.error);
        }
        st := next.value;
        mainVars.SetMap(st.store);
      }
      r := FinishLoop(st.stack, st.output);
    }

    /** One pass of the loop of validate: the top of the scope stack is updated
        in place, a "(" opens a scope, a function closes one. */
    method CountToken(stack: seq<nat>, token: string) returns (r: Result<seq<nat>>)
      requires stack != []
      ensures r == Validator.ScopeStep(ops, fns, mainVars.bindings, stack, token)
    {
      var top := stack[|stack| - 1];
      if Operators.Contains(ops, token) {
        if top < 2 {
          return Err(MissingParameters(token, None));
        }
        assert stack[|stack| - 1 := top - 2 + 1] == stack[..|stack| - 1] + [top - 1];
        return Ok(stack[|stack| - 1 := top - 2 + 1]);
      } else if mainVars.ContainsKey(token) {
        assert stack[|stack| - 1 := top + 1] == stack[..|stack| - 1] + [top + 1];
        return Ok(stack[|stack| - 1 := top + 1]);
      } else if Functions.Contains(fns, token) {
        var f := Functions.Get(fns, token);
        var numParams := top;
        var below := stack[..|stack| - 1];
        if !Functions.NumParamsVaries(f) && numParams != f.numParams {
          return Err(WrongParameterCount(token, f.numParams, numParams));
        }
        if |below| <= 0 {
          return Err(ScopeExceeded);
        }
        assert below[|below| - 1 := below[|below| - 1] + 1] == below[..|below| - 1] + [below[|below| - 1] + 1];
        return Ok(below[|below| - 1 := below[|below| - 1] + 1]);
      } else if token == "(" {
        return Ok(stack + [0]);
      } else {
        assert stack[|stack| - 1 := top + 1] == stack[..|stack| - 1] + [top + 1];
        return Ok(stack[|stack| - 1 := top + 1]);
      }
    }

    /** Expression.validate(rpn): the loop over the list, then the checks on the
        scope stack that is left. */
    method Validate(list: seq<string>) returns (r: Outcome)
      ensures r == Validator.Validate(ops, fns, mainVars.bindings, list)
    {
      var stack: seq<nat> := [0];
      for i := 0 to |list|
        invariant stack != []
        invariant Validator.ValidateFrom(ops, fns, mainVars.bindings, stack, list[i..]) ==
                  Validator.Validate(ops, fns, mainVars.bindings, list)
      {
        assert list[i..][1..] == list[i + 1..];
        var next := CountToken(stack, list[i]);
        if next.Err? {
          return Fail(next.error);
        }
        stack := next.value;
      }
      if |stack| > 1 {
        return Fail(UnhandledParameterLists);
      } else if stack[|stack| - 1] > 1 {
        return Fail(TooManyNumbers);
      } else if stack[|stack| - 1] < 1 {
        return Fail(EmptyExpression);
      }
      return Pass;
    }

    /** getRPN as the source writes it: the list is cached as soon as shuntingYard
        returns it, before validate has accepted it. */
    method GetRPNAsWritten() returns (r: Result<seq<string>>)
      modifies this, mainVars
      ensures old(rpn).Some? ==> r == Ok(old(rpn).value) && rpn == old(rpn) && mainVars.bindings == old(mainVars.bindings)
      ensures old(rpn).None? ==>
        var p := Parser.ShuntingYard(ops, fns, old(mainVars.bindings), expression);
        && mainVars.bindings == p.store
        && (p.rpn.Err? ==> r == Err(p.rpn.error) && rpn == None)
        && (p.rpn.Ok? ==>
              && rpn == Some(p.rpn.value)
              && var v := Validator.Validate(ops, fns, p.store, p.rpn.value);
                 r == if v.Pass? then p.rpn else Err(v.error))
    {
      if rpn.None? {
        var list := ShuntingYard();
        if list.Err? {
          return Err(list.error);
        }
        rpn := Some(list.value);
        var v := Validate(list.value);
        if v.Fail? {
          return Err(v.error);
        }
      }
      return Ok(rpn.value);
    }

    /** getRPN caching only a list validate accepted, so that every later call
        hands out a validated list. */
    method GetRPN() returns (r: Result<seq<string>>)
      requires Valid()
      modifies this, mainVars
      ensures Valid()
      ensures old(rpn).Some? ==> r == Ok(old(rpn).value) && rpn == old(rpn) && mainVars.bindings == old(mainVars.bindings)
      ensures old(rpn).None? ==>
        var p := Parser.ShuntingYard(ops, fns, old(mainVars.bindings), expression);
        && mainVars.bindings == p.store
        && (p.rpn.Err? ==> r == Err(p.rpn.error) && rpn == None)
        && (p.rpn.Ok? ==>
              var v := Validator.Validate(ops, fns, p.store, p.rpn.value);
              && (v.Pass? ==> r == p.rpn && rpn == Some(p.rpn.value))
              && (v.Fail? ==> r == Err(v.error) && rpn == None))
      ensures r.Ok? ==> rpn == Some(r.value)
    {
      if rpn.None? {
        var list := ShuntingYard();
        if list.Err? {
          return Err(list.error);
        }
        var v := Validate(list.value);
        if v.Fail? {
          return Err(v.error);
        }
        rpn := Some(list.value);
      }
      return Ok(rpn.value);
    }

    /** The parameter loop of a function token: the entries above the nearest
        PARAMS_START are taken off in order, then the marker itself. */
    method PopParams(stack: seq<Slot>) returns (rest: Result<seq<Slot>>, params: seq<Slot>)
      ensures var m := MarkerIndex(stack);
        && (m < 0 ==> rest == Err(EmptyStack))
        && (m >= 0 ==> rest == Ok(stack[..m]) && params == stack[m + 1..])
    {
      var st := stack;
      params := [];
      while st != [] && st[|st| - 1] != ParamsStart
        invariant st + params == stack
        invariant MarkerIndex(st) == MarkerIndex(stack)
        decreases |st|
      {
        params := [st[|st| - 1]] + params;
        st := st[..|st| - 1];
      }
      if st == [] {
        return Err(EmptyStack), params;
      }
      assert MarkerIndex(st) == |st| - 1;
      assert stack[..|st| - 1] == st[..|st| - 1];
      rest := Ok(st[..|st| - 1]);
    }

    /** One pass of the token loop of eval: the new stack, or the exception that
        ends the loop. */
    method EvalToken(stack: seq<Slot>, token: string) returns (next: Result<seq<Slot>>)
      modifies mainVars
      ensures var step := Evaluator.EvalToken(ops, fns, arith, old(mainVars.bindings), stack, token);
        next == step.stack && mainVars.bindings == step.store
    {
      if Operators.Contains(ops, token) {
        if |stack| < 2 {
          return Err(EmptyStack);
        }
        var v1 := stack[|stack| - 1];
        var v2 := stack[|stack| - 2];
        next := Ok(stack[..|stack| - 2] + [Pending(OpApp(Operators.Get(ops, token).name, v2, v1))]);
      } else if mainVars.ContainsKey(token) {
        var v := mainVars.Get(token).value;
        next := Ok(stack + [Pending(Const(VariableEntry(v, token)))]);
      } else if Functions.Contains(fns, token) {
        next := CallFunction(stack, token);
      } else if token == "(" {
        next := Ok(stack + [ParamsStart]);
      } else {
        Evaluator.LiteralToken(ops, fns, arith, mainVars.bindings, stack, token);
        var v := ParseLiteral(arith, token);
        if v.Err? {
          return Err(v.error);
        }
        next := Ok(stack + [Pending(Const(v.value))]);
      }
    }

    /** The function branch of eval's loop: the parameters above the nearest
        PARAMS_START are evaluated and replaced, marker included, by the call. */
    method CallFunction(stack: seq<Slot>, token: string) returns (next: Result<seq<Slot>>)
      requires Validator.KindOf(ops, fns, mainVars.bindings, token) == Validator.FunctionToken
      modifies mainVars
      ensures var step := Evaluator.EvalToken(ops, fns, arith, old(mainVars.bindings), stack, token);
        next == step.stack && mainVars.bindings == step.store
    {
      Evaluator.FunctionTokenStep(ops, fns, arith, mainVars.bindings, stack, token);
      var f := Functions.Get(fns, token);
      var rest, params := PopParams(stack);
      if rest.Err? {
        return Err(rest.error);
      }
      var forced := LazyEval(arith, mainVars.bindings, params);
      mainVars.SetMap(forced.store);
      if forced.values.Err? {
        return Err(forced.values.error);
      }
      next := Ok(rest.value + [Pending(FnCall(f.name, forced.values.value))]);
    }

    /** The token loop of eval and the final `stack.pop().eval()`, on the list
        `list`. */
    method EvalList(list: seq<string>) returns (r: Result<Option<Value>>)
      modifies mainVars
      ensures var f := Evaluator.Eval(ops, fns, arith, old(mainVars.bindings), list);
        r == f.result && mainVars.bindings == f.store
    {
      var stack: seq<Slot> := [];
      ghost var goal := Evaluator.Run(ops, fns, arith, mainVars.bindings, [], list);
      for i := 0 to |list|
        invariant Evaluator.Run(ops, fns, arith, mainVars.bindings, stack, list[i..]) == goal
      {
        var token := list[i];
        assert list[i..][1..] == list[i + 1..];
        var next := EvalToken(stack, token);
        if next.Err? {
          return Err(next.error);
        }
        stack := next.value;
      }
      if stack == [] {
        return Err(EmptyStack);
      }
      var top := stack[|stack| - 1];
      if top == ParamsStart {
        return Ok(None);
      }
      var e := Force(arith, mainVars.bindings, top);
      mainVars.SetMap(e.store);
      r := if e.result.Err? then Err(e.result.error) else Ok(Some(e.result.value));
    }

    /** Expression.eval() with the corrected cache: with a closed store and
        libraries that neither make names nor fail for want of stack, the result
        is never an empty-stack exception, a marker used as a value or null. */
    method Eval() returns (r: Result<Option<Value>>)
      requires Valid() && Soundness.Closed(mainVars.bindings)
      requires LibraryMakesNoNames(arith) && Soundness.LibraryErrorsForeign(arith)
      modifies this, mainVars
      ensures Valid() && Soundness.Closed(mainVars.bindings)
      ensures r.Err? ==> !Soundness.StackError(r.error)
      ensures r.Ok? ==> r.value.Some?
      ensures old(rpn).Some? ==>
        var f := Evaluator.Eval(ops, fns, arith, old(mainVars.bindings), old(rpn).value);
        r == f.result && mainVars.bindings == f.store
      ensures old(rpn).None? ==>
        var p := Parser.ShuntingYard(ops, fns, old(mainVars.bindings), expression);
        && (p.rpn.Err? ==> r == Err(p.rpn.error) && mainVars.bindings == p.store)
        && (p.rpn.Ok? ==>
              var v := Validator.Validate(ops, fns, p.store, p.rpn.value);
              var f := Evaluator.Eval(ops, fns, arith, p.store, p.rpn.value);
              && (v.Fail? ==> r == Err(v.error) && mainVars.bindings == p.store)
              && (v.Pass? ==> r == f.result && mainVars.bindings == f.store))
    {
      Soundness.ParseThenValidate(ops, fns, mainVars.bindings, expression);
      var list := GetRPN();
      if list.Err? {
        return Err(list.error);
      }
      Soundness.ValidatedEvalSafe(ops, fns, arith, mainVars.bindings, list.value);
      r := EvalList(list.value);
    }
  }

  /** The registries hold `+` as an operator and neither `1` nor `+` as a
      function. */
  lemma RegistryOnePlus()
    ensures Operators.Contains(Operators.Registry, "+") && !Operators.Contains(Operators.Registry, "1")
    ensures !Functions.Contains(Functions.Registry, "1") && !Functions.Contains(Functions.Registry, "+")
  {
    assert Fold("1") == "1" && Fold("+") == "+";
  }

  /** The first token of `1+` is the number `1`, which goes to the output. */
  lemma ParseOne(ops: Operators.OperatorMap, fns: Functions.FunctionMap, store: Variables.Store)
    ensures Tokenizer.Scan(ops, "1+", 0, None) == Ok(Tokenizer.Scanned("1", 1))
    ensures Parser.Step(ops, fns, Parser.Start(store), "1", 1) == Ok(Parser.PState(["1"], [], None, Some("1"), store))
  {
    assert Tokenizer.SkipWs("1+", 0) == Ok(0);
    assert Tokenizer.RunEnd(Tokenizer.NumberRun, "1+", 0, 0) == 1;
    assert "1+"[0..1] == "1";
    assert Literals.IsNumber("1") == Ok(true);
    assert Literals.NumberOutput("1") == Ok("1");
    var r := Parser.Step(ops, fns, Parser.Start(store), "1", 1);
    assert r.Ok?;
    assert r.value.output == ["1"] && r.value.stack == [] && r.value.lastFunction == None;
    assert r.value.previous == Some("1") && r.value.store == store;
  }

  /** The second token of `1+` is the operator `+`, which goes to the stack. */
  lemma ParsePlus(ops: Operators.OperatorMap, fns: Functions.FunctionMap, store: Variables.Store)
    requires Operators.Contains(ops, "+") && !Functions.Contains(fns, "+") && !Variables.Contains(store, "+")
    ensures Tokenizer.Scan(ops, "1+", 1, Some("1")) == Ok(Tokenizer.Scanned("+", 2))
    ensures Parser.Step(ops, fns, Parser.PState(["1"], [], None, Some("1"), store), "+", 2) ==
            Ok(Parser.PState(["1"], ["+"], None, Some("+"), store))
  {
    assert Tokenizer.SkipWs("1+", 1) == Ok(1);
    assert Tokenizer.RunEnd(Tokenizer.SymbolRun, "1+", 1, 2) == 2;
    assert "1+"[1..2] == "+";
    assert Literals.IsNumber("+") == Ok(false);
    var st1 := Parser.PState(["1"], [], None, Some("1"), store);
    assert "1"[0] != ","[0] && "1"[0] != "("[0];
    assert Parser.PopOperators(ops, Operators.Get(ops, "+"), [], ["1"]) == Parser.Popped([], ["1"]);
    assert st1.previous != Some(",") && st1.previous != Some("(");
    var o := Parser.OnOperator(ops, st1, "+", 2);
    assert o.Ok?;
    assert o.value.stack == ["+"] && o.value.output == ["1"];
    assert o.value.lastFunction == None && o.value.store == store;
    var r := Parser.Step(ops, fns, st1, "+", 2);
    assert r.Ok?;
    assert r.value.stack == ["+"] && r.value.output == ["1"];
    assert r.value.lastFunction == None && r.value.store == store && r.value.previous == Some("+");
  }

  /** At the end of `1+` the `+` left on the stack goes to the output. */
  lemma FinishOnePlus(ops: Operators.OperatorMap)
    requires Operators.Contains(ops, "+")
    ensures Parser.Finish(ops, ["+"], ["1"]) == Ok(["1", "+"])
  {
    assert "+"[0] != "("[0] && "+"[0] != ")"[0];
    assert ["+"][..0] == [] && ["1"] + ["+"] == ["1", "+"];
    assert Parser.Finish(ops, [], ["1", "+"]) == Ok(["1", "+"]);
  }

  /** shuntingYard turns `1+` into the list `1 +`. */
  lemma ParseOnePlus(ops: Operators.OperatorMap, fns: Functions.FunctionMap, store: Variables.Store)
    requires Operators.Contains(ops, "+") && !Functions.Contains(fns, "+") && !Variables.Contains(store, "+")
    ensures Parser.ShuntingYard(ops, fns, store, "1+") == Parser.Parse(store, Ok(["1", "+"]))
  {
    Text.TrimOfTrimmed("1+");
    ParseOne(ops, fns, store);
    ParsePlus(ops, fns, store);
    FinishOnePlus(ops);
    var st1 := Parser.PState(["1"], [], None, Some("1"), store);
    var st2 := Parser.PState(["1"], ["+"], None, Some("+"), store);
    assert Parser.Run(ops, fns, "1+", 2, st2) == Parser.Parse(store, Ok(["1", "+"]));
    assert Parser.Run(ops, fns, "1+", 1, st1) == Parser.Run(ops, fns, "1+", 2, st2);
    assert Parser.Run(ops, fns, "1+", 0, Parser.Start(store)) == Parser.Run(ops, fns, "1+", 1, st1);
  }

  /** `1+` shows what the as-written cache lets through: shuntingYard gives
      `1 +`, which validate refuses, but getRPN has already cached it, so a second
      eval skips validate and fails with an empty stack instead. */
  lemma UncheckedCache(arith: Arith, store: Variables.Store)
    requires arith.parse("1").Some?
    requires !Variables.Contains(store, "1") && !Variables.Contains(store, "+")
    ensures Parser.ShuntingYard(Operators.Registry, Functions.Registry, store, "1+") == Parser.Parse(store, Ok(["1", "+"]))
    ensures Validator.Validate(Operators.Registry, Functions.Registry, store, ["1", "+"]) == Fail(MissingParameters("+", None))
    ensures Evaluator.Eval(Operators.Registry, Functions.Registry, arith, store, ["1", "+"]).result == Err(EmptyStack)
  {
    RegistryOnePlus();
    ParseOnePlus(Operators.Registry, Functions.Registry, store);
    Validator.OperatorNeedsTwo(Operators.Registry, Functions.Registry, store);
    EvalOnePlus(Operators.Registry, Functions.Registry, arith, store);
  }

  /** eval on `1 +` pops an empty stack for the operator's second operand. */
  lemma EvalOnePlus(ops: Operators.OperatorMap, fns: Functions.FunctionMap, arith: Arith, store: Variables.Store)
    requires arith.parse("1").Some?
    requires Operators.Contains(ops, "+") && !Operators.Contains(ops, "1")
    requires !Functions.Contains(fns, "1") && !Variables.Contains(store, "1")
    ensures Evaluator.Eval(ops, fns, arith, store, ["1", "+"]).result == Err(EmptyStack)
  {
    assert ["1", "+"][1..] == ["+"];
    assert Validator.KindOf(ops, fns, store, "1") == Validator.Literal;
    var one := Evaluator.EvalToken(ops, fns, arith, store, [], "1");
    assert one.stack.Ok? && |one.stack.value| == 1;
  }
}
