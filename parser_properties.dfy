/** What shuntingYard promises: the pop rule on three classic inputs, the errors it
    raises, and the auto-declaration of unknown names. */
module ParserProperties {
  import opened Outcomes
  import opened Text
  import opened Values
  import Variables
  import Operators
  import Functions
  import Literals
  import Tokenizer
  import opened Parser

  /** One pass of the token loop: the token scanned at `pos` is handed to the parser
      step, and the loop goes on from where the token ended. */
  lemma RunStep(ops: Operators.OperatorMap, fns: Functions.FunctionMap, s: string, pos: nat, st: PState,
                t: string, next: nat, st': PState)
    requires pos < |s| && Tokenizer.Scan(ops, s, pos, st.previous) == Ok(Tokenizer.Scanned(t, next))
    requires Step(ops, fns, st, t, next) == Ok(st')
    ensures Run(ops, fns, s, pos, st) == Run(ops, fns, s, next, st')
  {
  }

  /** At the end of the input the loop hands over to the final loop, which moves a
      single stacked operator to the output. */
  lemma RunAtEndOne(ops: Operators.OperatorMap, fns: Functions.FunctionMap, s: string, output: seq<string>,
                    o: string, prev: Option<string>, store: Variables.Store)
    requires o != "(" && o != ")" && Operators.Contains(ops, o)
    ensures Run(ops, fns, s, |s|, PState(output, [o], None, prev, store)) == Parse(store, Ok(output + [o]))
  {
    assert [o][..0] == [];
    assert Finish(ops, [], output + [o]) == Ok(output + [o]);
    assert Finish(ops, [o], output) == Ok(output + [o]);
  }

  /** At the end of the input the loop hands over to the final loop, which moves two
      stacked operators to the output, the top one first. */
  lemma RunAtEndTwo(ops: Operators.OperatorMap, fns: Functions.FunctionMap, s: string, output: seq<string>,
                    o1: string, o2: string, prev: Option<string>, store: Variables.Store)
    requires o1 != "(" && o1 != ")" && Operators.Contains(ops, o1)
    requires o2 != "(" && o2 != ")" && Operators.Contains(ops, o2)
    ensures Run(ops, fns, s, |s|, PState(output, [o1, o2], None, prev, store)) == Parse(store, Ok(output + [o2, o1]))
  {
    assert [o1, o2][..1] == [o1] && [o1][..0] == [];
    assert output + [o2] + [o1] == output + [o2, o1];
    assert Finish(ops, [], output + [o2, o1]) == Ok(output + [o2, o1]);
    assert Finish(ops, [o1], output + [o2]) == Ok(output + [o2, o1]);
    assert Finish(ops, [o1, o2], output) == Ok(output + [o2, o1]);
  }

  /** A one-digit number `d` (not followed by another number character) goes straight
      to the output. */
  lemma DigitStep(ops: Operators.OperatorMap, fns: Functions.FunctionMap, s: string, pos: nat, d: char,
                  st: PState, st': PState)
    requires pos < |s| && s[pos] == d && IsDigit(d)
    requires pos + 1 == |s| || !Tokenizer.NumberChar(s[pos + 1])
    requires st' == st.(output := st.output + [[d]], previous := Some([d]))
    ensures Run(ops, fns, s, pos, st) == Run(ops, fns, s, pos + 1, st')
  {
    assert Tokenizer.SkipWs(s, pos) == Ok(pos);
    assert Tokenizer.RunEnd(Tokenizer.NumberRun, s, pos, pos + 1) == pos + 1;
    assert Tokenizer.RunEnd(Tokenizer.NumberRun, s, pos, pos) == pos + 1;
    assert s[pos..pos + 1] == [d];
    assert Literals.IsNumber([d]) == Ok(true) by {
      assert forall k :: 0 <= k < |[d]| ==> Literals.LiteralChar([d][k]);
    }
    assert Literals.NumberOutput([d]) == Ok([d]);
    RunStep(ops, fns, s, pos, st, [d], pos + 1, st');
  }

  /** A one-character operator `o` in front of a digit is scanned as a token of its
      own. */
  lemma OperatorScan(ops: Operators.OperatorMap, s: string, pos: nat, o: char, prev: Option<string>)
    requires pos + 1 < |s| && s[pos] == o && IsDigit(s[pos + 1])
    requires Tokenizer.SymbolChar(o) && o != '.' && Operators.Contains(ops, [o])
    requires o == '-' ==> !Tokenizer.MinusMayFuse(ops, prev)
    ensures Tokenizer.Scan(ops, s, pos, prev) == Ok(Tokenizer.Scanned([o], pos + 1))
  {
    assert Tokenizer.SkipWs(s, pos) == Ok(pos);
    assert Tokenizer.RunEnd(Tokenizer.SymbolRun, s, pos, pos + 1) == pos + 1;
    assert s[pos..pos + 1] == [o];
  }

  /** The parser step for a one-character operator `o` that is neither a number, a
      variable nor a function: the stacked operators that go before it are popped,
      then `o` is pushed. */
  lemma OperatorPush(ops: Operators.OperatorMap, fns: Functions.FunctionMap, st: PState, o: char, next: nat,
                     popped: Popped, st': PState)
    requires Tokenizer.SymbolChar(o) && o != '.'
    requires Operators.Contains(ops, [o]) && !Functions.Contains(fns, [o]) && !Variables.Contains(st.store, [o])
    requires st.previous != Some(",") && st.previous != Some("(")
    requires PopOperators(ops, Operators.Get(ops, [o]), st.stack, st.output) == popped
    requires st' == st.(stack := popped.stack + [[o]], output := popped.output, previous := Some([o]))
    ensures Step(ops, fns, st, [o], next) == Ok(st')
  {
    assert Literals.IsNumber([o]) == Ok(false) by {
      assert !Literals.LiteralChar(o) || o == '-' || o == '+';
    }
    assert OnOperator(ops, st, [o], next) == Ok(st.(stack := popped.stack + [[o]], output := popped.output));
  }

  /** A one-character operator `o` in front of a digit first pops the stacked
      operators that go before it, then is pushed itself. */
  lemma OperatorStep(ops: Operators.OperatorMap, fns: Functions.FunctionMap, s: string, pos: nat, o: char,
                     st: PState, popped: Popped, st': PState)
    requires pos + 1 < |s| && s[pos] == o && IsDigit(s[pos + 1])
    requires Tokenizer.SymbolChar(o) && o != '.'
    requires Operators.Contains(ops, [o]) && !Functions.Contains(fns, [o]) && !Variables.Contains(st.store, [o])
    requires o == '-' ==> !Tokenizer.MinusMayFuse(ops, st.previous)
    requires st.previous != Some(",") && st.previous != Some("(")
    requires PopOperators(ops, Operators.Get(ops, [o]), st.stack, st.output) == popped
    requires st' == st.(stack := popped.stack + [[o]], output := popped.output, previous := Some([o]))
    ensures Run(ops, fns, s, pos, st) == Run(ops, fns, s, pos + 1, st')
  {
    OperatorScan(ops, s, pos, o, st.previous);
    OperatorPush(ops, fns, st, o, pos + 1, popped, st');
    RunStep(ops, fns, s, pos, st, [o], pos + 1, st');
  }

  /** The operator loop on a stack of at most one operator: an empty stack stays
      empty, and a single operator is popped exactly when it goes before `o1`. */
  lemma PopAtMostOne(ops: Operators.OperatorMap, o1: Operators.Operator, stack: seq<string>, output: seq<string>)
    requires |stack| <= 1
    ensures stack == [] ==> PopOperators(ops, o1, stack, output) == Popped([], output)
    ensures |stack| == 1 && PopsBefore(ops, o1, stack[0]) ==> PopOperators(ops, o1, stack, output) == Popped([], output + stack)
    ensures |stack| == 1 && !PopsBefore(ops, o1, stack[0]) ==> PopOperators(ops, o1, stack, output) == Popped(stack, output)
  {
    if |stack| == 1 {
      assert stack[..0] == [];
    }
  }

  /** "+" is the registry's left-associative operator of precedence 20, and no
      function. */
  lemma RegistryPlus()
    ensures Operators.Contains(Operators.Registry, "+") && !Functions.Contains(Functions.Registry, "+")
    ensures Operators.Get(Operators.Registry, "+").precedence == 20
  {
    assert Fold("+") == "+" && ToUpper("+") == "+";
  }

  /** "-" is the registry's left-associative operator of precedence 20, and no
      function. */
  lemma RegistryMinus()
    ensures Operators.Contains(Operators.Registry, "-") && !Functions.Contains(Functions.Registry, "-")
    ensures Operators.Get(Operators.Registry, "-").precedence == 20 && Operators.Get(Operators.Registry, "-").leftAssoc
  {
    assert Fold("-") == "-" && ToUpper("-") == "-";
  }

  /** "*" is the registry's operator of precedence 30, and no function. */
  lemma RegistryTimes()
    ensures Operators.Contains(Operators.Registry, "*") && !Functions.Contains(Functions.Registry, "*")
    ensures Operators.Get(Operators.Registry, "*").precedence == 30
  {
    assert Fold("*") == "*" && ToUpper("*") == "*";
  }

  /** "^" is the registry's right-associative operator of precedence 40, and no
      function. */
  lemma RegistryPower()
    ensures Operators.Contains(Operators.Registry, "^") && !Functions.Contains(Functions.Registry, "^")
    ensures Operators.Get(Operators.Registry, "^").precedence == 40 && !Operators.Get(Operators.Registry, "^").leftAssoc
  {
    assert Fold("^") == "^" && ToUpper("^") == "^";
    assert Operators.Registry("^") == Some(Operators.NewOperatorWithDesc("^", 40, false,
      Some("Exponentation. See: https://en.wikipedia.org/wiki/Exponentiation")));
  }

  /** After the number 5 or 3 a '-' is a binary minus: neither is an operator. */
  lemma DigitsNotOperators()
    ensures !Tokenizer.MinusMayFuse(Operators.Registry, Some("5"))
    ensures !Tokenizer.MinusMayFuse(Operators.Registry, Some("3"))
  {
    assert Fold("5") == "5" && Fold("3") == "3";
  }

  /** A one-digit number followed by a one-character operator: the digit goes to the
      output, then the operator is handled as above. */
  lemma DigitThenOperator(ops: Operators.OperatorMap, fns: Functions.FunctionMap, s: string, pos: nat,
                          d: char, o: char, st: PState, st': PState, popped: Popped, st'': PState)
    requires pos + 2 < |s| && s[pos] == d && IsDigit(d) && s[pos + 1] == o && IsDigit(s[pos + 2])
    requires Tokenizer.SymbolChar(o) && o != '.'
    requires Operators.Contains(ops, [o]) && !Functions.Contains(fns, [o]) && !Variables.Contains(st.store, [o])
    requires o == '-' ==> !Tokenizer.MinusMayFuse(ops, Some([d]))
    requires st' == st.(output := st.output + [[d]], previous := Some([d]))
    requires PopOperators(ops, Operators.Get(ops, [o]), st'.stack, st'.output) == popped
    requires st'' == st'.(stack := popped.stack + [[o]], output := popped.output, previous := Some([o]))
    ensures Run(ops, fns, s, pos, st) == Run(ops, fns, s, pos + 2, st'')
  {
    assert !Tokenizer.NumberChar(o) by {
      assert !IsLetter(o) && !IsDigit(o) && o != '.';
    }
    DigitStep(ops, fns, s, pos, d, st, st');
    assert [d] != "," && [d] != "(" by {
      assert [d][0] != ","[0] && [d][0] != "("[0];
    }
    OperatorStep(ops, fns, s, pos + 1, o, st', popped, st'');
  }

  /** In `2+3*4` the "+" meets an empty stack, and the "*" does not pop the "+". */
  lemma ProductPops(ops: Operators.OperatorMap)
    requires Operators.Contains(ops, "+") && Operators.Contains(ops, "*")
    requires Operators.Get(ops, "+").precedence < Operators.Get(ops, "*").precedence
    ensures PopOperators(ops, Operators.Get(ops, "+"), [], ["2"]) == Popped([], ["2"])
    ensures PopOperators(ops, Operators.Get(ops, "*"), ["+"], ["2", "3"]) == Popped(["+"], ["2", "3"])
  {
    PopAtMostOne(ops, Operators.Get(ops, "+"), [], ["2"]);
    assert !PopsBefore(ops, Operators.Get(ops, "*"), "+");
    PopAtMostOne(ops, Operators.Get(ops, "*"), ["+"], ["2", "3"]);
  }

  /** In `5-3-1` the first "-" meets an empty stack, and the second pops the first. */
  lemma MinusPops(ops: Operators.OperatorMap)
    requires Operators.Contains(ops, "-") && Operators.Get(ops, "-").leftAssoc
    ensures PopOperators(ops, Operators.Get(ops, "-"), [], ["5"]) == Popped([], ["5"])
    ensures PopOperators(ops, Operators.Get(ops, "-"), ["-"], ["5", "3"]) == Popped([], ["5", "3", "-"])
  {
    PopAtMostOne(ops, Operators.Get(ops, "-"), [], ["5"]);
    assert PopsBefore(ops, Operators.Get(ops, "-"), "-");
    PopAtMostOne(ops, Operators.Get(ops, "-"), ["-"], ["5", "3"]);
    assert ["5", "3"] + ["-"] == ["5", "3", "-"];
  }

  /** In `2^3^2` the first "^" meets an empty stack, and the second does not pop the
      first. */
  lemma PowerPops(ops: Operators.OperatorMap)
    requires Operators.Contains(ops, "^") && !Operators.Get(ops, "^").leftAssoc
    ensures PopOperators(ops, Operators.Get(ops, "^"), [], ["2"]) == Popped([], ["2"])
    ensures PopOperators(ops, Operators.Get(ops, "^"), ["^"], ["2", "3"]) == Popped(["^"], ["2", "3"])
  {
    PopAtMostOne(ops, Operators.Get(ops, "^"), [], ["2"]);
    assert !PopsBefore(ops, Operators.Get(ops, "^"), "^");
    PopAtMostOne(ops, Operators.Get(ops, "^"), ["^"], ["2", "3"]);
  }

  /** The second half of the token loop over `2+3*4`: "*" does not pop the stacked
      "+", and the final loop empties the stack top first. */
  lemma ProductBeforeSumTail(ops: Operators.OperatorMap, fns: Functions.FunctionMap, store: Variables.Store, s: string)
    requires Operators.Contains(ops, "+") && Operators.Contains(ops, "*")
    requires !Functions.Contains(fns, "*") && !Variables.Contains(store, "*")
    requires Operators.Get(ops, "+").precedence < Operators.Get(ops, "*").precedence
    requires |s| == 5 && s[0] == '2' && s[1] == '+' && s[2] == '3' && s[3] == '*' && s[4] == '4'
    ensures Run(ops, fns, s, 2, PState(["2"], ["+"], None, Some("+"), store)) == Parse(store, Ok(["2", "3", "4", "*", "+"]))
  {
    var st2 := PState(["2"], ["+"], None, Some("+"), store);
    var st3 := PState(["2", "3"], ["+"], None, Some("3"), store);
    var st4 := PState(["2", "3"], ["+", "*"], None, Some("*"), store);
    var st5 := PState(["2", "3", "4"], ["+", "*"], None, Some("4"), store);
    ProductPops(ops);
    assert st3 == st2.(output := st2.output + [['3']], previous := Some(['3']));
    assert st4 == st3.(stack := ["+"] + [['*']], output := ["2", "3"], previous := Some(['*']));
    assert st5 == st4.(output := st4.output + [['4']], previous := Some(['4']));
    assert ["2", "3", "4"] + ["*", "+"] == ["2", "3", "4", "*", "+"];
    RunAtEndTwo(ops, fns, s, ["2", "3", "4"], "+", "*", Some("4"), store);
    DigitStep(ops, fns, s, 4, '4', st4, st5);
    DigitThenOperator(ops, fns, s, 2, '3', '*', st2, st3, Popped(["+"], ["2", "3"]), st4);
  }

  /** The token loop over `2+3*4` with any operator table in which "*" binds tighter
      than "+". */
  lemma ProductBeforeSumRun(ops: Operators.OperatorMap, fns: Functions.FunctionMap, store: Variables.Store, s: string)
    requires Operators.Contains(ops, "+") && !Functions.Contains(fns, "+") && !Variables.Contains(store, "+")
    requires Operators.Contains(ops, "*") && !Functions.Contains(fns, "*") && !Variables.Contains(store, "*")
    requires Operators.Get(ops, "+").precedence < Operators.Get(ops, "*").precedence
    requires |s| == 5 && s[0] == '2' && s[1] == '+' && s[2] == '3' && s[3] == '*' && s[4] == '4'
    ensures Run(ops, fns, s, 0, Start(store)) == Parse(store, Ok(["2", "3", "4", "*", "+"]))
  {
    var st0 := PState([], [], None, None, store);
    var st1 := PState(["2"], [], None, Some("2"), store);
    var st2 := PState(["2"], ["+"], None, Some("+"), store);
    ProductPops(ops);
    assert st1 == st0.(output := st0.output + [['2']], previous := Some(['2']));
    assert st2 == st1.(stack := [] + [['+']], output := ["2"], previous := Some(['+']));
    DigitThenOperator(ops, fns, s, 0, '2', '+', st0, st1, Popped([], ["2"]), st2);
    ProductBeforeSumTail(ops, fns, store, s);
  }

  /** shuntingYard turns `2+3*4` into `2 3 4 * +`: "*" binds tighter than "+", so it
      does not pop the stacked "+" and the product is emitted first. */
  lemma ProductBeforeSum(store: Variables.Store)
    requires !Variables.Contains(store, "+") && !Variables.Contains(store, "*")
    ensures ShuntingYard(Operators.Registry, Functions.Registry, store, "2+3*4") ==
      Parse(store, Ok(["2", "3", "4", "*", "+"]))
  {
    Text.TrimOfTrimmed("2+3*4");
    RegistryPlus();
    RegistryTimes();
    ProductBeforeSumRun(Operators.Registry, Functions.Registry, store, "2+3*4");
  }

  /** The last number of `5-3-1` and the final loop, which moves the stacked "-"
      behind it. */
  lemma MinusLeftAssociativeEnd(ops: Operators.OperatorMap, fns: Functions.FunctionMap, store: Variables.Store, s: string)
    requires Operators.Contains(ops, "-")
    requires |s| == 5 && s[0] == '5' && s[1] == '-' && s[2] == '3' && s[3] == '-' && s[4] == '1'
    ensures Run(ops, fns, s, 4, PState(["5", "3", "-"], ["-"], None, Some("-"), store)) == Parse(store, Ok(["5", "3", "-", "1", "-"]))
  {
    var st4 := PState(["5", "3", "-"], ["-"], None, Some("-"), store);
    var st5 := PState(["5", "3", "-", "1"], ["-"], None, Some("1"), store);
    assert st5 == st4.(output := st4.output + [['1']], previous := Some(['1']));
    assert ["5", "3", "-", "1"] + ["-"] == ["5", "3", "-", "1", "-"];
    RunAtEndOne(ops, fns, s, ["5", "3", "-", "1"], "-", Some("1"), store);
    DigitStep(ops, fns, s, 4, '1', st4, st5);
  }

  /** The second half of the token loop over `5-3-1`: the second "-" pops the first,
      and the final loop empties the stack. */
  lemma MinusLeftAssociativeTail(ops: Operators.OperatorMap, fns: Functions.FunctionMap, store: Variables.Store, s: string)
    requires Operators.Contains(ops, "-") && !Functions.Contains(fns, "-") && !Variables.Contains(store, "-")
    requires Operators.Get(ops, "-").leftAssoc
    requires !Tokenizer.MinusMayFuse(ops, Some("3"))
    requires |s| == 5 && s[0] == '5' && s[1] == '-' && s[2] == '3' && s[3] == '-' && s[4] == '1'
    ensures Run(ops, fns, s, 2, PState(["5"], ["-"], None, Some("-"), store)) == Parse(store, Ok(["5", "3", "-", "1", "-"]))
  {
    var st2 := PState(["5"], ["-"], None, Some("-"), store);
    var st3 := PState(["5", "3"], ["-"], None, Some("3"), store);
    var st4 := PState(["5", "3", "-"], ["-"], None, Some("-"), store);
    MinusPops(ops);
    assert st3 == st2.(output := st2.output + [['3']], previous := Some(['3']));
    assert st4 == st3.(stack := [] + [['-']], output := ["5", "3", "-"], previous := Some(['-']));
    MinusLeftAssociativeEnd(ops, fns, store, s);
    DigitThenOperator(ops, fns, s, 2, '3', '-', st2, st3, Popped([], ["5", "3", "-"]), st4);
  }

  /** The token loop over `5-3-1` with any operator table in which "-" is
      left-associative and neither digit is an operator. */
  lemma MinusLeftAssociativeRun(ops: Operators.OperatorMap, fns: Functions.FunctionMap, store: Variables.Store, s: string)
    requires Operators.Contains(ops, "-") && !Functions.Contains(fns, "-") && !Variables.Contains(store, "-")
    requires Operators.Get(ops, "-").leftAssoc
    requires !Tokenizer.MinusMayFuse(ops, Some("5")) && !Tokenizer.MinusMayFuse(ops, Some("3"))
    requires |s| == 5 && s[0] == '5' && s[1] == '-' && s[2] == '3' && s[3] == '-' && s[4] == '1'
    ensures Run(ops, fns, s, 0, Start(store)) == Parse(store, Ok(["5", "3", "-", "1", "-"]))
  {
    var st0 := PState([], [], None, None, store);
    var st1 := PState(["5"], [], None, Some("5"), store);
    var st2 := PState(["5"], ["-"], None, Some("-"), store);
    MinusPops(ops);
    assert st1 == st0.(output := st0.output + [['5']], previous := Some(['5']));
    assert st2 == st1.(stack := [] + [['-']], output := ["5"], previous := Some(['-']));
    DigitThenOperator(ops, fns, s, 0, '5', '-', st0, st1, Popped([], ["5"]), st2);
    MinusLeftAssociativeTail(ops, fns, store, s);
  }

  /** shuntingYard turns `5-3-1` into `5 3 - 1 -`: "-" is left-associative, so the
      second "-" pops the first. */
  lemma MinusLeftAssociative(store: Variables.Store)
    requires !Variables.Contains(store, "-")
    ensures ShuntingYard(Operators.Registry, Functions.Registry, store, "5-3-1") ==
      Parse(store, Ok(["5", "3", "-", "1", "-"]))
  {
    Text.TrimOfTrimmed("5-3-1");
    RegistryMinus();
    DigitsNotOperators();
    MinusLeftAssociativeRun(Operators.Registry, Functions.Registry, store, "5-3-1");
  }

  /** The second half of the token loop over `2^3^2`: the second "^" does not pop the
      first, and the final loop empties the stack top first. */
  lemma PowerRightAssociativeTail(ops: Operators.OperatorMap, fns: Functions.FunctionMap, store: Variables.Store, s: string)
    requires Operators.Contains(ops, "^") && !Functions.Contains(fns, "^") && !Variables.Contains(store, "^")
    requires !Operators.Get(ops, "^").leftAssoc
    requires |s| == 5 && s[0] == '2' && s[1] == '^' && s[2] == '3' && s[3] == '^' && s[4] == '2'
    ensures Run(ops, fns, s, 2, PState(["2"], ["^"], None, Some("^"), store)) == Parse(store, Ok(["2", "3", "2", "^", "^"]))
  {
    var st2 := PState(["2"], ["^"], None, Some("^"), store);
    var st3 := PState(["2", "3"], ["^"], None, Some("3"), store);
    var st4 := PState(["2", "3"], ["^", "^"], None, Some("^"), store);
    var st5 := PState(["2", "3", "2"], ["^", "^"], None, Some("2"), store);
    PowerPops(ops);
    assert st3 == st2.(output := st2.output + [['3']], previous := Some(['3']));
    assert st4 == st3.(stack := ["^"] + [['^']], output := ["2", "3"], previous := Some(['^']));
    assert st5 == st4.(output := st4.output + [['2']], previous := Some(['2']));
    assert ["2", "3", "2"] + ["^", "^"] == ["2", "3", "2", "^", "^"];
    RunAtEndTwo(ops, fns, s, ["2", "3", "2"], "^", "^", Some("2"), store);
    DigitStep(ops, fns, s, 4, '2', st4, st5);
    DigitThenOperator(ops, fns, s, 2, '3', '^', st2, st3, Popped(["^"], ["2", "3"]), st4);
  }

  /** The token loop over `2^3^2` with any operator table in which "^" is
      right-associative. */
  lemma PowerRightAssociativeRun(ops: Operators.OperatorMap, fns: Functions.FunctionMap, store: Variables.Store, s: string)
    requires Operators.Contains(ops, "^") && !Functions.Contains(fns, "^") && !Variables.Contains(store, "^")
    requires !Operators.Get(ops, "^").leftAssoc
    requires |s| == 5 && s[0] == '2' && s[1] == '^' && s[2] == '3' && s[3] == '^' && s[4] == '2'
    ensures Run(ops, fns, s, 0, Start(store)) == Parse(store, Ok(["2", "3", "2", "^", "^"]))
  {
    var st0 := PState([], [], None, None, store);
    var st1 := PState(["2"], [], None, Some("2"), store);
    var st2 := PState(["2"], ["^"], None, Some("^"), store);
    PowerPops(ops);
    assert st1 == st0.(output := st0.output + [['2']], previous := Some(['2']));
    assert st2 == st1.(stack := [] + [['^']], output := ["2"], previous := Some(['^']));
    DigitThenOperator(ops, fns, s, 0, '2', '^', st0, st1, Popped([], ["2"]), st2);
    PowerRightAssociativeTail(ops, fns, store, s);
  }

  /** shuntingYard turns `2^3^2` into `2 3 2 ^ ^`: "^" is right-associative, so the
      second "^" does not pop the first. */
  lemma PowerRightAssociative(store: Variables.Store)
    requires !Variables.Contains(store, "^")
    ensures ShuntingYard(Operators.Registry, Functions.Registry, store, "2^3^2") ==
      Parse(store, Ok(["2", "3", "2", "^", "^"]))
  {
    Text.TrimOfTrimmed("2^3^2");
    RegistryPower();
    PowerRightAssociativeRun(Operators.Registry, Functions.Registry, store, "2^3^2");
  }

  /** A token that no earlier branch of the loop claims: not a number, not a
      variable, not a function. */
  predicate Unclaimed(fns: Functions.FunctionMap, st: PState, t: string)
  {
    Literals.IsNumber(t) == Ok(false) && !Variables.Contains(st.store, t) && !Functions.Contains(fns, t)
  }

  /** An operator directly after "(" or "," is missing its left operand. */
  lemma OperatorAfterOpenOrComma(ops: Operators.OperatorMap, fns: Functions.FunctionMap, st: PState,
                                 t: string, pos: int)
    requires Operators.Contains(ops, t) && Unclaimed(fns, st, t) && t != ","
    requires st.previous == Some("(") || st.previous == Some(",")
    ensures Step(ops, fns, st, t, pos) == Err(MissingParameters(t, Some(pos - |t|)))
  {
  }

  /** "," or ")" directly after an operator: that operator is missing its right
      operand. */
  lemma SeparatorAfterOperator(ops: Operators.OperatorMap, fns: Functions.FunctionMap, st: PState,
                               t: string, pos: int)
    requires t == "," || t == ")"
    requires Unclaimed(fns, st, t) && !Operators.Contains(ops, t)
    requires st.previous.Some? && Operators.Contains(ops, st.previous.value)
    ensures Step(ops, fns, st, t, pos) ==
      Err(MissingParameters(st.previous.value, Some(pos - 1 - |st.previous.value|)))
  {
  }

  /** "(" directly after a number: an operator is missing. */
  lemma OpenAfterNumber(ops: Operators.OperatorMap, fns: Functions.FunctionMap, st: PState, pos: int)
    requires Unclaimed(fns, st, "(") && !Operators.Contains(ops, "(")
    requires st.previous.Some? && Literals.IsNumber(st.previous.value) == Ok(true)
    ensures Step(ops, fns, st, "(", pos) == Err(MissingOperator(pos))
  {
  }

  /** A "(" after a function name goes both to the stack and to the output, where it
      marks the start of the parameter list; any other "(" goes to the stack only. */
  lemma OpenAfterFunction(ops: Operators.OperatorMap, fns: Functions.FunctionMap, st: PState, pos: int)
    requires Unclaimed(fns, st, "(") && !Operators.Contains(ops, "(")
    requires st.previous.Some? && Literals.IsNumber(st.previous.value) == Ok(false)
    ensures Step(ops, fns, st, "(", pos).Ok?
    ensures Step(ops, fns, st, "(", pos).value.stack == st.stack + ["("]
    ensures Step(ops, fns, st, "(", pos).value.output ==
      (if Functions.Contains(fns, st.previous.value) then st.output + ["("] else st.output)
  {
  }

  /** With no "(" on the stack, a "," has no parameter list to separate. */
  lemma CommaWithoutParen(ops: Operators.OperatorMap, fns: Functions.FunctionMap, st: PState, pos: int)
    requires Unclaimed(fns, st, ",") && !Operators.Contains(ops, ",")
    requires st.previous.Some? && !Operators.Contains(ops, st.previous.value)
    requires forall i :: 0 <= i < |st.stack| ==> st.stack[i] != "("
    ensures Step(ops, fns, st, ",", pos) == Err(ParseErrorForFunction(st.lastFunction))
  {
  }

  /** With no "(" on the stack, a ")" is a mismatched parenthesis. */
  lemma CloseWithoutParen(ops: Operators.OperatorMap, fns: Functions.FunctionMap, st: PState, pos: int)
    requires Unclaimed(fns, st, ")") && !Operators.Contains(ops, ")")
    requires st.previous.Some? && !Operators.Contains(ops, st.previous.value)
    requires forall i :: 0 <= i < |st.stack| ==> st.stack[i] != "("
    ensures Step(ops, fns, st, ")", pos) == Err(MismatchedParentheses)
  {
  }

  /** The final loop fails exactly when the stack holds a parenthesis or something
      that is not an operator, and the error names what was found nearest the top. */
  lemma {:induction false} FinishFails(ops: Operators.OperatorMap, stack: seq<string>, output: seq<string>)
    ensures Finish(ops, stack, output).Err? <==>
      exists i :: 0 <= i < |stack| && (stack[i] == "(" || stack[i] == ")" || !Operators.Contains(ops, stack[i]))
    ensures Finish(ops, stack, output).Err? ==>
      Finish(ops, stack, output).error == MismatchedParentheses ||
      Finish(ops, stack, output).error.UnknownOperatorOrFunction?
    decreases |stack|
  {
    if stack != [] {
      var e := stack[|stack| - 1];
      if !(e == "(" || e == ")" || !Operators.Contains(ops, e)) {
        var rest := stack[..|stack| - 1];
        FinishFails(ops, rest, output + [e]);
        if Finish(ops, stack, output).Err? {
          var i :| 0 <= i < |rest| && (rest[i] == "(" || rest[i] == ")" || !Operators.Contains(ops, rest[i]));
          assert stack[i] == rest[i];
        } else {
          forall i | 0 <= i < |stack|
            ensures !(stack[i] == "(" || stack[i] == ")" || !Operators.Contains(ops, stack[i]))
          {
            if i < |rest| {
              assert stack[i] == rest[i];
            }
          }
        }
      }
    }
  }

  /** A name the parser does not know (starting with a letter or '_', not an operator)
      is declared in the store as complex zero and emitted; its reserved first letters
      make the put, and so the parse, fail. */
  lemma AutoDeclare(ops: Operators.OperatorMap, fns: Functions.FunctionMap, st: PState, t: string, pos: int)
    requires Unclaimed(fns, st, t) && !Operators.Contains(ops, t)
    requires t != [] && (IsLetter(t[0]) || t[0] == '_')
    ensures Variables.Reserved(t[0]) ==> Step(ops, fns, st, t, pos) == Err(NotAllowedFirstChar(t[0]))
    ensures !Variables.Reserved(t[0]) ==>
      && Step(ops, fns, st, t, pos).Ok?
      && Step(ops, fns, st, t, pos).value.output == st.output + [t]
      && Variables.Lookup(Step(ops, fns, st, t, pos).value.store, t) == Some(Complex(0.0, 0.0))
      && Step(ops, fns, st, t, pos).value.stack == st.stack
  {
    if !Variables.Reserved(t[0]) {
      Variables.PutThenGet(st.store, t, Complex(0.0, 0.0), t);
    }
  }
}
