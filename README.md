# EvalEx expression engine, modelled in Dafny

This project models the expression pipeline of EvalEx (the `com.udojava.evalex`
package): the `Tokenizer` that splits a trimmed input string into tokens,
`isNumber` and the radix literals, the shunting-yard parser that turns infix text
into a reverse Polish (RPN) token list and auto-declares unknown names as 0,
`validate`, which checks the RPN list against a stack of per-scope value counts,
and `eval`, which runs the list on a stack of deferred values (`LazyNumber`s).
It also models the registries these stages consult:

- the operator table, with precedences, associativity and the list-level and
  integer-level bodies;
- the function table, with arities and the bodies that only pick or rebuild values;
- the case-insensitive variable store (`Variables`) with its reserved first letters.

It also covers the helpers in `Misc` and `MathTools`, and the console's input
rewriting (`Main.runUdoParser`) and history rule.

The central result is `Soundness.ValidatedEvalSafe`: on an RPN list that
`validate` accepts, `eval` never pops an empty stack, never hands the parameter
marker `PARAMS_START` to an operator, and ends with exactly one value. The
imperative `Expressions.Expression.Eval` inherits the guarantee. It relies on the
corrected `getRPN`, which caches only a validated list (see Findings).

Layout, one module per file:

- `Outcomes`: the `Option`/`Result`/`Outcome` wrappers and the exceptions.
- `Text`: the `java.lang.String` operations the source uses.
- `Values`: `MyComplex`/`PitDecimal` values and the `Arith` record of numeric library primitives.
- `Variables`: the variable store.
- `Operators` and `Functions`: the records and the registries.
- `Tokenizer`, `Literals`, `Parser`, `Validator` and `Evaluator`: the pipeline as functions.
- `Expressions`: the `Expression` class, with the imperative loops proved against those functions.
- `OperatorBodies`, `FunctionBodies` and `Bits`: the registered bodies.
- `Soundness`: the validate-implies-safe-eval proof.
- `ParserProperties`: worked parser cases.
- `Misc` and `MathTools`: the helper classes.
- `Console`: `runUdoParser` and the history.

Facts about the source that shape the model:

- Only `+ - * / % !` are left-associative in the operator table. Every other
  operator, `^` included, is registered with `leftAssoc == false`.
- `runUdoParser` rewrites every `~` to `0~`, wherever it occurs.
- `getRPN` caches the RPN list before `validate` runs, so a list that fails
  validation is evaluated unchecked on the second `eval`. This is Finding 3.
- The evaluator's operator and function tables use the corrected `&&` and `MAX`
  bodies of Findings 1 and 2; the bodies as written are modelled beside them
  (see "## Left out").

## Model

| member | source | states |
|---|---|---|
| Text.Trim | src/com/udojava/evalex/Expression.java:1625-1628 | the tokenizer's input is the trimmed string: never longer, and when non-empty it starts and ends above U+0020 |
| Text.Fold | src/com/udojava/evalex/Variables.java:12 | the key of CASE_INSENSITIVE_ORDER: same length, every character folded, no upper-case letter left |
| Text.TrimOfTrimmed | src/com/udojava/evalex/Expression.java:1627 | trimming a string that already starts and ends above U+0020 changes nothing |
| Text.ToUpper | src/com/udojava/evalex/LazyFunction.java:27 | `toUpperCase(Locale.ROOT)` upper-cases each character and keeps the length |
| Text.FoldOfUpper | src/com/udojava/evalex/Expression.java:1191 | upper-casing a token before a lookup in a case-insensitive map changes nothing: `Fold(ToUpper(s)) == Fold(s)` |
| Text.ReplaceLength | src/com/udojava/evalex/Main.java:395 | `replace(a, b)` changes the length by `len(b) - len(a)` for each non-overlapping occurrence of `a` it replaces |
| Text.FixpointHasNoTarget | src/com/udojava/evalex/Misc.java:111-117 | a string that `replace(a, b)` leaves unchanged, with `a` non-empty and different from `b`, holds no occurrence of `a` |
| Text.RemoveRegexSpaces | src/com/udojava/evalex/Main.java:394 | `replaceAll("\\s+", "")` leaves no regex white space, keeps every other character, and shortens the string exactly when it held white space |
| Text.RemoveRegexSpacesAppend | src/com/udojava/evalex/Main.java:394 | the removal works piecewise on a concatenation, so the kept characters stay in order with their multiplicity |
| Text.RemoveRegexSpacesOne | src/com/udojava/evalex/Main.java:394 | a single character is dropped exactly when it is regex white space |
| Text.Replace | src/com/udojava/evalex/Main.java:395-396 | replacing a string by itself changes nothing, and an empty target inserts the replacement at each of the `len+1` positions |
| Values.TypeOf | src/com/udojava/evalex/Expression.java:1179 | the type tag is ARRAY exactly for arrays |
| Values.Promote | src/com/udojava/evalex/Expression.java:116 | the result of a complex arithmetic operation is REAL exactly when both operands are REAL |
| Values.Retag | src/com/udojava/evalex/Expression.java:1185-1186 | setting `type` keeps the real and imaginary parts and the variable name |
| Values.ToLong | src/com/udojava/evalex/Expression.java:355 | `(long) d` truncates toward zero; below `Long.MIN_VALUE` it gives `Long.MIN_VALUE` and above `Long.MAX_VALUE` it gives `Long.MAX_VALUE` |
| Values.ToInt | src/com/udojava/evalex/Expression.java:732 | `(int) d` truncates toward zero; below `Integer.MIN_VALUE` it gives `Integer.MIN_VALUE` and above `Integer.MAX_VALUE` it gives `Integer.MAX_VALUE` |
| Values.JavaEquals | src/com/udojava/evalex/MyComplex.java:44-56 | for a scalar receiver, equal real and imaginary parts make equal values, and equal values share the real part |
| Variables.Assign | src/com/udojava/evalex/Variables.java:14-20 | `put` fails on an empty name and on a lower-case x, o, b or h first letter, and otherwise adds exactly the folded key |
| Variables.Lookup | src/com/udojava/evalex/Variables.java:32-35 | `get` returns a value exactly when `containsKey` holds, and null otherwise |
| Variables.PutThenGet | src/com/udojava/evalex/Variables.java:19 | after a successful put, every spelling equal to the key ignoring case is present and reads the stored value |
| Variables.PutFrame | src/com/udojava/evalex/Variables.java:19 | a put changes no binding of another key |
| Variables.PutKeepsSpelling | src/com/udojava/evalex/Variables.java:19 | overwriting keeps the key's first spelling and the key set (TreeMap.put) |
| Variables.ReservedIsCaseSensitive | src/com/udojava/evalex/Variables.java:16-18 | `BUILD` and `Hx` are accepted, `build` and `hx` refused |
| Variables.Variables.Put | src/com/udojava/evalex/Variables.java:14-20 | the store becomes `Assign`'s result, or stays as it was and the error is returned |
| Variables.Variables.SetMap | src/com/udojava/evalex/Variables.java:37-40 | the whole store is replaced by the given map, which `getMap` (Variables.java:22-25) then hands back as it is |
| Variables.Variables.ContainsKey | src/com/udojava/evalex/Variables.java:27-30 | on a well-keyed store, holds exactly when some stored name equals the key ignoring case |
| Variables.Variables.Get | src/com/udojava/evalex/Variables.java:32-35 | returns a value exactly when `containsKey` holds, the one stored under the folded key, and null otherwise |
| Operators.NewOperatorWithDesc | src/com/udojava/evalex/Operator.java:33-49 | name, description, precedence and associativity are stored as given, so `getPrecedence` and `isLeftAssoc` read back the values passed in |
| Operators.NewOperator | src/com/udojava/evalex/Operator.java:28-31 | the three-argument constructor stores a null description |
| Operators.MinusIsOperator | src/com/udojava/evalex/Expression.java:120 | `-` is registered with precedence 20 and left-associative |
| Functions.NewLazyFunction | src/com/udojava/evalex/LazyFunction.java:25-35 | the name is stored upper-cased and the parameter count unchanged, so `getNumParams` reads back the count passed in |
| Functions.NewFunction | src/com/udojava/evalex/Function.java:20-23 | forwards name and arity, so the name ends up upper-cased |
| Functions.NewFunctionWithDesc | src/com/udojava/evalex/Function.java:14-18 | forwards name and arity and sets the description |
| Functions.VariadicMarker | src/com/udojava/evalex/LazyFunction.java:37-40 | `numParamsVaries` holds for -1 under both constructors and fails for every count from 0 |
| Functions.LookupIgnoresCase | src/com/udojava/evalex/Expression.java:1191-1193 | looking up the upper-cased token finds exactly what the folded token finds |
| Tokenizer.RunEnd | src/com/udojava/evalex/Expression.java:1655-1670 | a character loop stops at the first character that does not continue the run |
| Tokenizer.SkipWs | src/com/udojava/evalex/Expression.java:1645-1648 | the white-space loop stops on the first non-blank character, or runs past the end (an index error) |
| Tokenizer.ScanAt | src/com/udojava/evalex/Expression.java:1653-1722 | a token is the non-empty slice it consumed, and the only error is an unknown operator |
| Tokenizer.Scan | src/com/udojava/evalex/Expression.java:1637-1722 | `next` on unexhausted input consumes the white space and then at least one character |
| Tokenizer.TokenStartsBlack | src/com/udojava/evalex/Expression.java:1645-1722 | a token is never empty and never starts with white space |
| Tokenizer.NumericToken | src/com/udojava/evalex/Expression.java:1653-1681 | a number token holds no white space, parenthesis or comma |
| Tokenizer.NumberRunIsNumeric | src/com/udojava/evalex/Expression.java:1655-1670 | the characters the number loop reads form a number token |
| Tokenizer.NumberTokens | src/com/udojava/evalex/Expression.java:1653-1681 | a token starting with a digit, or a fused `-` and a digit, holds only digits, `.`, `e`, `E`, `i`, and a sign right after an exponent letter |
| Tokenizer.FusedMinus | src/com/udojava/evalex/Expression.java:1672-1681 | `-` before a digit joins the number exactly when the previous token is `(`, `,`, none or an operator |
| Tokenizer.SymbolTokens | src/com/udojava/evalex/Expression.java:1701-1721 | a symbol run stops before a `-`, and it is a registered operator or the call fails with "Unknown operator" |
| Tokenizer.Tokenizer.constructor | src/com/udojava/evalex/Expression.java:1625-1628 | the input is trimmed, the position is 0 and there is no previous token |
| Tokenizer.Tokenizer.PeekNextChar | src/com/udojava/evalex/Expression.java:1736-1746 | the character after the current one, or character 0 at the end |
| Tokenizer.Tokenizer.Next | src/com/udojava/evalex/Expression.java:1637-1722 | returns null at the end, where `hasNext` fails (Expression.java:1631-1634); otherwise the position and previous token become those of `Scan`, or the error is returned |
| Tokenizer.Tokenizer.NextAt | src/com/udojava/evalex/Expression.java:1653-1722 | the branch after the white space agrees with `ScanAt` |
| Tokenizer.Tokenizer.SkipWhitespace | src/com/udojava/evalex/Expression.java:1644-1648 | the loop agrees with `SkipWs` |
| Tokenizer.Tokenizer.ReadNumber | src/com/udojava/evalex/Expression.java:1653-1671 | the loop reads exactly the number run |
| Tokenizer.Tokenizer.ReadName | src/com/udojava/evalex/Expression.java:1682-1695 | the loop reads exactly the name run |
| Tokenizer.Tokenizer.ReadSymbol | src/com/udojava/evalex/Expression.java:1701-1716 | the loop reads exactly the symbol run |
| Literals.IsNumber | src/com/udojava/evalex/Expression.java:1488-1521 | fails exactly on the empty token and on `b`; `x…` (not `xor`), `o…` (not `or`) and `b0…`/`b1…` are radix literals; a lone sign or a leading `e`/`E` is not a number; any other token is a number exactly when all its characters are literal characters |
| Literals.NumberTokensAreNumbers | src/com/udojava/evalex/Expression.java:1503-1520 | every number token the tokenizer produces is classified as a number |
| Literals.OperatorWordsAreNotNumbers | src/com/udojava/evalex/Expression.java:1490-1492 | `xor` and `or` are not numbers, `x1F` and `b101` are, `bar` is not |
| Literals.ParseRadix | src/com/udojava/evalex/Expression.java:1276 | `new BigInteger(val, radix)` fails with a number-format error exactly on an empty string, a lone sign, or a digit outside the radix |
| Literals.RadixText | src/com/udojava/evalex/Expression.java:1277 | `toString(radix)` is a minus sign for negatives, then lower-case digits of the radix |
| Literals.RadixTextEnds | src/com/udojava/evalex/Expression.java:1277 | the last digit is the value modulo the radix, and a number of two or more digits has no leading 0 |
| Literals.RadixDigits | src/com/udojava/evalex/Expression.java:1277 | the digits read back as the number |
| Literals.TextOfDigits | src/com/udojava/evalex/Expression.java:1277 | a lower-case digit string without a leading 0 is exactly `toString(radix)` of its value |
| Literals.RadixRoundTrip | src/com/udojava/evalex/Expression.java:1273-1292 | the text `toString(radix)` writes parses back to the same integer with `new BigInteger(s, radix)` |
| Literals.MinusInsideRefused | src/com/udojava/evalex/Expression.java:1276 | `new BigInteger` refuses a minus sign anywhere but in front |
| Literals.NumberOutput | src/com/udojava/evalex/Expression.java:1271-1292 | a plain number goes to the output unchanged; a radix literal goes as the decimal text of its value; the only failure is a number-format error on the digits after the prefix |
| Parser.Reverse | src/com/udojava/evalex/Expression.java:1393-1406 | the stack is popped from the top down |
| Parser.PopOperators | src/com/udojava/evalex/Expression.java:1334-1346 | pops exactly the top run of operators that go before `o1`, onto the output in pop order |
| Parser.PopToParen | src/com/udojava/evalex/Expression.java:1316-1319 | pops down to the nearest `(`, which stays |
| Parser.OnComma | src/com/udojava/evalex/Expression.java:1310-1326 | a comma that succeeds leaves a `(` on top; a failing one throws a parser exception, never a stack one |
| Parser.OnOperator | src/com/udojava/evalex/Expression.java:1327-1347 | fails exactly after `(` or `,`; otherwise the operator ends on top |
| Parser.OnOpen | src/com/udojava/evalex/Expression.java:1348-1366 | `(` is pushed, and goes to the output only after a function name; a failure is a parser exception |
| Parser.OnClose | src/com/udojava/evalex/Expression.java:1367-1389 | a `)` that succeeds shrinks the stack and keeps the store; a failure is a parser exception |
| Parser.Step | src/com/udojava/evalex/Expression.java:1270-1390 | the token becomes the previous token; the store keeps every binding and only gains names bound to 0 |
| Parser.StepErrors | src/com/udojava/evalex/Expression.java:1270-1390 | every exception one pass of shuntingYard's loop throws is a parser exception, never an empty-stack or missing-operand one |
| Parser.Finish | src/com/udojava/evalex/Expression.java:1392-1406 | the final loop appends the stack from the top down, and all of it must be operators |
| Parser.Run | src/com/udojava/evalex/Expression.java:1268-1406 | the whole loop keeps every binding and only adds names bound to 0 |
| Parser.ShuntingYard | src/com/udojava/evalex/Expression.java:1259-1408 | parsing keeps every variable and its value, and only declares new ones, bound to 0 |
| ParserProperties.ProductBeforeSum | src/com/udojava/evalex/Expression.java:1259-1408 | shuntingYard with the registered operators turns `2+3*4` into `2 3 4 * +` |
| ParserProperties.MinusLeftAssociative | src/com/udojava/evalex/Expression.java:1259-1408 | shuntingYard with the registered operators turns `5-3-1` into `5 3 - 1 -` |
| ParserProperties.PowerRightAssociative | src/com/udojava/evalex/Expression.java:163 | shuntingYard with the registered operators turns `2^3^2` into `2 3 2 ^ ^` |
| ParserProperties.ProductBeforeSumRun | src/com/udojava/evalex/Expression.java:1334-1346 | with any operator table in which `*` binds tighter than `+`, the loop over `2+3*4` gives `2 3 4 * +` |
| ParserProperties.MinusLeftAssociativeRun | src/com/udojava/evalex/Expression.java:1334-1346 | with any operator table in which `-` is left-associative, the loop over `5-3-1` gives `5 3 - 1 -` |
| ParserProperties.PowerRightAssociativeRun | src/com/udojava/evalex/Expression.java:1334-1346 | with any operator table in which `^` is right-associative, the loop over `2^3^2` gives `2 3 2 ^ ^` |
| ParserProperties.OperatorStep | src/com/udojava/evalex/Expression.java:1327-1347 | a one-character operator before a digit pops the stacked operators that go before it and is pushed |
| ParserProperties.PopAtMostOne | src/com/udojava/evalex/Expression.java:1334-1346 | a single stacked operator is popped exactly when it goes before the incoming one |
| ParserProperties.OperatorAfterOpenOrComma | src/com/udojava/evalex/Expression.java:1329-1333 | an operator right after `(` or `,` fails with missing parameters |
| ParserProperties.SeparatorAfterOperator | src/com/udojava/evalex/Expression.java:1312-1316 | `,` or `)` right after an operator fails with missing parameters |
| ParserProperties.OpenAfterNumber | src/com/udojava/evalex/Expression.java:1352-1357 | `(` right after a number fails with missing operator |
| ParserProperties.OpenAfterFunction | src/com/udojava/evalex/Expression.java:1358-1365 | `(` after a function name goes to both the stack and the output |
| ParserProperties.CommaWithoutParen | src/com/udojava/evalex/Expression.java:1320-1324 | `,` with no `(` on the stack fails with a parse error naming the last function |
| ParserProperties.CloseWithoutParen | src/com/udojava/evalex/Expression.java:1378-1381 | `)` with no `(` on the stack fails with mismatched parentheses |
| ParserProperties.FinishFails | src/com/udojava/evalex/Expression.java:1392-1406 | the final loop fails exactly when the stack holds a parenthesis or a non-operator |
| ParserProperties.AutoDeclare | src/com/udojava/evalex/Expression.java:1303-1309 | an unknown name is stored as 0 and emitted, unless its first letter is reserved |
| Validator.KindOf | src/com/udojava/evalex/Expression.java:1430-1465 | a token is an operator if the operator table has it, else a variable if the store has it, else a function if the function table has it |
| Validator.ScopeStep | src/com/udojava/evalex/Expression.java:1430-1465 | one pass of the loop never leaves the scope stack empty and closes at most one scope |
| Validator.ValidateFrom | src/com/udojava/evalex/Expression.java:1428-1479 | the loop can pass only if the list has a token left for every open scope but the global one |
| Validator.Validate | src/com/udojava/evalex/Expression.java:1415-1480 | an empty list is an empty expression, and an accepted list starts with neither an operator nor a function |
| Validator.FinalCheck | src/com/udojava/evalex/Expression.java:1468-1479 | the final checks pass exactly on the scope stack `[1]` |
| Validator.AcceptsExactlyOne | src/com/udojava/evalex/Expression.java:1424-1479 | validate accepts exactly when the loop ends with the scope stack `[1]` |
| Validator.ScopesAppend | src/com/udojava/evalex/Expression.java:1428-1466 | the loop over `rpn + [t]` is the loop over `rpn` and then one pass on `t` |
| Validator.OperatorNeedsTwo | src/com/udojava/evalex/Expression.java:1430-1436 | `1 +` is refused with missing parameters for `+` |
| Validator.WrongArity | src/com/udojava/evalex/Expression.java:1443-1450 | a fixed-arity function with another count is refused with a wrong parameter count |
| Evaluator.Force | src/com/udojava/evalex/Expression.java:1173 | evaluating a deferred computation never removes a variable, and PARAMS_START evaluates to the null that fails as an operand |
| Evaluator.ForceAll | src/com/udojava/evalex/Function.java:25-33 | `lazyEval` yields as many values as parameters and removes no variable |
| Evaluator.ForceAllInOrder | src/com/udojava/evalex/Function.java:28-31 | parameter k is evaluated in the store the first k left behind, in list order |
| Evaluator.ForceAllStops | src/com/udojava/evalex/Function.java:28-31 | an exception ends the loop: later parameters are never evaluated |
| Evaluator.LazyEval | src/com/udojava/evalex/Function.java:25-33 | the parameter loop agrees with `ForceAll` |
| Evaluator.ParseLiteral | src/com/udojava/evalex/Expression.java:1213-1228 | a token ending in `i` is COMPLEX with real part 0 and imaginary part the parsed text before the `i` (`1` for a lone `i`); any other is REAL with the parsed double; it fails exactly when that parse fails, with a number-format error |
| Evaluator.MarkerIndex | src/com/udojava/evalex/Expression.java:1198-1205 | the nearest PARAMS_START below the top, with no marker above it |
| Evaluator.VariableEntry | src/com/udojava/evalex/Expression.java:1176-1190 | an array is pushed as is; a scalar as a copy carrying the variable's name, parts and tag |
| Evaluator.EvalToken | src/com/udojava/evalex/Expression.java:1169-1229 | only a function token can change the store when the pass succeeds |
| Evaluator.FunctionTokenStep | src/com/udojava/evalex/Expression.java:1191-1208 | a function token with no PARAMS_START below it throws EmptyStackException; otherwise it forces exactly the entries above the nearest marker, and replaces them and the marker by the call, or stops with the first parameter's exception |
| Evaluator.LiteralToken | src/com/udojava/evalex/Expression.java:1213-1228 | a literal pushes its parsed value, or stops with the parse's exception, leaving the store alone |
| Evaluator.PopFinal | src/com/udojava/evalex/Expression.java:1231 | popping an empty stack at the end fails with EmptyStackException |
| Evaluator.Run | src/com/udojava/evalex/Expression.java:1167-1230 | the token loop never removes a variable |
| Evaluator.RunAppend | src/com/udojava/evalex/Expression.java:1167-1230 | the loop over `a + b` is the loop over `a` and then, unless that threw, the loop over `b` from the stack and store it left |
| Evaluator.Eval | src/com/udojava/evalex/Expression.java:1163-1232 | an empty list pops an empty stack, and evaluation never removes a variable |
| Evaluator.OperandOrder | src/com/udojava/evalex/Expression.java:1169-1175 | an operator on entries `a` then `b` computes `op(a, b)`: the first entry pushed is the left operand |
| Evaluator.FunctionTakesSegment | src/com/udojava/evalex/Expression.java:1191-1208 | a function receives exactly the entries above the nearest marker, in source order, and the marker is removed |
| Soundness.Shape | src/com/udojava/evalex/Expression.java:1421-1426 | the scope stack a LazyNumber stack stands for is never empty |
| Soundness.AssignSafe | src/com/udojava/evalex/Expression.java:262-277 | `->` on values named after existing variables keeps the set of variables and closedness, and fails only with its own error |
| Soundness.ValueOperatorNames | src/com/udojava/evalex/Expression.java:104-398 | an operator other than `->` returns no variable name its operands did not carry, and never fails with a stack error |
| Soundness.OperatorSafe | src/com/udojava/evalex/Expression.java:104-398 | an operator body keeps the variables, keeps the store closed, and fails only with its own errors |
| Soundness.FunctionSafe | src/com/udojava/evalex/Expression.java:400-1120 | a function body never fails with a stack error, provided the library primitives do not |
| Soundness.ForceSafe | src/com/udojava/evalex/Expression.java:1173 | evaluating a deferred computation keeps the variables and closedness and never fails with a stack error |
| Soundness.ForceAllSafe | src/com/udojava/evalex/Function.java:28-31 | the same for every parameter `lazyEval` evaluates |
| Soundness.ShapeSegment | src/com/udojava/evalex/Expression.java:1198-1205 | the entries above the nearest marker are as many as validate's top count |
| Soundness.OperatorStep | src/com/udojava/evalex/Expression.java:1169-1175 | an operator token turns the two top entries of a scope into one, as validate's count does |
| Soundness.FunctionStep | src/com/udojava/evalex/Expression.java:1191-1208 | a function token closes its scope and adds one entry below it, as validate's count does |
| Soundness.VariableStep | src/com/udojava/evalex/Expression.java:1176-1190 | a variable pushes one sound entry and adds one to the top count, as validate's count does |
| Soundness.OpenStep | src/com/udojava/evalex/Expression.java:1209-1212 | `(` pushes PARAMS_START and opens a scope of count zero, as validate does |
| Soundness.LiteralStep | src/com/udojava/evalex/Expression.java:1213-1228 | a literal pushes one sound entry and adds one to the top count, or fails with a number-format error |
| Soundness.StepSafe | src/com/udojava/evalex/Expression.java:1169-1229 | a token validate accepts takes a well-formed stack to one whose shape is validate's next scope stack |
| Soundness.RunSafe | src/com/udojava/evalex/Expression.java:1167-1230 | on a list validated from the current shape, the loop never underflows and ends with one sound entry |
| Soundness.ValidatedEvalSafe | src/com/udojava/evalex/Expression.java:1410-1414 | a validated list evaluates to one value, never fails with a stack error, and keeps the store closed and the list valid |
| Soundness.ValidateSameKeys | src/com/udojava/evalex/Expression.java:1439 | validate depends on the store only through its set of names |
| Soundness.ParseKeepsClosed | src/com/udojava/evalex/Expression.java:1306 | shuntingYard only adds variables holding 0, so a closed store stays closed |
| Soundness.ParseErrorsNotStack | src/com/udojava/evalex/Expression.java:1268-1406 | shuntingYard's exceptions are never stack errors |
| Soundness.ValidateErrorsNotStack | src/com/udojava/evalex/Expression.java:1428-1479 | validate's exceptions are never stack errors |
| Soundness.ParseThenValidate | src/com/udojava/evalex/Expression.java:1241-1249 | whatever getRPN throws is never a stack error, and the store stays closed |
| Expressions.Expression.constructor | src/com/udojava/evalex/Expression.java:97-398 | stores the text and the shared store, fills both registries, and starts with no cached list |
| Expressions.Expression.FinishLoop | src/com/udojava/evalex/Expression.java:1392-1406 | the final loop agrees with `Parser.Finish` |
| Expressions.Expression.ShuntingYard | src/com/udojava/evalex/Expression.java:1259-1408 | the token loop gives `Parser.ShuntingYard`'s list and leaves its store |
| Expressions.Expression.CountToken | src/com/udojava/evalex/Expression.java:1430-1465 | the in-place update of the scope stack agrees with `Validator.ScopeStep` |
| Expressions.Expression.Validate | src/com/udojava/evalex/Expression.java:1415-1480 | the loop and the final checks agree with `Validator.Validate` |
| Expressions.Expression.GetRPNAsWritten | src/com/udojava/evalex/Expression.java:1241-1249 | as written: the cached list is returned, or the list is cached and then validated |
| Expressions.Expression.GetRPN | src/com/udojava/evalex/Expression.java:1241-1249 | corrected: only a list that validate accepts is cached, so the cache stays valid |
| Expressions.Expression.PopParams | src/com/udojava/evalex/Expression.java:1198-1205 | the popping loop takes the entries above the nearest marker and removes the marker |
| Expressions.Expression.EvalToken | src/com/udojava/evalex/Expression.java:1169-1228 | one pass of the loop leaves exactly the stack and store of `Evaluator.EvalToken`, or stops with its exception |
| Expressions.Expression.CallFunction | src/com/udojava/evalex/Expression.java:1191-1208 | the function branch pops the parameter list, evaluates it and pushes the call, as `Evaluator.EvalToken` does |
| Expressions.Expression.EvalList | src/com/udojava/evalex/Expression.java:1165-1231 | the stack loop agrees with `Evaluator.Eval`, store included |
| Expressions.Expression.Eval | src/com/udojava/evalex/Expression.java:1163-1232 | eval is `Evaluator.Eval` on the cached list; on the first call it parses, then validates, caches only an accepted list and evaluates it; it gives a value or an error that is not a stack error |
| Expressions.ParseOnePlus | src/com/udojava/evalex/Expression.java:1259-1408 | shuntingYard turns `1+` into the list `1 +` |
| Expressions.UncheckedCache | src/com/udojava/evalex/Expression.java:1241-1249 | `1+` parses, validate refuses it, and evaluating the cached list pops an empty stack |
| Expressions.EvalOnePlus | src/com/udojava/evalex/Expression.java:1169-1172 | eval on `1 +` fails with EmptyStackException |
| OperatorBodies.Binary | src/com/udojava/evalex/Expression.java:116 | an arithmetic result is a plain scalar, REAL exactly when both operands are REAL |
| OperatorBodies.Plus | src/com/udojava/evalex/Expression.java:104-118 | on an array: a new array, the old elements and then `v2`; otherwise complex addition |
| OperatorBodies.RemoveEqual | src/com/udojava/evalex/Expression.java:128 | `removeIf(equals(v2))` keeps only elements of the list that are not equal to `v2` |
| OperatorBodies.RemoveEqualKeeps | src/com/udojava/evalex/Expression.java:128 | every element not equal to `v2` survives |
| OperatorBodies.RemoveEqualAppend | src/com/udojava/evalex/Expression.java:128 | the removal keeps the order of the elements |
| OperatorBodies.Minus | src/com/udojava/evalex/Expression.java:120-133 | on an array: a new array without the elements equal to `v2`; otherwise complex subtraction |
| OperatorBodies.AndAsWritten | src/com/udojava/evalex/Expression.java:172-181 | as written, `&&` gives 1 exactly when both operands are 0 |
| OperatorBodies.And | src/com/udojava/evalex/Expression.java:172-173 | corrected, `&&` gives 1 exactly when both operands are not 0, as its description says |
| OperatorBodies.Or | src/com/udojava/evalex/Expression.java:183-192 | `\|\|` gives 0 exactly when both operands are 0 |
| OperatorBodies.AndInverted | src/com/udojava/evalex/Expression.java:178-179 | `1 && 1` gives 0 and `0 && 0` gives 1 as written; the corrected body gives 1 and 0 |
| OperatorBodies.AndOrDuality | src/com/udojava/evalex/Expression.java:172-192 | the corrected `&&` and `\|\|` obey De Morgan's law |
| OperatorBodies.Compare | src/com/udojava/evalex/Expression.java:194-311 | on REAL operands a comparison is 1 exactly when it holds on the real parts |
| OperatorBodies.SetVariable | src/com/udojava/evalex/Expression.java:262-277 | `->` fails unless the left operand is a named value; otherwise it stores the right operand under that name and returns it |
| OperatorBodies.FactorialOf | src/com/udojava/evalex/Expression.java:353-357 | `!` gives a COMPLEX value with imaginary part 0 and real part at least 1 |
| OperatorBodies.ComplementOf | src/com/udojava/evalex/Expression.java:364-377 | `~` gives a REAL integer |
| OperatorBodies.FactorialLoop | src/com/udojava/evalex/Expression.java:343-351 | the product loop computes `Bits.Factorial(n)` |
| OperatorBodies.ComplementLoop | src/com/udojava/evalex/Expression.java:366-376 | the bit-flipping loop computes `Bits.Complement(n)` |
| OperatorBodies.ApplyOperator | src/com/udojava/evalex/Expression.java:104-398 | only `->` changes the store, and only by adding the left operand's name |
| Bits.Factorial | src/com/udojava/evalex/Expression.java:343-351 | the factorial is at least 1 |
| Bits.FactorialDivisible | src/com/udojava/evalex/Expression.java:343-351 | every k from 1 to n divides n! |
| Bits.BitLength | src/com/udojava/evalex/Expression.java:367 | `bitLength` is minimal: for c > 0, bit c-1 is the highest bit that differs from the sign |
| Bits.BitLengthRange | src/com/udojava/evalex/Expression.java:367 | a value of bit length c lies in [0, 2^c) or [-2^c, 0) |
| Bits.FlipLowValue | src/com/udojava/evalex/Expression.java:372-375 | flipping bits 0..k-1 replaces the low part `n mod 2^k` by its complement |
| Bits.Complement | src/com/udojava/evalex/Expression.java:366-377 | `~` keeps naturals natural and takes numbers below -1 to negatives |
| Bits.ComplementOfNatural | src/com/udojava/evalex/Expression.java:366-377 | on a natural number, `~` is the one's complement within its bit length |
| Bits.ComplementOfNegative | src/com/udojava/evalex/Expression.java:366-377 | on a number below -1, `~` gives `-n - 1 - 2^c` |
| FunctionBodies.Select | src/com/udojava/evalex/Expression.java:574-595 | the MAX/MIN loop returns the start value or a parameter, and nothing in the list beats it |
| FunctionBodies.SelectLoop | src/com/udojava/evalex/Expression.java:574-595 | the for loop agrees with `Select` |
| FunctionBodies.MaxAsWritten | src/com/udojava/evalex/Expression.java:561-598 | as written, MAX fails exactly on an empty list, and otherwise returns `Double.MIN_VALUE` or a parameter, never below `Double.MIN_VALUE` |
| FunctionBodies.Max | src/com/udojava/evalex/Expression.java:561-598 | corrected, MAX fails exactly on an empty list and otherwise returns a parameter that no parameter exceeds |
| FunctionBodies.MaxOfNegatives | src/com/udojava/evalex/Expression.java:567 | as written, `MAX(-1, -2)` gives Double.MIN_VALUE; corrected, it gives -1 |
| FunctionBodies.Min | src/com/udojava/evalex/Expression.java:937-971 | MIN fails exactly on an empty list |
| FunctionBodies.MinIsLeast | src/com/udojava/evalex/Expression.java:937-971 | on finite real parameters, MIN returns the least real part, which one of them has |
| FunctionBodies.Sequence | src/com/udojava/evalex/Expression.java:724-739 | SEQ has `count` elements (none for a negative count), element k being `start + k*step` |
| FunctionBodies.SequenceLoop | src/com/udojava/evalex/Expression.java:731-736 | the loop agrees with `Sequence` |
| FunctionBodies.If | src/com/udojava/evalex/Expression.java:600-612 | IF gives the third parameter when the first is 0, otherwise the second |
| FunctionBodies.Fibonacci | src/com/udojava/evalex/Expression.java:923-934 | FIB fails exactly on a negative `(int)` argument and otherwise gives F(n) |
| Text.Reversed | src/com/udojava/evalex/Expression.java:885 | `StringBuilder.reverse`: same length, character k is character len-1-k of the input |
| Bits.IntValue | src/com/udojava/evalex/Expression.java:902 | `BigInteger.intValue` keeps the low 32 bits as a signed int: in int range, congruent to the number modulo 2^32, and the number itself when it fits |
| FunctionBodies.NibbleSwap | src/com/udojava/evalex/Expression.java:877-888 | NSWP fails with a number-format error exactly on a negative `(long)` argument, and otherwise gives the COMPLEX value of its hexadecimal digits reversed |
| FunctionBodies.SwapNibblesTwice | src/com/udojava/evalex/Expression.java:883-886 | swapping nibbles twice gives the number back when its last hexadecimal digit is not 0 |
| FunctionBodies.SwapNibblesLosesTrailingZero | src/com/udojava/evalex/Expression.java:883-886 | 0x10 and 1 both swap to 1, so the swap is not one-to-one |
| FunctionBodies.SwapNibblesExample | src/com/udojava/evalex/Expression.java:883-886 | 0x12 swaps to 0x21 |
| FunctionBodies.PadToWord | src/com/udojava/evalex/Expression.java:897-900 | the hexadecimal text is padded at the end with fewer than four zeros to a multiple of four characters |
| FunctionBodies.PadToWordLoop | src/com/udojava/evalex/Expression.java:897-900 | the padding loop agrees with `PadToWord` |
| FunctionBodies.Widened | src/com/udojava/evalex/Expression.java:895-904 | the text BSWP reverses has an even length of at least four |
| FunctionBodies.WidenedDigits | src/com/udojava/evalex/Expression.java:895-906 | for a non-negative number, the text before and after reverseHex is all hexadecimal digits with no sign in front |
| FunctionBodies.ByteSwapNegative | src/com/udojava/evalex/Expression.java:895-907 | for a negative number, reverseHex moves the minus sign off the front and `new BigInteger` refuses the text |
| FunctionBodies.ByteSwap | src/com/udojava/evalex/Expression.java:890-909 | BSWP fails with a number-format error exactly on a negative `(long)` argument, and otherwise gives the COMPLEX value of the byte-reversed text |
| FunctionBodies.ByteSwapUndone | src/com/udojava/evalex/Expression.java:906 | reversing the byte pairs of BSWP's text again gives back the widened text |
| FunctionBodies.WidenedExamples | src/com/udojava/evalex/Expression.java:895-904 | 0x1234 is not widened; 0x12 becomes `001200` |
| FunctionBodies.SwapBytesExample | src/com/udojava/evalex/Expression.java:890-909 | BSWP(0x1234) is 0x3412 |
| FunctionBodies.SwapBytesPadded | src/com/udojava/evalex/Expression.java:890-909 | BSWP(0x12) is 0x1200 |
| FunctionBodies.Reciprocals | src/com/udojava/evalex/Expression.java:837-842 | the sum of reciprocals is a scalar, REAL exactly when every parameter is |
| FunctionBodies.HarmonicMean | src/com/udojava/evalex/Expression.java:826-846 | HMEAN fails exactly on no parameters and otherwise gives a REAL scalar |
| FunctionBodies.HarmonicMeanLoop | src/com/udojava/evalex/Expression.java:832-844 | the loop agrees with `HarmonicMean` |
| FunctionBodies.ApplyFunction | src/com/udojava/evalex/Expression.java:400-1120 | a missing parameter of FIB, IM, RE, ABS, NOT, ROU, MERS, NSWP, BSWP, SEQ, PERC or PER throws an index error; NSWP and BSWP fail with a number-format error exactly on a negative argument; HMEAN, MAX and MIN fail exactly on no parameters; ARR gives its parameters as an array |
| FunctionBodies.ResultNames | src/com/udojava/evalex/Expression.java:400-1120 | a function result carries no variable name its parameters did not carry |
| Misc.PairReversed | src/com/udojava/evalex/Misc.java:72-73 | the result has `2*(len/2)` characters |
| Misc.PairMoves | src/com/udojava/evalex/Misc.java:74-79 | byte pair i of the input is byte pair `len/2-1-i` of the output |
| Misc.PairReversedInvolution | src/com/udojava/evalex/Misc.java:69-81 | reversing twice gives back a string of even length |
| Misc.ReverseHex | src/com/udojava/evalex/Misc.java:69-81 | the array loop computes `PairReversed` |
| Misc.IterativeFibonacci | src/com/udojava/evalex/Misc.java:83-107 | fails on a negative input; otherwise returns F(n) as a COMPLEX value |
| Misc.RealReplaceAll | src/com/udojava/evalex/Misc.java:109-120 | the result is a fixpoint of `replace(a, b)`, and holds no `a` when `a` is non-empty and not `b` |
| Misc.RealReplaceAllIgnoresBound | src/com/udojava/evalex/Misc.java:111-119 | the result is the first fixpoint, whatever bound proves that one exists |
| Misc.RealReplaceAllLoop | src/com/udojava/evalex/Misc.java:109-120 | the loop agrees with `RealReplaceAll` |
| Misc.Antiderivative | src/com/udojava/evalex/Misc.java:124-131 | `in.length + 1` coefficients, the constant being 0 |
| Misc.DeriveAntiderivative | src/com/udojava/evalex/Misc.java:122-132 | differentiating the antiderivative gives back the polynomial |
| Misc.AntiDerive | src/com/udojava/evalex/Misc.java:122-132 | the array loop computes `Antiderivative` |
| MathTools.ReverseHex | src/com/udojava/evalex/MathTools.java:69-81 | the copy computes the same as `Misc.ReverseHex` |
| MathTools.IterativeFibonacci | src/com/udojava/evalex/MathTools.java:83-107 | the copy computes the same as `Misc.IterativeFibonacci` |
| Console.ReplaceRemovesPairs | src/com/udojava/evalex/Main.java:397-398 | a round of the unary-sign fix never adds a `(`-sign pair, and removes one whenever it changes the string |
| Console.FixpointWithin | src/com/udojava/evalex/Main.java:397-398 | realReplaceAll of the unary-sign fix terminates within as many rounds as the string has pairs |
| Console.FixUnary | src/com/udojava/evalex/Main.java:397-398 | after the fix no `(+(` (or `(-(`) is left |
| Console.ReplaceKeepsAbsent | src/com/udojava/evalex/Main.java:397-398 | fixing `(-(` creates no `(+(` |
| Console.RealReplaceAllKeepsAbsent | src/com/udojava/evalex/Main.java:398 | the whole `(-(` fix leaves the string free of `(+(` |
| Console.BangGetsOperand | src/com/udojava/evalex/Main.java:395 | every `!` is then followed by the dummy operand 0 |
| Console.TildeGetsOperand | src/com/udojava/evalex/Main.java:396 | every `~` is then preceded by the dummy operand 0 |
| Console.ZeroInFrontKeepsAbsent | src/com/udojava/evalex/Main.java:399-402 | the 0 put in front brings back no `(+(` or `(-(` |
| Console.Prepare | src/com/udojava/evalex/Main.java:394-402 | the rewritten text holds neither `(+(` nor `(-(` and does not start with a sign |
| Console.WordRewriteKeeps | src/com/udojava/evalex/Main.java:403-410 | a word rewrite whose replacement has no `(` and no sign creates no `(+(` or `(-(` and no leading sign |
| Console.ReplaceKeepsOut | src/com/udojava/evalex/Main.java:403-410 | a replacement that cannot contain a pattern's start does not create the pattern |
| Console.SpaceWords | src/com/udojava/evalex/Main.java:403-410 | the eight word rewrites keep a text free of `(+(` and `(-(` and of a leading sign |
| Console.RunUdoParser | src/com/udojava/evalex/Main.java:392-411 | the text handed to the Expression holds neither `(+(` nor `(-(` and does not start with a sign |
| Console.LeadingSignGetsZero | src/com/udojava/evalex/Main.java:399-410 | the leading 0 survives the word rewrites |
| Console.NoWordsUnchanged | src/com/udojava/evalex/Main.java:403-410 | text without the letters of the operator words passes the word rewrites unchanged |
| Console.FloorKept | src/com/udojava/evalex/Main.java:403-409 | `floor` comes back intact although it contains `or` |
| Console.XorSpaced | src/com/udojava/evalex/Main.java:404-410 | `xor` becomes ` xor ` and is not split at its `or` |
| Console.OrSpaced | src/com/udojava/evalex/Main.java:405 | `or` becomes ` or ` |
| Console.Remember | src/com/udojava/evalex/Main.java:297-300 | the term is appended exactly when it is absent, and the history is otherwise unchanged |
| Console.RememberKeepsDistinct | src/com/udojava/evalex/Main.java:297-300 | a history without duplicates stays without duplicates |
| Console.History.Add | src/com/udojava/evalex/Main.java:297-300 | the history becomes `Remember(old, s)` and stays duplicate-free |

## Left out

- Floating point: doubles are exact reals. Rounding, infinities and NaN are not modelled, and `Double.MIN_VALUE`/`MAX_VALUE` are exact constants.
- Complex arithmetic, `abs`, remainder, the bitwise operators `or and xor shl shr`, double parsing, `CollectionUtils.isEqualCollection`, and the functions whose bodies call Apache Commons Math, `java.lang.Math` or `java.util.Random` (trigonometry, logarithms, RND, MRS, BIN, STIR, GCD, LCM, NPR, the means and statistics other than HMEAN, POLY, DERIVE, PVAL and similar): these are fields of the `Arith` record passed in. HMEAN, NSWP and BSWP are modelled in `FunctionBodies`. Only the REAL/COMPLEX tag rule is stated about them.
- `H` is left out. It builds and evaluates a nested `Expression` over the console history, which is re-entrant recursion with no depth bound. The `history` field of `Expression`, which serves only `H`, is not modelled either.
- `BigComplex.java`, `BigNumber.java`, `PitDecimal.java` and `LazyNumber.java` are not part of this model, and of `MyComplex.java` only the fields, the type tag and `equals` are. Values are one `Value` datatype: a scalar, an array, or a scalar named after its variable.
- Evaluator.Force: a `PARAMS_START` marker reached as an operand evaluates to null in Java (`() -> null`). The model stops with a NullOperand error there. Java instead either throws a `NullPointerException` when an operator body dereferences the null, or, for `!` (Expression.java:353-356 reads only `v1`) and `~` (Expression.java:364-366 reads only `v2`), ignores the null operand and computes a result. Only a list that validate refuses can put a marker in operand position (`Soundness.RunSafe`), so `Evaluator.Eval` on a validated list never reaches this case.
- Values.Retag: the source sets `save.type` on the parameter object that MAX/MIN returns, which also changes that parameter where it is shared. The model returns a retagged copy, so the aliasing is not captured.
- OperatorBodies.FactorialLoop and OperatorBodies.FactorialOf: `for (long i = 1; i <= n; i++)` at Expression.java:346 never ends when `n` is `Long.MAX_VALUE`, because `i` wraps around to `Long.MIN_VALUE`. `n` reaches that value for every operand of 2^63 or more, such as `1e19!`, because the `(long)` cast, modelled by `Values.ToLong`, saturates. The model returns n! for that input as well.
- Expressions.Expression.Eval: `eval` goes through the corrected `GetRPN`, which caches only a list that validate accepted. So a second `eval()` of `1+` parses again and returns the missing-parameters error again. At Expression.java:1241-1249 the second call instead evaluates the cached, unvalidated list `1 +`, and Expression.java:1171-1172 throws `EmptyStackException`. The cache as written is `Expressions.Expression.GetRPNAsWritten`, and `Expressions.UncheckedCache` shows the empty-stack pop.
- OperatorBodies.ApplyOperator: the operator table hands `&&` to the corrected `And`, so `1&&1` evaluates to 1 here where Expression.java:178-179 gives 0. The body as written is `AndAsWritten`, and `AndInverted` shows the difference.
- FunctionBodies.ApplyFunction: the function table hands `MAX` to the corrected `Max`, so `MAX(-1,-2)` evaluates to -1 here where Expression.java:567-597 gives `Double.MIN_VALUE`. The body as written is `MaxAsWritten`, and `MaxOfNegatives` shows the difference.
- Misc.IterativeFibonacci and MathTools.IterativeFibonacci: `for (int i = 3; i <= number; i++)` never ends when `number` is `Integer.MAX_VALUE`, because `i` wraps around. The model returns F(n) for that input as well.
- Misc.AntiDerive: `PolynomialFunction` trims trailing zero coefficients. The model returns the raw coefficient array.
- Text: characters outside ASCII are never upper-cased, case-folded or treated as digits or letters. Java's Unicode tables are not modelled.
- Validator.ScopeStep: scope counts are unbounded naturals, so the `Integer` of the Java stack never overflows.
- Misc.RealReplaceAll: the Java loop runs until a fixpoint, if one exists. The model takes a ghost round count that proves one exists, and `Console.FixpointWithin` supplies that count for the unary-sign fix.
- Expressions.Expression.ShuntingYard: the loop writes auto-declared variables by replacing the whole store (`SetMap`) rather than through `put`. The result is the same.
- The REPL of `Main` is left out: the console loop, ANSI printing, JSON save and load, `dir()`, `iterate`, radix printing, and splitting terms at `:`. From `runParser` only the history rule is modelled.
- Console.SpaceWords: `replaceAll` takes a regular expression, but none of the patterns or replacements used contain regex metacharacters. It is therefore modelled as a literal `replace`.
- `MathTools.sqrt` is left out because it is floating point.
- FunctionBodies.NibbleSwap and FunctionBodies.ByteSwap: `new MyComplex(BigInteger, BigInteger)` stores `doubleValue()`, which rounds results above 2^53. The model keeps the exact integer, as it does for all doubles.
- `equals`, `hashCode`, `toString`, `getOps`, `getFuncs`, and the `Tokenizer.remove` that only throws are left out. They play no part in evaluation.

## Findings

| source | as written | input that shows it | evidently intended | confidence | as-written member | corrected member |
|---|---|---|---|---|---|---|
| src/com/udojava/evalex/Expression.java:172-181 | `&&` gives 1 when both operands are 0 | `1 && 1` gives 0, `0 && 0` gives 1 | 1 exactly when both operands are not 0, as the operator's description says | not executed | OperatorBodies.AndAsWritten (OperatorBodies.AndInverted) | OperatorBodies.And (OperatorBodies.AndOrDuality) |
| src/com/udojava/evalex/Expression.java:567 | MAX starts its search from `Double.MIN_VALUE`, the smallest positive double | `MAX(-1, -2)` gives 4.9e-324, which is none of its parameters | start from the first parameter, so the result is the largest parameter | not executed | FunctionBodies.MaxAsWritten (FunctionBodies.MaxOfNegatives) | FunctionBodies.Max |
| src/com/udojava/evalex/Expression.java:1241-1249 | `getRPN` caches the list before `validate` runs | `1+`: the first `eval` fails validation, but the second evaluates the cached list and pops an empty stack | cache only a list that validate accepted | not executed | Expressions.Expression.GetRPNAsWritten (Expressions.UncheckedCache) | Expressions.Expression.GetRPN (Soundness.ValidatedEvalSafe) |
