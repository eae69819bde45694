/** Expression.Tokenizer: a scanner over the trimmed input that hands out one token
    per call of `next`.  `Scan` states what one call returns; the class below keeps the
    scanner's mutable fields and is proved to agree with it. */
module Tokenizer {
  import opened Outcomes
  import opened Text
  import Operators

  /** Characters that may neither start a number or a name nor be a parenthesis, a
      comma or white space: the material of operator symbols. */
  predicate SymbolChar(c: char)
  {
    !IsLetter(c) && !IsDigit(c) && c != '_' && !IsJavaWhitespace(c) && c != '(' && c != ')' && c != ','
  }

  /** Characters that extend a number whatever precedes them. */
  predicate NumberChar(c: char)
  {
    IsDigit(c) || c == '.' || c == 'e' || c == 'i' || c == 'E'
  }

  datatype RunKind = NumberRun | NameRun | SymbolRun

  /** Whether the character at `k` extends the run of `kind` that began at `start`.
      A sign extends a number only right after an exponent marker; a '-' ends a
      symbol run. */
  predicate Continues(kind: RunKind, s: string, start: nat, k: nat)
    requires start <= k < |s|
  {
    match kind
    case NumberRun =>
      NumberChar(s[k]) || ((s[k] == '-' || s[k] == '+') && start < k && (s[k - 1] == 'e' || s[k - 1] == 'E'))
    case NameRun => IsLetter(s[k]) || IsDigit(s[k]) || s[k] == '_'
    case SymbolRun => SymbolChar(s[k]) && s[k] != '-'
  }

  /** Where the run that began at `start` ends, scanning on from `k`. */
  function RunEnd(kind: RunKind, s: string, start: nat, k: nat): (e: nat)
    requires start <= k <= |s|
    ensures k <= e <= |s|
    ensures forall j :: k <= j < e ==> Continues(kind, s, start, j)
    ensures e < |s| ==> !Continues(kind, s, start, e)
    decreases |s| - k
  {
    if k < |s| && Continues(kind, s, start, k) then RunEnd(kind, s, start, k + 1) else k
  }

  /** The white-space skipping loop: `ch = input.charAt(++pos)` walks past the end when
      the input ends in white space (possible after trim only for white space above
      U+0020). */
  function SkipWs(s: string, p: nat): (r: Result<nat>)
    requires p < |s|
    ensures r.Ok? ==> p <= r.value < |s| && !IsJavaWhitespace(s[r.value])
    ensures r.Ok? ==> forall j :: p <= j < r.value ==> IsJavaWhitespace(s[j])
    ensures r.Err? ==> r.error == IndexOutOfBounds && forall j :: p <= j < |s| ==> IsJavaWhitespace(s[j])
    decreases |s| - p
  {
    if !IsJavaWhitespace(s[p]) then Ok(p)
    else if p + 1 < |s| then SkipWs(s, p + 1)
    else Err(IndexOutOfBounds)
  }

  /** A '-' in front of a digit joins the number when it cannot be a binary minus:
      at the start, after '(' or ',', or after an operator. */
  predicate MinusMayFuse(ops: Operators.OperatorMap, prev: Option<string>)
  {
    prev.None? || prev.value == "(" || prev.value == "," || Operators.Contains(ops, prev.value)
  }

  datatype Scanned = Scanned(token: string, next: nat)

  /** The token that starts at the non-blank position `p`.  A fused '-' calls `next`
      again one position on, where the digit that follows it starts a number. */
  function ScanAt(ops: Operators.OperatorMap, s: string, p: nat, prev: Option<string>): (r: Result<Scanned>)
    requires p < |s|
    ensures r.Ok? ==> p < r.value.next <= |s| && r.value.token == s[p..r.value.next]
    ensures r.Err? ==> r.error.UnknownOperator?
    decreases |s| - p
  {
    var c := s[p];
    if IsDigit(c) then
      var e := RunEnd(NumberRun, s, p, p);
      Ok(Scanned(s[p..e], e))
    else if c == '-' && p + 1 < |s| && IsDigit(s[p + 1]) && MinusMayFuse(ops, prev) then
      var rest := ScanAt(ops, s, p + 1, prev);
      if rest.Ok? then Ok(Scanned("-" + rest.value.token, rest.value.next)) else rest
    else if IsLetter(c) || c == '_' then
      var e := RunEnd(NameRun, s, p, p);
      Ok(Scanned(s[p..e], e))
    else if c == '(' || c == ')' || c == ',' then
      Ok(Scanned([c], p + 1))
    else
      var e := RunEnd(SymbolRun, s, p, p + 1);
      if Operators.Contains(ops, s[p..e]) then Ok(Scanned(s[p..e], e))
      else Err(UnknownOperator(s[p..e], p + 1))
  }

  /** One call of Tokenizer.next on unexhausted input, from position `pos` with the
      previous token `prev`: the token is the slice of the input that starts at the
      first non-blank character. */
  function Scan(ops: Operators.OperatorMap, s: string, pos: nat, prev: Option<string>): (r: Result<Scanned>)
    requires pos < |s|
    ensures r.Ok? ==> SkipWs(s, pos).Ok? && SkipWs(s, pos).value < r.value.next <= |s|
    ensures r.Ok? ==> r.value.token == s[SkipWs(s, pos).value..r.value.next]
    ensures r.Err? ==> r.error == IndexOutOfBounds || r.error.UnknownOperator?
  {
    var p :- SkipWs(s, pos);
    ScanAt(ops, s, p, prev)
  }

  /** A token never starts with white space and is never empty. */
  lemma TokenStartsBlack(ops: Operators.OperatorMap, s: string, pos: nat, prev: Option<string>)
    requires pos < |s| && Scan(ops, s, pos, prev).Ok?
    ensures Scan(ops, s, pos, prev).value.token != []
    ensures !IsJavaWhitespace(Scan(ops, s, pos, prev).value.token[0])
  {
    var p := SkipWs(s, pos).value;
    assert Scan(ops, s, pos, prev).value.token[0] == s[p];
  }

  /** A number token holds only digits, '.', 'e', 'E' and 'i', a sign directly after
      an exponent marker, and possibly a fused leading '-'. */
  predicate NumericToken(t: string): (b: bool)
    ensures b ==> forall k :: 0 <= k < |t| ==> !IsJavaWhitespace(t[k]) && t[k] != '(' && t[k] != ')' && t[k] != ','
  {
    forall k {:trigger t[k]} :: 0 <= k < |t| ==>
      NumberChar(t[k]) || (k == 0 && t[k] == '-')
      || ((t[k] == '-' || t[k] == '+') && 0 < k && (t[k - 1] == 'e' || t[k - 1] == 'E'))
  }

  /** The characters of a number run. */
  lemma NumberRunIsNumeric(s: string, p: nat)
    requires p < |s|
    ensures NumericToken(s[p..RunEnd(NumberRun, s, p, p)])
  {
    var t := s[p..RunEnd(NumberRun, s, p, p)];
    forall k | 0 <= k < |t|
      ensures NumberChar(t[k]) || ((t[k] == '-' || t[k] == '+') && 0 < k && (t[k - 1] == 'e' || t[k - 1] == 'E'))
    {
      assert Continues(NumberRun, s, p, p + k);
    }
  }

  /** A token that begins with a digit, or with a '-' and a digit, is a number token. */
  lemma NumberTokens(ops: Operators.OperatorMap, s: string, p: nat, prev: Option<string>)
    requires p < |s| && ScanAt(ops, s, p, prev).Ok?
    requires var t := ScanAt(ops, s, p, prev).value.token;
      IsDigit(t[0]) || (|t| > 1 && t[0] == '-' && IsDigit(t[1]))
    ensures NumericToken(ScanAt(ops, s, p, prev).value.token)
  {
    if IsDigit(s[p]) {
      NumberRunIsNumeric(s, p);
    } else {
      assert s[p] == '-' && IsDigit(s[p + 1]);
      NumberRunIsNumeric(s, p + 1);
      var t := s[p + 1..RunEnd(NumberRun, s, p + 1, p + 1)];
      var u := "-" + t;
      assert ScanAt(ops, s, p, prev).value.token == u;
      forall k | 0 <= k < |u|
        ensures NumberChar(u[k]) || (k == 0 && u[k] == '-')
          || ((u[k] == '-' || u[k] == '+') && 0 < k && (u[k - 1] == 'e' || u[k - 1] == 'E'))
      {
        if k > 0 {
          assert u[k] == t[k - 1];
          if k > 1 { assert u[k - 1] == t[k - 2]; } else { assert IsDigit(t[0]); }
        }
      }
    }
  }

  /** A '-' followed by a digit joins the number exactly when the previous token is
      none, '(', ',' or an operator; otherwise it is scanned as the operator "-". */
  lemma FusedMinus(ops: Operators.OperatorMap, s: string, p: nat, prev: Option<string>)
    requires Operators.Contains(ops, "-")
    requires p + 1 < |s| && s[p] == '-' && IsDigit(s[p + 1])
    ensures MinusMayFuse(ops, prev) ==> ScanAt(ops, s, p, prev).Ok? && |ScanAt(ops, s, p, prev).value.token| > 1
    ensures !MinusMayFuse(ops, prev) ==> ScanAt(ops, s, p, prev) == Ok(Scanned("-", p + 1))
  {
    if !MinusMayFuse(ops, prev) {
      assert !Continues(SymbolRun, s, p, p + 1);
      assert s[p..p + 1] == "-";
    }
  }

  /** A symbol run never runs on into a '-', and it is a registered operator or an
      error that reports its one-based position. */
  lemma SymbolTokens(ops: Operators.OperatorMap, s: string, p: nat, prev: Option<string>)
    requires p < |s| && SymbolChar(s[p])
    requires !(s[p] == '-' && p + 1 < |s| && IsDigit(s[p + 1]) && MinusMayFuse(ops, prev))
    ensures var e := RunEnd(SymbolRun, s, p, p + 1);
      && (forall j :: p < j < e ==> s[j] != '-' && SymbolChar(s[j]))
      && (Operators.Contains(ops, s[p..e]) ==> ScanAt(ops, s, p, prev) == Ok(Scanned(s[p..e], e)))
      && (!Operators.Contains(ops, s[p..e]) ==> ScanAt(ops, s, p, prev) == Err(UnknownOperator(s[p..e], p + 1)))
  {
    var e := RunEnd(SymbolRun, s, p, p + 1);
    forall j | p < j < e
      ensures s[j] != '-' && SymbolChar(s[j])
    {
      assert Continues(SymbolRun, s, p, j);
    }
  }

  /** Expression.Tokenizer */
  class Tokenizer {
    /** The trimmed input. */
    const input: string
    /** The operator map of the enclosing expression. */
    const ops: Operators.OperatorMap
    var pos: nat
    var previousToken: Option<string>

    predicate Valid()
      reads this
    {
      pos <= |input|
    }

    constructor (ops: Operators.OperatorMap, expression: string)
      ensures this.ops == ops && input == Trim(expression) && pos == 0 && previousToken == None
      ensures Valid()
    {
      this.ops := ops;
      input := Trim(expression);
      pos := 0;
      previousToken := None;
    }

    predicate HasNext()
      reads this
    {
      pos < |input|
    }

    /** The character after the current one, or character 0 at the end. */
    function PeekNextChar(): (c: char)
      reads this
      ensures pos + 1 < |input| ==> c == input[pos + 1]
      ensures pos + 1 >= |input| ==> c == 0 as char
    {
      if pos < |input| - 1 then input[pos + 1] else 0 as char
    }

    function GetPos(): int
      reads this
    {
      pos
    }

    /** Tokenizer.next: None is the null returned on exhausted input. */
    method Next() returns (r: Result<Option<string>>)
      requires Valid()
      modifies this
      ensures Valid()
      ensures old(pos) >= |input| ==> r == Ok(None) && previousToken == None && pos == old(pos)
      ensures old(pos) < |input| && Scan(ops, input, old(pos), old(previousToken)).Ok? ==>
        var sc := Scan(ops, input, old(pos), old(previousToken)).value;
        r == Ok(Some(sc.token)) && pos == sc.next && previousToken == Some(sc.token)
      ensures old(pos) < |input| && Scan(ops, input, old(pos), old(previousToken)).Err? ==>
        r == Err(Scan(ops, input, old(pos), old(previousToken)).error)
      decreases |input| - pos, 1
    {
      if pos >= |input| {
        previousToken := None;
        return Ok(None);
      }
      var skipped := SkipWhitespace();
      if skipped.Fail? {
        return Err(skipped.error);
      }
      r := NextAt();
    }

    /** The rest of `next` once the white space is skipped: the branch taken depends
        on the current character. */
    method NextAt() returns (r: Result<Option<string>>)
      requires pos < |input| && !IsJavaWhitespace(input[pos])
      modifies this
      ensures Valid()
      ensures ScanAt(ops, input, old(pos), old(previousToken)).Ok? ==>
        var sc := ScanAt(ops, input, old(pos), old(previousToken)).value;
        r == Ok(Some(sc.token)) && pos == sc.next && previousToken == Some(sc.token)
      ensures ScanAt(ops, input, old(pos), old(previousToken)).Err? ==>
        r == Err(ScanAt(ops, input, old(pos), old(previousToken)).error)
      decreases |input| - pos, 0
    {
      var ch := input[pos];
      var token: string;
      if IsDigit(ch) {
        token := ReadNumber();
      } else if ch == '-' && IsDigit(PeekNextChar())
                && (previousToken == Some("(") || previousToken == Some(",") || previousToken == None
                    || Operators.Contains(ops, previousToken.value)) {
        pos := pos + 1;
        assert SkipWs(input, pos) == Ok(pos);
        var rest := Next();
        // the call starts at a digit, so it returns a number token
        assert rest.Ok? && rest.value.Some?;
        token := "-" + rest.value.value;
      } else if IsLetter(ch) || ch == '_' {
        token := ReadName();
      } else if ch == '(' || ch == ')' || ch == ',' {
        token := [ch];
        pos := pos + 1;
      } else {
        token := ReadSymbol();
        if !Operators.Contains(ops, token) {
          return Err(UnknownOperator(token, pos - |token| + 1));
        }
      }
      previousToken := Some(token);
      return Ok(Some(token));
    }

    /** The white-space loop of `next`. */
    method SkipWhitespace() returns (r: Outcome)
      requires pos < |input|
      modifies this
      ensures previousToken == old(previousToken)
      ensures SkipWs(input, old(pos)).Ok? ==> r == Pass && pos == SkipWs(input, old(pos)).value
      ensures SkipWs(input, old(pos)).Err? ==> r == Fail(IndexOutOfBounds) && pos == |input|
    {
      var ch := input[pos];
      while IsJavaWhitespace(ch) && pos < |input|
        invariant old(pos) <= pos < |input| && ch == input[pos]
        invariant SkipWs(input, old(pos)) == SkipWs(input, pos)
        invariant previousToken == old(previousToken)
        decreases |input| - pos
      {
        pos := pos + 1;
        if pos == |input| {
          return Fail(IndexOutOfBounds);
        }
        ch := input[pos];
      }
      return Pass;
    }

    /** The number loop of `next`, entered on a digit. */
    method ReadNumber() returns (token: string)
      requires pos < |input| && IsDigit(input[pos])
      modifies this
      ensures previousToken == old(previousToken)
      ensures pos == RunEnd(NumberRun, input, old(pos), old(pos)) && token == input[old(pos)..pos]
    {
      var start := pos;
      var ch := input[pos];
      token := [];
      while (NumberChar(ch)
             || ((ch == '-' || ch == '+') && |token| > 0 && (token[|token| - 1] == 'e' || token[|token| - 1] == 'E')))
            && pos < |input|
        invariant start <= pos <= |input| && token == input[start..pos]
        invariant ch == if pos < |input| then input[pos] else 0 as char
        invariant RunEnd(NumberRun, input, start, pos) == RunEnd(NumberRun, input, start, start)
        invariant previousToken == old(previousToken)
        decreases |input| - pos
      {
        token := token + [input[pos]];
        pos := pos + 1;
        ch := if pos == |input| then 0 as char else input[pos];
      }
    }

    /** The variable and function name loop of `next`. */
    method ReadName() returns (token: string)
      requires pos < |input| && (IsLetter(input[pos]) || input[pos] == '_')
      modifies this
      ensures previousToken == old(previousToken)
      ensures pos == RunEnd(NameRun, input, old(pos), old(pos)) && token == input[old(pos)..pos]
    {
      var start := pos;
      var ch := input[pos];
      token := [];
      while (IsLetter(ch) || IsDigit(ch) || ch == '_') && pos < |input|
        invariant start <= pos <= |input| && token == input[start..pos]
        invariant ch == if pos < |input| then input[pos] else 0 as char
        invariant RunEnd(NameRun, input, start, pos) == RunEnd(NameRun, input, start, start)
        invariant previousToken == old(previousToken)
        decreases |input| - pos
      {
        token := token + [input[pos]];
        pos := pos + 1;
        ch := if pos == |input| then 0 as char else input[pos];
      }
    }

    /** The operator loop of `next`: it takes the first character whatever it is and
        stops in front of a '-'. */
    method ReadSymbol() returns (token: string)
      requires pos < |input| && SymbolChar(input[pos])
      modifies this
      ensures previousToken == old(previousToken)
      ensures pos == RunEnd(SymbolRun, input, old(pos), old(pos) + 1) && token == input[old(pos)..pos]
    {
      var start := pos;
      var ch := input[pos];
      token := [];
      while SymbolChar(ch) && pos < |input|
        invariant start <= pos <= |input| && token == input[start..pos]
        invariant ch == if pos < |input| then input[pos] else 0 as char
        invariant pos == start ==> SymbolChar(ch)
        invariant start < pos < |input| ==> input[pos] != '-'
        invariant start < pos ==> RunEnd(SymbolRun, input, start, pos) == RunEnd(SymbolRun, input, start, start + 1)
        invariant previousToken == old(previousToken)
        decreases |input| - pos
      {
        assert input[start..pos + 1] == input[start..pos] + [input[pos]];
        token := token + [input[pos]];
        pos := pos + 1;
        ch := if pos == |input| then 0 as char else input[pos];
        if ch == '-' {
          break;
        }
      }
    }
  }
}
