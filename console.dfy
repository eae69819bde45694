/** The console's input rewriting (Main.runUdoParser) and its history of terms
    (Main.runParser).  runUdoParser is a chain of string rewrites: white space goes,
    `!` and `~` get the dummy operand 0 the binary evaluator needs, a unary sign in
    front of a parenthesis gets a 0 in front of it, and the bitwise operator words
    are set apart by spaces so that the tokenizer reads them as words. */
module Console {
  import opened Text
  import Misc

  /** The pattern `(op(` the unary-sign fix looks for. */
  function Unary(op: char): string
  {
    ['(', op, '(']
  }

  /** What the unary-sign fix puts in its place: `(0op(`. */
  function Zeroed(op: char): string
  {
    ['(', '0', op, '(']
  }

  /** The number of places where '(' is directly followed by `op`: each round of
      the unary-sign fix that changes anything removes at least one. */
  function Pairs(s: string, op: char): nat
    decreases |s|
  {
    if |s| < 2 then 0
    else (if s[0] == '(' && s[1] == op then 1 else 0) + Pairs(s[1..], op)
  }

  /** Pairs of a string with one more character in front. */
  lemma PairsCons(c: char, w: string, op: char)
    ensures Pairs([c] + w, op) == (if w != [] && c == '(' && w[0] == op then 1 else 0) + Pairs(w, op)
  {
    assert ([c] + w)[1..] == w;
  }

  /** The replacement starts like the pattern and adds no pair of its own. */
  lemma PairsZeroed(t: string, op: char)
    requires op != '0' && op != '('
    ensures Pairs(Zeroed(op) + t, op) == Pairs(['('] + t, op)
  {
    var w := Zeroed(op) + t;
    assert w == ['('] + (['0'] + ([op] + (['('] + t)));
    PairsCons('(', ['0'] + ([op] + (['('] + t)), op);
    PairsCons('0', [op] + (['('] + t), op);
    PairsCons(op, ['('] + t, op);
  }

  /** The pattern holds one pair more than what is left of it after the match. */
  lemma PairsUnary(s: string, op: char)
    requires op != '(' && |s| >= 3 && s[..3] == Unary(op)
    ensures Pairs(s, op) == 1 + Pairs(['('] + s[3..], op)
  {
    assert s == ['('] + ([op] + (['('] + s[3..]));
    PairsCons('(', [op] + (['('] + s[3..]), op);
    PairsCons(op, ['('] + s[3..], op);
  }

  /** A round of the unary-sign fix never adds a pair, and removes one whenever
      it changes the string. */
  lemma {:induction false} ReplaceRemovesPairs(s: string, op: char)
    requires op != '0' && op != '('
    ensures Pairs(Replace(s, Unary(op), Zeroed(op)), op) <= Pairs(s, op)
    ensures Replace(s, Unary(op), Zeroed(op)) != s ==> Pairs(Replace(s, Unary(op), Zeroed(op)), op) < Pairs(s, op)
    decreases |s|
  {
    var a := Unary(op);
    var b := Zeroed(op);
    if |s| < |a| {
    } else if s[..|a|] == a {
      var u := s[3..];
      var ru := Replace(u, a, b);
      ReplaceRemovesPairs(u, op);
      assert Replace(s, a, b) == b + ru;
      PairsZeroed(ru, op);
      PairsUnary(s, op);
      PairsCons('(', ru, op);
      PairsCons('(', u, op);
      if u != [] {
        ReplaceKeepsHead(u, a, b);
      }
    } else {
      var u := s[1..];
      var ru := Replace(u, a, b);
      ReplaceRemovesPairs(u, op);
      assert Replace(s, a, b) == [s[0]] + ru;
      assert s == [s[0]] + u;
      PairsCons(s[0], ru, op);
      PairsCons(s[0], u, op);
      if u != [] {
        ReplaceKeepsHead(u, a, b);
      }
    }
  }

  /** realReplaceAll(s, "(op(", "(0op(") stops: after as many rounds as `s` has
      pairs, a round changes nothing. */
  lemma {:induction false} FixpointWithin(s: string, op: char)
    requires op != '0' && op != '('
    ensures Misc.IsFixpoint(Misc.Iterate(s, Unary(op), Zeroed(op), Pairs(s, op)), Unary(op), Zeroed(op))
    decreases Pairs(s, op)
  {
    var a := Unary(op);
    var b := Zeroed(op);
    var n := Replace(s, a, b);
    if n == s {
      Misc.FixpointIterate(s, a, b, Pairs(s, op));
    } else {
      ReplaceRemovesPairs(s, op);
      FixpointWithin(n, op);
      Misc.IterateStable(n, a, b, Pairs(n, op), Pairs(s, op) - 1);
    }
  }

  /** `s = Misc.realReplaceAll(s, "(op(", "(0op(")`: no `(op(` is left. */
  function FixUnary(s: string, op: char): (r: string)
    requires op != '0' && op != '('
    ensures !Occurs(r, Unary(op))
  {
    FixpointWithin(s, op);
    Misc.RealReplaceAll(s, Unary(op), Zeroed(op), Pairs(s, op))
  }

  /** No occurrence in a string means none in any of its suffixes. */
  lemma NoOccurrenceInSuffix(s: string, a: string, k: nat)
    requires k <= |s| && !Occurs(s, a)
    ensures !Occurs(s[k..], a)
  {
    forall i | 0 <= i <= |s[k..]| && OccursAt(s[k..], a, i) ensures false {
      assert s[k..][i..i + |a|] == s[k + i..k + i + |a|];
      assert OccursAt(s, a, k + i);
    }
  }

  /** The first two characters of a string survive a round of the fix when the
      first is not '(' (the pattern cannot start there). */
  lemma ReplaceKeepsTwo(u: string, op: char, other: char)
    requires |u| >= 2 && u[0] != '('
    ensures var r := Replace(u, Unary(other), Zeroed(other));
      |r| >= 2 && r[0] == u[0] && r[1] == u[1]
  {
    var a := Unary(other);
    var b := Zeroed(other);
    assert Replace(u, a, b) == [u[0]] + Replace(u[1..], a, b);
    ReplaceKeepsHead(u[1..], a, b);
  }

  /** When a round of the fix leaves `op(` at the head, it was there before. */
  lemma PairSurvives(u: string, op: char, other: char)
    requires op != '(' && other != '0' && other != '('
    requires var ru := Replace(u, Unary(other), Zeroed(other));
      |ru| >= 2 && ru[0] == op && ru[1] == '('
    ensures |u| >= 2 && u[0] == op && u[1] == '('
  {
    var a := Unary(other);
    var b := Zeroed(other);
    var ru := Replace(u, a, b);
    assert u != [];
    ReplaceKeepsHead(u, a, b);
    ReplaceKeepsTwo(u, op, other);
  }

  /** The three characters of `(op(` at `i` are an occurrence. */
  lemma PatternAt(s: string, op: char, i: nat)
    requires i + 3 <= |s| && s[i] == '(' && s[i + 1] == op && s[i + 2] == '('
    ensures OccursAt(s, Unary(op), i)
  {
    assert s[i..i + 3] == Unary(op);
  }

  /** An occurrence that starts past `w` is an occurrence in what follows it. */
  lemma OccursInTail(w: string, t: string, p: string, i: int)
    requires i >= |w| && OccursAt(w + t, p, i)
    ensures OccursAt(t, p, i - |w|)
  {
    assert (w + t)[i..i + |p|] == t[i - |w|..i - |w| + |p|];
  }

  /** Where the replacement meets the rest: `op(` right after `(0other(` would
      have been `(op(` in the string already. */
  lemma SeamOfMatch(s: string, op: char, other: char)
    requires op != '(' && other != '0' && other != '('
    requires |s| >= 3 && s[..3] == Unary(other)
    requires var ru := Replace(s[3..], Unary(other), Zeroed(other));
      |ru| >= 2 && ru[0] == op && ru[1] == '('
    ensures OccursAt(s, Unary(op), 2)
  {
    var u := s[3..];
    PairSurvives(u, op, other);
    assert s[2] == Unary(other)[2] && s[3] == u[0] && s[4] == u[1];
    PatternAt(s, op, 2);
  }

  /** The match case of ReplaceKeepsAbsent: `(0other(` followed by the rest. */
  lemma AbsentAfterMatch(s: string, op: char, other: char)
    requires op != other && op != '0' && op != '(' && other != '0' && other != '('
    requires |s| >= 3 && s[..3] == Unary(other)
    requires !Occurs(s, Unary(op))
    requires !Occurs(Replace(s[3..], Unary(other), Zeroed(other)), Unary(op))
    ensures !Occurs(Replace(s, Unary(other), Zeroed(other)), Unary(op))
  {
    var b := Zeroed(other);
    var p := Unary(op);
    var u := s[3..];
    var ru := Replace(u, Unary(other), b);
    var r := b + ru;
    assert Replace(s, Unary(other), b) == r;
    forall i | 0 <= i <= |r| && OccursAt(r, p, i) ensures false {
      var m := r[i..i + 3];
      assert m[0] == r[i] && m[1] == r[i + 1] && m[2] == r[i + 2];
      if i >= 4 {
        OccursInTail(b, ru, p, i);
      } else if i == 3 {
        assert m == p;
        assert m[1] == ru[0] && m[2] == ru[1];
        SeamOfMatch(s, op, other);
      }
    }
  }

  /** The other case of ReplaceKeepsAbsent: the head is kept. */
  lemma AbsentAfterSkip(s: string, op: char, other: char)
    requires op != other && op != '0' && op != '(' && other != '0' && other != '('
    requires |s| >= 3 && s[..3] != Unary(other)
    requires !Occurs(s, Unary(op))
    requires !Occurs(Replace(s[1..], Unary(other), Zeroed(other)), Unary(op))
    ensures !Occurs(Replace(s, Unary(other), Zeroed(other)), Unary(op))
  {
    var p := Unary(op);
    var u := s[1..];
    var ru := Replace(u, Unary(other), Zeroed(other));
    var r := [s[0]] + ru;
    assert Replace(s, Unary(other), Zeroed(other)) == r;
    forall i | 0 <= i <= |r| && OccursAt(r, p, i) ensures false {
      if i >= 1 {
        OccursInTail([s[0]], ru, p, i);
      } else {
        HeadPattern(s, op, other);
      }
    }
  }

  /** The head case of AbsentAfterSkip: a pattern at the very front of the result
      was already at the front of `s`. */
  lemma HeadPattern(s: string, op: char, other: char)
    requires op != '(' && other != '0' && other != '('
    requires |s| >= 3
    requires OccursAt([s[0]] + Replace(s[1..], Unary(other), Zeroed(other)), Unary(op), 0)
    ensures OccursAt(s, Unary(op), 0)
  {
    var u := s[1..];
    var ru := Replace(u, Unary(other), Zeroed(other));
    var r := [s[0]] + ru;
    var m := r[0..3];
    assert m == Unary(op);
    assert m[0] == s[0] && m[1] == ru[0] && m[2] == ru[1];
    PairSurvives(u, op, other);
    PatternAt(s, op, 0);
  }

  /** Fixing one sign never creates the pattern of the other. */
  lemma {:induction false} ReplaceKeepsAbsent(s: string, op: char, other: char)
    requires op != other && op != '0' && op != '(' && other != '0' && other != '('
    requires !Occurs(s, Unary(op))
    ensures !Occurs(Replace(s, Unary(other), Zeroed(other)), Unary(op))
    decreases |s|
  {
    var a := Unary(other);
    if |s| < |a| {
    } else if s[..|a|] == a {
      NoOccurrenceInSuffix(s, Unary(op), 3);
      ReplaceKeepsAbsent(s[3..], op, other);
      AbsentAfterMatch(s, op, other);
    } else {
      NoOccurrenceInSuffix(s, Unary(op), 1);
      ReplaceKeepsAbsent(s[1..], op, other);
      AbsentAfterSkip(s, op, other);
    }
  }

  /** The same for every round of realReplaceAll. */
  lemma {:induction false} RealReplaceAllKeepsAbsent(s: string, op: char, other: char, k: nat)
    requires op != other && op != '0' && op != '(' && other != '0' && other != '('
    requires !Occurs(s, Unary(op))
    requires Misc.IsFixpoint(Misc.Iterate(s, Unary(other), Zeroed(other), k), Unary(other), Zeroed(other))
    ensures !Occurs(Misc.RealReplaceAll(s, Unary(other), Zeroed(other), k), Unary(op))
    decreases k
  {
    var n := Replace(s, Unary(other), Zeroed(other));
    if n != s {
      ReplaceKeepsAbsent(s, op, other);
      RealReplaceAllKeepsAbsent(n, op, other, k - 1);
    }
  }

  /** Every '!' in `r` is followed by the dummy operand 0. */
  predicate BangsHaveOperand(r: string)
  {
    forall i :: 0 <= i < |r| && r[i] == '!' ==> i + 1 < |r| && r[i + 1] == '0'
  }

  /** Every '~' in `r` is preceded by the dummy operand 0. */
  predicate TildesHaveOperand(r: string)
  {
    forall i :: 0 <= i < |r| && r[i] == '~' ==> i >= 1 && r[i - 1] == '0'
  }

  /** s.replace("!", "!0") gives every factorial its dummy right operand. */
  lemma {:induction false} BangGetsOperand(s: string)
    ensures BangsHaveOperand(Replace(s, "!", "!0"))
    decreases |s|
  {
    if s != [] {
      BangGetsOperand(s[1..]);
      var r := Replace(s, "!", "!0");
      var rest := Replace(s[1..], "!", "!0");
      if s[..1] == "!" {
        assert r == "!0" + rest;
        forall i | 0 <= i < |r| && r[i] == '!' ensures i + 1 < |r| && r[i + 1] == '0' {
          if i >= 2 {
            assert rest[i - 2] == '!';
            assert r[i + 1] == rest[i - 1];
          }
        }
      } else {
        assert r == [s[0]] + rest;
        assert s[..1] == [s[0]];
        forall i | 0 <= i < |r| && r[i] == '!' ensures i + 1 < |r| && r[i + 1] == '0' {
          assert rest[i - 1] == '!';
          assert r[i + 1] == rest[i];
        }
      }
    }
  }

  /** s.replace("~", "0~") gives every negation its dummy left operand. */
  lemma {:induction false} TildeGetsOperand(s: string)
    ensures TildesHaveOperand(Replace(s, "~", "0~"))
    decreases |s|
  {
    if s != [] {
      TildeGetsOperand(s[1..]);
      var r := Replace(s, "~", "0~");
      var rest := Replace(s[1..], "~", "0~");
      if s[..1] == "~" {
        assert r == "0~" + rest;
        forall i | 0 <= i < |r| && r[i] == '~' ensures i >= 1 && r[i - 1] == '0' {
          if i >= 2 {
            assert rest[i - 2] == '~';
            assert r[i - 1] == rest[i - 3];
          }
        }
      } else {
        assert r == [s[0]] + rest;
        assert s[..1] == [s[0]];
        forall i | 0 <= i < |r| && r[i] == '~' ensures i >= 1 && r[i - 1] == '0' {
          assert rest[i - 1] == '~';
          assert r[i - 1] == rest[i - 2];
        }
      }
    }
  }

  /** The first character survives a replacement whose pattern cannot start
      there. */
  lemma ReplaceKeepsFirst(s: string, a: string, b: string)
    requires s != [] && a != [] && s[0] != a[0]
    ensures Replace(s, a, b) != [] && Replace(s, a, b)[0] == s[0]
  {
    assert Replace(s, a, b) == [s[0]] + Replace(s[1..], a, b);
  }

  /** A 0 put in front of the string cannot start the pattern. */
  lemma ZeroInFrontKeepsAbsent(s: string, op: char)
    requires !Occurs(s, Unary(op))
    ensures !Occurs("0" + s, Unary(op))
  {
    var r := "0" + s;
    var p := Unary(op);
    assert !OccursAt(r, p, 0) by {
      if |r| >= 3 {
        assert r[0..3][0] == '0';
      }
    }
    forall i | 1 <= i <= |r| && OccursAt(r, p, i) ensures false {
      assert r[i..i + 3] == s[i - 1..i - 1 + 3];
      assert OccursAt(s, p, i - 1);
    }
  }

  /** The rewrites of runUdoParser up to the 0 in front of a leading sign. */
  function Prepare(input: string): (r: string)
    ensures !Occurs(r, "(+(") && !Occurs(r, "(-(")
    ensures r != [] ==> r[0] != '+' && r[0] != '-'
  {
    var squeezed := RemoveRegexSpaces(input);
    var banged := Replace(squeezed, "!", "!0");
    var s := Replace(banged, "~", "0~");
    var plusFixed := FixUnary(s, '+');
    var s2 := FixUnary(plusFixed, '-');
    FixpointWithin(plusFixed, '-');
    RealReplaceAllKeepsAbsent(plusFixed, '+', '-', Pairs(plusFixed, '-'));
    if StartsWith(s2, "-") || StartsWith(s2, "+") then
      ZeroInFrontKeepsAbsent(s2, '+');
      ZeroInFrontKeepsAbsent(s2, '-');
      "0" + s2
    else s2
  }

  /** The placeholders runUdoParser parks `floor` and `xor` under: three section
      signs (U+00A7) followed by a digit. */
  const FloorMark: string := "\U{A7}\U{A7}\U{A7}1"
  const XorMark: string := "\U{A7}\U{A7}\U{A7}2"

  /** What runUdoParser promises the Expression constructor: no `(+(`, no `(-(`,
      and no sign at the front. */
  ghost predicate SignSafe(s: string)
  {
    !Occurs(s, Unary('+')) && !Occurs(s, Unary('-')) && (s != [] ==> s[0] != '+' && s[0] != '-')
  }

  /** The word rewrites of runUdoParser: `floor` and `xor` are parked under
      placeholders while `or`, `and`, `shl` and `shr` get spaces around them.  No
      replacement holds a parenthesis or a sign, so they bring in no `(+(` or `(-(`
      and put no sign at the front. */
  function SpaceWords(s: string): (r: string)
    ensures SignSafe(s) ==> SignSafe(r)
  {
    var s1 := Replace(s, "floor", FloorMark);
    var s2 := Replace(s1, "xor", XorMark);
    var s3 := Replace(s2, "or", " or ");
    var s4 := Replace(s3, "and", " and ");
    var s5 := Replace(s4, "shl", " shl ");
    var s6 := Replace(s5, "shr", " shr ");
    var s7 := Replace(s6, FloorMark, "floor");
    WordRewriteKeeps(s, "floor", FloorMark);
    WordRewriteKeeps(s1, "xor", XorMark);
    WordRewriteKeeps(s2, "or", " or ");
    WordRewriteKeeps(s3, "and", " and ");
    WordRewriteKeeps(s4, "shl", " shl ");
    WordRewriteKeeps(s5, "shr", " shr ");
    WordRewriteKeeps(s6, FloorMark, "floor");
    WordRewriteKeeps(s7, XorMark, " xor ");
    Replace(s7, XorMark, " xor ")
  }

  /** Main.runUdoParser(s): the text handed to the Expression constructor holds no
      `(+(` or `(-(` and does not start with a sign. */
  function RunUdoParser(input: string): (r: string)
    ensures !Occurs(r, Unary('+')) && !Occurs(r, Unary('-'))
    ensures r != [] ==> r[0] != '+' && r[0] != '-'
  {
    SpaceWords(Prepare(input))
  }

  /** One word rewrite, whose replacement holds neither a parenthesis nor a sign. */
  lemma WordRewriteKeeps(s: string, a: string, b: string)
    requires a != [] && b != [] && '(' !in b && '+' !in b && '-' !in b
    ensures SignSafe(s) ==> SignSafe(Replace(s, a, b))
  {
    if SignSafe(s) {
      ReplaceKeepsOut(s, a, b, Unary('+'));
      ReplaceKeepsOut(s, a, b, Unary('-'));
      if |s| >= |a| && s[..|a|] == a {
        assert Replace(s, a, b)[0] == b[0] && b[0] in b;
      }
    }
  }

  /** A prefix of a replacement result made only of characters of `p` was copied
      from `s` when `b` holds none of them. */
  lemma {:induction false} ReplaceHead(s: string, a: string, b: string, p: string, k: nat)
    requires a != [] && b != [] && forall c :: c in p ==> c !in b
    ensures k <= |Replace(s, a, b)| && (forall j :: 0 <= j < k ==> Replace(s, a, b)[j] in p) ==>
      k <= |s| && Replace(s, a, b)[..k] == s[..k]
    decreases |s|
  {
    var r := Replace(s, a, b);
    if k > 0 && |s| >= |a| {
      if s[..|a|] == a {
        assert r[0] == b[0] && b[0] in b && b[0] !in p;
      } else {
        var t := Replace(s[1..], a, b);
        assert r == [s[0]] + t;
        if k <= |r| && forall j :: 0 <= j < k ==> r[j] in p {
          forall j | 0 <= j < k - 1 ensures t[j] in p {
            assert t[j] == r[j + 1];
          }
          ReplaceHead(s[1..], a, b, p, k - 1);
          assert r[..k] == [s[0]] + t[..k - 1];
          assert s[..k] == [s[0]] + s[1..][..k - 1];
        }
      }
    }
  }

  /** No occurrence of `p` starts inside a replacement that holds none of its
      characters. */
  lemma NoStartInReplacement(b: string, t: string, p: string, i: nat)
    requires i < |b| && p != [] && forall c :: c in p ==> c !in b
    ensures !OccursAt(b + t, p, i)
  {
    if i + |p| <= |b + t| {
      assert (b + t)[i..i + |p|][0] == b[i] && b[i] in b && p[0] in p;
    }
  }

  /** String.replace with a replacement that holds no character of `p` creates no
      occurrence of `p`: a window of `p` can neither overlap the replacement nor
      straddle it. */
  lemma ReplaceKeepsOut(s: string, a: string, b: string, p: string)
    requires a != [] && b != [] && p != [] && forall c :: c in p ==> c !in b
    requires !Occurs(s, p)
    ensures !Occurs(Replace(s, a, b), p)
  {
    var r := Replace(s, a, b);
    if Occurs(r, p) {
      var i :| 0 <= i <= |r| && OccursAt(r, p, i);
      OccurrenceCameFrom(s, a, b, p, i);
    }
  }

  /** An occurrence of `p` after the replacement was an occurrence before it. */
  lemma {:induction false} OccurrenceCameFrom(s: string, a: string, b: string, p: string, i: nat)
    requires a != [] && b != [] && p != [] && forall c :: c in p ==> c !in b
    requires OccursAt(Replace(s, a, b), p, i)
    ensures Occurs(s, p)
    decreases |s|
  {
    var r := Replace(s, a, b);
    if |s| < |a| {
      assert OccursAt(s, p, i);
    } else if s[..|a|] == a {
      var t := Replace(s[|a|..], a, b);
      assert r == b + t;
      if i < |b| {
        NoStartInReplacement(b, t, p, i);
        assert false;
      }
      OccursInTail(b, t, p, i);
      OccurrenceCameFrom(s[|a|..], a, b, p, i - |b|);
      OccurrenceInSuffix(s, p, |a|);
    } else {
      var t := Replace(s[1..], a, b);
      assert r == [s[0]] + t;
      if i == 0 {
        forall j | 0 <= j < |p| - 1 ensures t[j] in p {
          assert t[j] == r[i..i + |p|][j + 1];
        }
        ReplaceHead(s[1..], a, b, p, |p| - 1);
        assert s[..|p|] == [s[0]] + s[1..][..|p| - 1];
        assert r[..|p|] == [s[0]] + t[..|p| - 1];
        assert OccursAt(s, p, 0);
      } else {
        OccursInTail([s[0]], t, p, i);
        OccurrenceCameFrom(s[1..], a, b, p, i - 1);
        OccurrenceInSuffix(s, p, 1);
      }
    }
  }

  /** An occurrence in a suffix is an occurrence in the whole string. */
  lemma OccurrenceInSuffix(s: string, p: string, k: nat)
    requires k <= |s| && Occurs(s[k..], p)
    ensures Occurs(s, p)
  {
    var i :| 0 <= i <= |s[k..]| && OccursAt(s[k..], p, i);
    assert s[k..][i..i + |p|] == s[k + i..k + i + |p|];
    assert OccursAt(s, p, k + i);
  }

  /** A string that gets the 0 in front of its sign keeps it through the word
      rewrites. */
  lemma LeadingSignGetsZero(input: string)
    requires var s := Prepare(input); s != [] && s[0] == '0'
    ensures RunUdoParser(input) != [] && RunUdoParser(input)[0] == '0'
  {
    var s := Prepare(input);
    var s1 := Replace(s, "floor", FloorMark);
    ReplaceKeepsFirst(s, "floor", FloorMark);
    var s2 := Replace(s1, "xor", XorMark);
    ReplaceKeepsFirst(s1, "xor", XorMark);
    var s3 := Replace(s2, "or", " or ");
    ReplaceKeepsFirst(s2, "or", " or ");
    var s4 := Replace(s3, "and", " and ");
    ReplaceKeepsFirst(s3, "and", " and ");
    var s5 := Replace(s4, "shl", " shl ");
    ReplaceKeepsFirst(s4, "shl", " shl ");
    var s6 := Replace(s5, "shr", " shr ");
    ReplaceKeepsFirst(s5, "shr", " shr ");
    var s7 := Replace(s6, FloorMark, "floor");
    ReplaceKeepsFirst(s6, FloorMark, "floor");
    ReplaceKeepsFirst(s7, XorMark, " xor ");
  }

  /** A replacement whose pattern starts with a character `s` does not hold
      leaves `s` as it is. */
  lemma {:induction false} ReplaceWithoutHead(s: string, a: string, b: string)
    requires a != [] && a[0] !in s
    ensures Replace(s, a, b) == s
    decreases |s|
  {
    if |s| >= |a| {
      assert s[0] in s;
      ReplaceWithoutHead(s[1..], a, b);
      assert s == [s[0]] + s[1..];
    }
  }

  /** An expression without the letters the word rewrites look for (numbers,
      signs, parentheses, other names) passes through them unchanged. */
  lemma NoWordsUnchanged(s: string)
    requires forall c :: c in s ==> c !in "fxoas\U{A7}"
    ensures SpaceWords(s) == s
  {
    ReplaceWithoutHead(s, "floor", FloorMark);
    ReplaceWithoutHead(s, "xor", XorMark);
    ReplaceWithoutHead(s, "or", " or ");
    ReplaceWithoutHead(s, "and", " and ");
    ReplaceWithoutHead(s, "shl", " shl ");
    ReplaceWithoutHead(s, "shr", " shr ");
    ReplaceWithoutHead(s, FloorMark, "floor");
    ReplaceWithoutHead(s, XorMark, " xor ");
  }

  /** A string replaced as a whole. */
  lemma ReplaceWhole(a: string, b: string)
    requires a != []
    ensures Replace(a, a, b) == b
  {
    assert a[..|a|] == a;
    assert Replace(a, a, b) == b + Replace(a[|a|..], a, b);
  }

  /** A string no longer than a pattern it differs from is left as it is. */
  lemma ReplaceNoRoom(s: string, a: string, b: string)
    requires a != [] && |s| <= |a| && s != a
    ensures Replace(s, a, b) == s
  {
    if |s| == |a| {
      assert s[..|a|] == s;
      assert Replace(s, a, b) == [s[0]] + s[1..];
    }
  }

  /** `floor` comes back intact, although it holds `or`. */
  lemma FloorKept()
    ensures SpaceWords("floor") == "floor"
  {
    var s1 := FloorMark;
    ReplaceWhole("floor", s1);
    assert "xor"[0] !in s1 && "or"[0] !in s1 && "and"[0] !in s1 && "shl"[0] !in s1;
    ReplaceWithoutHead(s1, "xor", XorMark);
    ReplaceWithoutHead(s1, "or", " or ");
    ReplaceWithoutHead(s1, "and", " and ");
    ReplaceWithoutHead(s1, "shl", " shl ");
    ReplaceWithoutHead(s1, "shr", " shr ");
    ReplaceWhole(s1, "floor");
    assert XorMark[0] !in "floor";
    ReplaceWithoutHead("floor", XorMark, " xor ");
  }

  /** `xor` is set apart by spaces and not split at its `or`. */
  lemma XorSpaced()
    ensures SpaceWords("xor") == " xor "
  {
    var s2 := XorMark;
    assert "floor"[0] !in "xor";
    ReplaceWithoutHead("xor", "floor", FloorMark);
    ReplaceWhole("xor", s2);
    assert "or"[0] !in s2 && "and"[0] !in s2 && "shl"[0] !in s2;
    ReplaceWithoutHead(s2, "or", " or ");
    ReplaceWithoutHead(s2, "and", " and ");
    ReplaceWithoutHead(s2, "shl", " shl ");
    ReplaceWithoutHead(s2, "shr", " shr ");
    assert s2[3] != FloorMark[3];
    ReplaceNoRoom(s2, FloorMark, "floor");
    ReplaceWhole(s2, " xor ");
  }

  /** `or` is set apart by spaces. */
  lemma OrSpaced()
    ensures SpaceWords("or") == " or "
  {
    var s3 := " or ";
    assert "floor"[0] !in "or" && "xor"[0] !in "or";
    ReplaceWithoutHead("or", "floor", FloorMark);
    ReplaceWithoutHead("or", "xor", XorMark);
    ReplaceWhole("or", s3);
    assert "and"[0] !in s3 && "shl"[0] !in s3 && FloorMark[0] !in s3;
    ReplaceWithoutHead(s3, "and", " and ");
    ReplaceWithoutHead(s3, "shl", " shl ");
    ReplaceWithoutHead(s3, "shr", " shr ");
    ReplaceWithoutHead(s3, FloorMark, "floor");
    ReplaceWithoutHead(s3, XorMark, " xor ");
  }

  /** No term appears twice. */
  predicate Distinct(h: seq<string>)
  {
    forall i, j :: 0 <= i < j < |h| ==> h[i] != h[j]
  }

  /** The history after a term is run: the term is added at the end unless it is
      already there. */
  function Remember(h: seq<string>, s: string): (r: seq<string>)
    ensures forall t :: t in r <==> t in h || t == s
    ensures s in h ==> r == h
    ensures s !in h ==> |r| == |h| + 1 && r[..|h|] == h
  {
    if s in h then h else h + [s]
  }

  /** A history without duplicates stays without duplicates. */
  lemma RememberKeepsDistinct(h: seq<string>, s: string)
    requires Distinct(h)
    ensures Distinct(Remember(h, s))
  {
    if s !in h {
      var r := h + [s];
      forall i, j | 0 <= i < j < |r| ensures r[i] != r[j] {
        if j == |h| {
          assert r[i] == h[i];
        }
      }
    }
  }

  /** The console's list of the terms it has run. */
  class History {
    var terms: seq<string>

    constructor ()
      ensures terms == []
    {
      terms := [];
    }

    /** `if (!_history.contains(s)) _history.addLast(s)` */
    method Add(s: string)
      modifies this
      ensures terms == Remember(old(terms), s)
      ensures Distinct(old(terms)) ==> Distinct(terms)
    {
      if s !in terms {
        terms := terms + [s];
      }
      if Distinct(old(terms)) {
        RememberKeepsDistinct(old(terms), s);
      }
    }
  }
}
