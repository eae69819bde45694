/** Character classes and string operations of java.lang that the engine relies on,
    restricted to what can be stated without Unicode tables: letters, digits and case
    mapping are the ASCII ones; whitespace is Character.isWhitespace exactly. */
module Text {

  /** Character.isDigit, ASCII part. */
  predicate IsDigit(c: char) { '0' <= c <= '9' }

  /** Character.isLetter, ASCII part. */
  predicate IsLetter(c: char) { 'a' <= c <= 'z' || 'A' <= c <= 'Z' }

  /** Character.isWhitespace: the space, line and paragraph separators except the
      non-breaking ones, plus the ASCII controls TAB..CR and FS..US. */
  predicate IsJavaWhitespace(c: char)
  {
    c == ' ' || ('\t' <= c <= '\r') || ('\U{1C}' <= c <= '\U{1F}')
    || c == '\U{1680}' || ('\U{2000}' <= c <= '\U{2006}') || ('\U{2008}' <= c <= '\U{200A}')
    || c == '\U{2028}' || c == '\U{2029}' || c == '\U{205F}' || c == '\U{3000}'
  }

  /** The regular-expression class \s of java.util.regex: [ \t\n\x0B\f\r]. */
  predicate IsRegexSpace(c: char)
  {
    c == ' ' || c == '\t' || c == '\n' || c == '\U{0B}' || c == '\U{0C}' || c == '\r'
  }

  /** Character.toUpperCase (Locale.ROOT), ASCII part. */
  function UpperChar(c: char): (u: char)
    ensures !('a' <= u <= 'z')
    ensures 'A' <= c <= 'Z' || !IsLetter(c) ==> u == c
  {
    if 'a' <= c <= 'z' then (c as int - 32) as char else c
  }

  /** The per-character key of String.CASE_INSENSITIVE_ORDER
      (toLowerCase(toUpperCase(c))), ASCII part. */
  function FoldChar(c: char): (f: char)
    ensures !('A' <= f <= 'Z')
    ensures 'a' <= c <= 'z' ==> f == c
  {
    if 'A' <= c <= 'Z' then (c as int + 32) as char else c
  }

  /** String.toUpperCase(Locale.ROOT). */
  function ToUpper(s: string): (u: string)
    ensures |u| == |s|
    ensures forall i :: 0 <= i < |s| ==> u[i] == UpperChar(s[i])
  {
    if s == [] then [] else [UpperChar(s[0])] + ToUpper(s[1..])
  }

  /** Two strings are equal for String.CASE_INSENSITIVE_ORDER exactly when their
      folded forms are equal; the case-insensitive maps are keyed by this form. */
  function Fold(s: string): (f: string)
    ensures |f| == |s|
    ensures forall i :: 0 <= i < |s| ==> f[i] == FoldChar(s[i])
  {
    if s == [] then [] else [FoldChar(s[0])] + Fold(s[1..])
  }

  lemma {:induction false} FoldOfUpper(s: string)
    ensures Fold(ToUpper(s)) == Fold(s)
  {
    if s != [] {
      FoldOfUpper(s[1..]);
      assert ToUpper(s) == [UpperChar(s[0])] + ToUpper(s[1..]);
      assert Fold(ToUpper(s)) == [FoldChar(UpperChar(s[0]))] + Fold(ToUpper(s[1..]));
    }
  }

  /** Folding leaves a string without upper-case letters unchanged. */
  lemma {:induction false} FoldIdentity(s: string)
    requires forall i :: 0 <= i < |s| ==> !('A' <= s[i] <= 'Z')
    ensures Fold(s) == s
  {
    if s != [] {
      FoldIdentity(s[1..]);
      assert s == [s[0]] + s[1..];
    }
  }

  function StartsWith(s: string, p: string): bool
  {
    |p| <= |s| && s[..|p|] == p
  }

  /** String.trim: drops leading and trailing characters up to U+0020. */
  function Trim(s: string): (t: string)
    ensures |t| <= |s|
    ensures t != [] ==> t[0] > ' ' && t[|t| - 1] > ' '
  {
    var a := TrimLead(s, 0);
    s[a..TrimTrail(s, a, |s|)]
  }

  /** The first index from `i` on whose character is above U+0020. */
  function TrimLead(s: string, i: nat): (j: nat)
    requires i <= |s|
    ensures i <= j <= |s| && (j < |s| ==> s[j] > ' ')
    ensures forall k :: i <= k < j ==> s[k] <= ' '
    decreases |s| - i
  {
    if i < |s| && s[i] <= ' ' then TrimLead(s, i + 1) else i
  }

  /** The end of `s[lo..j]` once its trailing characters up to U+0020 are dropped. */
  function TrimTrail(s: string, lo: nat, j: nat): (e: nat)
    requires lo <= j <= |s|
    ensures lo <= e <= j && (lo < e ==> s[e - 1] > ' ')
    ensures forall k :: e <= k < j ==> s[k] <= ' '
    decreases j
  {
    if lo < j && s[j - 1] <= ' ' then TrimTrail(s, lo, j - 1) else j
  }

  /** Trimming a string that starts and ends above U+0020 changes nothing. */
  lemma TrimOfTrimmed(s: string)
    requires s != [] && s[0] > ' ' && s[|s| - 1] > ' '
    ensures Trim(s) == s
  {
  }

  /** `a` occurs in `s` at index `i`. */
  predicate OccursAt(s: string, a: string, i: int)
  {
    0 <= i && i + |a| <= |s| && s[i..i + |a|] == a
  }

  ghost predicate Occurs(s: string, a: string)
  {
    exists i :: 0 <= i <= |s| && OccursAt(s, a, i)
  }

  /** String.replace(CharSequence, CharSequence): every occurrence of `a`, found
      left to right without overlap, is replaced by `b`; an empty `a` matches before
      every character and at the end. */
  function Replace(s: string, a: string, b: string): (r: string)
    ensures a == b ==> r == s
    ensures a == [] ==> |r| == |s| + (|s| + 1) * |b|
    decreases |s|
  {
    if a == [] then
      (if s == [] then b else b + [s[0]] + Replace(s[1..], a, b))
    else if |s| < |a| then s
    else if s[..|a|] == a then b + Replace(s[|a|..], a, b)
    else [s[0]] + Replace(s[1..], a, b)
  }

  /** Number of replacements String.replace performs for a non-empty target. */
  function ReplaceCount(s: string, a: string): nat
    requires a != []
    decreases |s|
  {
    if |s| < |a| then 0
    else if s[..|a|] == a then 1 + ReplaceCount(s[|a|..], a)
    else ReplaceCount(s[1..], a)
  }

  lemma {:induction false} ReplaceLength(s: string, a: string, b: string)
    requires a != []
    ensures |Replace(s, a, b)| == |s| + ReplaceCount(s, a) * (|b| - |a|)
    decreases |s|
  {
    if |s| < |a| {
    } else if s[..|a|] == a {
      var rest := s[|a|..];
      ReplaceLength(rest, a, b);
      var c := ReplaceCount(rest, a);
      var d := |b| - |a|;
      assert Replace(s, a, b) == b + Replace(rest, a, b);
      assert ReplaceCount(s, a) == 1 + c;
      assert |Replace(rest, a, b)| == |rest| + c * d;
      OneMore(c, d);
    } else {
      ReplaceLength(s[1..], a, b);
    }
  }

  lemma OneMore(c: int, d: int)
    ensures (1 + c) * d == d + c * d
  {
  }

  /** No occurrence at the head and none in the tail means none at all. */
  lemma NoOccurrenceFromTail(s: string, a: string)
    requires |s| >= |a| && a != [] && s[..|a|] != a
    requires !Occurs(s[1..], a)
    ensures !Occurs(s, a)
  {
    forall i | 0 <= i <= |s| && OccursAt(s, a, i) ensures false {
      if i > 0 {
        assert s[1..][i - 1..i - 1 + |a|] == s[i..i + |a|];
        assert OccursAt(s[1..], a, i - 1);
      }
    }
  }

  lemma {:induction false} NoCountNoOccurrence(s: string, a: string)
    requires a != [] && ReplaceCount(s, a) == 0
    ensures !Occurs(s, a)
    decreases |s|
  {
    if |s| >= |a| {
      NoCountNoOccurrence(s[1..], a);
      NoOccurrenceFromTail(s, a);
    }
  }

  /** A fixpoint of String.replace with a non-empty target different from its
      replacement contains no occurrence of the target. */
  lemma {:induction false} FixpointHasNoTarget(s: string, a: string, b: string)
    requires a != [] && a != b
    requires Replace(s, a, b) == s
    ensures !Occurs(s, a)
    decreases |s|
  {
    if |s| < |a| {
    } else if s[..|a|] == a {
      FixpointNotAtHead(s, a, b);
    } else {
      assert Replace(s, a, b) == [s[0]] + Replace(s[1..], a, b);
      assert Replace(s[1..], a, b) == s[1..];
      FixpointHasNoTarget(s[1..], a, b);
      NoOccurrenceFromTail(s, a);
    }
  }

  lemma FixpointNotAtHead(s: string, a: string, b: string)
    requires a != [] && a != b && |s| >= |a| && s[..|a|] == a
    ensures Replace(s, a, b) != s
  {
    var t := s[|a|..];
    assert Replace(s, a, b) == b + Replace(t, a, b);
    if |b| == |a| {
      assert Replace(s, a, b)[..|a|] == b;
    } else {
      ReplaceLength(t, a, b);
      NonZeroGrowth(ReplaceCount(t, a), |b| - |a|);
      assert |Replace(s, a, b)| == |b| + |t| + ReplaceCount(t, a) * (|b| - |a|);
    }
  }

  lemma NonZeroGrowth(c: nat, d: int)
    requires d != 0
    ensures d + c * d != 0
  {
    if d > 0 { assert c * d >= 0; } else { assert c * d <= 0; }
  }

  /** The first character survives String.replace when target and replacement begin
      with the same character. */
  lemma {:induction false} ReplaceKeepsHead(s: string, a: string, b: string)
    requires a != [] && b != [] && a[0] == b[0] && s != []
    ensures Replace(s, a, b) != [] && Replace(s, a, b)[0] == s[0]
  {
  }

  /** s.replaceAll("\\s+", ""): deletes every regex white-space character. */
  function RemoveRegexSpaces(s: string): (t: string)
    ensures forall i :: 0 <= i < |t| ==> !IsRegexSpace(t[i])
    ensures forall c :: c in s && !IsRegexSpace(c) ==> c in t
    ensures forall c :: c in t ==> c in s
    ensures |t| <= |s|
    ensures |t| == |s| <==> forall i :: 0 <= i < |s| ==> !IsRegexSpace(s[i])
  {
    if s == [] then []
    else if IsRegexSpace(s[0]) then RemoveRegexSpaces(s[1..])
    else [s[0]] + RemoveRegexSpaces(s[1..])
  }

  /** Removing white space is a filter: it works piece by piece and keeps the order
      and the number of the other characters. */
  lemma {:induction false} RemoveRegexSpacesAppend(a: string, b: string)
    ensures RemoveRegexSpaces(a + b) == RemoveRegexSpaces(a) + RemoveRegexSpaces(b)
    decreases |a|
  {
    if a != [] {
      assert (a + b)[0] == a[0];
      assert (a + b)[1..] == a[1..] + b;
      RemoveRegexSpacesAppend(a[1..], b);
      if !IsRegexSpace(a[0]) {
        assert RemoveRegexSpaces(a + b) == [a[0]] + RemoveRegexSpaces(a[1..] + b);
        assert RemoveRegexSpaces(a) == [a[0]] + RemoveRegexSpaces(a[1..]);
      }
    } else {
      assert a + b == b;
    }
  }

  /** The filter drops a white-space character and keeps any other one. */
  lemma RemoveRegexSpacesOne(c: char)
    ensures RemoveRegexSpaces([c]) == if IsRegexSpace(c) then [] else [c]
  {
  }

  /** StringBuilder.reverse on text without surrogate pairs: the characters in the
      opposite order. */
  function Reversed(s: string): (r: string)
    ensures |r| == |s| && forall k :: 0 <= k < |s| ==> r[k] == s[|s| - 1 - k]
  {
    if s == [] then [] else Reversed(s[1..]) + [s[0]]
  }
}
