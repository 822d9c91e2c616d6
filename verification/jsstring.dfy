/** The few JavaScript string operations the client relies on, over
    `seq<char>`. A `char` here is a Unicode scalar value, whereas JavaScript's
    `length`, `charCodeAt`, `<` and `indexOf` work on UTF-16 code units: the
    two agree on text within the Basic Multilingual Plane. */
module JsString {
  import opened Wrappers

  /** `p` occurs in `s` starting at index `i`. */
  predicate OccursAt(s: string, p: string, i: nat) {
    i + |p| <= |s| && s[i..i + |p|] == p
  }

  /** `s.includes(p)`. */
  predicate Includes(s: string, p: string) {
    exists i: nat | i <= |s| :: OccursAt(s, p, i)
  }

  /** `s.indexOf(p)`, with `None` for JavaScript's -1: the first index at
      which `p` occurs. */
  function IndexOf(s: string, p: string): (r: Option<nat>)
    ensures r.Some? ==> OccursAt(s, p, r.value)
    ensures r.Some? ==> forall j: nat :: j < r.value ==> !OccursAt(s, p, j)
    ensures r.None? ==> forall j: nat :: !OccursAt(s, p, j)
    ensures r.Some? <==> Includes(s, p)
    decreases |s|
  {
    if |p| > |s| then None
    else if s[..|p|] == p then Some(0)
    else
      ShiftOccurrence(s, p);
      match IndexOf(s[1..], p)
      case Some(i) => Some(i + 1)
      case None => None
  }

  /** An occurrence past the first index of `s` is an occurrence in `s[1..]`. */
  lemma ShiftOccurrence(s: string, p: string)
    requires |s| > 0
    ensures forall j: nat | 1 <= j :: OccursAt(s, p, j) <==> OccursAt(s[1..], p, j - 1)
  {
    forall j: nat | 1 <= j
      ensures OccursAt(s, p, j) <==> OccursAt(s[1..], p, j - 1)
    {
      if j + |p| <= |s| {
        assert s[1..][j - 1..j - 1 + |p|] == s[j..j + |p|];
      }
    }
  }

  /** `s.replace(p, rep)` with a plain-string pattern: only the first
      occurrence is replaced, and a string without one is returned as is. */
  function ReplaceFirst(s: string, p: string, rep: string): (r: string)
    ensures !Includes(s, p) ==> r == s
    ensures Includes(s, p) ==> |r| == |s| - |p| + |rep|
  {
    match IndexOf(s, p)
    case None => s
    case Some(i) => s[..i] + rep + s[i + |p|..]
  }

  /** A one-character pattern is included exactly when the character is. */
  lemma IncludesSingle(s: string, c: char)
    ensures Includes(s, [c]) <==> c in s
  {
    if Includes(s, [c]) {
      var i: nat :| i <= |s| && OccursAt(s, [c], i);
      assert s[i..i + 1][0] == s[i];
    }
    if c in s {
      var i :| 0 <= i < |s| && s[i] == c;
      assert OccursAt(s, [c], i);
    }
  }

  /** `replace` substitutes the first occurrence of the pattern and keeps
      everything before and after it. */
  lemma ReplaceFirstContent(s: string, p: string, rep: string)
    requires Includes(s, p)
    ensures var i := IndexOf(s, p).value;
      ReplaceFirst(s, p, rep) == s[..i] + rep + s[i + |p|..]
  {
    var found := IndexOf(s, p);
    assert found.Some?;
  }

  /** The first occurrence of a character that `x` does not hold is right
      after `x`. */
  lemma IndexOfFreshChar(x: string, y: string, c: char)
    requires c !in x
    ensures IndexOf(x + [c] + y, [c]) == Some(|x|)
  {
    var s := x + [c] + y;
    assert OccursAt(s, [c], |x|);
    forall j: nat | j < |x|
      ensures !OccursAt(s, [c], j)
    {
      assert s[j..j + 1] == [x[j]];
      assert x[j] in x;
    }
  }

  /** Removing the first occurrence of a character that `x` does not hold. */
  lemma RemoveFreshChar(x: string, y: string, c: char)
    requires c !in x
    ensures ReplaceFirst(x + [c] + y, [c], "") == x + y
  {
    IndexOfFreshChar(x, y, c);
    var s := x + [c] + y;
    assert s[..|x|] == x && s[|x| + 1..] == y;
  }

  /** JavaScript's `<` on two strings, which is also the order of the
      default `Array.prototype.sort`: code unit by code unit, and a proper
      prefix sorts first. */
  predicate Below(a: string, b: string)
    decreases |a|
  {
    if |a| == 0 then |b| > 0
    else if |b| == 0 then false
    else if a[0] != b[0] then a[0] < b[0]
    else Below(a[1..], b[1..])
  }

  lemma {:induction false} BelowIrreflexive(a: string)
    ensures !Below(a, a)
    decreases |a|
  {
    if |a| > 0 {
      BelowIrreflexive(a[1..]);
    }
  }

  lemma {:induction false} BelowAsymmetric(a: string, b: string)
    ensures !(Below(a, b) && Below(b, a))
    decreases |a|
  {
    if |a| > 0 && |b| > 0 && a[0] == b[0] {
      BelowAsymmetric(a[1..], b[1..]);
    }
  }

  lemma {:induction false} BelowConnected(a: string, b: string)
    ensures a != b ==> Below(a, b) || Below(b, a)
    decreases |a|
  {
    if |a| > 0 && |b| > 0 && a[0] == b[0] {
      BelowConnected(a[1..], b[1..]);
      if a[1..] == b[1..] {
        assert a == [a[0]] + a[1..] && b == [b[0]] + b[1..];
      }
    }
  }

  /** `s.split(c)[0]`: the text before the first `c`, or all of `s`. */
  function Before(s: string, c: char): (r: string)
    ensures c !in r
    ensures r <= s
    ensures |r| < |s| ==> s[|r|] == c
  {
    if |s| == 0 || s[0] == c then ""
    else [s[0]] + Before(s[1..], c)
  }

  /** `s.substring(0, n)`. */
  function Prefix(s: string, n: nat): (r: string)
    ensures |r| == if n < |s| then n else |s|
    ensures r <= s
  {
    if n < |s| then s[..n] else s
  }

  /** `toUpperCase` on one code unit, restricted to the ASCII letters. */
  function UpperChar(c: char): char {
    if 'a' <= c <= 'z' then (c as int - 32) as char else c
  }

  /** `toLowerCase` on one code unit, restricted to the ASCII letters. */
  function LowerChar(c: char): char {
    if 'A' <= c <= 'Z' then (c as int + 32) as char else c
  }

  function ToUpper(s: string): (r: string)
    ensures |r| == |s|
    ensures forall i :: 0 <= i < |s| ==> r[i] == UpperChar(s[i])
  {
    seq(|s|, i requires 0 <= i < |s| => UpperChar(s[i]))
  }

  function ToLower(s: string): (r: string)
    ensures |r| == |s|
    ensures forall i :: 0 <= i < |s| ==> r[i] == LowerChar(s[i])
  {
    seq(|s|, i requires 0 <= i < |s| => LowerChar(s[i]))
  }

  /** Cutting `x + [c] + y` before its first `c` gives back `x` when `x`
      holds no `c`. */
  lemma {:induction false} BeforeJoin(x: string, y: string, c: char)
    requires c !in x
    ensures Before(x + [c] + y, c) == x
    decreases |x|
  {
    if |x| > 0 {
      assert (x + [c] + y)[1..] == x[1..] + [c] + y;
      BeforeJoin(x[1..], y, c);
    }
  }

  /** Cutting a string at a separator that occurs in neither left part
      recovers both parts. */
  lemma SplitUnique(x: string, y: string, x': string, y': string, c: char)
    requires c !in x && c !in x'
    requires x + [c] + y == x' + [c] + y'
    ensures x == x' && y == y'
  {
    BeforeJoin(x, y, c);
    BeforeJoin(x', y', c);
    var s := x + [c] + y;
    assert y == s[|x| + 1..] == y';
  }
}
