/** The path matchers of src/fetch.c. */
module Matchers {

  datatype MatcherKind = Equals | Contains | StartsWith | EndsWith | EqualsNot | ContainsAllOf

  /** One matcher with its path elements; all kinds but ContainsAllOf have exactly one. */
  datatype Matcher = Matcher(kind: MatcherKind, ignoreCase: bool, elements: seq<string>)

  function Lower(c: char): char
  {
    if 'A' <= c <= 'Z' then (c as int + 32) as char else c
  }

  function Fold(ignoreCase: bool, s: string): (r: string)
    ensures |r| == |s|
  {
    if ignoreCase then seq(|s|, i requires 0 <= i < |s| => Lower(s[i])) else s
  }

  /** strstr: needle is a prefix of some suffix of s. */
  predicate Occurs(needle: string, s: string)
  {
    exists i :: 0 <= i <= |s| && needle <= s[i..]
  }

  predicate Match(m: Matcher, path: string)
  {
    var s := Fold(m.ignoreCase, path);
    var first := if m.elements == [] then "" else Fold(m.ignoreCase, m.elements[0]);
    match m.kind
    case Equals => first == s
    case EqualsNot => first != s
    case Contains => Occurs(first, s)
    case StartsWith => first <= s
    case EndsWith => |first| <= |s| && s[|s| - |first|..] == first
    case ContainsAllOf => forall i :: 0 <= i < |m.elements| ==> Occurs(Fold(m.ignoreCase, m.elements[i]), s)
  }

  /** state_matches: a fetch without matchers matches every path. */
  predicate StateMatches(matchers: seq<Matcher>, path: string)
  {
    forall i :: 0 <= i < |matchers| ==> Match(matchers[i], path)
  }

  // ---------- The match functions ----------

  /** The character at an index of a string that ends in NUL, in the case that is compared. */
  function At(ignoreCase: bool, s: string, i: nat): char
    requires i <= |s|
  {
    if i == |s| then '\0' else if ignoreCase then Lower(s[i]) else s[i]
  }

  predicate NulFree(s: string) { '\0' !in s }

  lemma AtFold(ignoreCase: bool, s: string, i: nat)
    requires i < |s|
    ensures At(ignoreCase, s, i) == Fold(ignoreCase, s)[i] && (NulFree(s) ==> At(ignoreCase, s, i) != '\0')
  {
  }

  /** strncmp and strncasecmp with the length of the needle, from an offset of the path on. */
  method BeginsAt(ignoreCase: bool, needle: string, s: string, from: nat) returns (found: bool)
    requires NulFree(needle) && NulFree(s) && from <= |s|
    ensures found <==> Fold(ignoreCase, needle) <= Fold(ignoreCase, s)[from..]
  {
    var i := 0;
    while i < |needle|
      invariant i <= |needle| && from + i <= |s|
      invariant Fold(ignoreCase, needle)[..i] == Fold(ignoreCase, s)[from..from + i]
    {
      AtFold(ignoreCase, needle, i);
      if from + i < |s| { AtFold(ignoreCase, s, from + i); }
      if At(ignoreCase, needle, i) != At(ignoreCase, s, from + i) {
        Differs(Fold(ignoreCase, needle), Fold(ignoreCase, s), from, i);
        return false;
      }
      i := i + 1;
    }
    var n, t := Fold(ignoreCase, needle), Fold(ignoreCase, s);
    assert n[..|needle|] == n && t[from..][..|needle|] == t[from..from + |needle|];
    return true;
  }

  lemma Differs(n: string, t: string, from: nat, i: nat)
    requires i < |n| && from + i <= |t| && (from + i == |t| || n[i] != t[from + i])
    ensures !(n <= t[from..])
  {
    assert from + i < |t| ==> t[from..][i] == t[from + i];
  }

  /** strcmp and strcasecmp. */
  method Same(ignoreCase: bool, a: string, b: string) returns (same: bool)
    requires NulFree(a) && NulFree(b)
    ensures same <==> Fold(ignoreCase, a) == Fold(ignoreCase, b)
  {
    same := BeginsAt(ignoreCase, a, b, 0);
    assert Fold(ignoreCase, b)[0..] == Fold(ignoreCase, b);
    same := same && |a| == |b|;
  }

  /** strstr and jet_strcasestr. */
  method Contained(ignoreCase: bool, needle: string, s: string) returns (found: bool)
    requires NulFree(needle) && NulFree(s)
    ensures found <==> Occurs(Fold(ignoreCase, needle), Fold(ignoreCase, s))
  {
    for i := 0 to |s| + 1
      invariant forall k :: 0 <= k < i ==> !(Fold(ignoreCase, needle) <= Fold(ignoreCase, s)[k..])
    {
      found := BeginsAt(ignoreCase, needle, s, i);
      if found { return; }
    }
    found := false;
  }

  predicate GoodMatcher(m: Matcher)
  {
    (forall e :: e in m.elements ==> NulFree(e)) && (m.kind.ContainsAllOf? || |m.elements| == 1)
  }

  /** The match functions of src/fetch.c, each with and without regard to case. */
  method MatchFunction(m: Matcher, path: string) returns (matches: bool)
    requires GoodMatcher(m) && NulFree(path)
    ensures matches <==> Match(m, path)
  {
    match m.kind {
      case Equals => matches := Same(m.ignoreCase, m.elements[0], path);
      case EqualsNot =>
        matches := Same(m.ignoreCase, m.elements[0], path);
        matches := !matches;
      case Contains => matches := Contained(m.ignoreCase, m.elements[0], path);
      case StartsWith =>
        matches := BeginsAt(m.ignoreCase, m.elements[0], path, 0);
        assert Fold(m.ignoreCase, path)[0..] == Fold(m.ignoreCase, path);
      case EndsWith =>
        var n, k := |path|, |m.elements[0]|;
        matches := false;
        if n >= k {
          matches := BeginsAt(m.ignoreCase, m.elements[0], path, n - k);
          EndOf(Fold(m.ignoreCase, m.elements[0]), Fold(m.ignoreCase, path));
        }
      case ContainsAllOf =>
        for i := 0 to |m.elements|
          invariant forall k :: 0 <= k < i ==> Occurs(Fold(m.ignoreCase, m.elements[k]), Fold(m.ignoreCase, path))
        {
          matches := Contained(m.ignoreCase, m.elements[i], path);
          if !matches { return; }
        }
        matches := true;
    }
  }

  lemma EndOf(needle: string, s: string)
    requires |needle| <= |s|
    ensures needle <= s[|s| - |needle|..] <==> s[|s| - |needle|..] == needle
  {
  }

  /** state_matches. */
  method CheckPath(matchers: seq<Matcher>, path: string) returns (matches: bool)
    requires NulFree(path) && forall i :: 0 <= i < |matchers| ==> GoodMatcher(matchers[i])
    ensures matches <==> StateMatches(matchers, path)
  {
    if matchers == [] { return true; }
    for i := 0 to |matchers|
      invariant forall k :: 0 <= k < i ==> Match(matchers[k], path)
    {
      var ret := MatchFunction(matchers[i], path);
      if !ret { return false; }
    }
    return true;
  }
}
