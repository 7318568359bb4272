/** The JavaScript string operations the source relies on, over `seq<char>`:
    `includes`, `startsWith`, `endsWith`, `trim`, `toLowerCase`, `split`,
    `join` and the relational `<` on strings. */
module Strings {

  /** The characters JavaScript's `trim` removes and the regular-expression
      class `\s` matches: the ECMAScript WhiteSpace and LineTerminator sets. */
  predicate IsSpace(c: char) {
    c == ' ' || c == '\t' || c == '\n' || c == '\r' || c == '\U{000B}' || c == '\U{000C}'
    || c == '\U{00A0}' || c == '\U{FEFF}' || c == '\U{1680}' || ('\U{2000}' <= c <= '\U{200A}')
    || c == '\U{2028}' || c == '\U{2029}' || c == '\U{202F}' || c == '\U{205F}' || c == '\U{3000}'
  }

  /** `s.includes(sub)`. */
  predicate Contains(s: string, sub: string)
    decreases |s|
  {
    sub <= s || (|s| > 0 && Contains(s[1..], sub))
  }

  /** `s.startsWith(p)`. */
  predicate StartsWith(s: string, p: string) {
    p <= s
  }

  /** `s.endsWith(p)`. */
  predicate EndsWith(s: string, p: string) {
    |p| <= |s| && s[|s| - |p|..] == p
  }

  /** `Contains` holds exactly when `sub` occurs at some position. */
  lemma {:induction false} ContainsAt(s: string, sub: string)
    ensures Contains(s, sub) <==> exists i :: 0 <= i <= |s| && sub <= s[i..]
    decreases |s|
  {
    if sub <= s {
      assert s[0..] == s;
    } else if |s| > 0 {
      ContainsAt(s[1..], sub);
      forall i | 1 <= i <= |s| ensures s[i..] == s[1..][i - 1..] { }
      if Contains(s[1..], sub) {
        var k :| 0 <= k <= |s[1..]| && sub <= s[1..][k..];
        assert sub <= s[k + 1..];
      } else {
        forall i | 0 <= i <= |s| ensures !(sub <= s[i..]) {
          if i > 0 { assert s[i..] == s[1..][i - 1..]; }
        }
      }
    } else {
      forall i | 0 <= i <= |s| ensures !(sub <= s[i..]) { assert s[i..] == s; }
    }
  }

  /** An occurrence stays an occurrence inside any larger string. */
  lemma ContainsInfix(p: string, s: string, q: string, sub: string)
    requires Contains(s, sub)
    ensures Contains(p + s + q, sub)
  {
    ContainsAt(s, sub);
    var i :| 0 <= i <= |s| && sub <= s[i..];
    assert (p + s + q)[|p| + i..] == s[i..] + q;
    ContainsAt(p + s + q, sub);
  }

  function TrimStart(s: string): (r: string)
    ensures |r| <= |s|
    decreases |s|
  {
    if |s| > 0 && IsSpace(s[0]) then TrimStart(s[1..]) else s
  }

  /** `TrimStart` drops a prefix made only of white space and stops at the
      first other character. */
  lemma {:induction false} TrimStartFacts(s: string)
    ensures var r := TrimStart(s);
      r == s[|s| - |r|..] && (forall i :: 0 <= i < |s| - |r| ==> IsSpace(s[i])) && (|r| > 0 ==> !IsSpace(r[0]))
    decreases |s|
  {
    if |s| > 0 && IsSpace(s[0]) {
      TrimStartFacts(s[1..]);
    }
  }

  function TrimEnd(s: string): (r: string)
    ensures |r| <= |s|
    decreases |s|
  {
    if |s| > 0 && IsSpace(s[|s| - 1]) then TrimEnd(s[..|s| - 1]) else s
  }

  /** `TrimEnd` drops a suffix made only of white space and stops at the last
      other character. */
  lemma {:induction false} TrimEndFacts(s: string)
    ensures var r := TrimEnd(s);
      r == s[..|r|] && (forall i :: |r| <= i < |s| ==> IsSpace(s[i])) && (|r| > 0 ==> !IsSpace(r[|r| - 1]))
    decreases |s|
  {
    if |s| > 0 && IsSpace(s[|s| - 1]) {
      TrimEndFacts(s[..|s| - 1]);
    }
  }

  /** `s.trim()`: removes the white space at both ends. */
  function Trim(s: string): (r: string)
    ensures |r| <= |s|
  {
    TrimEnd(TrimStart(s))
  }

  /** A trimmed string neither starts nor ends with white space. */
  lemma TrimEndsNotSpace(s: string)
    ensures |Trim(s)| > 0 ==> !IsSpace(Trim(s)[0]) && !IsSpace(Trim(s)[|Trim(s)| - 1])
  {
    TrimStartFacts(s);
    TrimEndFacts(TrimStart(s));
  }

  /** The trimmed string is the infix of `s` left after removing only white
      space from its ends. */
  lemma TrimIsInfix(s: string)
    ensures exists i, j :: 0 <= i <= j <= |s| && Trim(s) == s[i..j]
                           && (forall k :: 0 <= k < i ==> IsSpace(s[k]))
                           && (forall k :: j <= k < |s| ==> IsSpace(s[k]))
  {
    var t := TrimStart(s);
    var r := TrimEnd(t);
    TrimStartFacts(s);
    TrimEndFacts(t);
    assert r == s[|s| - |t|..|s| - |t| + |r|];
  }

  /** A string that starts with a non-space character stays non-empty when
      trimmed, and keeps that first character. */
  lemma TrimKeepsFirst(s: string)
    requires |s| > 0 && !IsSpace(s[0])
    ensures |Trim(s)| > 0 && Trim(s)[0] == s[0]
  {
    assert TrimStart(s) == s;
    TrimEndFacts(s);
    assert !IsSpace(s[0]);
  }

  function LowerChar(c: char): (d: char)
    ensures 'A' <= c <= 'Z' ==> 'a' <= d <= 'z'
    ensures !('A' <= c <= 'Z') ==> d == c
  {
    if 'A' <= c <= 'Z' then (c as int + 32) as char else c
  }

  /** Every character of an occurring substring occurs in the string. */
  lemma ContainsChars(s: string, sub: string)
    requires Contains(s, sub)
    ensures forall c :: c in sub ==> c in s
  {
    ContainsAt(s, sub);
    var i :| 0 <= i <= |s| && sub <= s[i..];
    forall c | c in sub ensures c in s {
      var k :| 0 <= k < |sub| && sub[k] == c;
      assert s[i + k] == c;
    }
  }

  /** Every piece of an occurring substring occurs too. */
  lemma ContainsPiece(s: string, sub: string, i: nat, j: nat)
    requires Contains(s, sub) && i <= j <= |sub|
    ensures Contains(s, sub[i..j])
  {
    ContainsAt(s, sub);
    var k :| 0 <= k <= |s| && sub <= s[k..];
    assert sub[i..j] <= s[k + i..];
    ContainsAt(s, sub[i..j]);
  }

  /** A string never contains a longer one. */
  lemma LongerNotContained(s: string, sub: string)
    requires |sub| > |s|
    ensures !Contains(s, sub)
  {
    ContainsAt(s, sub);
  }

  /** `s.toLowerCase()` for the ASCII letters. */
  function ToLower(s: string): (r: string)
    ensures |r| == |s|
    ensures forall i :: 0 <= i < |s| ==> r[i] == LowerChar(s[i])
  {
    seq(|s|, i requires 0 <= i < |s| => LowerChar(s[i]))
  }

  /** `parts.join(sep)`. */
  function Join(parts: seq<string>, sep: string): string
  {
    if |parts| == 0 then ""
    else if |parts| == 1 then parts[0]
    else parts[0] + sep + Join(parts[1..], sep)
  }

  /** `s.split(sep)` for a one-character separator. */
  function Split(s: string, sep: char): (r: seq<string>)
    ensures |r| >= 1
    ensures forall k :: 0 <= k < |r| ==> sep !in r[k]
    decreases |s|
  {
    if sep in s then
      var i := FirstOf(s, sep);
      [s[..i]] + Split(s[i + 1..], sep)
    else [s]
  }

  /** Index of the first occurrence of `c` in `s`. */
  function FirstOf(s: string, c: char): (i: nat)
    requires c in s
    ensures i < |s| && s[i] == c && c !in s[..i]
  {
    if s[0] == c then 0 else 1 + FirstOf(s[1..], c)
  }

  /** `s.indexOf(c)`: the first position of `c`, or -1. */
  function IndexOf(s: string, c: char): (i: int)
    ensures i == -1 <==> c !in s
    ensures i >= 0 ==> i < |s| && s[i] == c && c !in s[..i]
  {
    if c in s then FirstOf(s, c) else -1
  }

  /** Splitting and joining again with the same separator gives the input back. */
  lemma {:induction false} JoinSplit(s: string, sep: char)
    ensures Join(Split(s, sep), [sep]) == s
    decreases |s|
  {
    if sep in s {
      var i := FirstOf(s, sep);
      var rest := Split(s[i + 1..], sep);
      JoinSplit(s[i + 1..], sep);
      assert Split(s, sep) == [s[..i]] + rest;
      assert s == s[..i] + [sep] + s[i + 1..];
    }
  }

  /** JavaScript's `a < b` on strings: lexicographic comparison by character. */
  predicate LexLess(a: string, b: string)
    decreases |a|
  {
    if |a| == 0 then |b| > 0
    else if |b| == 0 then false
    else if a[0] != b[0] then a[0] < b[0]
    else LexLess(a[1..], b[1..])
  }

  /** Comparing two concatenations whose first parts have equal length: the
      first parts decide unless they are equal. */
  lemma {:induction false} LexLessConcat(a1: string, a2: string, b1: string, b2: string)
    requires |a1| == |b1|
    ensures LexLess(a1 + a2, b1 + b2) == if a1 == b1 then LexLess(a2, b2) else LexLess(a1, b1)
    decreases |a1|
  {
    if |a1| > 0 {
      assert (a1 + a2)[1..] == a1[1..] + a2;
      assert (b1 + b2)[1..] == b1[1..] + b2;
      LexLessConcat(a1[1..], a2, b1[1..], b2);
      if a1[0] == b1[0] && a1[1..] == b1[1..] { assert a1 == b1; }
    } else {
      assert a1 + a2 == a2 && b1 + b2 == b2;
    }
  }
}
