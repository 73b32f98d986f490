/**
 * The string operations the front end (JavaScript) and the back end (Python)
 * apply to report text: `split` on a literal separator, `join`, `trim`,
 * `lower`, `endswith`, and the text after the last separator.
 *
 * JavaScript's `String.prototype.split(sep)` and Python's `str.split(sep)`
 * agree for a non-empty literal separator: the text is cut at the leftmost
 * occurrence of the separator, then again at the leftmost occurrence in what
 * follows it, and so on; empty pieces are kept. `Split` models exactly that.
 */
module Strings {
  import opened Wrappers

  /** The white space of JavaScript's `\s` class and of `String.prototype.trim`. */
  predicate IsSpace(c: char) {
    || c == ' ' || c == '\t' || c == '\n' || c == '\r' || c == '\U{B}' || c == '\U{C}'
    || c == '\U{A0}' || c == '\U{1680}' || ('\U{2000}' <= c <= '\U{200A}')
    || c == '\U{2028}' || c == '\U{2029}' || c == '\U{202F}' || c == '\U{205F}'
    || c == '\U{3000}' || c == '\U{FEFF}'
  }

  /** The decimal digits of the regular-expression class `\d`. */
  predicate IsDigit(c: char) {
    '0' <= c <= '9'
  }

  predicate AllSpace(s: string) {
    forall k :: 0 <= k < |s| ==> IsSpace(s[k])
  }

  /** `d` occurs in `s` starting at offset `k`. */
  predicate OccursAt(s: string, d: string, k: int) {
    0 <= k && k + |d| <= |s| && s[k..k + |d|] == d
  }

  predicate Contains(s: string, d: string) {
    exists k :: 0 <= k <= |s| - |d| && OccursAt(s, d, k)
  }

  predicate EndsWith(s: string, suffix: string) {
    |suffix| <= |s| && s[|s| - |suffix|..] == suffix
  }

  /** The first offset at or after `from` where `d` occurs in `s` (`indexOf` / `find`). */
  function IndexOf(s: string, d: string, from: nat): (r: Option<nat>)
    requires |d| > 0
    ensures r.Some? ==> from <= r.value && OccursAt(s, d, r.value)
    ensures r.Some? ==> forall k :: from <= k < r.value ==> !OccursAt(s, d, k)
    ensures r.None? ==> forall k :: from <= k ==> !OccursAt(s, d, k)
    decreases |s| - from
  {
    if from + |d| > |s| then None
    else if s[from..from + |d|] == d then Some(from)
    else IndexOf(s, d, from + 1)
  }

  /** An occurrence inside the infix `s[i..j]` is an occurrence in `s`. */
  lemma OccursInInfix(s: string, i: nat, j: nat, d: string, k: int)
    requires i <= j <= |s|
    requires OccursAt(s[i..j], d, k)
    ensures OccursAt(s, d, i + k)
  {
    var a := s[i..j];
    var b := s[i + k..i + k + |d|];
    forall t | 0 <= t < |d| ensures b[t] == d[t] {
      assert d[t] == a[k..k + |d|][t] == a[k + t];
    }
  }

  /** A text contains whatever one of its infixes contains. */
  lemma InfixContains(s: string, i: nat, j: nat, d: string)
    requires i <= j <= |s|
    requires Contains(s[i..j], d)
    ensures Contains(s, d)
  {
    var k :| 0 <= k <= j - i - |d| && OccursAt(s[i..j], d, k);
    OccursInInfix(s, i, j, d, k);
  }

  /** `s.split(d)`: the pieces between successive leftmost occurrences of `d`. */
  function Split(s: string, d: string): (parts: seq<string>)
    requires |d| > 0
    ensures |parts| >= 1
    ensures forall i :: 0 <= i < |parts| ==> !Contains(parts[i], d)
    decreases |s|
  {
    match IndexOf(s, d, 0)
    case None =>
      assert forall k :: !OccursAt(s, d, k);
      [s]
    case Some(i) =>
      var head := s[..i];
      assert !Contains(head, d) by {
        if Contains(head, d) {
          var k :| 0 <= k <= |head| - |d| && OccursAt(head, d, k);
          OccursInInfix(s, 0, i, d, k);
        }
      }
      [head] + Split(s[i + |d|..], d)
  }

  /** The last element of a non-empty sequence (Python's `xs[-1]`). */
  function Last<T>(xs: seq<T>): T
    requires |xs| > 0
  {
    xs[|xs| - 1]
  }

  /** `parts.join(d)` (JavaScript) or `d.join(parts)` (Python). */
  function Join(parts: seq<string>, d: string): (r: string)
    ensures |parts| > 0 ==> |parts[0]| <= |r| && r[..|parts[0]|] == parts[0]
  {
    if |parts| == 0 then ""
    else if |parts| == 1 then parts[0]
    else parts[0] + d + Join(parts[1..], d)
  }

  /** Joining the pieces of a split with the same separator gives back the text. */
  lemma {:induction false} JoinSplit(s: string, d: string)
    requires |d| > 0
    ensures Join(Split(s, d), d) == s
    decreases |s|
  {
    match IndexOf(s, d, 0)
    case None =>
    case Some(i) =>
      var rest := s[i + |d|..];
      var tail := Split(rest, d);
      JoinSplit(rest, d);
      assert Split(s, d) == [s[..i]] + tail;
      assert ([s[..i]] + tail)[1..] == tail;
      assert Join(Split(s, d), d) == s[..i] + d + Join(tail, d);
      assert s[i..i + |d|] == d;
      assert s == s[..i] + s[i..i + |d|] + rest;
  }

  /** The text has the separator exactly when its split has more than one piece. */
  lemma SplitSeparates(s: string, d: string)
    requires |d| > 0
    ensures Contains(s, d) <==> |Split(s, d)| > 1
  {
    match IndexOf(s, d, 0)
    case None =>
      assert !Contains(s, d);
    case Some(i) =>
      assert OccursAt(s, d, i);
  }

  /** The first piece is the text before the first occurrence of the separator. */
  lemma SplitHead(s: string, d: string)
    requires |d| > 0
    ensures IndexOf(s, d, 0).None? ==> Split(s, d) == [s]
    ensures IndexOf(s, d, 0).Some? ==> Split(s, d)[0] == s[..IndexOf(s, d, 0).value]
  {
  }

  /**
   * The number of non-overlapping occurrences of `d`, found by scanning from
   * the left and skipping over each occurrence found.
   */
  function CountOccurrences(s: string, d: string): nat
    requires |d| > 0
    decreases |s|
  {
    if |s| < |d| then 0
    else if s[..|d|] == d then 1 + CountOccurrences(s[|d|..], d)
    else CountOccurrences(s[1..], d)
  }

  lemma {:induction false} CountSkipsPrefix(s: string, d: string, i: nat)
    requires |d| > 0 && i <= |s|
    requires forall k :: 0 <= k < i ==> !OccursAt(s, d, k)
    ensures CountOccurrences(s, d) == CountOccurrences(s[i..], d)
    decreases i
  {
    if i > 0 && |s| >= |d| {
      assert !OccursAt(s, d, 0);
      assert s[..|d|] == s[0..|d|];
      forall k | 0 <= k < i - 1 ensures !OccursAt(s[1..], d, k) {
        if OccursAt(s[1..], d, k) {
          assert s[1..|s|] == s[1..];
          OccursInInfix(s, 1, |s|, d, k);
        }
      }
      CountSkipsPrefix(s[1..], d, i - 1);
      assert s[1..][i - 1..] == s[i..];
    }
  }

  /** A split has one piece more than the text has non-overlapping separators. */
  lemma {:induction false} SplitCount(s: string, d: string)
    requires |d| > 0
    ensures |Split(s, d)| == CountOccurrences(s, d) + 1
    decreases |s|
  {
    match IndexOf(s, d, 0)
    case None =>
      CountSkipsPrefix(s, d, |s|);
      assert s[|s|..] == [];
    case Some(i) =>
      CountSkipsPrefix(s, d, i);
      var t := s[i..];
      assert t[..|d|] == s[i..i + |d|];
      assert t[|d|..] == s[i + |d|..];
      SplitCount(s[i + |d|..], d);
  }

  /** The number of white-space characters at the start of `s`. */
  function LeadingSpaces(s: string): (n: nat)
    ensures n <= |s| && AllSpace(s[..n])
    ensures n < |s| ==> !IsSpace(s[n])
  {
    if |s| > 0 && IsSpace(s[0]) then
      var m := LeadingSpaces(s[1..]);
      assert s[..m + 1] == [s[0]] + s[1..][..m];
      m + 1
    else 0
  }

  /** The white-space count is the length of any white-space prefix not followed by white space. */
  lemma LeadingSpacesUnique(s: string, n: nat)
    requires n <= |s| && AllSpace(s[..n]) && (n < |s| ==> !IsSpace(s[n]))
    ensures LeadingSpaces(s) == n
  {
    var m := LeadingSpaces(s);
    forall k | 0 <= k < n
      ensures IsSpace(s[k])
    {
      assert s[..n][k] == s[k];
    }
    forall k | 0 <= k < m
      ensures IsSpace(s[k])
    {
      assert s[..m][k] == s[k];
    }
  }

  /** The number of white-space characters at the end of `s`. */
  function TrailingSpaces(s: string): (n: nat)
    ensures n <= |s| && AllSpace(s[|s| - n..])
    ensures n < |s| ==> !IsSpace(s[|s| - n - 1])
  {
    if |s| > 0 && IsSpace(s[|s| - 1]) then
      var init := s[..|s| - 1];
      var m := TrailingSpaces(init);
      var tail := s[|s| - (m + 1)..];
      assert AllSpace(tail) by {
        forall k | 0 <= k < |tail|
          ensures IsSpace(tail[k])
        {
          if k < m {
            assert tail[k] == init[|init| - m..][k];
          }
        }
      }
      assert m + 1 < |s| ==> s[|s| - (m + 1) - 1] == init[|init| - m - 1];
      m + 1
    else 0
  }

  /** `s.trimStart()`, and the `\s*` that follows a regular-expression token. */
  function TrimStart(s: string): (r: string)
    ensures |r| <= |s| && r == s[|s| - |r|..] && AllSpace(s[..|s| - |r|])
    ensures r != [] ==> !IsSpace(r[0])
  {
    s[LeadingSpaces(s)..]
  }

  /** A text whose white-space prefix and white-space suffix overlap is all white space. */
  lemma AllSpaceCovered(s: string, n: nat, e: nat)
    requires e <= n <= |s|
    requires AllSpace(s[..n]) && AllSpace(s[e..])
    ensures AllSpace(s)
  {
    forall k | 0 <= k < |s|
      ensures IsSpace(s[k])
    {
      if k < n {
        assert s[k] == s[..n][k];
      } else {
        assert s[k] == s[e..][k - e];
      }
    }
  }

  /** `s.trim()`: the text without white space at either end. */
  function Trim(s: string): (r: string)
    ensures LeadingSpaces(s) + |r| <= |s|
    ensures r == s[LeadingSpaces(s)..LeadingSpaces(s) + |r|]
    ensures AllSpace(s[..LeadingSpaces(s)]) && AllSpace(s[LeadingSpaces(s) + |r|..])
    ensures r != [] ==> !IsSpace(r[0]) && !IsSpace(r[|r| - 1])
    ensures r == [] <==> AllSpace(s)
  {
    var n := LeadingSpaces(s);
    var e := |s| - TrailingSpaces(s);
    if n < e then
      s[n..e]
    else
      AllSpaceCovered(s, n, e);
      assert s[n..] == s[e..][n - e..];
      []
  }

  /** A piece of a text that lacks `d` lacks it too; in particular its trimmed form. */
  lemma TrimKeepsAbsence(s: string, d: string)
    ensures Contains(Trim(s), d) ==> Contains(s, d)
  {
    var r := Trim(s);
    if Contains(r, d) {
      InfixContains(s, LeadingSpaces(s), LeadingSpaces(s) + |r|, d);
    }
  }

  /** Python's `str.lower()` on ASCII letters. */
  function LowerChar(c: char): (l: char)
    ensures ('A' <= c <= 'Z') ==> l as int == c as int + 32
    ensures !('A' <= c <= 'Z') ==> l == c
  {
    if 'A' <= c <= 'Z' then (c as int + 32) as char else c
  }

  function Lower(s: string): (r: string)
    ensures |r| == |s|
    ensures forall k :: 0 <= k < |s| ==> r[k] == LowerChar(s[k])
  {
    if s == [] then [] else [LowerChar(s[0])] + Lower(s[1..])
  }

  /** The text after the last `c` in `s`, or all of `s` when it has no `c`. */
  function AfterLast(s: string, c: char): (r: string)
    ensures c !in r
    ensures |r| <= |s| && r == s[|s| - |r|..]
    ensures |r| < |s| ==> s[|s| - |r| - 1] == c
  {
    if s == [] then []
    else if s[|s| - 1] == c then []
    else
      var r := AfterLast(s[..|s| - 1], c);
      assert s[|s| - |r| - 1..] == s[..|s| - 1][|s| - 1 - |r|..] + [s[|s| - 1]];
      r + [s[|s| - 1]]
  }

  /** The three properties in the contract of `AfterLast` determine its result. */
  lemma {:induction false} AfterLastUnique(s: string, c: char, r: string)
    requires |r| <= |s| && r == s[|s| - |r|..] && c !in r
    requires |r| < |s| ==> s[|s| - |r| - 1] == c
    ensures r == AfterLast(s, c)
  {
  }

  /** What follows the last `c` is unaffected by any text up to an earlier `c`. */
  lemma {:induction false} AfterLastSkipsSeparator(s: string, c: char, i: nat)
    requires i < |s| && s[i] == c
    ensures AfterLast(s, c) == AfterLast(s[i + 1..], c)
  {
    var t := s[i + 1..];
    var r := AfterLast(t, c);
    assert r == t[|t| - |r|..];
    assert t[|t| - |r|..] == s[|s| - |r|..];
    if |r| < |t| {
      assert t[|t| - |r| - 1] == s[|s| - |r| - 1];
    } else {
      assert |s| - |r| - 1 == i;
    }
    AfterLastUnique(s, c, r);
  }

  /** A text without `c` is its own text after the last `c`. */
  lemma {:induction false} AfterLastWithoutSeparator(s: string, c: char)
    requires !Contains(s, [c])
    ensures AfterLast(s, c) == s
  {
    assert c !in s by {
      forall k | 0 <= k < |s| ensures s[k] != c {
        assert s[k..k + 1] == [s[k]];
        assert !OccursAt(s, [c], k);
      }
    }
    AfterLastUnique(s, c, s);
  }

  /** Python's `s.split(".")[-1]` is the text after the last `"."`. */
  lemma {:induction false} LastPieceIsAfterLast(s: string, c: char)
    ensures Last(Split(s, [c])) == AfterLast(s, c)
    decreases |s|
  {
    match IndexOf(s, [c], 0)
    case None =>
      SplitSeparates(s, [c]);
      AfterLastWithoutSeparator(s, c);
    case Some(i) =>
      var rest := s[i + 1..];
      var tail := Split(rest, [c]);
      LastPieceIsAfterLast(rest, c);
      assert Split(s, [c]) == [s[..i]] + tail;
      assert s[i] == c by {
        assert OccursAt(s, [c], i);
        assert s[i..i + 1] == [s[i]];
      }
      AfterLastSkipsSeparator(s, c, i);
  }

  /** Lower-casing and taking the text after the last `"."` commute. */
  lemma LowerAfterLastDot(s: string)
    ensures Lower(AfterLast(s, '.')) == AfterLast(Lower(s), '.')
  {
    var a := AfterLast(s, '.');
    var l := Lower(s);
    var r := Lower(a);
    assert r == l[|l| - |r|..];
    AfterLastUnique(l, '.', r);
  }
}
