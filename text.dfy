/**
 * The string primitives of Python that the services rely on, with the
 * character classes fixed explicitly:
 *  - whitespace is exactly the set `str.isspace()` accepts (also what `\s`,
 *    `str.strip()` and `str.split()` use);
 *  - line boundaries are exactly those of `str.splitlines()`;
 *  - `\d` is restricted to the ASCII digits and `\w` to ASCII letters,
 *    digits and `_`; `str.lower()` folds ASCII letters only.
 */
module Text {

  /** `str.isspace()` for one character. */
  predicate IsSpace(c: char) {
    ('\t' <= c <= '\r') || ('\U{1C}' <= c <= ' ') || c == '\U{85}' || c == '\U{A0}'
    || c == '\U{1680}' || ('\U{2000}' <= c <= '\U{200A}') || c == '\U{2028}' || c == '\U{2029}'
    || c == '\U{202F}' || c == '\U{205F}' || c == '\U{3000}'
  }

  /** A line boundary of `str.splitlines()` ("\r\n" counts as one boundary). */
  predicate IsLineBreak(c: char) {
    ('\n' <= c <= '\r') || ('\U{1C}' <= c <= '\U{1E}') || c == '\U{85}' || c == '\U{2028}' || c == '\U{2029}'
  }

  predicate IsDigit(c: char) { '0' <= c <= '9' }

  predicate IsWordChar(c: char) {
    ('a' <= c <= 'z') || ('A' <= c <= 'Z') || IsDigit(c) || c == '_'
  }

  predicate NoLineBreak(s: string) {
    forall i :: 0 <= i < |s| ==> !IsLineBreak(s[i])
  }

  predicate AllBlank(s: string) {
    forall i :: 0 <= i < |s| ==> IsSpace(s[i])
  }

  /** `t` occurs in `s` starting at index `i`. */
  predicate OccursAt(s: string, t: string, i: int) {
    0 <= i <= |s| - |t| && s[i..i + |t|] == t
  }

  /** `t` occurs in `s` as a contiguous substring (Python's `t in s`). */
  predicate Contains(s: string, t: string) {
    exists i :: 0 <= i <= |s| && OccursAt(s, t, i)
  }

  /** A substring of the tail of `s` is a substring of `s`. */
  lemma ContainsInTail(s: string, r: string)
    requires s != [] && Contains(s[1..], r)
    ensures Contains(s, r)
  {
    var i :| 0 <= i <= |s[1..]| && OccursAt(s[1..], r, i);
    assert s[i + 1..i + 1 + |r|] == s[1..][i..i + |r|];
    assert OccursAt(s, r, i + 1);
  }

  /** A substring of a prefix of `s` is a substring of `s`. */
  lemma ContainsInPrefix(s: string, n: nat, r: string)
    requires n <= |s| && Contains(s[..n], r)
    ensures Contains(s, r)
  {
    var i :| 0 <= i <= |s[..n]| && OccursAt(s[..n], r, i);
    assert s[i..i + |r|] == s[..n][i..i + |r|];
    assert OccursAt(s, r, i);
  }

  /** `s.strip()`: `s` without its leading and trailing whitespace. */
  function Strip(s: string): (r: string)
    ensures |r| <= |s|
    ensures r != [] ==> !IsSpace(r[0]) && !IsSpace(r[|r| - 1])
    decreases |s|
  {
    if s != [] && IsSpace(s[0]) then Strip(s[1..])
    else if s != [] && IsSpace(s[|s| - 1]) then Strip(s[..|s| - 1])
    else s
  }

  /** What `strip` leaves is a contiguous part of the original string. */
  lemma {:induction false} StripIsSubstring(s: string)
    ensures Contains(s, Strip(s))
    decreases |s|
  {
    if s != [] && IsSpace(s[0]) {
      StripIsSubstring(s[1..]);
      ContainsInTail(s, Strip(s[1..]));
    } else if s != [] && IsSpace(s[|s| - 1]) {
      StripIsSubstring(s[..|s| - 1]);
      ContainsInPrefix(s, |s| - 1, Strip(s[..|s| - 1]));
    } else {
      assert OccursAt(s, s, 0);
    }
  }

  /** Stripping leaves nothing exactly when the string is all whitespace. */
  lemma {:induction false} StripEmpty(s: string)
    ensures Strip(s) == [] <==> AllBlank(s)
    decreases |s|
  {
    if s != [] && IsSpace(s[0]) {
      StripEmpty(s[1..]);
      assert AllBlank(s) <==> AllBlank(s[1..]) by {
        if AllBlank(s[1..]) {
          forall i | 0 <= i < |s| ensures IsSpace(s[i]) {
            if i > 0 { assert s[i] == s[1..][i - 1]; }
          }
        }
      }
    } else if s != [] && IsSpace(s[|s| - 1]) {
      // Here `s[0]` is no space, so neither `s` nor its part before the last character is blank.
      StripEmpty(s[..|s| - 1]);
      assert s[..|s| - 1][0] == s[0];
    }
  }

  /**
   * `strip` removes a blank prefix and a blank suffix and nothing else; with
   * the non-space ends `Strip` ensures, this determines the result.
   */
  lemma {:induction false} StripBounds(s: string)
    ensures exists i, j :: 0 <= i <= j <= |s| && Strip(s) == s[i..j] && AllBlank(s[..i]) && AllBlank(s[j..])
    decreases |s|
  {
    if s != [] && IsSpace(s[0]) {
      StripBounds(s[1..]);
      var i, j :| 0 <= i <= j <= |s| - 1 && Strip(s[1..]) == s[1..][i..j] && AllBlank(s[1..][..i]) && AllBlank(s[1..][j..]);
      BlankBefore(s, i, j);
    } else if s != [] && IsSpace(s[|s| - 1]) {
      var n := |s| - 1;
      StripBounds(s[..n]);
      var i, j :| 0 <= i <= j <= n && Strip(s[..n]) == s[..n][i..j] && AllBlank(s[..n][..i]) && AllBlank(s[..n][j..]);
      BlankAfter(s, i, j);
    } else {
      assert s[0..|s|] == s;
    }
  }

  /** A blank first character joins the blank prefix. */
  lemma BlankBefore(s: string, i: nat, j: nat)
    requires s != [] && IsSpace(s[0]) && i <= j <= |s| - 1
    requires AllBlank(s[1..][..i]) && AllBlank(s[1..][j..])
    ensures s[1..][i..j] == s[i + 1..j + 1] && AllBlank(s[..i + 1]) && AllBlank(s[j + 1..])
  {
    assert s[1..][j..] == s[j + 1..];
    var pre := s[..i + 1];
    forall k | 0 <= k < |pre| ensures IsSpace(pre[k]) {
      if k > 0 {
        assert pre[k] == s[1..][..i][k - 1];
      }
    }
  }

  /** A blank last character joins the blank suffix. */
  lemma BlankAfter(s: string, i: nat, j: nat)
    requires s != [] && IsSpace(s[|s| - 1]) && i <= j <= |s| - 1
    requires AllBlank(s[..|s| - 1][..i]) && AllBlank(s[..|s| - 1][j..])
    ensures s[..|s| - 1][i..j] == s[i..j] && AllBlank(s[..i]) && AllBlank(s[j..])
  {
    var n := |s| - 1;
    assert s[..n][..i] == s[..i];
    forall k | 0 <= k < |s| - j ensures IsSpace(s[j..][k]) {
      if j + k < n {
        assert s[j..][k] == s[..n][j..][k];
      }
    }
  }

  /** Index of the first line boundary at or after `i`, or `|s|` when there is none. */
  function LineEnd(s: string, i: nat): (k: nat)
    requires i <= |s|
    ensures i <= k <= |s|
    ensures k < |s| ==> IsLineBreak(s[k])
    ensures forall j :: i <= j < k ==> !IsLineBreak(s[j])
    decreases |s| - i
  {
    if i == |s| || IsLineBreak(s[i]) then i else LineEnd(s, i + 1)
  }

  /** `s.splitlines()`: the lines of `s`, boundaries removed, no trailing empty line. */
  function SplitLines(s: string): (r: seq<string>)
    ensures r == [] <==> s == []
    ensures forall k :: 0 <= k < |r| ==> NoLineBreak(r[k])
    decreases |s|
  {
    if s == [] then []
    else
      var k := LineEnd(s, 0);
      if k == |s| then [s]
      else
        var next := if s[k] == '\r' && k + 1 < |s| && s[k + 1] == '\n' then k + 2 else k + 1;
        [s[..k]] + SplitLines(s[next..])
  }

  /** The first line boundary of `x + sep + rest` is where `sep` starts, when `x` holds none. */
  lemma LineEndAfter(x: string, sep: string, rest: string)
    requires NoLineBreak(x) && sep != [] && IsLineBreak(sep[0])
    ensures LineEnd(x + sep + rest, 0) == |x|
  {
    var s := x + sep + rest;
    var k := LineEnd(s, 0);
    assert s[|x|] == sep[0];
  }

  /**
   * `splitlines` cuts off a first line that ends at a boundary: "\r\n" or a
   * single boundary character (a "\r" only when no "\n" follows).
   */
  lemma SplitLinesCons(x: string, sep: string, rest: string)
    requires NoLineBreak(x)
    requires sep == "\r\n" || (|sep| == 1 && IsLineBreak(sep[0]) && !(sep[0] == '\r' && rest != [] && rest[0] == '\n'))
    ensures SplitLines(x + sep + rest) == [x] + SplitLines(rest)
  {
    var s := x + sep + rest;
    LineEndAfter(x, sep, rest);
    assert s[..|x|] == x;
    assert s[|x| + |sep|..] == rest;
    if |sep| == 1 && |x| + 1 < |s| {
      assert s[|x| + 1] == rest[0];
    }
  }

  /** A non-empty string without line boundaries is one line, with or without a final boundary. */
  lemma SplitLinesLast(x: string)
    requires x != [] && NoLineBreak(x)
    ensures SplitLines(x) == [x]
    ensures SplitLines(x + "\n") == [x]
  {
    assert x + [] + [] == x;
    LineEndAfter(x, "\n", "");
    assert (x + "\n")[..|x|] == x;
    assert (x + "\n")[|x| + 1..] == "";
  }

  /** `sep.join(parts)`. */
  function Join(parts: seq<string>, sep: string): string
    decreases |parts|
  {
    if parts == [] then ""
    else if |parts| == 1 then parts[0]
    else parts[0] + sep + Join(parts[1..], sep)
  }

  lemma {:induction false} JoinAppend(parts: seq<string>, x: string, sep: string)
    requires parts != []
    ensures Join(parts + [x], sep) == Join(parts, sep) + sep + x
    decreases |parts|
  {
    if |parts| == 1 {
      assert parts + [x] == [parts[0], x];
    } else {
      assert (parts + [x])[1..] == parts[1..] + [x];
      JoinAppend(parts[1..], x, sep);
    }
  }

  /** Concatenation is associative. */
  lemma ConcatAssoc<T>(x: seq<T>, y: seq<T>, z: seq<T>)
    ensures (x + y) + z == x + (y + z)
  {
  }

  /** Appending three elements one by one appends the three of them. */
  lemma AppendThree<T>(x: seq<T>, a: T, b: T, c: T)
    ensures x + [a] + [b] + [c] == x + [a, b, c]
  {
  }

  /** The middle part of a concatenation is the slice at its offset. */
  lemma SliceMiddle<T>(s: seq<T>, x: seq<T>, y: seq<T>, z: seq<T>)
    requires s == x + y + z
    ensures |x| + |y| <= |s| && s[|x|..|x| + |y|] == y
  {
  }

  /** Indexing into the middle part of a concatenation. */
  lemma IndexMiddle<T>(s: seq<T>, x: seq<T>, y: seq<T>, z: seq<T>, k: nat)
    requires s == x + y + z && k < |y|
    ensures |x| + k < |s| && s[|x| + k] == y[k]
  {
  }

  /** A sequence is its part before `i`, its element `i` and its part after. */
  lemma SplitAround<T>(s: seq<T>, i: nat)
    requires i < |s|
    ensures s == s[..i] + [s[i]] + s[i + 1..]
  {
  }

  /** The element appended last is at the old length. */
  lemma IndexLast<T>(x: seq<T>, y: T)
    ensures (x + [y])[|x|] == y
  {
  }

  /** Splitting `s` at every occurrence of `c` (Python's `s.split(c)`). */
  function SplitOn(s: string, c: char): (r: seq<string>)
    ensures r != []
    decreases |s|
  {
    if s == [] then [""]
    else
      var rest := SplitOn(s[1..], c);
      if s[0] == c then [""] + rest else [[s[0]] + rest[0]] + rest[1..]
  }

  /** A string without the separator is not split. */
  lemma {:induction false} SplitOnPlain(p: string, c: char)
    requires c !in p
    ensures SplitOn(p, c) == [p]
    decreases |p|
  {
    if p != [] {
      SplitOnPlain(p[1..], c);
      assert [p[0]] + p[1..] == p;
    }
  }

  /** A field without the separator, then the separator: the field is split off. */
  lemma {:induction false} SplitOnField(p: string, c: char, rest: string)
    requires c !in p
    ensures SplitOn(p + [c] + rest, c) == [p] + SplitOn(rest, c)
    decreases |p|
  {
    var s := p + [c] + rest;
    if p == [] {
      assert s == [c] + rest;
    } else {
      assert s[1..] == p[1..] + [c] + rest;
      SplitOnField(p[1..], c, rest);
      assert [p[0]] + p[1..] == p;
    }
  }

  /** Joining with one separator character and splitting at it again gives the parts back. */
  lemma {:induction false} SplitOnJoin(parts: seq<string>, c: char)
    requires parts != []
    requires forall k :: 0 <= k < |parts| ==> c !in parts[k]
    ensures SplitOn(Join(parts, [c]), c) == parts
    decreases |parts|
  {
    if |parts| == 1 {
      SplitOnPlain(parts[0], c);
    } else {
      var tail := parts[1..];
      assert forall k :: 0 <= k < |tail| ==> tail[k] == parts[k + 1];
      SplitOnJoin(tail, c);
      SplitOnField(parts[0], c, Join(tail, [c]));
      assert [parts[0]] + tail == parts;
    }
  }

  function DigitChar(d: nat): (c: char)
    requires d < 10
    ensures IsDigit(c)
  {
    ['0', '1', '2', '3', '4', '5', '6', '7', '8', '9'][d]
  }

  function DigitValue(c: char): nat
    requires IsDigit(c)
  {
    (c as int - '0' as int) as nat
  }

  predicate AllDigits(s: string) {
    forall i :: 0 <= i < |s| ==> IsDigit(s[i])
  }

  /** `int(s)` for a string of ASCII decimal digits. */
  function DigitsValue(s: string): nat
    requires AllDigits(s)
    decreases |s|
  {
    if s == [] then 0 else DigitsValue(s[..|s| - 1]) * 10 + DigitValue(s[|s| - 1])
  }

  /** `str(n)` for a natural number: its canonical decimal digits. */
  function NatToString(n: nat): (r: string)
    ensures r != [] && AllDigits(r)
    ensures DigitsValue(r) == n
    ensures r[0] == '0' ==> r == "0"
    decreases n
  {
    if n < 10 then [DigitChar(n)]
    else
      var r := NatToString(n / 10) + [DigitChar(n % 10)];
      assert r[..|r| - 1] == NatToString(n / 10);
      r
  }

  /** `str(i)` for an integer. */
  function IntToString(i: int): (r: string)
    ensures r != []
    ensures '\n' !in r
  {
    if i < 0 then "-" + NatToString(-i) else NatToString(i)
  }

  /** `s.lower()` restricted to ASCII letters. */
  function Lower(s: string): (r: string)
    ensures |r| == |s|
    ensures forall i :: 0 <= i < |s| ==> !('A' <= r[i] <= 'Z')
    ensures forall i :: 0 <= i < |s| ==> (IsWordChar(r[i]) <==> IsWordChar(s[i]))
  {
    seq(|s|, i requires 0 <= i < |s| => if 'A' <= s[i] <= 'Z' then (s[i] as int + 32) as char else s[i])
  }

  /** Index of the first character at or after `i` that is outside the run class `inRun`. */
  function RunEnd(s: string, i: nat, inRun: char -> bool): (k: nat)
    requires i <= |s|
    ensures i <= k <= |s|
    ensures k < |s| ==> !inRun(s[k])
    ensures forall j :: i <= j < k ==> inRun(s[j])
    decreases |s| - i
  {
    if i == |s| || !inRun(s[i]) then i else RunEnd(s, i + 1, inRun)
  }

  /**
   * The maximal runs of characters in `inRun`, left to right: `re.findall(r'\w+', s)`
   * for `IsWordChar`, and `s.split()` for the complement of `IsSpace`.
   */
  function Runs(s: string, inRun: char -> bool): (r: seq<string>)
    ensures forall k :: 0 <= k < |r| ==> r[k] != [] && forall j :: 0 <= j < |r[k]| ==> inRun(r[k][j])
    ensures (forall i :: 0 <= i < |s| ==> !inRun(s[i])) ==> r == []
    decreases |s|
  {
    if s == [] then []
    else if !inRun(s[0]) then Runs(s[1..], inRun)
    else
      var k := RunEnd(s, 0, inRun);
      [s[..k]] + Runs(s[k..], inRun)
  }

  /** A character outside the class is skipped. */
  lemma RunsSkip(c: char, rest: string, inRun: char -> bool)
    requires !inRun(c)
    ensures Runs([c] + rest, inRun) == Runs(rest, inRun)
  {
    assert ([c] + rest)[1..] == rest;
  }

  /** A non-empty run that nothing in the class follows is one item. */
  lemma RunsCons(x: string, rest: string, inRun: char -> bool)
    requires x != [] && forall j :: 0 <= j < |x| ==> inRun(x[j])
    requires rest == [] || !inRun(rest[0])
    ensures Runs(x + rest, inRun) == [x] + Runs(rest, inRun)
  {
    var s := x + rest;
    assert s[..|x|] == x && s[|x|..] == rest;
  }

  /** The maximal runs of word characters, left to right. */
  function WordRuns(s: string): (r: seq<string>)
    ensures forall k :: 0 <= k < |r| ==> r[k] != [] && forall j :: 0 <= j < |r[k]| ==> IsWordChar(r[k][j])
  {
    Runs(s, IsWordChar)
  }

  predicate NotSpace(c: char) { !IsSpace(c) }

  /** `s.split()` with no separator: the maximal runs of non-whitespace. */
  function Fields(s: string): (r: seq<string>)
    ensures forall k :: 0 <= k < |r| ==> r[k] != [] && forall j :: 0 <= j < |r[k]| ==> !IsSpace(r[k][j])
    ensures AllBlank(s) ==> r == []
  {
    Runs(s, NotSpace)
  }

  /** `s[:n]`. */
  function Take<T>(s: seq<T>, n: nat): (r: seq<T>)
    ensures |r| == if n < |s| then n else |s|
    ensures r == s[..|r|]
  {
    if n < |s| then s[..n] else s
  }

  /** How often `x` occurs in `s`. */
  function Count<T(==)>(s: seq<T>, x: T): (n: nat)
    ensures n == multiset(s)[x]
    ensures n > 0 <==> x in s
    decreases |s|
  {
    if s == [] then 0
    else
      assert s == [s[0]] + s[1..];
      (if s[0] == x then 1 else 0) + Count(s[1..], x)
  }

  /** The elements of `xs`, as a set. */
  function Elements(xs: seq<nat>): set<nat> {
    set x | x in xs
  }

  /** A strictly increasing sequence has as many distinct elements as it has elements. */
  lemma {:induction false} IncreasingCard(xs: seq<nat>)
    requires forall j, k :: 0 <= j < k < |xs| ==> xs[j] < xs[k]
    ensures |Elements(xs)| == |xs|
    decreases |xs|
  {
    if xs != [] {
      var t := xs[1..];
      IncreasingCard(t);
      assert xs == [xs[0]] + t;
      assert Elements(xs) == Elements(t) + {xs[0]};
      assert xs[0] !in Elements(t) by {
        forall k | 0 <= k < |t| ensures t[k] != xs[0] {
          assert t[k] == xs[k + 1];
        }
      }
    }
  }
}
