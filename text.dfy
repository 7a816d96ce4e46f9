/**
 * The Python `str` operations the rewriters and controllers rely on, on
 * `seq<char>`: whitespace stripping, `splitlines`, `split`, `join`,
 * `startswith`, the substring test `in`, and ASCII upper-casing.
 */
module Text {
  import opened Wrappers

  /** The characters Python's `str.isspace()` accepts; `str.strip()` removes exactly these. */
  predicate IsSpace(c: char) {
    ('\t' <= c <= '\r') || ('\U{1C}' <= c <= ' ') || c == '\U{85}' || c == '\U{A0}'
    || c == '\U{1680}' || ('\U{2000}' <= c <= '\U{200A}') || c == '\U{2028}' || c == '\U{2029}'
    || c == '\U{202F}' || c == '\U{205F}' || c == '\U{3000}'
  }

  /** The line boundaries `str.splitlines()` recognises (`\r\n` is one boundary). */
  predicate IsLineBreak(c: char) {
    ('\n' <= c <= '\r') || ('\U{1C}' <= c <= '\U{1E}') || c == '\U{85}' || c == '\U{2028}' || c == '\U{2029}'
  }

  predicate NoLineBreak(s: string) {
    forall k :: 0 <= k < |s| ==> !IsLineBreak(s[k])
  }

  /** `n` blanks, as `" " * n`. */
  function Spaces(n: nat): (r: string)
    ensures |r| == n && forall k :: 0 <= k < n ==> r[k] == ' '
  {
    if n == 0 then "" else Spaces(n - 1) + " "
  }

  /** `s.lstrip()` */
  function LStrip(s: string): (r: string)
    ensures |r| <= |s| && r == s[|s| - |r|..]
    ensures r == [] || !IsSpace(r[0])
    ensures forall k :: 0 <= k < |s| - |r| ==> IsSpace(s[k])
  {
    if s != [] && IsSpace(s[0]) then LStrip(s[1..]) else s
  }

  /** `s.rstrip()` */
  function RStrip(s: string): (r: string)
    ensures |r| <= |s| && r == s[..|r|]
    ensures r == [] || !IsSpace(r[|r| - 1])
    ensures forall k :: |r| <= k < |s| ==> IsSpace(s[k])
  {
    if s != [] && IsSpace(s[|s| - 1]) then RStrip(s[..|s| - 1]) else s
  }

  /** `s.strip()` */
  function Strip(s: string): string {
    RStrip(LStrip(s))
  }

  function UpperChar(c: char): char {
    if 'a' <= c <= 'z' then (c as int - 32) as char else c
  }

  /** `s.upper()` on ASCII letters. */
  function Upper(s: string): (r: string)
    ensures |r| == |s| && forall k :: 0 <= k < |s| ==> r[k] == UpperChar(s[k])
  {
    if s == [] then "" else [UpperChar(s[0])] + Upper(s[1..])
  }

  /** `s.startswith(p)` */
  predicate StartsWith(s: string, p: string) {
    |p| <= |s| && s[..|p|] == p
  }

  /** `s.removeprefix(p)` */
  function RemovePrefix(s: string, p: string): (r: string)
    ensures StartsWith(s, p) ==> p + r == s
    ensures !StartsWith(s, p) ==> r == s
  {
    if StartsWith(s, p) then s[|p|..] else s
  }

  predicate OccursAt(s: string, sub: string, i: int) {
    0 <= i && i + |sub| <= |s| && s[i..i + |sub|] == sub
  }

  /** Python's `sub in s`. */
  predicate Contains(s: string, sub: string) {
    exists i :: 0 <= i <= |s| - |sub| && OccursAt(s, sub, i)
  }

  /** The index of the first `c` in `s`, or `|s|` when there is none (`str.find` with a miss mapped to the end). */
  function IndexOf(s: string, c: char): (i: nat)
    ensures i <= |s|
    ensures i < |s| ==> s[i] == c
    ensures forall k :: 0 <= k < i ==> s[k] != c
  {
    if s == [] || s[0] == c then 0 else 1 + IndexOf(s[1..], c)
  }

  /** `sep.join(parts)` */
  function Join(parts: seq<string>, sep: string): string {
    if |parts| == 0 then ""
    else if |parts| == 1 then parts[0]
    else parts[0] + sep + Join(parts[1..], sep)
  }

  /** `s.split(c)` for a one-character separator. */
  function Split(s: string, c: char): (r: seq<string>)
    ensures |r| >= 1
    ensures forall k :: 0 <= k < |r| ==> c !in r[k]
    decreases |s|
  {
    var i := IndexOf(s, c);
    if i == |s| then [s] else [s[..i]] + Split(s[i + 1..], c)
  }

  /** `s.split(c, 1)`: the text before the first `c`, and the rest after it when there is a `c`. */
  function SplitOnce(s: string, c: char): (r: (string, Option<string>))
    ensures r.1.None? <==> c !in s
    ensures r.1.None? ==> r.0 == s
    ensures r.1.Some? ==> s == r.0 + [c] + r.1.value && c !in r.0
  {
    var i := IndexOf(s, c);
    if i == |s| then (s, None) else (s[..i], Some(s[i + 1..]))
  }

  /** The index of the first line boundary in `s`, or `|s|`. */
  function LineEnd(s: string): (i: nat)
    ensures i <= |s| && (i < |s| ==> IsLineBreak(s[i]))
    ensures forall k :: 0 <= k < i ==> !IsLineBreak(s[k])
  {
    if s == [] || IsLineBreak(s[0]) then 0 else 1 + LineEnd(s[1..])
  }

  /** Where the line after the first boundary starts: a `\r\n` pair counts as one boundary. */
  function NextLineStart(s: string): (n: nat)
    requires LineEnd(s) < |s|
    ensures LineEnd(s) < n <= |s|
  {
    var i := LineEnd(s);
    if s[i] == '\r' && i + 1 < |s| && s[i + 1] == '\n' then i + 2 else i + 1
  }

  /** `s.splitlines()`: no empty line after a final boundary, and `[]` for `""`. */
  function SplitLines(s: string): (r: seq<string>)
    ensures s != [] <==> |r| >= 1
    ensures forall k :: 0 <= k < |r| ==> NoLineBreak(r[k])
    decreases |s|
  {
    if s == [] then []
    else
      var i := LineEnd(s);
      if i == |s| then [s]
      else
        var next := NextLineStart(s);
        [s[..i]] + SplitLines(s[next..])
  }

  /** `"\n".join(lines).splitlines()`-style inverse: splitting a join on its separator gives the parts back. */
  lemma {:induction false} SplitJoin(parts: seq<string>, c: char)
    requires |parts| >= 1
    requires forall k :: 0 <= k < |parts| ==> c !in parts[k]
    ensures Split(Join(parts, [c]), c) == parts
  {
    if |parts| == 1 {
      IndexAbsent(parts[0], c);
    } else {
      var s := Join(parts, [c]);
      var rest := Join(parts[1..], [c]);
      assert s == parts[0] + [c] + rest;
      IndexAfter(parts[0], c, rest);
      assert s[..|parts[0]|] == parts[0];
      assert s[|parts[0]| + 1..] == rest;
      SplitJoin(parts[1..], c);
    }
  }

  lemma {:induction false} IndexAbsent(s: string, c: char)
    requires c !in s
    ensures IndexOf(s, c) == |s|
  {
    if s != [] {
      assert c !in s[1..] by {
        forall k | 0 <= k < |s| - 1 ensures s[1..][k] != c { assert s[1..][k] == s[k + 1]; }
      }
      IndexAbsent(s[1..], c);
    }
  }

  lemma {:induction false} IndexAfter(a: string, c: char, b: string)
    requires c !in a
    ensures IndexOf(a + [c] + b, c) == |a|
  {
    var s := a + [c] + b;
    if a != [] {
      assert s[1..] == a[1..] + [c] + b;
      assert c !in a[1..] by {
        forall k | 0 <= k < |a| - 1 ensures a[1..][k] != c { assert a[1..][k] == a[k + 1]; }
      }
      IndexAfter(a[1..], c, b);
    }
  }

  lemma {:induction false} JoinAppend(parts: seq<string>, p: string, sep: string)
    requires |parts| >= 1
    ensures Join(parts + [p], sep) == Join(parts, sep) + sep + p
  {
    if |parts| == 1 {
      assert (parts + [p])[1..] == [p];
    } else {
      assert (parts + [p])[1..] == parts[1..] + [p];
      JoinAppend(parts[1..], p, sep);
    }
  }

  /** A substring of a slice is a substring of the whole. */
  lemma ContainsSlice(s: string, i: nat, j: nat, sub: string)
    requires i <= j <= |s|
    requires Contains(s[i..j], sub)
    ensures Contains(s, sub)
  {
    var k :| 0 <= k <= |s[i..j]| - |sub| && OccursAt(s[i..j], sub, k);
    forall t | 0 <= t < |sub| ensures s[i + k + t] == sub[t] {
      assert s[i..j][k..k + |sub|][t] == s[i + k + t];
    }
    assert s[i + k..i + k + |sub|] == sub;
    assert OccursAt(s, sub, i + k);
  }

  /** A single separator character that does not occur in `sub` cannot create an occurrence of `sub`. */
  lemma NotContainsAcrossSeparator(a: string, m: char, b: string, sub: string)
    requires !Contains(a, sub) && !Contains(b, sub) && m !in sub
    ensures !Contains(a + [m] + b, sub)
  {
    var s := a + [m] + b;
    forall i | 0 <= i <= |s| - |sub| ensures !OccursAt(s, sub, i) {
      if i + |sub| <= |a| {
        assert s[i..i + |sub|] == a[i..i + |sub|];
        assert !OccursAt(a, sub, i);
      } else if i > |a| {
        assert s[i..i + |sub|] == b[i - |a| - 1..i - |a| - 1 + |sub|];
        assert !OccursAt(b, sub, i - |a| - 1);
      } else {
        assert s[i..i + |sub|][|a| - i] == m != sub[|a| - i];
      }
    }
  }

  /** Joining lines of which none contains `sub` on a newline that `sub` lacks gives text without `sub`. */
  lemma {:induction false} NotContainsJoin(parts: seq<string>, sub: string)
    requires forall k :: 0 <= k < |parts| ==> !Contains(parts[k], sub)
    requires '\n' !in sub && sub != ""
    ensures !Contains(Join(parts, "\n"), sub)
  {
    if |parts| == 0 {
      assert !OccursAt("", sub, 0);
    } else if |parts| > 1 {
      NotContainsJoin(parts[1..], sub);
      NotContainsAcrossSeparator(parts[0], '\n', Join(parts[1..], "\n"), sub);
    }
  }

  /** Leading blanks cannot create an occurrence of a text that does not start with a blank. */
  lemma NotContainsIndented(n: nat, line: string, sub: string)
    requires !Contains(line, sub) && sub != "" && sub[0] != ' '
    ensures !Contains(Spaces(n) + line, sub)
  {
    var s := Spaces(n) + line;
    forall i | 0 <= i <= |s| - |sub| ensures !OccursAt(s, sub, i) {
      if i < n {
        assert s[i..i + |sub|][0] == ' ' != sub[0];
      } else {
        assert s[i..i + |sub|] == line[i - n..i - n + |sub|];
        assert !OccursAt(line, sub, i - n);
      }
    }
  }

  lemma SplitLinesWhole(s: string)
    requires s != [] && LineEnd(s) == |s|
    ensures SplitLines(s) == [s]
  {
  }

  lemma SplitLinesFirst(s: string)
    requires LineEnd(s) < |s|
    ensures |SplitLines(s)| >= 1 && SplitLines(s)[0] == s[..LineEnd(s)]
  {
  }

  lemma SplitLinesRest(s: string, k: nat)
    requires LineEnd(s) < |s|
    requires 0 < k < |SplitLines(s)|
    ensures k - 1 < |SplitLines(s[NextLineStart(s)..])|
    ensures SplitLines(s)[k] == SplitLines(s[NextLineStart(s)..])[k - 1]
  {
  }

  lemma ContainsTake(s: string, i: nat, sub: string)
    requires i <= |s| && Contains(s[..i], sub)
    ensures Contains(s, sub)
  {
    assert s[..i] == s[0..i];
    ContainsSlice(s, 0, i, sub);
  }

  lemma ContainsDrop(s: string, n: nat, sub: string)
    requires n <= |s| && Contains(s[n..], sub)
    ensures Contains(s, sub)
  {
    assert s[n..] == s[n..|s|];
    ContainsSlice(s, n, |s|, sub);
  }

  /** Every line `splitlines` returns is a piece of its input, so it contains only what the input contains. */
  lemma {:induction false} SplitLinesContains(s: string, k: nat, sub: string)
    requires k < |SplitLines(s)|
    requires Contains(SplitLines(s)[k], sub)
    ensures Contains(s, sub)
    decreases |s|
  {
    if LineEnd(s) == |s| {
      SplitLinesWhole(s);
    } else if k == 0 {
      SplitLinesFirst(s);
      ContainsTake(s, LineEnd(s), sub);
    } else {
      var next := NextLineStart(s);
      SplitLinesRest(s, k);
      SplitLinesContains(s[next..], k - 1, sub);
      ContainsDrop(s, next, sub);
    }
  }

  lemma ContainsPrefix(a: string, b: string, sub: string)
    requires Contains(a, sub)
    ensures Contains(a + b, sub)
  {
    var i :| 0 <= i <= |a| - |sub| && OccursAt(a, sub, i);
    assert (a + b)[i..i + |sub|] == a[i..i + |sub|];
    assert OccursAt(a + b, sub, i);
  }

  lemma ContainsSuffix(a: string, b: string, sub: string)
    requires Contains(b, sub)
    ensures Contains(a + b, sub)
  {
    var i :| 0 <= i <= |b| - |sub| && OccursAt(b, sub, i);
    assert (a + b)[|a| + i..|a| + i + |sub|] == b[i..i + |sub|];
    assert OccursAt(a + b, sub, |a| + i);
  }

  lemma ContainsSelf(s: string)
    ensures Contains(s, s)
  {
    assert OccursAt(s, s, 0);
  }

  /** Stripping trailing blanks keeps every occurrence of a text that ends in a non-blank. */
  lemma RStripKeeps(s: string, sub: string)
    requires Contains(s, sub) && sub != [] && !IsSpace(sub[|sub| - 1])
    ensures Contains(RStrip(s), sub)
  {
    var r := RStrip(s);
    var i :| 0 <= i <= |s| - |sub| && OccursAt(s, sub, i);
    var last := i + |sub| - 1;
    assert s[last] == sub[|sub| - 1];
    assert last < |r|;
    assert r[i..i + |sub|] == s[i..i + |sub|];
    assert OccursAt(r, sub, i);
  }

  /** Python's `strip` is idempotent. */
  lemma StripIdempotent(s: string)
    ensures Strip(Strip(s)) == Strip(s)
  {
    var t := Strip(s);
    var l := LStrip(s);
    assert t == RStrip(l);
    if t != [] {
      assert t[0] == l[0];
      assert LStrip(t) == t;
    }
  }
}
