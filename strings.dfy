/**
 * Character classes and the handful of Python `str` operations the
 * transcoder relies on: strip/rstrip, lower, split(None, 2), splitlines,
 * join, replace, `in`, endswith, os.path.basename and os.path.join.
 */
module Strings {

  /** Python's `str.isspace`, which is also what `\s` and `str.split()` use. */
  predicate IsSpace(c: char)
  {
    ('\t' <= c <= '\r') || ('\U{001C}' <= c <= ' ') || c == '\U{0085}' || c == '\U{00A0}'
    || c == '\U{1680}' || ('\U{2000}' <= c <= '\U{200A}') || c == '\U{2028}' || c == '\U{2029}'
    || c == '\U{202F}' || c == '\U{205F}' || c == '\U{3000}'
  }

  /** The characters at which `str.splitlines` breaks a line. */
  predicate IsLineBreak(c: char)
  {
    ('\n' <= c <= '\r') || ('\U{001C}' <= c <= '\U{001E}') || c == '\U{0085}'
    || c == '\U{2028}' || c == '\U{2029}'
  }

  lemma LineBreakIsSpace(c: char)
    ensures IsLineBreak(c) ==> IsSpace(c)
  {
  }

  /** `\d` restricted to ASCII digits. */
  predicate IsDigit(c: char) { '0' <= c <= '9' }

  predicate AllSpace(s: string) { forall k :: 0 <= k < |s| ==> IsSpace(s[k]) }

  /** Number of leading whitespace characters. */
  function SpaceRun(s: string): (n: nat)
    ensures n <= |s| && AllSpace(s[..n])
    ensures n < |s| ==> !IsSpace(s[n])
  {
    if s != [] && IsSpace(s[0]) then 1 + SpaceRun(s[1..]) else 0
  }

  /** `s.lstrip()`. */
  function LStrip(s: string): (r: string)
    ensures r == s[SpaceRun(s)..]
  {
    s[SpaceRun(s)..]
  }

  /** `s.rstrip()`: the longest prefix of `s` that does not end in whitespace. */
  function RStrip(s: string): (r: string)
    ensures r <= s && AllSpace(s[|r|..])
    ensures r == [] || !IsSpace(r[|r| - 1])
  {
    if s == [] then []
    else if IsSpace(s[|s| - 1]) then
      var r := RStrip(s[..|s| - 1]);
      assert s[|r|..] == s[..|s| - 1][|r|..] + [s[|s| - 1]];
      r
    else s
  }

  /** `s.strip()`. */
  function Strip(s: string): (r: string)
    ensures r == RStrip(LStrip(s))
    ensures r == [] || (!IsSpace(r[0]) && !IsSpace(r[|r| - 1]))
  {
    var l := LStrip(s);
    var r := RStrip(l);
    assert r != [] ==> r[0] == l[0];
    r
  }

  /** `c.lower()` on the ASCII letters. */
  function LowerChar(c: char): char
  {
    if 'A' <= c <= 'Z' then (c as int + 32) as char else c
  }

  /** `s.lower()` on the ASCII letters. */
  function Lower(s: string): (r: string)
    ensures |r| == |s|
    ensures forall k :: 0 <= k < |s| ==> r[k] == LowerChar(s[k])
  {
    seq(|s|, k requires 0 <= k < |s| => LowerChar(s[k]))
  }

  /** Number of leading non-whitespace characters. */
  function WordRun(s: string): (n: nat)
    ensures n <= |s|
    ensures forall k :: 0 <= k < n ==> !IsSpace(s[k])
    ensures n < |s| ==> IsSpace(s[n])
  {
    if s != [] && !IsSpace(s[0]) then 1 + WordRun(s[1..]) else 0
  }

  /**
   * `s.split(None, 2)`: at most two whitespace-separated fields, then the
   * remainder of the line without its leading whitespace.
   */
  function SplitFields3(s: string): (parts: seq<string>)
    ensures |parts| <= 3
  {
    var a := LStrip(s);
    if a == [] then []
    else
      var f1 := a[..WordRun(a)];
      var b := LStrip(a[WordRun(a)..]);
      if b == [] then [f1]
      else
        var f2 := b[..WordRun(b)];
        var c := LStrip(b[WordRun(b)..]);
        if c == [] then [f1, f2] else [f1, f2, c]
  }

  /** Index of the first line break, or `|s|`. */
  function LineEnd(s: string): (k: nat)
    ensures k <= |s|
    ensures forall j :: 0 <= j < k ==> !IsLineBreak(s[j])
    ensures k < |s| ==> IsLineBreak(s[k])
  {
    if s == [] || IsLineBreak(s[0]) then 0 else 1 + LineEnd(s[1..])
  }

  /** `s.splitlines()`: "\r\n" counts as one break and a final break opens no line. */
  function Lines(s: string): (ls: seq<string>)
    decreases |s|
  {
    if s == [] then []
    else
      var k := LineEnd(s);
      if k == |s| then [s]
      else
        var w := if s[k] == '\r' && k + 1 < |s| && s[k + 1] == '\n' then 2 else 1;
        [s[..k]] + Lines(s[k + w..])
  }

  /** `sep.join(xs)`. */
  function Join(sep: string, xs: seq<string>): (r: string)
  {
    if xs == [] then []
    else if |xs| == 1 then xs[0]
    else xs[0] + sep + Join(sep, xs[1..])
  }

  /** Concatenation of all items, `"".join(xs)`. */
  function Concat(xs: seq<string>): string
  {
    if xs == [] then [] else xs[0] + Concat(xs[1..])
  }

  /** `sub in s`. */
  predicate IsInfix(sub: string, s: string)
  {
    sub <= s || (s != [] && IsInfix(sub, s[1..]))
  }

  /** `s.endswith(suf)`. */
  predicate EndsWith(s: string, suf: string)
  {
    |suf| <= |s| && s[|s| - |suf|..] == suf
  }

  /** `s.replace(pat, rep)`: every non-overlapping occurrence, scanned left to right. */
  function ReplaceAll(s: string, pat: string, rep: string): (r: string)
    requires pat != []
    decreases |s|
  {
    if s == [] then []
    else if pat <= s then rep + ReplaceAll(s[|pat|..], pat, rep)
    else [s[0]] + ReplaceAll(s[1..], pat, rep)
  }

  /** Index one past the last '/' of `s` (0 when there is none). */
  function LastSlashEnd(s: string): (k: nat)
    ensures k <= |s|
    ensures k > 0 ==> s[k - 1] == '/'
    ensures forall j :: k <= j < |s| ==> s[j] != '/'
  {
    if s == [] then 0
    else if s[|s| - 1] == '/' then |s|
    else LastSlashEnd(s[..|s| - 1])
  }

  /** `os.path.basename(p)` for POSIX paths. */
  function BaseName(p: string): (r: string)
    ensures '/' !in r && EndsWith(p, r)
  {
    var k := LastSlashEnd(p);
    assert forall c :: c in p[k..] ==> c != '/';
    p[k..]
  }

  /** `os.path.join(a, b)` for POSIX paths. */
  function PathJoin(a: string, b: string): (r: string)
    ensures EndsWith(r, b)
  {
    if b != [] && b[0] == '/' then b
    else if a == [] || a[|a| - 1] == '/' then a + b
    else a + "/" + b
  }

  // ---------------------------------------------------------------- lemmas

  lemma {:induction false} JoinContainsItems(sep: string, xs: seq<string>, i: nat)
    requires i < |xs|
    ensures IsInfix(xs[i], Join(sep, xs))
    decreases |xs|
  {
    if |xs| == 1 {
      PrefixIsInfix(xs[0], xs[0]);
    } else if i == 0 {
      PrefixIsInfix(xs[0], xs[0] + sep + Join(sep, xs[1..]));
    } else {
      JoinContainsItems(sep, xs[1..], i - 1);
      InfixOfSuffix(xs[i], Join(sep, xs[1..]), xs[0] + sep);
    }
  }

  /** Concatenating the first `i + 1` items is concatenating the first `i` and then item `i`. */
  lemma {:induction false} ConcatAppend(xs: seq<string>, i: nat)
    requires i < |xs|
    ensures Concat(xs[..i + 1]) == Concat(xs[..i]) + xs[i]
    decreases i
  {
    if i > 0 {
      assert xs[..i + 1][1..] == xs[1..][..i];
      assert xs[..i][1..] == xs[1..][..i - 1];
      ConcatAppend(xs[1..], i - 1);
    } else {
      assert xs[..1][1..] == [];
    }
  }

  lemma PrefixIsInfix(sub: string, s: string)
    requires sub <= s
    ensures IsInfix(sub, s)
  {
  }

  lemma {:induction false} InfixOfSuffix(sub: string, s: string, p: string)
    requires IsInfix(sub, s)
    ensures IsInfix(sub, p + s)
    decreases |p|
  {
    if p != [] {
      InfixOfSuffix(sub, s, p[1..]);
      assert (p + s)[1..] == p[1..] + s;
    } else {
      assert p + s == s;
    }
  }

  /** Leading whitespace stops where `a` stops it, when `b` does not start with whitespace. */
  lemma {:induction false} SpaceRunAppend(a: string, b: string)
    requires b == [] || !IsSpace(b[0])
    ensures SpaceRun(a + b) == SpaceRun(a)
    decreases |a|
  {
    if a == [] {
      assert a + b == b;
    } else {
      assert (a + b)[0] == a[0] && (a + b)[1..] == a[1..] + b;
      SpaceRunAppend(a[1..], b);
    }
  }

  lemma LStripAppend(a: string, b: string)
    requires b == [] || !IsSpace(b[0])
    ensures LStrip(a + b) == LStrip(a) + b
  {
    SpaceRunAppend(a, b);
    assert (a + b)[SpaceRun(a)..] == a[SpaceRun(a)..] + b;
  }

  lemma {:induction false} ConcatAvoids(xs: seq<string>, c: char)
    requires forall i :: 0 <= i < |xs| ==> c !in xs[i]
    ensures c !in Concat(xs)
    decreases |xs|
  {
    if xs != [] {
      ConcatAvoids(xs[1..], c);
    }
  }

  lemma {:induction false} JoinAvoids(sep: string, xs: seq<string>, c: char)
    requires c !in sep
    requires forall i :: 0 <= i < |xs| ==> c !in xs[i]
    ensures c !in Join(sep, xs)
    decreases |xs|
  {
    if |xs| > 1 {
      JoinAvoids(sep, xs[1..], c);
    }
  }
}
