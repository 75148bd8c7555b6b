/**
 * The numeric token grammar shared by both readers,
 * `[+-]?(?:\d*\.\d+|\d+)(?:[Ee][+-]?\d+)?`, and `findall` over it.
 *
 * The grammar is run as a finite automaton, one character at a time, and a
 * match ends at the last position where the automaton accepted. For this
 * grammar that longest match is the one Python's backtracking engine returns:
 * the optional sign and the optional exponent are taken whenever the rest can
 * still complete, and the mantissa's first branch `\d*\.\d+` is tried first
 * and is the longer of the two whenever both apply.
 */
module Tokens {
  import opened Strings

  predicate IsSign(c: char) { c == '+' || c == '-' }

  predicate IsExpMark(c: char) { c == 'e' || c == 'E' }

  /** A character that can neither start nor continue a number. */
  predicate Inert(c: char) { !IsDigit(c) && !IsSign(c) && c != '.' && !IsExpMark(c) }

  predicate AllInert(s: string) { forall k :: 0 <= k < |s| ==> Inert(s[k]) }

  /** How far into a number the automaton has read. */
  datatype Phase =
    | Start      // nothing yet
    | Signed     // the sign
    | Whole      // digits, `\d+`
    | Point      // a dot that still needs a digit
    | Fraction   // digits after the dot, `\d*\.\d+`
    | Mark       // the exponent mark
    | MarkSigned // the exponent's sign
    | Power      // exponent digits
    | Dead       // no number continues here

  function Next(ph: Phase, c: char): Phase
  {
    match ph
    case Start => if IsSign(c) then Signed else if IsDigit(c) then Whole else if c == '.' then Point else Dead
    case Signed => if IsDigit(c) then Whole else if c == '.' then Point else Dead
    case Whole => if IsDigit(c) then Whole else if c == '.' then Point else if IsExpMark(c) then Mark else Dead
    case Point => if IsDigit(c) then Fraction else Dead
    case Fraction => if IsDigit(c) then Fraction else if IsExpMark(c) then Mark else Dead
    case Mark => if IsSign(c) then MarkSigned else if IsDigit(c) then Power else Dead
    case MarkSigned => if IsDigit(c) then Power else Dead
    case Power => if IsDigit(c) then Power else Dead
    case Dead => Dead
  }

  /** The phases in which what has been read is a whole number. */
  predicate Accepting(ph: Phase) { ph == Whole || ph == Fraction || ph == Power }

  lemma InertStops(ph: Phase, c: char)
    requires Inert(c)
    ensures Next(ph, c) == Dead
  {
  }

  /**
   * Reading on from `k` in phase `ph`, where the last accepted end so far is
   * `last`: the end of the longest number.
   */
  function Scan(s: string, k: nat, ph: Phase, last: nat): (j: nat)
    requires last <= k <= |s|
    ensures last <= j <= |s|
    ensures j == last || k < j
    decreases |s| - k
  {
    if k < |s| && Next(ph, s[k]) != Dead then
      var q := Next(ph, s[k]);
      Scan(s, k + 1, q, if Accepting(q) then k + 1 else last)
    else last
  }

  /** End of the number matched at `i`; `i` itself when none matches there. */
  function NumEnd(s: string, i: nat): (j: nat)
    requires i <= |s|
    ensures i <= j <= |s|
  {
    Scan(s, i, Start, i)
  }

  /** `t` is exactly one match of the number grammar. */
  predicate IsNumToken(t: string) { t != [] && NumEnd(t, 0) == |t| }

  /** `_NUM_RE.findall(s)`: the non-overlapping matches, leftmost first. */
  function NumTokens(s: string): seq<string>
    decreases |s|
  {
    if s == [] then []
    else
      var j := NumEnd(s, 0);
      if j > 0 then [s[..j]] + NumTokens(s[j..]) else NumTokens(s[1..])
  }

  // ------------------------------------ the scan does not look past an inert character

  lemma {:induction false} ScanStop(x: string, c: char, y: string, k: nat, ph: Phase, last: nat)
    requires Inert(c) && last <= k <= |x|
    ensures Scan(x + [c] + y, k, ph, last) == Scan(x, k, ph, last)
    decreases |x| - k
  {
    var s := x + [c] + y;
    if k < |x| {
      assert s[k] == x[k];
      var q := Next(ph, x[k]);
      if q != Dead {
        ScanStop(x, c, y, k + 1, q, if Accepting(q) then k + 1 else last);
      }
    } else {
      assert s[k] == c;
      InertStops(ph, c);
    }
  }

  lemma NumEndStop(x: string, c: char, y: string, i: nat)
    requires Inert(c) && i <= |x|
    ensures NumEnd(x + [c] + y, i) == NumEnd(x, i)
  {
    ScanStop(x, c, y, i, Start, i);
  }

  // ------------------------------------ the scan does not look past the match

  lemma {:induction false} ScanPrefix(s: string, n: nat, k: nat, ph: Phase, last: nat)
    requires last <= k <= n <= |s| && Scan(s, k, ph, last) <= n
    ensures Scan(s[..n], k, ph, last) == Scan(s, k, ph, last)
    decreases n - k
  {
    if k < n {
      assert s[..n][k] == s[k];
      var q := Next(ph, s[k]);
      if q != Dead {
        ScanPrefix(s, n, k + 1, q, if Accepting(q) then k + 1 else last);
      }
    }
  }

  lemma NumEndPrefix(s: string, k: nat, i: nat)
    requires i <= k <= |s| && NumEnd(s, i) <= k
    ensures NumEnd(s[..k], i) == NumEnd(s, i)
  {
    ScanPrefix(s, k, i, Start, i);
  }

  // ------------------------------------------------ findall on concatenations

  /** Every token `findall` returns is, on its own, exactly one number. */
  lemma {:induction false} TokensAreNumbers(s: string)
    ensures forall t :: t in NumTokens(s) ==> IsNumToken(t)
    decreases |s|
  {
    if s != [] {
      var j := NumEnd(s, 0);
      if j > 0 {
        NumEndPrefix(s, j, 0);
        TokensAreNumbers(s[j..]);
      } else {
        TokensAreNumbers(s[1..]);
      }
    }
  }

  lemma SplitHead(x: string, c: char, y: string, j: nat)
    requires j <= |x|
    ensures (x + [c] + y)[..j] == x[..j] && (x + [c] + y)[j..] == x[j..] + [c] + y
  {
  }

  /** An inert character separates the tokens on its two sides. */
  lemma {:induction false} NumTokensSplit(x: string, c: char, y: string)
    requires Inert(c)
    ensures NumTokens(x + [c] + y) == NumTokens(x) + NumTokens(y)
    decreases |x|
  {
    var s := x + [c] + y;
    NumEndStop(x, c, y, 0);
    if x == [] {
      assert NumEnd(s, 0) == 0;
      assert s[1..] == y;
    } else {
      var j := NumEnd(x, 0);
      if j > 0 {
        SplitHead(x, c, y, j);
        NumTokensSplit(x[j..], c, y);
      } else {
        SplitHead(x, c, y, 1);
        NumTokensSplit(x[1..], c, y);
      }
    }
  }

  /** Inert characters yield no token. */
  lemma {:induction false} NumTokensInertPrefix(p: string, y: string)
    requires AllInert(p)
    ensures NumTokens(p + y) == NumTokens(y)
    decreases |p|
  {
    if p != [] {
      assert p + y == [] + [p[0]] + (p[1..] + y);
      NumTokensSplit([], p[0], p[1..] + y);
      NumTokensInertPrefix(p[1..], y);
    } else {
      assert p + y == y;
    }
  }

  lemma TokenReadsAsItself(t: string)
    requires IsNumToken(t)
    ensures NumTokens(t) == [t]
  {
    assert t[..|t|] == t;
    assert t[|t|..] == [];
  }

  /** Tokens joined by a non-empty inert separator are read back one by one. */
  lemma {:induction false} NumTokensOfJoin(sep: string, toks: seq<string>)
    requires sep != [] && AllInert(sep)
    requires forall i :: 0 <= i < |toks| ==> IsNumToken(toks[i])
    ensures NumTokens(Join(sep, toks)) == toks
    decreases |toks|
  {
    if toks == [] {
    } else if |toks| == 1 {
      TokenReadsAsItself(toks[0]);
    } else {
      var rest := Join(sep, toks[1..]);
      assert toks[0] + sep + rest == toks[0] + [sep[0]] + (sep[1..] + rest);
      NumTokensSplit(toks[0], sep[0], sep[1..] + rest);
      NumTokensInertPrefix(sep[1..], rest);
      TokenReadsAsItself(toks[0]);
      NumTokensOfJoin(sep, toks[1..]);
      assert toks == [toks[0]] + toks[1..];
    }
  }

  /** `findall` over each part in turn. */
  function FlatTokens(parts: seq<string>): seq<string>
  {
    if parts == [] then [] else NumTokens(parts[0]) + FlatTokens(parts[1..])
  }

  /** Parts joined by a non-empty inert separator yield the tokens of each part, in order. */
  lemma {:induction false} NumTokensOfJoinParts(sep: string, parts: seq<string>)
    requires sep != [] && AllInert(sep)
    ensures NumTokens(Join(sep, parts)) == FlatTokens(parts)
    decreases |parts|
  {
    if |parts| == 1 {
      assert parts[1..] == [];
    } else if |parts| > 1 {
      var rest := Join(sep, parts[1..]);
      assert parts[0] + sep + rest == parts[0] + [sep[0]] + (sep[1..] + rest);
      NumTokensSplit(parts[0], sep[0], sep[1..] + rest);
      NumTokensInertPrefix(sep[1..], rest);
      NumTokensOfJoinParts(sep, parts[1..]);
    }
  }

  // ------------------------------------ what a number is made of

  /** No character of `s[i..j]` is inert. */
  predicate LiveRun(s: string, i: nat, j: nat)
    requires i <= j <= |s|
  {
    forall k :: i <= k < j ==> !Inert(s[k])
  }

  lemma {:induction false} ScanLive(s: string, k: nat, ph: Phase, last: nat)
    requires last <= k <= |s|
    ensures k <= Scan(s, k, ph, last) ==> LiveRun(s, k, Scan(s, k, ph, last))
    decreases |s| - k
  {
    if k < |s| {
      var q := Next(ph, s[k]);
      if q != Dead {
        if Inert(s[k]) {
          InertStops(ph, s[k]);
        }
        ScanLive(s, k + 1, q, if Accepting(q) then k + 1 else last);
      }
    }
  }

  /** Every character of a number is a digit, a sign, a dot or an exponent mark. */
  lemma NumEndLive(s: string, i: nat)
    requires i <= |s|
    ensures LiveRun(s, i, NumEnd(s, i))
  {
    ScanLive(s, i, Start, i);
  }

  lemma NumTokenIsLive(t: string)
    requires IsNumToken(t)
    ensures forall k :: 0 <= k < |t| ==> !Inert(t[k])
  {
    NumEndLive(t, 0);
  }
}
