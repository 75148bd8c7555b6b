/**
 * `BPMDataParen`: the reader of the parenthesised `.data` format and its
 * writer of the row-tagged `.sdds` format.
 *
 * The regular expressions of the reader are written out as scanners over the
 * remaining text. Each scanner returns what it matched and the text after it.
 */
module Paren {
  import opened Strings
  import opened Tokens
  import opened Order
  import opened Dataset

  // ---------------------------------------------------------------- line continuations

  /**
   * `re.sub(r'\\\s*\n\s*', '', s)`. At a backslash the regex takes the whole
   * whitespace run after it; it matches exactly when that run holds a '\n',
   * and then the backslash and the whole run are deleted.
   */
  function JoinLineContinuations(s: string): (r: string)
    ensures |r| <= |s|
    decreases |s|
  {
    if s == [] then []
    else
      var n := SpaceRun(s[1..]);
      if s[0] == '\\' && '\n' in s[1..][..n] then JoinLineContinuations(s[1..][n..])
      else [s[0]] + JoinLineContinuations(s[1..])
  }

  /** Text without a backslash is left as it is. */
  lemma {:induction false} JoinKeepsPlainText(s: string)
    requires '\\' !in s
    ensures JoinLineContinuations(s) == s
    decreases |s|
  {
    if s != [] {
      assert '\\' !in s[1..];
      JoinKeepsPlainText(s[1..]);
    }
  }

  /** A prefix without a backslash is copied and the rest joined on its own. */
  lemma {:induction false} JoinAfterPlainText(a: string, t: string)
    requires '\\' !in a
    ensures JoinLineContinuations(a + t) == a + JoinLineContinuations(t)
    decreases |a|
  {
    if a != [] {
      assert (a + t)[0] == a[0] && (a + t)[1..] == a[1..] + t;
      assert '\\' !in a[1..];
      JoinAfterPlainText(a[1..], t);
    } else {
      assert a + t == t;
    }
  }

  /**
   * A backslash, whitespace holding a line feed, and then the next
   * non-whitespace character: the three pieces are glued together, so a
   * number broken there reads as one.
   */
  lemma JoinRemovesContinuation(a: string, w: string, b: string)
    requires '\\' !in a
    requires AllSpace(w) && '\n' in w
    requires b == [] || !IsSpace(b[0])
    ensures JoinLineContinuations(a + ['\\'] + w + b) == a + JoinLineContinuations(b)
  {
    var t := ['\\'] + w + b;
    Regroup(a, ['\\'], w, b);
    JoinAfterPlainText(a, t);
    JoinOneContinuation(w, b);
  }

  lemma Regroup(a: string, x: string, w: string, b: string)
    ensures a + x + w + b == a + (x + w + b)
  {
  }

  lemma JoinOneContinuation(w: string, b: string)
    requires AllSpace(w) && '\n' in w
    requires b == [] || !IsSpace(b[0])
    ensures JoinLineContinuations(['\\'] + w + b) == JoinLineContinuations(b)
  {
    var t := ['\\'] + w + b;
    var u := t[1..];
    assert u == w + b;
    SpaceRunOfSpaces(w, b);
    var n := SpaceRun(u);
    assert n == |w|;
    assert u[..n] == w;
    assert u[n..] == b;
    assert t[0] == '\\' && '\n' in u[..n];
  }

  /** The deletion never creates a parenthesis. */
  lemma {:induction false} JoinNoNewParen(s: string)
    requires '(' !in s
    ensures '(' !in JoinLineContinuations(s)
    decreases |s|
  {
    if s != [] {
      var n := SpaceRun(s[1..]);
      assert '(' !in s[1..];
      if s[0] == '\\' && '\n' in s[1..][..n] {
        assert '(' !in s[1..][n..];
        JoinNoNewParen(s[1..][n..]);
      } else {
        JoinNoNewParen(s[1..]);
      }
    }
  }

  // ---------------------------------------------------------------- the block pattern

  /** The four groups of one `_PATTERN` match: the name and the three array bodies. */
  datatype Block = Block(name: string, xs: string, ys: string, zs: string)

  /** Length of the leading run of characters other than '"'. */
  function QuoteFree(s: string): (n: nat)
    ensures n <= |s|
    ensures forall k :: 0 <= k < n ==> s[k] != '"'
    ensures n < |s| ==> s[n] == '"'
  {
    if s != [] && s[0] != '"' then 1 + QuoteFree(s[1..]) else 0
  }

  predicate IsBrace(c: char) { c == '{' || c == '}' }

  /** Length of the leading run of characters other than braces. */
  function BraceFree(s: string): (n: nat)
    ensures n <= |s|
    ensures forall k :: 0 <= k < n ==> !IsBrace(s[k])
    ensures n < |s| ==> IsBrace(s[n])
  {
    if s != [] && !IsBrace(s[0]) then 1 + BraceFree(s[1..]) else 0
  }

  /** `\s*c`: optional whitespace and the character `c`; the text after `c`. */
  function Expect(s: string, c: char): (r: Option<string>)
    ensures r.Some? ==> |r.value| < |s|
  {
    var t := LStrip(s);
    if t != [] && t[0] == c then Some(t[1..]) else None
  }

  /**
   * `\s*([^"]+)\s*"` after the opening `("`: the name group and the text after
   * the closing quote. The greedy whitespace run gives way by one character
   * when nothing but whitespace stands before the quote.
   */
  function NameGroup(s: string): (r: Option<(string, string)>)
    ensures r.Some? ==> |r.value.1| < |s|
  {
    var a := SpaceRun(s);
    var t := s[a..];
    var n := QuoteFree(t);
    if n == |t| then None
    else if n > 0 then Some((t[..n], t[n + 1..]))
    else if a > 0 then Some(([s[a - 1]], t[1..]))
    else None
  }

  /** `\{\s*([^{}]*)\}` after optional whitespace: the body and the text after its closing brace. */
  function ArrayGroup(s: string): (r: Option<(string, string)>)
    ensures r.Some? ==> |r.value.1| < |s|
  {
    match Expect(s, '{')
    case None => None
    case Some(u) =>
      var t := LStrip(u);
      var n := BraceFree(t);
      if n < |t| && t[n] == '}' then Some((t[..n], t[n + 1..])) else None
  }

  /**
   * Everything of `_PATTERN` after the name:
   * `\s*->\s*\{` array, then the rest in `LaterArrays`.
   */
  function Arrays(s: string): (r: Option<(string, string, string, string)>)
    ensures r.Some? ==> |r.value.3| < |s|
  {
    match Expect(s, '-')
    case None => None
    case Some(s1) =>
      if s1 == [] || s1[0] != '>' then None
      else match Expect(s1[1..], '{')
      case None => None
      case Some(s2) =>
        match ArrayGroup(s2)
        case None => None
        case Some((xs, s3)) =>
          match LaterArrays(s3)
          case None => None
          case Some((ys, zs, s9)) => Some((xs, ys, zs, s9))
  }

  /** `\s*,` array, then the rest in `LastArray`: the y and z bodies and the text after the match. */
  function LaterArrays(s3: string): (r: Option<(string, string, string)>)
    ensures r.Some? ==> |r.value.2| < |s3|
  {
    match Expect(s3, ',')
    case None => None
    case Some(s4) =>
      match ArrayGroup(s4)
      case None => None
      case Some((ys, s5)) =>
        match LastArray(s5)
        case None => None
        case Some((zs, s9)) => Some((ys, zs, s9))
  }

  /** `\s*,` array `\s*\}\s*\)`: the z body and the text after the match. */
  function LastArray(s5: string): (r: Option<(string, string)>)
    ensures r.Some? ==> |r.value.1| < |s5|
  {
    match Expect(s5, ',')
    case None => None
    case Some(s6) =>
      match ArrayGroup(s6)
      case None => None
      case Some((zs, s7)) =>
        match Expect(s7, '}')
        case None => None
        case Some(s8) =>
          match Expect(s8, ')')
          case None => None
          case Some(s9) => Some((zs, s9))
  }

  /** One `_PATTERN` match at the very start of `s`, and the text after it. */
  function MatchBlock(s: string): (r: Option<(Block, string)>)
    ensures r.Some? ==> |r.value.1| < |s|
  {
    if |s| < 2 || s[0] != '(' || s[1] != '"' then None
    else match NameGroup(s[2..])
    case None => None
    case Some((name, rest)) =>
      match Arrays(rest)
      case None => None
      case Some((xs, ys, zs, after)) => Some((Block(name, xs, ys, zs), after))
  }

  /** `_PATTERN.finditer(text)`: a match, or a step of one character. */
  function Blocks(s: string): (bs: seq<Block>)
    decreases |s|
  {
    if s == [] then []
    else match MatchBlock(s)
    case Some((b, rest)) => [b] + Blocks(rest)
    case None => Blocks(s[1..])
  }

  /** Text before a block that holds no '(' is skipped. */
  lemma {:induction false} BlocksSkipPlainText(p: string, s: string)
    requires '(' !in p
    ensures Blocks(p + s) == Blocks(s)
    decreases |p|
  {
    if p != [] {
      assert (p + s)[0] == p[0] && (p + s)[1..] == p[1..] + s;
      assert '(' !in p[1..];
      BlocksSkipPlainText(p[1..], s);
    } else {
      assert p + s == s;
    }
  }

  lemma BlocksAtMatch(s: string, b: Block, rest: string)
    requires MatchBlock(s) == Some((b, rest))
    ensures Blocks(s) == [b] + Blocks(rest)
  {
  }

  // ---------------------------------------------------------------- matches on written text

  /** `\s*c` over whitespace and then `c` itself. */
  lemma ExpectAfterSpace(w: string, c: char, r: string)
    requires AllSpace(w) && !IsSpace(c)
    ensures Expect(w + [c] + r, c) == Some(r)
  {
    assert w + [c] + r == w + ([c] + r);
    SpaceRunOfSpaces(w, [c] + r);
    assert (w + [c] + r)[|w|..] == [c] + r;
  }

  lemma {:induction false} QuoteFreeAppend(a: string, b: string)
    requires '"' !in a && b != [] && b[0] == '"'
    ensures QuoteFree(a + b) == |a|
    decreases |a|
  {
    if a == [] {
      assert a + b == b;
    } else {
      assert (a + b)[0] == a[0] && (a + b)[1..] == a[1..] + b;
      QuoteFreeAppend(a[1..], b);
    }
  }

  lemma {:induction false} BraceFreeAppend(a: string, b: string)
    requires '{' !in a && '}' !in a && b != [] && IsBrace(b[0])
    ensures BraceFree(a + b) == |a|
    decreases |a|
  {
    if a == [] {
      assert a + b == b;
    } else {
      assert (a + b)[0] == a[0] && (a + b)[1..] == a[1..] + b;
      BraceFreeAppend(a[1..], b);
    }
  }

  /** A name that starts with no whitespace and holds no '"' is read back whole. */
  lemma NameGroupOf(name: string, rest: string)
    requires name != [] && !IsSpace(name[0]) && '"' !in name
    ensures NameGroup(name + "\"" + rest) == Some((name, rest))
  {
    var s := name + "\"" + rest;
    assert s == name + ("\"" + rest);
    QuoteFreeAppend(name, "\"" + rest);
    assert s[..|name|] == name && s[|name| + 1..] == rest;
  }

  /** A braced body without braces, after whitespace, is the group with its leading whitespace stripped. */
  lemma ArrayGroupOf(w: string, body: string, rest: string)
    requires AllSpace(w)
    requires '{' !in body && '}' !in body
    ensures ArrayGroup(w + (['{'] + (body + (['}'] + rest)))) == Some((LStrip(body), rest))
  {
    var u := body + (['}'] + rest);
    assert w + (['{'] + u) == w + ['{'] + u;
    ExpectAfterSpace(w, '{', u);
    LStripAppend(body, ['}'] + rest);
    var b := LStrip(body);
    var t := b + (['}'] + rest);
    assert forall k :: 0 <= k < |b| ==> b[k] == body[SpaceRun(body) + k];
    BraceFreeAppend(b, ['}'] + rest);
    assert t[..|b|] == b && t[|b|] == '}' && t[|b| + 1..] == rest;
  }

  /** `c` itself, with no whitespace before it. */
  lemma ExpectHere(c: char, r: string)
    requires !IsSpace(c)
    ensures Expect([c] + r, c) == Some(r)
  {
    assert ([c] + r)[1..] == r;
  }

  /** The z array and the closing braces as `to_data` writes them. */
  lemma LastArrayOf(zs: string, rest: string)
    requires '{' !in zs && '}' !in zs
    ensures LastArray([','] + (['\n'] + (['{'] + (zs + (['}'] + (['}'] + ([')'] + rest)))))))
            == Some((LStrip(zs), rest))
  {
    var r8 := [')'] + rest;
    var r7 := ['}'] + r8;
    var g3 := ['{'] + (zs + (['}'] + r7));
    ExpectHere(',', ['\n'] + g3);
    ArrayGroupOf(['\n'], zs, r7);
    ExpectHere('}', r8);
    ExpectHere(')', rest);
  }

  /** The y and z arrays and the closing braces as `to_data` writes them. */
  lemma LaterArraysOf(ys: string, zs: string, rest: string)
    requires '{' !in ys && '}' !in ys && '{' !in zs && '}' !in zs
    ensures LaterArrays([','] + (['\n'] + (['{'] + (ys + (['}']
              + ([','] + (['\n'] + (['{'] + (zs + (['}'] + (['}'] + ([')'] + rest))))))))))))
            == Some((LStrip(ys), LStrip(zs), rest))
  {
    var r5 := [','] + (['\n'] + (['{'] + (zs + (['}'] + (['}'] + ([')'] + rest))))));
    var g2 := ['{'] + (ys + (['}'] + r5));
    ExpectHere(',', ['\n'] + g2);
    ArrayGroupOf(['\n'], ys, r5);
    LastArrayOf(zs, rest);
  }

  /** The arrow and the three arrays as `to_data` writes them, character by character. */
  lemma ArraysOf(xs: string, ys: string, zs: string, rest: string)
    requires '{' !in xs && '}' !in xs && '{' !in ys && '}' !in ys && '{' !in zs && '}' !in zs
    ensures Arrays(['-'] + (['>'] + (['\n'] + (['{'] + (['{'] + (xs + (['}'] + ([','] + (['\n'] + (['{'] + (ys + (['}']
              + ([','] + (['\n'] + (['{'] + (zs + (['}'] + (['}'] + ([')'] + rest)))))))))))))))))))
            == Some((LStrip(xs), LStrip(ys), LStrip(zs), rest))
  {
    var r3 := [','] + (['\n'] + (['{'] + (ys + (['}']
              + ([','] + (['\n'] + (['{'] + (zs + (['}'] + (['}'] + ([')'] + rest)))))))))));
    var g1 := ['{'] + (xs + (['}'] + r3));
    var s1 := ['>'] + (['\n'] + (['{'] + g1));
    ExpectHere('-', s1);
    assert s1[1..] == ['\n'] + (['{'] + g1);
    ExpectAfterSpace(['\n'], '{', g1);
    assert ['\n'] + ['{'] + g1 == ['\n'] + (['{'] + g1);
    ArrayGroupOf([], xs, r3);
    assert [] + g1 == g1;
    LaterArraysOf(ys, zs, rest);
  }

  /** One entry as `to_data` writes it is one match, and the text after it is untouched. */
  lemma MatchBlockOfEntry(name: string, xs: string, ys: string, zs: string, rest: string)
    requires name != [] && !IsSpace(name[0]) && '"' !in name
    requires '{' !in xs && '}' !in xs && '{' !in ys && '}' !in ys && '{' !in zs && '}' !in zs
    ensures MatchBlock(['('] + (['"'] + (name + (['"'] + (['-'] + (['>'] + (['\n'] + (['{'] + (['{'] + (xs + (['}']
              + ([','] + (['\n'] + (['{'] + (ys + (['}'] + ([','] + (['\n'] + (['{'] + (zs + (['}'] + (['}']
              + ([')'] + rest)))))))))))))))))))))))
            == Some((Block(name, LStrip(xs), LStrip(ys), LStrip(zs)), rest))
  {
    var arrows := ['-'] + (['>'] + (['\n'] + (['{'] + (['{'] + (xs + (['}'] + ([','] + (['\n'] + (['{'] + (ys + (['}']
              + ([','] + (['\n'] + (['{'] + (zs + (['}'] + (['}'] + ([')'] + rest))))))))))))))))));
    var s := ['('] + (['"'] + (name + (['"'] + arrows)));
    assert s[2..] == name + (['"'] + arrows);
    assert name + "\"" + arrows == name + (['"'] + arrows);
    NameGroupOf(name, arrows);
    ArraysOf(xs, ys, zs, rest);
  }

  // ---------------------------------------------------------------- building the dataset

  /** The entry of one match: the numbers of each body, in order. */
  function TripleOf(value: string -> real, b: Block): Triple
  {
    Triple(Map(value, NumTokens(b.xs)), Map(value, NumTokens(b.ys)), Map(value, NumTokens(b.zs)))
  }

  /** `results[name] = ...` over the matches in order. */
  function Collect(value: string -> real, bs: seq<Block>): Data
    decreases |bs|
  {
    if bs == [] then map[]
    else Collect(value, bs[..|bs| - 1])[bs[|bs| - 1].name := TripleOf(value, bs[|bs| - 1])]
  }

  /** The names of the dataset are the names of the matches. */
  lemma {:induction false} CollectKeys(value: string -> real, bs: seq<Block>, n: string)
    ensures n in Collect(value, bs) <==> exists k :: 0 <= k < |bs| && bs[k].name == n
    decreases |bs|
  {
    if bs != [] {
      var prev := bs[..|bs| - 1];
      CollectKeys(value, prev, n);
      if n != bs[|bs| - 1].name && n in Collect(value, bs) {
        var k :| 0 <= k < |prev| && prev[k].name == n;
        assert bs[k].name == n;
      }
      if exists k :: 0 <= k < |bs| && bs[k].name == n {
        var k :| 0 <= k < |bs| && bs[k].name == n;
        if k < |prev| { assert prev[k].name == n; }
      }
    }
  }

  /** A block that no later block of the same name follows gives that name's entry. */
  lemma {:induction false} CollectLastWins(value: string -> real, bs: seq<Block>, k: nat)
    requires k < |bs|
    requires forall j :: k < j < |bs| ==> bs[j].name != bs[k].name
    ensures bs[k].name in Collect(value, bs)
    ensures Collect(value, bs)[bs[k].name] == TripleOf(value, bs[k])
    decreases |bs|
  {
    if k < |bs| - 1 {
      var prev := bs[..|bs| - 1];
      assert bs[|bs| - 1].name != bs[k].name;
      assert prev[k] == bs[k];
      assert forall j :: k < j < |prev| ==> prev[j] == bs[j];
      CollectLastWins(value, prev, k);
    }
  }

  /** What `BPMDataParen.from_file` builds from the text of a file. */
  function ReadParen(value: string -> real, text: string): Data
  {
    Collect(value, Blocks(JoinLineContinuations(text)))
  }

  /** `BPMDataParen.from_file`, given the text of the file. */
  method FromFile(text: string, value: string -> real) returns (d: Data)
    ensures d == ReadParen(value, text)
  {
    var joined := JoinLineContinuations(text);
    var ms := Blocks(joined);
    d := map[];
    var i := 0;
    while i < |ms|
      invariant 0 <= i <= |ms|
      invariant d == Collect(value, ms[..i])
    {
      var m := ms[i];
      var x := Map(value, NumTokens(m.xs));
      var y := Map(value, NumTokens(m.ys));
      var z := Map(value, NumTokens(m.zs));
      d := d[m.name := Triple(x, y, z)];
      i := i + 1;
      assert ms[..i][..i - 1] == ms[..i - 1];
    }
    assert ms[..i] == ms;
  }

  /** A text with no '(' at all gives an empty dataset. */
  lemma NoParenNoData(value: string -> real, text: string)
    requires '(' !in text
    ensures ReadParen(value, text) == map[]
  {
    var j := JoinLineContinuations(text);
    JoinNoNewParen(text);
    BlocksSkipPlainText(j, []);
    assert j + [] == j;
  }

  // ---------------------------------------------------------------- to_sdds

  /**
   * `normalize(a, N)`: truncate to `N` values or pad with zeros up to `N`.
   * A negative `N` is a Python slice bound counted from the end.
   */
  function Normalize(a: seq<real>, n: int): (r: seq<real>)
    ensures n >= 0 ==> |r| == n
    ensures n >= 0 ==> forall k :: 0 <= k < n ==> r[k] == if k < |a| then a[k] else 0.0
    ensures n < 0 ==> r == a[..if |a| + n > 0 then |a| + n else 0]
  {
    if |a| > n then
      if n >= 0 then a[..n] else a[..if |a| + n > 0 then |a| + n else 0]
    else if |a| < n then a + Zeros(n - |a|)
    else a
  }

  /** An array already of length N is left as it is, and normalising twice is normalising once. */
  lemma NormalizeIdempotent(a: seq<real>, n: nat)
    ensures Normalize(a, |a|) == a
    ensures Normalize(Normalize(a, n), n) == Normalize(a, n)
  {
  }

  /** How often `v` occurs in `lens`: the Counter's count. */
  function Count(lens: seq<nat>, v: nat): nat
  {
    multiset(lens)[v]
  }

  /**
   * The position `max` stops at over the first `n` entries, keyed by count:
   * the first position whose count is largest.
   */
  function FirstMostCommon(lens: seq<nat>, n: nat): (b: nat)
    requires 0 < n <= |lens|
    ensures b < n
    ensures forall j :: 0 <= j < n ==> Count(lens, lens[j]) <= Count(lens, lens[b])
    ensures forall j :: 0 <= j < b ==> Count(lens, lens[j]) < Count(lens, lens[b])
  {
    if n == 1 then 0
    else
      var b := FirstMostCommon(lens, n - 1);
      if Count(lens, lens[n - 1]) > Count(lens, lens[b]) then n - 1 else b
  }

  /**
   * `Counter(lens).most_common(1)[0][0] if lens else 0`: the most frequent
   * length, ties going to the length that occurs first.
   */
  function DefaultTurns(lens: seq<nat>): (t: nat)
    ensures lens == [] ==> t == 0
    ensures lens != [] ==> t in lens && forall v :: v in lens ==> Count(lens, v) <= Count(lens, t)
    ensures forall j :: 0 <= j < |lens| && Count(lens, lens[j]) == Count(lens, t) ==>
              exists i :: 0 <= i <= j && lens[i] == t
  {
    if lens == [] then 0
    else
      var b := FirstMostCommon(lens, |lens|);
      assert forall v :: v in lens ==> exists j :: 0 <= j < |lens| && lens[j] == v;
      lens[b]
  }

  /** Any length that is as frequent as the default and first to occur is the default. */
  lemma DefaultTurnsUnique(lens: seq<nat>, b: nat)
    requires b < |lens|
    requires forall j :: 0 <= j < |lens| ==> Count(lens, lens[j]) <= Count(lens, lens[b])
    requires forall j :: 0 <= j < b ==> Count(lens, lens[j]) < Count(lens, lens[b])
    ensures DefaultTurns(lens) == lens[b]
  {
    var t := DefaultTurns(lens);
    assert t in lens;
    var k :| 0 <= k < |lens| && lens[k] == t;
    assert Count(lens, lens[k]) <= Count(lens, lens[b]);
    assert lens[b] in lens;
    assert Count(lens, lens[b]) <= Count(lens, t);
    var i :| 0 <= i <= b && lens[i] == t;
    assert !(i < b);
  }

  /** The x length of each BPM, in sorted-name order. */
  function XLengths(d: Data): (lens: seq<nat>)
    ensures |lens| == |ListBpms(d)|
    ensures forall i :: 0 <= i < |lens| ==> lens[i] == |d[ListBpms(d)[i]].x|
  {
    var names := ListBpms(d);
    seq(|names|, i requires 0 <= i < |names| => |d[names[i]].x|)
  }

  /** The turn count `to_sdds` writes with. */
  function Turns(d: Data, turns: Option<int>): int
  {
    if turns.Some? then turns.value else DefaultTurns(XLengths(d))
  }

  /** The array `to_sdds` writes for one plane: `normalize(a, turns)`. */
  function Plane(a: seq<real>, turns: int): seq<real>
  {
    Normalize(a, turns)
  }

  /** `f"{tag} {name} {values}\n"`. */
  function RowLine(tag: string, name: string, values: string): string
  {
    tag + " " + name + " " + values + "\n"
  }

  /** The two lines written for one BPM. */
  function RowPair(fmt: real -> string, name: string, t: Triple, turns: int): string
  {
    RowLine("0", name, Join(" ", Map(fmt, Plane(t.x, turns))))
    + RowLine("1", name, Join(" ", Map(fmt, Plane(t.y, turns))))
  }

  /** An extra header line: `"# " + str(line).rstrip() + "\n"`. */
  function CommentLine(item: string): string
  {
    "# " + RStrip(item) + "\n"
  }

  /** The fixed header lines, with the RingID line only for a non-empty ring id. */
  function Preamble(beam: string, ringId: string, turnsText: string, monitorsText: string): string
  {
    "# SDDSASCIIFORMAT v1\n"
    + "# Beam: " + beam + "\n"
    + (if ringId != [] then "# RingID: " + ringId + "\n" else "")
    + "# number of turns : " + turnsText + "\n"
    + "# number of monitors : " + monitorsText + "\n"
  }

  function CommentLines(header: seq<string>): (lines: seq<string>)
    ensures |lines| == |header|
    ensures forall i :: 0 <= i < |header| ==> lines[i] == CommentLine(header[i])
  {
    seq(|header|, i requires 0 <= i < |header| => CommentLine(header[i]))
  }

  /** The header: the fixed lines, then one comment line per extra header line. */
  function SddsHeader(beam: string, ringId: string, turnsText: string, monitorsText: string,
                      header: seq<string>): string
  {
    Preamble(beam, ringId, turnsText, monitorsText) + Concat(CommentLines(header))
  }

  /** The rows of the given names, in order. */
  function Rows(fmt: real -> string, d: Data, names: seq<string>, turns: int): string
    requires forall i :: 0 <= i < |names| ==> names[i] in d
  {
    if names == [] then []
    else RowPair(fmt, names[0], d[names[0]], turns) + Rows(fmt, d, names[1..], turns)
  }

  /**
   * The whole text `to_sdds` writes. `fixed` renders a number as `{:16.7f}`
   * does; `fmt` renders a sample.
   */
  function SddsText(d: Data, beam: string, ringId: string, turns: Option<int>, fmt: real -> string,
                    fixed: int -> string, header: seq<string>): string
  {
    var t := Turns(d, turns);
    var names := ListBpms(d);
    SddsHeader(beam, ringId, fixed(t), fixed(|names|), header) + Rows(fmt, d, names, t)
  }

  lemma {:induction false} RowsAppend(fmt: real -> string, d: Data, names: seq<string>, turns: int, i: nat)
    requires i < |names|
    requires forall k :: 0 <= k < |names| ==> names[k] in d
    ensures Rows(fmt, d, names[..i + 1], turns) == Rows(fmt, d, names[..i], turns) + RowPair(fmt, names[i], d[names[i]], turns)
    decreases i
  {
    if i > 0 {
      assert names[..i + 1][1..] == names[1..][..i];
      assert names[..i][1..] == names[1..][..i - 1];
      RowsAppend(fmt, d, names[1..], turns, i - 1);
    } else {
      assert names[..1][1..] == [];
    }
  }

  /** The header part of `to_sdds`, written line by line. */
  method WriteSddsHeader(beam: string, ringId: string, turnsText: string, monitorsText: string,
                         header: seq<string>) returns (out: string)
    ensures out == SddsHeader(beam, ringId, turnsText, monitorsText, header)
  {
    out := WritePreamble(beam, ringId, turnsText, monitorsText);
    ghost var lines := CommentLines(header);
    ghost var top := out;
    var i := 0;
    while i < |header|
      invariant 0 <= i <= |header|
      invariant out == top + Concat(lines[..i])
    {
      var line := CommentLine(header[i]);
      AppendLine(top, lines, i, out, line);
      out := out + line;
      i := i + 1;
    }
    assert lines[..i] == lines;
  }

  /** The fixed lines of the header, written one after the other. */
  method WritePreamble(beam: string, ringId: string, turnsText: string, monitorsText: string)
    returns (out: string)
    ensures out == Preamble(beam, ringId, turnsText, monitorsText)
  {
    out := "# SDDSASCIIFORMAT v1\n";
    out := out + "# Beam: " + beam + "\n";
    if ringId != [] {
      out := out + "# RingID: " + ringId + "\n";
    }
    out := out + "# number of turns : " + turnsText + "\n";
    out := out + "# number of monitors : " + monitorsText + "\n";
  }

  /** Appending item `i` to the text of the first `i` items gives the text of the first `i + 1`. */
  lemma AppendLine(top: string, lines: seq<string>, i: nat, before: string, line: string)
    requires i < |lines| && line == lines[i]
    requires before == top + Concat(lines[..i])
    ensures before + line == top + Concat(lines[..i + 1])
  {
    ConcatAppend(lines, i);
  }

  /** The data part of `to_sdds`: the x line and then the y line of each name in turn. */
  method WriteSddsRows(d: Data, names: seq<string>, fmt: real -> string, t: int) returns (out: string)
    requires forall i :: 0 <= i < |names| ==> names[i] in d
    ensures out == Rows(fmt, d, names, t)
  {
    out := [];
    var i := 0;
    while i < |names|
      invariant 0 <= i <= |names|
      invariant forall k :: 0 <= k < i ==> names[..i][k] in d
      invariant out == Rows(fmt, d, names[..i], t)
    {
      var name := names[i];
      var x := Normalize(d[name].x, t);
      var y := Normalize(d[name].y, t);
      if |y| == 0 && t > 0 {
        y := ZeroFill(t);
      }
      var xs := Join(" ", Map(fmt, x));
      var ys := Join(" ", Map(fmt, y));
      ghost var before := out;
      var line0 := RowLine("0", name, xs);
      var line1 := RowLine("1", name, ys);
      out := out + line0;
      out := out + line1;
      assert out == before + (line0 + line1);
      RowsAppend(fmt, d, names, t, i);
      i := i + 1;
    }
    assert names[..i] == names;
  }

  /**
   * `BPMDataParen.to_sdds`, returning the text it writes. `header` is
   * `header_lines`, empty when none are given.
   */
  method ToSdds(d: Data, beam: string, ringId: string, turns: Option<int>, fmt: real -> string,
                fixed: int -> string, header: seq<string>) returns (out: string)
    ensures out == SddsText(d, beam, ringId, turns, fmt, fixed, header)
  {
    var names := ListBpms(d);
    var t := Turns(d, turns);
    var head := WriteSddsHeader(beam, ringId, fixed(t), fixed(|names|), header);
    var rows := WriteSddsRows(d, names, fmt, t);
    out := head + rows;
  }

  /** `np.zeros(n)` for an int that may be negative. */
  function ZeroFill(n: int): seq<real>
  {
    if n > 0 then Zeros(n) else []
  }
}
