/**
 * Reading back what `BPMDataParen.to_sdds` writes: `BPMDataSDDS.from_file`
 * on that text gives back every BPM, each plane with exactly the `turns`
 * values that were written, and a z of zeros.
 */
module SddsRoundTrip {
  import opened Strings
  import opened Tokens
  import opened Dataset
  import Paren
  import Sdds
  import DataRoundTrip

  predicate NoBreak(s: string) { forall k :: 0 <= k < |s| ==> !IsLineBreak(s[k]) }

  /** A BPM name that a row line gives back whole: not empty, no whitespace. */
  predicate RowName(n: string) { n != [] && forall k :: 0 <= k < |n| ==> !IsSpace(n[k]) }

  /** The lines, each closed by "\n". */
  function Text(ls: seq<string>): string
  {
    if ls == [] then [] else ls[0] + "\n" + Text(ls[1..])
  }

  // ---------------------------------------------------------------- splitting the text into lines

  lemma {:induction false} LineEndAt(l: string, rest: string)
    requires NoBreak(l)
    ensures LineEnd(l + "\n" + rest) == |l|
    decreases |l|
  {
    if l != [] {
      assert (l + "\n" + rest)[1..] == l[1..] + "\n" + rest;
      LineEndAt(l[1..], rest);
    }
  }

  lemma LinesCons(l: string, rest: string)
    requires NoBreak(l)
    ensures Lines(l + "\n" + rest) == [l] + Lines(rest)
  {
    var s := l + "\n" + rest;
    LineEndAt(l, rest);
    assert s[..|l|] == l;
    assert s[|l| + 1..] == rest;
  }

  /** Lines without a break inside, each closed by "\n", split back into themselves. */
  lemma {:induction false} LinesOfText(ls: seq<string>)
    requires forall i :: 0 <= i < |ls| ==> NoBreak(ls[i])
    ensures Lines(Text(ls)) == ls
    decreases |ls|
  {
    if ls != [] {
      LinesCons(ls[0], Text(ls[1..]));
      LinesOfText(ls[1..]);
      assert ls == [ls[0]] + ls[1..];
    }
  }

  lemma {:induction false} TextAppend(a: seq<string>, b: seq<string>)
    ensures Text(a + b) == Text(a) + Text(b)
    decreases |a|
  {
    if a == [] {
      assert a + b == b;
    } else {
      assert (a + b)[0] == a[0] && (a + b)[1..] == a[1..] + b;
      TextAppend(a[1..], b);
    }
  }

  // ---------------------------------------------------------------- the lines `to_sdds` writes

  function PreambleLines(beam: string, ringId: string, turnsText: string, monitorsText: string): seq<string>
  {
    ["# SDDSASCIIFORMAT v1", "# Beam: " + beam]
    + (if ringId != [] then ["# RingID: " + ringId] else [])
    + ["# number of turns : " + turnsText, "# number of monitors : " + monitorsText]
  }

  function CommentBodies(header: seq<string>): (ls: seq<string>)
    ensures |ls| == |header|
    ensures forall i :: 0 <= i < |header| ==> ls[i] == "# " + RStrip(header[i])
  {
    seq(|header|, i requires 0 <= i < |header| => "# " + RStrip(header[i]))
  }

  /** `"{tag} {name} {values}"`, the row line without its "\n". */
  function RowBody(tag: string, name: string, values: seq<real>, fmt: real -> string): string
  {
    tag + " " + name + " " + Join(" ", Map(fmt, values))
  }

  function RowLines(fmt: real -> string, d: Data, names: seq<string>, t: int): seq<string>
    requires forall i :: 0 <= i < |names| ==> names[i] in d
  {
    if names == [] then []
    else
      Pair(fmt, names[0], d[names[0]], t) + RowLines(fmt, d, names[1..], t)
  }

  lemma PreambleIsText(beam: string, ringId: string, turnsText: string, monitorsText: string)
    ensures Paren.Preamble(beam, ringId, turnsText, monitorsText)
            == Text(PreambleLines(beam, ringId, turnsText, monitorsText))
  {
    var l1 := "# SDDSASCIIFORMAT v1";
    var s1 := "# SDDSASCIIFORMAT v1\n";
    assert Text([l1]) == s1 by {
      assert Text([l1]) == l1 + "\n" + Text([]);
    }
    var s2 := s1 + "# Beam: " + beam + "\n";
    TextSnoc(s1, "# Beam: ", beam, [l1]);
    var ls2 := [l1] + ["# Beam: " + beam];
    var s3, ls3;
    if ringId != [] {
      s3 := s2 + ("# RingID: " + ringId + "\n");
      TextSnocGrouped(s2, "# RingID: ", ringId, ls2);
      ls3 := ls2 + ["# RingID: " + ringId];
    } else {
      s3 := s2 + "";
      assert s3 == s2;
      ls3 := ls2 + [];
      assert ls3 == ls2;
    }
    var s4 := s3 + "# number of turns : " + turnsText + "\n";
    TextSnoc(s3, "# number of turns : ", turnsText, ls3);
    var ls4 := ls3 + ["# number of turns : " + turnsText];
    TextSnoc(s4, "# number of monitors : ", monitorsText, ls4);
    var ls5 := ls4 + ["# number of monitors : " + monitorsText];
    assert PreambleLines(beam, ringId, turnsText, monitorsText) == ls5;
  }

  /** Writing one more line after the text of some lines gives the text of one more line. */
  lemma TextSnoc(s: string, a: string, b: string, ls: seq<string>)
    requires s == Text(ls)
    ensures s + a + b + "\n" == Text(ls + [a + b])
  {
    TextAppend(ls, [a + b]);
    assert Text([a + b]) == a + b + "\n" + Text([]);
    Assoc(s, a, b);
    Assoc(s, a + b, "\n");
  }

  lemma TextSnocGrouped(s: string, a: string, b: string, ls: seq<string>)
    requires s == Text(ls)
    ensures s + (a + b + "\n") == Text(ls + [a + b])
  {
    TextAppend(ls, [a + b]);
    assert Text([a + b]) == a + b + "\n" + Text([]);
  }

  lemma {:induction false} CommentsAreText(header: seq<string>)
    ensures Concat(Paren.CommentLines(header)) == Text(CommentBodies(header))
    decreases |header|
  {
    if header != [] {
      assert Paren.CommentLines(header)[1..] == Paren.CommentLines(header[1..]);
      assert CommentBodies(header)[1..] == CommentBodies(header[1..]);
      CommentsAreText(header[1..]);
    }
  }

  lemma {:induction false} RowsAreText(fmt: real -> string, d: Data, names: seq<string>, t: int)
    requires forall i :: 0 <= i < |names| ==> names[i] in d
    ensures Paren.Rows(fmt, d, names, t) == Text(RowLines(fmt, d, names, t))
    decreases |names|
  {
    if names != [] {
      var tr := d[names[0]];
      var b0 := RowBody("0", names[0], Paren.Plane(tr.x, t), fmt);
      var b1 := RowBody("1", names[0], Paren.Plane(tr.y, t), fmt);
      RowsAreText(fmt, d, names[1..], t);
      TextAppend([b0, b1], RowLines(fmt, d, names[1..], t));
      assert Text([b0, b1]) == b0 + "\n" + (b1 + "\n");
    }
  }

  /** The text of `to_sdds` is its preamble, comment and row lines, each closed by "\n". */
  lemma SddsTextIsText(d: Data, beam: string, ringId: string, turns: Option<int>, fmt: real -> string,
                       fixed: int -> string, header: seq<string>)
    ensures var t := Paren.Turns(d, turns);
            var names := ListBpms(d);
            Paren.SddsText(d, beam, ringId, turns, fmt, fixed, header)
            == Text(PreambleLines(beam, ringId, fixed(t), fixed(|names|)) + CommentBodies(header)
                    + RowLines(fmt, d, names, t))
  {
    var t := Paren.Turns(d, turns);
    var names := ListBpms(d);
    var pre := PreambleLines(beam, ringId, fixed(t), fixed(|names|));
    var com := CommentBodies(header);
    var rows := RowLines(fmt, d, names, t);
    PreambleIsText(beam, ringId, fixed(t), fixed(|names|));
    CommentsAreText(header);
    RowsAreText(fmt, d, names, t);
    TextAppend(pre, com);
    TextAppend(pre + com, rows);
  }

  // ---------------------------------------------------------------- how `from_file` reads each line

  /** A header line starts with '#', so the reader skips it. */
  lemma CommentSkipped(l: string)
    requires l != [] && l[0] == '#'
    ensures Sdds.ParseLine(l).None?
  {
    assert SpaceRun(l) == 0;
    var r := RStrip(l);
    assert !IsSpace(l[0]);
    assert r != [];
    assert Strip(l) == r && r[0] == '#';
  }

  /** The values joined by spaces: not empty, no whitespace at either end, no line break. */
  lemma {:induction false} JoinShape(toks: seq<string>)
    requires toks != [] && forall i :: 0 <= i < |toks| ==> IsNumToken(toks[i])
    ensures var v := Join(" ", toks);
            v != [] && !IsSpace(v[0]) && !IsSpace(v[|v| - 1]) && NoBreak(v)
    decreases |toks|
  {
    NumTokenIsLive(toks[0]);
    if |toks| > 1 {
      JoinShape(toks[1..]);
      var w := Join(" ", toks[1..]);
      var v := toks[0] + " " + w;
      assert Join(" ", toks) == v;
      forall k | 0 <= k < |v| ensures !IsLineBreak(v[k]) {
        if k < |toks[0]| {
          assert v[k] == toks[0][k];
        } else if k > |toks[0]| {
          assert v[k] == w[k - |toks[0]| - 1];
        }
      }
    }
  }

  lemma {:induction false} WordRunOf(w: string, rest: string)
    requires forall k :: 0 <= k < |w| ==> !IsSpace(w[k])
    requires rest != [] && IsSpace(rest[0])
    ensures WordRun(w + rest) == |w|
    decreases |w|
  {
    if w != [] {
      assert (w + rest)[1..] == w[1..] + rest;
      WordRunOf(w[1..], rest);
    }
  }

  lemma Assoc<T>(a: seq<T>, b: seq<T>, c: seq<T>)
    ensures (a + b) + c == a + (b + c)
  {
  }

  /** A word followed by whitespace: `split` takes the whole word as a field. */
  lemma Field(w: string, x: string)
    requires w != [] && forall k :: 0 <= k < |w| ==> !IsSpace(w[k])
    requires x != [] && IsSpace(x[0])
    ensures LStrip(w + x) == w + x
    ensures WordRun(w + x) == |w| && (w + x)[..|w|] == w && (w + x)[|w|..] == x
  {
    assert (w + x)[0] == w[0];
    assert SpaceRun(w + x) == 0;
    WordRunOf(w, x);
  }

  /** One space before a field is stripped away. */
  lemma Gap(x: string)
    requires x != [] && !IsSpace(x[0])
    ensures LStrip(" " + x) == x
  {
    assert (" " + x)[1..] == x;
    assert SpaceRun(x) == 0;
  }

  /** `split(None, 2)` of a row line: its tag, its name and its values. */
  lemma RowFields(tag: string, name: string, v: string)
    requires tag == "0" || tag == "1"
    requires RowName(name)
    requires v != [] && !IsSpace(v[0])
    ensures SplitFields3(tag + " " + name + " " + v) == [tag, name, v]
  {
    var c := " " + v;
    var b := name + c;
    var a := tag + (" " + b);
    Assoc(tag, " ", name);
    Assoc(tag + " " + name, " ", v);
    Assoc(tag, " " + name, c);
    Assoc(" ", name, c);
    assert tag + " " + name + " " + v == a;
    Field(tag, " " + b);
    Gap(b);
    Field(name, c);
    Gap(v);
  }

  /** A row line with at least one value is kept, with its name, its plane and its tokens. */
  lemma RowParsed(tag: string, name: string, values: seq<real>, fmt: real -> string)
    requires tag == "0" || tag == "1"
    requires RowName(name)
    requires values != [] && forall v :: IsNumToken(fmt(v))
    ensures Sdds.ParseLine(RowBody(tag, name, values, fmt))
            == Some(Sdds.Tagged(name, if tag == "0" then X else Y, Map(fmt, values)))
  {
    var toks := Map(fmt, values);
    RenderedNumbers(fmt, values);
    JoinShape(toks);
    var v := Join(" ", toks);
    RowEdges(tag, name, v);
    RowFields(tag, name, v);
    SpaceIsInert();
    NumTokensOfJoin(" ", toks);
    ParsedFrom(tag + " " + name + " " + v, tag, name, v, toks);
  }

  /** A row line holds no line break. */
  lemma RowNoBreak(tag: string, name: string, values: seq<real>, fmt: real -> string)
    requires tag == "0" || tag == "1"
    requires RowName(name)
    requires values != [] && forall v :: IsNumToken(fmt(v))
    ensures NoBreak(RowBody(tag, name, values, fmt))
  {
    var toks := Map(fmt, values);
    RenderedNumbers(fmt, values);
    JoinShape(toks);
    RowEdges(tag, name, Join(" ", toks));
  }

  lemma RenderedNumbers(fmt: real -> string, values: seq<real>)
    requires forall v :: IsNumToken(fmt(v))
    ensures forall i :: 0 <= i < |values| ==> IsNumToken(Map(fmt, values)[i])
  {
    var toks := Map(fmt, values);
    forall i | 0 <= i < |values| ensures IsNumToken(toks[i]) {
      var x := values[i];
      assert IsNumToken(fmt(x));
      assert toks[i] == fmt(x);
    }
  }

  lemma SpaceIsInert()
    ensures AllInert(" ")
  {
    assert Inert(' ');
  }

  /** The decision of `from_file` on a line whose fields and tokens are known. */
  lemma ParsedFrom(s: string, tag: string, name: string, v: string, toks: seq<string>)
    requires tag == "0" || tag == "1"
    requires Strip(s) == s && s != [] && s[0] == tag[0]
    requires SplitFields3(s) == [tag, name, v] && NumTokens(v) == toks && toks != []
    ensures Sdds.ParseLine(s) == Some(Sdds.Tagged(name, if tag == "0" then X else Y, toks))
  {
  }

  /** A row line starts with its tag, ends with its last value and has no line break. */
  lemma RowEdges(tag: string, name: string, v: string)
    requires tag == "0" || tag == "1"
    requires RowName(name)
    requires v != [] && !IsSpace(v[|v| - 1]) && NoBreak(v)
    ensures Strip(tag + " " + name + " " + v) == tag + " " + name + " " + v
    ensures NoBreak(tag + " " + name + " " + v)
  {
    var p := tag + " " + name + " ";
    var s := p + v;
    assert s[0] == tag[0];
    assert s[|s| - 1] == v[|v| - 1];
    assert SpaceRun(s) == 0;
    assert RStrip(s) == s;
    forall k | 0 <= k < |p| ensures !IsLineBreak(p[k]) {
      if 2 <= k < |p| - 1 {
        assert p[k] == name[k - 2];
      }
    }
    NoBreakConcat(p, v);
  }

  // ---------------------------------------------------------------- what the reader gathers

  /** The values one line adds to the given BPM and plane. */
  function Contribution(value: string -> real, l: string, name: string, plane: Component): seq<real>
  {
    match Sdds.ParseLine(l)
    case None => []
    case Some(t) => if t.name == name && t.plane == plane then Map(value, t.toks) else []
  }

  lemma PlaneOfSnoc(value: string -> real, ls: seq<string>, name: string, plane: Component)
    requires ls != []
    ensures Sdds.PlaneOf(value, ls, name, plane)
            == Sdds.PlaneOf(value, ls[..|ls| - 1], name, plane) + Contribution(value, ls[|ls| - 1], name, plane)
  {
  }

  lemma {:induction false} PlaneOfAppend(value: string -> real, a: seq<string>, b: seq<string>,
                                         name: string, plane: Component)
    ensures Sdds.PlaneOf(value, a + b, name, plane)
            == Sdds.PlaneOf(value, a, name, plane) + Sdds.PlaneOf(value, b, name, plane)
    decreases |b|
  {
    if b == [] {
      assert a + b == a;
    } else {
      var c := a + b;
      var front := b[..|b| - 1];
      var last := b[|b| - 1];
      assert c[..|c| - 1] == a + front;
      assert c[|c| - 1] == last;
      PlaneOfAppend(value, a, front, name, plane);
      PlaneOfSnoc(value, c, name, plane);
      PlaneOfSnoc(value, b, name, plane);
      Assoc(Sdds.PlaneOf(value, a, name, plane), Sdds.PlaneOf(value, front, name, plane),
            Contribution(value, last, name, plane));
    }
  }

  /** The BPMs one line names. */
  function NameOf(l: string): set<string>
  {
    match Sdds.ParseLine(l)
    case None => {}
    case Some(t) => {t.name}
  }

  lemma NamesOfSnoc(ls: seq<string>)
    requires ls != []
    ensures Sdds.NamesOf(ls) == Sdds.NamesOf(ls[..|ls| - 1]) + NameOf(ls[|ls| - 1])
  {
  }

  lemma {:induction false} NamesOfAppend(a: seq<string>, b: seq<string>)
    ensures Sdds.NamesOf(a + b) == Sdds.NamesOf(a) + Sdds.NamesOf(b)
    decreases |b|
  {
    if b == [] {
      assert a + b == a;
    } else {
      var c := a + b;
      var front := b[..|b| - 1];
      assert c[..|c| - 1] == a + front;
      assert c[|c| - 1] == b[|b| - 1];
      NamesOfAppend(a, front);
      NamesOfSnoc(c);
      NamesOfSnoc(b);
    }
  }

  /** What a kept line adds: its name, and its values to its own BPM and plane only. */
  lemma KeptLine(value: string -> real, l: string, t: Sdds.Tagged, n: string, p: Component)
    requires Sdds.ParseLine(l) == Some(t)
    ensures NameOf(l) == {t.name}
    ensures Contribution(value, l, n, p) == if n == t.name && p == t.plane then Map(value, t.toks) else []
  {
  }

  /** What a skipped line adds: nothing. */
  lemma SkippedLine(value: string -> real, l: string, n: string, p: Component)
    requires Sdds.ParseLine(l).None?
    ensures NameOf(l) == {} && Contribution(value, l, n, p) == []
  {
  }

  /** Lines the reader skips add no BPM and no value. */
  lemma {:induction false} SkippedAddNothing(value: string -> real, ls: seq<string>, name: string, plane: Component)
    requires forall i :: 0 <= i < |ls| ==> Sdds.ParseLine(ls[i]).None?
    ensures Sdds.PlaneOf(value, ls, name, plane) == [] && Sdds.NamesOf(ls) == {}
    decreases |ls|
  {
    if ls != [] {
      var front := ls[..|ls| - 1];
      SkippedAddNothing(value, front, name, plane);
      SkippedLine(value, ls[|ls| - 1], name, plane);
      PlaneOfSnoc(value, ls, name, plane);
      NamesOfSnoc(ls);
    }
  }

  /** Every header line, fixed or extra, starts with '#'. */
  lemma HeaderSkipped(beam: string, ringId: string, turnsText: string, monitorsText: string, header: seq<string>)
    ensures var ls := PreambleLines(beam, ringId, turnsText, monitorsText) + CommentBodies(header);
            forall i :: 0 <= i < |ls| ==> Sdds.ParseLine(ls[i]).None?
  {
    var ls := PreambleLines(beam, ringId, turnsText, monitorsText) + CommentBodies(header);
    forall i | 0 <= i < |ls| ensures Sdds.ParseLine(ls[i]).None? {
      assert ls[i] != [] && ls[i][0] == '#';
      CommentSkipped(ls[i]);
    }
  }

  /** The x line and the y line of one BPM. */
  function Pair(fmt: real -> string, name: string, tr: Triple, t: int): seq<string>
  {
    [RowBody("0", name, Paren.Plane(tr.x, t), fmt), RowBody("1", name, Paren.Plane(tr.y, t), fmt)]
  }

  lemma PlaneOfTwo(value: string -> real, b0: string, b1: string, n: string, p: Component)
    ensures Sdds.PlaneOf(value, [b0, b1], n, p) == Contribution(value, b0, n, p) + Contribution(value, b1, n, p)
  {
    var c0 := Contribution(value, b0, n, p);
    assert [b0, b1][..1] == [b0];
    assert [b0][..0] == [];
    PlaneOfSnoc(value, [b0, b1], n, p);
    PlaneOfSnoc(value, [b0], n, p);
    assert Sdds.PlaneOf(value, [], n, p) == [];
    LeftUnit(c0);
  }

  lemma LeftUnit<T>(a: seq<T>)
    ensures [] + a == a
  {
  }

  lemma NamesOfTwo(b0: string, b1: string)
    ensures Sdds.NamesOf([b0, b1]) == NameOf(b0) + NameOf(b1)
  {
    assert [b0, b1][..1] == [b0];
    assert [b0][..0] == [];
    NamesOfSnoc([b0, b1]);
    NamesOfSnoc([b0]);
  }

  /** What one row line adds: its name, and its values to its own plane of its own BPM. */
  lemma RowContribution(value: string -> real, tag: string, name: string, values: seq<real>,
                        fmt: real -> string, n: string, p: Component)
    requires tag == "0" || tag == "1"
    requires RowName(name)
    requires values != [] && forall v :: IsNumToken(fmt(v))
    ensures NameOf(RowBody(tag, name, values, fmt)) == {name}
    ensures Contribution(value, RowBody(tag, name, values, fmt), n, p)
            == if n == name && p == (if tag == "0" then X else Y)
               then DataRoundTrip.ReadBack(value, fmt, values) else []
  {
    RowParsed(tag, name, values, fmt);
    KeptLine(value, RowBody(tag, name, values, fmt),
             Sdds.Tagged(name, if tag == "0" then X else Y, Map(fmt, values)), n, p);
  }

  /** The two lines of one BPM, read on their own: each plane's values once, for that BPM only. */
  lemma PairRead(value: string -> real, fmt: real -> string, name: string, tr: Triple, t: int,
                 n: string, p: Component)
    requires t > 0 && RowName(name) && p != Z
    requires forall v :: IsNumToken(fmt(v))
    ensures Sdds.PlaneOf(value, Pair(fmt, name, tr, t), n, p)
            == if n != name then []
               else DataRoundTrip.ReadBack(value, fmt, Paren.Plane(if p == X then tr.x else tr.y, t))
  {
    var xs := Paren.Plane(tr.x, t);
    var ys := Paren.Plane(tr.y, t);
    RowContribution(value, "0", name, xs, fmt, n, p);
    RowContribution(value, "1", name, ys, fmt, n, p);
    PlaneOfTwo(value, RowBody("0", name, xs, fmt), RowBody("1", name, ys, fmt), n, p);
  }

  /** The two lines of one BPM name it. */
  lemma PairNames(fmt: real -> string, name: string, tr: Triple, t: int)
    requires t > 0 && RowName(name)
    requires forall v :: IsNumToken(fmt(v))
    ensures Sdds.NamesOf(Pair(fmt, name, tr, t)) == {name}
  {
    var xs := Paren.Plane(tr.x, t);
    var ys := Paren.Plane(tr.y, t);
    RowContribution(k => 0.0, "0", name, xs, fmt, name, X);
    RowContribution(k => 0.0, "1", name, ys, fmt, name, X);
    NamesOfTwo(RowBody("0", name, xs, fmt), RowBody("1", name, ys, fmt));
  }

  /** Neither line of one BPM holds a line break. */
  lemma PairNoBreak(fmt: real -> string, name: string, tr: Triple, t: int)
    requires t > 0 && RowName(name)
    requires forall v :: IsNumToken(fmt(v))
    ensures forall i :: 0 <= i < |Pair(fmt, name, tr, t)| ==> NoBreak(Pair(fmt, name, tr, t)[i])
  {
    var b0 := RowBody("0", name, Paren.Plane(tr.x, t), fmt);
    var b1 := RowBody("1", name, Paren.Plane(tr.y, t), fmt);
    RowNoBreak("0", name, Paren.Plane(tr.x, t), fmt);
    RowNoBreak("1", name, Paren.Plane(tr.y, t), fmt);
    assert Pair(fmt, name, tr, t) == [b0, b1];
  }

  /** The names of a sequence, as a set built from the front. */
  function Elements(names: seq<string>): (r: set<string>)
    ensures forall n :: n in r <==> n in names
  {
    if names == [] then {}
    else
      var r := {names[0]} + Elements(names[1..]);
      assert forall n :: n in names <==> n == names[0] || n in names[1..];
      r
  }

  /** Lines without breaks, concatenated, still have none. */
  lemma NoBreakLines(a: seq<string>, b: seq<string>)
    requires forall i :: 0 <= i < |a| ==> NoBreak(a[i])
    requires forall i :: 0 <= i < |b| ==> NoBreak(b[i])
    ensures forall i :: 0 <= i < |a + b| ==> NoBreak((a + b)[i])
  {
    forall i | 0 <= i < |a + b| ensures NoBreak((a + b)[i]) {
      if i >= |a| {
        assert (a + b)[i] == b[i - |a|];
      }
    }
  }

  /** The row lines name exactly the listed BPMs. */
  lemma {:induction false} RowLinesNames(fmt: real -> string, d: Data, names: seq<string>, t: int)
    requires forall i :: 0 <= i < |names| ==> names[i] in d && RowName(names[i])
    requires t > 0 && forall v :: IsNumToken(fmt(v))
    ensures Sdds.NamesOf(RowLines(fmt, d, names, t)) == Elements(names)
    decreases |names|
  {
    if names != [] {
      var pair := Pair(fmt, names[0], d[names[0]], t);
      RowLinesNames(fmt, d, names[1..], t);
      PairNames(fmt, names[0], d[names[0]], t);
      NamesOfAppend(pair, RowLines(fmt, d, names[1..], t));
    }
  }

  /** No row line holds a line break. */
  lemma {:induction false} RowLinesNoBreak(fmt: real -> string, d: Data, names: seq<string>, t: int)
    requires forall i :: 0 <= i < |names| ==> names[i] in d && RowName(names[i])
    requires t > 0 && forall v :: IsNumToken(fmt(v))
    ensures forall i :: 0 <= i < |RowLines(fmt, d, names, t)| ==> NoBreak(RowLines(fmt, d, names, t)[i])
    decreases |names|
  {
    if names != [] {
      var pair := Pair(fmt, names[0], d[names[0]], t);
      RowLinesNoBreak(fmt, d, names[1..], t);
      PairNoBreak(fmt, names[0], d[names[0]], t);
      NoBreakLines(pair, RowLines(fmt, d, names[1..], t));
    }
  }

  /** Row lines give each listed BPM's plane its values once, and any other name nothing. */
  lemma {:induction false} RowLinesRead(value: string -> real, fmt: real -> string, d: Data,
                                        names: seq<string>, t: int, n: string, p: Component)
    requires forall i :: 0 <= i < |names| ==> names[i] in d && RowName(names[i])
    requires Distinct(names)
    requires t > 0 && p != Z && forall v :: IsNumToken(fmt(v))
    ensures Sdds.PlaneOf(value, RowLines(fmt, d, names, t), n, p)
            == if n !in names then []
               else DataRoundTrip.ReadBack(value, fmt, Paren.Plane(if p == X then d[n].x else d[n].y, t))
    decreases |names|
  {
    if names != [] {
      var name := names[0];
      var pair := Pair(fmt, name, d[name], t);
      var rest := RowLines(fmt, d, names[1..], t);
      RowLinesRead(value, fmt, d, names[1..], t, n, p);
      PairRead(value, fmt, name, d[name], t, n, p);
      PlaneOfAppend(value, pair, rest, n, p);
      DistinctTail(names, n);
    }
  }

  predicate Distinct(names: seq<string>)
  {
    forall i, j :: 0 <= i < j < |names| ==> names[i] != names[j]
  }

  /** The head of a sequence of distinct names is not in its tail, and every other name of it is. */
  lemma DistinctTail(names: seq<string>, n: string)
    requires names != [] && Distinct(names)
    ensures names[0] !in names[1..] && Distinct(names[1..])
    ensures n in names <==> n == names[0] || n in names[1..]
  {
    forall k | 0 <= k < |names[1..]| ensures names[1..][k] != names[0] {
      assert names[1..][k] == names[k + 1];
    }
    if n in names && n != names[0] {
      var k :| 0 <= k < |names| && names[k] == n;
      assert names[1..][k - 1] == n;
    }
  }

  // ---------------------------------------------------------------- the round trip

  /**
   * With a positive turn count, values that `fmt` writes as single numbers,
   * names without whitespace and header texts without line breaks, reading
   * the `to_sdds` text gives back exactly the BPMs written; each plane holds
   * the `turns` values written for it, each read back through `fmt`, and z
   * is zeros. (The z plane itself is never written.)
   */
  lemma SddsReadsBack(value: string -> real, d: Data, beam: string, ringId: string, turns: Option<int>,
                      fmt: real -> string, fixed: int -> string, header: seq<string>)
    requires Paren.Turns(d, turns) > 0
    requires forall v :: IsNumToken(fmt(v))
    requires forall n :: n in d ==> RowName(n)
    requires NoBreak(beam) && NoBreak(ringId) && forall k :: NoBreak(fixed(k))
    requires forall i :: 0 <= i < |header| ==> NoBreak(RStrip(header[i]))
    ensures var t := Paren.Turns(d, turns);
            Sdds.ReadSdds(value, Paren.SddsText(d, beam, ringId, turns, fmt, fixed, header))
            == map n | n in d :: Triple(DataRoundTrip.ReadBack(value, fmt, Paren.Plane(d[n].x, t)),
                                        DataRoundTrip.ReadBack(value, fmt, Paren.Plane(d[n].y, t)),
                                        Zeros(t))
  {
    var t := Paren.Turns(d, turns);
    var names := ListBpms(d);
    var head := HeadLines(beam, ringId, fixed(t), fixed(|names|), header);
    var lines := head + RowLines(fmt, d, names, t);
    SddsLines(d, beam, ringId, turns, fmt, fixed, header);
    HeaderSkipped(beam, ringId, fixed(t), fixed(|names|), header);
    AccumulatedRows(value, fmt, d, head, t);
    FinishRows(value, fmt, d, Sdds.Accumulate(value, lines), t);
  }

  /** The second loop of `from_file` on the gathered rows: each plane as gathered, z as zeros. */
  lemma FinishRows(value: string -> real, fmt: real -> string, d: Data, acc: Sdds.Acc, t: int)
    requires t > 0
    requires acc.Keys == d.Keys
    requires forall n :: n in d ==>
               acc[n] == Sdds.Planes(DataRoundTrip.ReadBack(value, fmt, Paren.Plane(d[n].x, t)),
                                     DataRoundTrip.ReadBack(value, fmt, Paren.Plane(d[n].y, t)))
    ensures Sdds.Finish(acc)
            == map n | n in d :: Triple(DataRoundTrip.ReadBack(value, fmt, Paren.Plane(d[n].x, t)),
                                        DataRoundTrip.ReadBack(value, fmt, Paren.Plane(d[n].y, t)),
                                        Zeros(t))
  {
    var r := Sdds.Finish(acc);
    var want := map n | n in d :: Triple(DataRoundTrip.ReadBack(value, fmt, Paren.Plane(d[n].x, t)),
                                         DataRoundTrip.ReadBack(value, fmt, Paren.Plane(d[n].y, t)),
                                         Zeros(t));
    forall n | n in d ensures r[n] == want[n] {
      assert r[n] == Sdds.Mirror(acc[n]);
    }
    assert r.Keys == want.Keys;
  }

  /** The fixed header lines, then one comment line per extra header line. */
  function HeadLines(beam: string, ringId: string, turnsText: string, monitorsText: string,
                     header: seq<string>): seq<string>
  {
    PreambleLines(beam, ringId, turnsText, monitorsText) + CommentBodies(header)
  }

  /** The reader splits the `to_sdds` text back into the header lines and the row lines. */
  lemma SddsLines(d: Data, beam: string, ringId: string, turns: Option<int>,
                  fmt: real -> string, fixed: int -> string, header: seq<string>)
    requires Paren.Turns(d, turns) > 0
    requires forall v :: IsNumToken(fmt(v))
    requires forall n :: n in d ==> RowName(n)
    requires NoBreak(beam) && NoBreak(ringId) && forall k :: NoBreak(fixed(k))
    requires forall i :: 0 <= i < |header| ==> NoBreak(RStrip(header[i]))
    ensures var t := Paren.Turns(d, turns);
            var names := ListBpms(d);
            Lines(Paren.SddsText(d, beam, ringId, turns, fmt, fixed, header))
            == HeadLines(beam, ringId, fixed(t), fixed(|names|), header) + RowLines(fmt, d, names, t)
  {
    var t := Paren.Turns(d, turns);
    var names := ListBpms(d);
    var head := HeadLines(beam, ringId, fixed(t), fixed(|names|), header);
    var rows := RowLines(fmt, d, names, t);
    SddsTextIsText(d, beam, ringId, turns, fmt, fixed, header);
    assert forall i :: 0 <= i < |names| ==> names[i] in names;
    RowLinesNoBreak(fmt, d, names, t);
    HeaderNoBreak(beam, ringId, fixed(t), fixed(|names|), header);
    NoBreakLines(head, rows);
    LinesOfText(head + rows);
  }

  /** After the header lines and the row lines, the accumulator holds each BPM's written planes. */
  lemma AccumulatedRows(value: string -> real, fmt: real -> string, d: Data, head: seq<string>, t: int)
    requires t > 0 && forall v :: IsNumToken(fmt(v))
    requires forall n :: n in d ==> RowName(n)
    requires forall i :: 0 <= i < |head| ==> Sdds.ParseLine(head[i]).None?
    ensures var acc := Sdds.Accumulate(value, head + RowLines(fmt, d, ListBpms(d), t));
            && acc.Keys == d.Keys
            && forall n :: n in d ==>
                 acc[n] == Sdds.Planes(DataRoundTrip.ReadBack(value, fmt, Paren.Plane(d[n].x, t)),
                                       DataRoundTrip.ReadBack(value, fmt, Paren.Plane(d[n].y, t)))
  {
    var lines := head + RowLines(fmt, d, ListBpms(d), t);
    Sdds.AccumulateKeys(value, lines);
    LinesName(fmt, d, head, t);
    forall n | n in d
      ensures Sdds.Accumulate(value, lines)[n]
              == Sdds.Planes(DataRoundTrip.ReadBack(value, fmt, Paren.Plane(d[n].x, t)),
                             DataRoundTrip.ReadBack(value, fmt, Paren.Plane(d[n].y, t)))
    {
      Sdds.AccumulateByName(value, lines, n);
      PlaneRead(value, fmt, d, head, t, n, X);
      PlaneRead(value, fmt, d, head, t, n, Y);
    }
  }

  /** The header lines and the row lines name exactly the BPMs of the data. */
  lemma LinesName(fmt: real -> string, d: Data, head: seq<string>, t: int)
    requires t > 0 && forall v :: IsNumToken(fmt(v))
    requires forall n :: n in d ==> RowName(n)
    requires forall i :: 0 <= i < |head| ==> Sdds.ParseLine(head[i]).None?
    ensures Sdds.NamesOf(head + RowLines(fmt, d, ListBpms(d), t)) == d.Keys
  {
    var names := ListBpms(d);
    var rows := RowLines(fmt, d, names, t);
    assert forall i :: 0 <= i < |names| ==> names[i] in names;
    RowLinesNames(fmt, d, names, t);
    NamesOfAppend(head, rows);
    SkippedAddNothing(k => 0.0, head, "", X);
    SameKeys(Elements(names), names, d);
  }

  lemma SameKeys(e: set<string>, names: seq<string>, d: Data)
    requires forall n :: n in e <==> n in names
    requires forall n :: n in names <==> n in d
    ensures {} + e == d.Keys
  {
  }

  /** One plane of one BPM, gathered over the header lines and the row lines. */
  lemma PlaneRead(value: string -> real, fmt: real -> string, d: Data, head: seq<string>, t: int,
                  n: string, p: Component)
    requires t > 0 && p != Z && forall v :: IsNumToken(fmt(v))
    requires forall m :: m in d ==> RowName(m)
    requires forall i :: 0 <= i < |head| ==> Sdds.ParseLine(head[i]).None?
    requires n in d
    ensures Sdds.PlaneOf(value, head + RowLines(fmt, d, ListBpms(d), t), n, p)
            == DataRoundTrip.ReadBack(value, fmt, Paren.Plane(if p == X then d[n].x else d[n].y, t))
  {
    var names := ListBpms(d);
    assert forall i :: 0 <= i < |names| ==> names[i] in names;
    RowLinesRead(value, fmt, d, names, t, n, p);
    SkippedAddNothing(value, head, n, p);
    PlaneOfAppend(value, head, RowLines(fmt, d, names, t), n, p);
  }

  lemma NoBreakConcat(a: string, b: string)
    requires NoBreak(a) && NoBreak(b)
    ensures NoBreak(a + b)
  {
    forall k | 0 <= k < |a + b| ensures !IsLineBreak((a + b)[k]) {
      if k >= |a| {
        assert (a + b)[k] == b[k - |a|];
      }
    }
  }

  lemma HeaderNoBreak(beam: string, ringId: string, turnsText: string, monitorsText: string, header: seq<string>)
    requires NoBreak(beam) && NoBreak(ringId) && NoBreak(turnsText) && NoBreak(monitorsText)
    requires forall i :: 0 <= i < |header| ==> NoBreak(RStrip(header[i]))
    ensures var ls := PreambleLines(beam, ringId, turnsText, monitorsText) + CommentBodies(header);
            forall i :: 0 <= i < |ls| ==> NoBreak(ls[i])
  {
    PreambleNoBreak(beam, ringId, turnsText, monitorsText);
    CommentsNoBreak(header);
    NoBreakLines(PreambleLines(beam, ringId, turnsText, monitorsText), CommentBodies(header));
  }

  lemma PreambleNoBreak(beam: string, ringId: string, turnsText: string, monitorsText: string)
    requires NoBreak(beam) && NoBreak(ringId) && NoBreak(turnsText) && NoBreak(monitorsText)
    ensures var p := PreambleLines(beam, ringId, turnsText, monitorsText);
            forall i :: 0 <= i < |p| ==> NoBreak(p[i])
  {
    LabelsNoBreak();
    NoBreakConcat("# Beam: ", beam);
    NoBreakConcat("# RingID: ", ringId);
    NoBreakConcat("# number of turns : ", turnsText);
    NoBreakConcat("# number of monitors : ", monitorsText);
  }

  lemma LabelsNoBreak()
    ensures NoBreak("# SDDSASCIIFORMAT v1") && NoBreak("# Beam: ") && NoBreak("# RingID: ")
    ensures NoBreak("# number of turns : ") && NoBreak("# number of monitors : ")
  {
  }

  lemma CommentsNoBreak(header: seq<string>)
    requires forall i :: 0 <= i < |header| ==> NoBreak(RStrip(header[i]))
    ensures forall i :: 0 <= i < |header| ==> NoBreak(CommentBodies(header)[i])
  {
    forall i | 0 <= i < |header| ensures NoBreak(CommentBodies(header)[i]) {
      NoBreakConcat("# ", RStrip(header[i]));
    }
  }
}
