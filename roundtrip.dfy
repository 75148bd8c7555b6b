/**
 * Reading back what the writers write: the `.data` text of
 * `BPMDataSDDS.to_data`, read by `BPMDataParen.from_file`, gives every BPM
 * back with the values it wrote.
 */
module DataRoundTrip {
  import opened Strings
  import opened Tokens
  import opened Order
  import opened Dataset
  import Paren
  import Sdds

  /**
   * A BPM name `_PATTERN` reads back whole: not empty, not starting with
   * whitespace, no '"', no backslash; and no '\r', which `read_text`'s
   * universal newlines would read back as '\n'.
   */
  predicate PlainName(n: string)
  {
    n != [] && !IsSpace(n[0]) && '"' !in n && '\\' !in n && '\r' !in n
  }

  /**
   * A layout whose text reads back: every formatted value is one number, and
   * the separator is never part of a number, a brace, a backslash or a
   * '\r' (which `read_text` would turn into '\n').
   */
  ghost predicate ReadableLayout(layout: Sdds.Layout)
  {
    && layout.sep != [] && AllInert(layout.sep)
    && '\\' !in layout.sep && '{' !in layout.sep && '}' !in layout.sep && '\r' !in layout.sep
    && forall v :: IsNumToken(layout.fmt(v))
  }

  /** Each value as it is read back: formatted by `fmt`, then parsed by `float`. */
  function ReadBack(value: string -> real, fmt: real -> string, a: seq<real>): (r: seq<real>)
    ensures |r| == |a|
    ensures forall k :: 0 <= k < |a| ==> r[k] == value(fmt(a[k]))
  {
    Map(value, Map(fmt, a))
  }

  /** What the reader finds for one BPM: the arrays `to_data` formatted, each read back. */
  function Expected(value: string -> real, layout: Sdds.Layout, t: Triple): Triple
  {
    var w := Sdds.Written(layout, t);
    Triple(ReadBack(value, layout.fmt, w.x), ReadBack(value, layout.fmt, w.y), ReadBack(value, layout.fmt, w.z))
  }

  // ---------------------------------------------------------------- the characters written

  /** An entry, with the text after it, is the character sequence the block scanner takes apart. */
  lemma EntryShape(name: string, sx: string, sy: string, sz: string, rest: string)
    ensures Sdds.EntryText(name, sx, sy, sz) + rest
            == ['('] + (['"'] + (name + (['"'] + (['-'] + (['>'] + (['\n'] + (['{'] + (['{'] + (sx + (['}']
              + ([','] + (['\n'] + (['{'] + (sy + (['}'] + ([','] + (['\n'] + (['{'] + (sz + (['}'] + (['}']
              + ([')'] + rest))))))))))))))))))))))
  {
    var z := "}})" + rest;
    var y := "},\n{" + (sz + z);
    var x := "},\n{" + (sy + y);
    var w := "\"->\n{{" + (sx + x);
    var p1 := "(\"" + name;
    var p2 := p1 + "\"->\n{{";
    var p3 := p2 + sx;
    var p4 := p3 + "},\n{";
    var p5 := p4 + sy;
    var p6 := p5 + "},\n{";
    var p7 := p6 + sz;
    calc {
      Sdds.EntryText(name, sx, sy, sz) + rest;
      (p7 + "}})") + rest;
      { Assoc(p7, "}})", rest); }
      p7 + z;
      { Assoc(p6, sz, z); }
      p6 + (sz + z);
      { Assoc(p5, "},\n{", sz + z); }
      p5 + y;
      { Assoc(p4, sy, y); }
      p4 + (sy + y);
      { Assoc(p3, "},\n{", sy + y); }
      p3 + x;
      { Assoc(p2, sx, x); }
      p2 + (sx + x);
      { Assoc(p1, "\"->\n{{", sx + x); }
      p1 + w;
      { Assoc("(\"", name, w); }
      "(\"" + (name + w);
    }
    OpenLiteral(name + w);
    ArrowLiteral(sx + x);
    CommaLiteral(sy + y);
    CommaLiteral(sz + z);
    CloseLiteral(rest);
  }

  lemma Assoc(a: string, b: string, c: string)
    ensures (a + b) + c == a + (b + c)
  {
  }

  lemma OpenLiteral(s: string)
    ensures "(\"" + s == ['('] + (['"'] + s)
  {
  }

  lemma ArrowLiteral(s: string)
    ensures "\"->\n{{" + s == ['"'] + (['-'] + (['>'] + (['\n'] + (['{'] + (['{'] + s)))))
  {
  }

  lemma CommaLiteral(s: string)
    ensures "},\n{" + s == ['}'] + ([','] + (['\n'] + (['{'] + s)))
  {
  }

  lemma CloseLiteral(s: string)
    ensures "}})" + s == ['}'] + (['}'] + ([')'] + s))
  {
  }

  /** Whitespace is never part of a number, so stripping it changes no token. */
  lemma NumTokensLStrip(s: string)
    ensures NumTokens(LStrip(s)) == NumTokens(s)
  {
    var n := SpaceRun(s);
    assert s == s[..n] + LStrip(s);
    assert AllInert(s[..n]);
    NumTokensInertPrefix(s[..n], LStrip(s));
  }

  lemma {:induction false} FlattenHas(cs: seq<seq<string>>, k: nat, j: nat)
    requires k < |cs| && j < |cs[k]|
    ensures cs[k][j] in Sdds.Flatten(cs)
    decreases k
  {
    if k > 0 {
      FlattenHas(cs[1..], k - 1, j);
    }
  }

  /** `fmt_array` writes no character that is neither in a number, in the separator, nor in ",\n". */
  lemma FmtTextAvoids(fmt: real -> string, sep: string, columns: int, a: seq<real>, c: char)
    requires Inert(c) && c != ',' && c != '\n' && c !in sep
    requires forall v :: IsNumToken(fmt(v))
    ensures c !in Sdds.FmtText(fmt, sep, columns, a)
  {
    var vals := Map(fmt, a);
    forall k | 0 <= k < |vals| ensures c !in vals[k] {
      var v := a[k];
      assert IsNumToken(fmt(v));
      assert vals[k] == fmt(v);
      NumTokenIsLive(vals[k]);
    }
    if columns > 0 {
      var cs := Sdds.Chunks(vals, columns);
      var rows := Sdds.JoinRows(sep, cs);
      forall k | 0 <= k < |cs| ensures c !in rows[k] {
        forall j | 0 <= j < |cs[k]| ensures c !in cs[k][j] {
          FlattenHas(cs, k, j);
        }
        JoinAvoids(sep, cs[k], c);
      }
      JoinAvoids(",\n", rows, c);
    } else {
      JoinAvoids(sep, vals, c);
    }
  }

  // ---------------------------------------------------------------- one entry

  /** The match the reader finds in one entry. */
  function EntryBlock(layout: Sdds.Layout, name: string, t: Triple): Paren.Block
  {
    var w := Sdds.Written(layout, t);
    Paren.Block(name, LStrip(Sdds.FmtText(layout.fmt, layout.sep, layout.columns, w.x)),
                LStrip(Sdds.FmtText(layout.fmt, layout.sep, layout.columns, w.y)),
                LStrip(Sdds.FmtText(layout.fmt, layout.sep, layout.columns, w.z)))
  }

  lemma EntryTextAvoids(name: string, sx: string, sy: string, sz: string)
    requires '\\' !in name && '\\' !in sx && '\\' !in sy && '\\' !in sz
    ensures '\\' !in Sdds.EntryText(name, sx, sy, sz)
  {
  }

  lemma EntryAvoids(layout: Sdds.Layout, name: string, t: Triple)
    requires ReadableLayout(layout) && PlainName(name)
    ensures '\\' !in Sdds.Entry(layout, name, t)
  {
    var w := Sdds.Written(layout, t);
    FmtTextAvoids(layout.fmt, layout.sep, layout.columns, w.x, '\\');
    FmtTextAvoids(layout.fmt, layout.sep, layout.columns, w.y, '\\');
    FmtTextAvoids(layout.fmt, layout.sep, layout.columns, w.z, '\\');
    EntryTextAvoids(name, Sdds.FmtText(layout.fmt, layout.sep, layout.columns, w.x),
                    Sdds.FmtText(layout.fmt, layout.sep, layout.columns, w.y),
                    Sdds.FmtText(layout.fmt, layout.sep, layout.columns, w.z));
  }

  /** An entry is one match of `_PATTERN`, and the text after it is left as it is. */
  lemma ReadEntry(layout: Sdds.Layout, name: string, t: Triple, rest: string)
    requires ReadableLayout(layout) && PlainName(name)
    ensures Paren.MatchBlock(Sdds.Entry(layout, name, t) + rest) == Some((EntryBlock(layout, name, t), rest))
  {
    var w := Sdds.Written(layout, t);
    var sx := Sdds.FmtText(layout.fmt, layout.sep, layout.columns, w.x);
    var sy := Sdds.FmtText(layout.fmt, layout.sep, layout.columns, w.y);
    var sz := Sdds.FmtText(layout.fmt, layout.sep, layout.columns, w.z);
    FmtTextAvoids(layout.fmt, layout.sep, layout.columns, w.x, '{');
    FmtTextAvoids(layout.fmt, layout.sep, layout.columns, w.x, '}');
    FmtTextAvoids(layout.fmt, layout.sep, layout.columns, w.y, '{');
    FmtTextAvoids(layout.fmt, layout.sep, layout.columns, w.y, '}');
    FmtTextAvoids(layout.fmt, layout.sep, layout.columns, w.z, '{');
    FmtTextAvoids(layout.fmt, layout.sep, layout.columns, w.z, '}');
    EntryShape(name, sx, sy, sz, rest);
    Paren.MatchBlockOfEntry(name, sx, sy, sz, rest);
  }

  /** The numbers of an entry's match are the values `to_data` formatted, each read back. */
  lemma EntryReadsBack(value: string -> real, layout: Sdds.Layout, name: string, t: Triple)
    requires ReadableLayout(layout)
    ensures Paren.TripleOf(value, EntryBlock(layout, name, t)) == Expected(value, layout, t)
  {
    var w := Sdds.Written(layout, t);
    NumTokensLStrip(Sdds.FmtText(layout.fmt, layout.sep, layout.columns, w.x));
    NumTokensLStrip(Sdds.FmtText(layout.fmt, layout.sep, layout.columns, w.y));
    NumTokensLStrip(Sdds.FmtText(layout.fmt, layout.sep, layout.columns, w.z));
    Sdds.FmtTextReadsBack(layout.fmt, layout.sep, layout.columns, w.x);
    Sdds.FmtTextReadsBack(layout.fmt, layout.sep, layout.columns, w.y);
    Sdds.FmtTextReadsBack(layout.fmt, layout.sep, layout.columns, w.z);
  }

  // ---------------------------------------------------------------- the whole text

  /** The matches the reader finds in the entries, in `list_bpms` order. */
  function EntryBlocks(layout: Sdds.Layout, d: Data, names: seq<string>): (bs: seq<Paren.Block>)
    requires forall k :: 0 <= k < |names| ==> names[k] in d
    ensures |bs| == |names|
  {
    if names == [] then [] else [EntryBlock(layout, names[0], d[names[0]])] + EntryBlocks(layout, d, names[1..])
  }

  lemma {:induction false} EntryBlockAt(layout: Sdds.Layout, d: Data, names: seq<string>, k: nat)
    requires forall k :: 0 <= k < |names| ==> names[k] in d
    requires k < |names|
    ensures EntryBlocks(layout, d, names)[k] == EntryBlock(layout, names[k], d[names[k]])
    decreases k
  {
    if k > 0 {
      EntryBlockAt(layout, d, names[1..], k - 1);
    }
  }

  /** The entries, each followed by ",\n" except the last, which is followed by "\n". */
  function Separated(es: seq<string>): (ps: seq<string>)
    ensures |ps| == |es|
    ensures forall i :: 0 <= i < |es| ==> ps[i] == es[i] + (if i < |es| - 1 then ",\n" else "\n")
  {
    seq(|es|, i requires 0 <= i < |es| => es[i] + (if i < |es| - 1 then ",\n" else "\n"))
  }

  lemma ConcatFrom(ps: seq<string>, i: nat, tail: string)
    requires i < |ps|
    ensures Concat(ps[i..]) + tail == ps[i] + (Concat(ps[i + 1..]) + tail)
  {
    assert ps[i..][1..] == ps[i + 1..];
  }

  /** A whole match, a separator without '(', and then the rest. */
  lemma BlocksStep(e: string, after: string, x: string, b: Paren.Block)
    requires '(' !in after
    requires forall rest :: Paren.MatchBlock(e + rest) == Some((b, rest))
    ensures Paren.Blocks(e + (after + x)) == [b] + Paren.Blocks(x)
  {
    Paren.BlocksAtMatch(e + (after + x), b, after + x);
    Paren.BlocksSkipPlainText(after, x);
  }

  /** A closing text without '(' has no match. */
  lemma BlocksNone(tail: string)
    requires '(' !in tail
    ensures Paren.Blocks(tail) == []
  {
    Paren.BlocksSkipPlainText(tail, []);
    assert tail + [] == tail;
  }

  /** Entry `i` on, each with its separator, then the closing text. */
  function Joined(es: seq<string>, i: nat, tail: string): (s: string)
    requires i <= |es|
    ensures i < |es| ==> es[i] <= s
    decreases |es| - i
  {
    if i == |es| then tail else es[i] + ((if i < |es| - 1 then ",\n" else "\n") + Joined(es, i + 1, tail))
  }

  lemma {:induction false} JoinedIsConcat(es: seq<string>, i: nat, tail: string)
    requires i <= |es|
    ensures Joined(es, i, tail) == Concat(Separated(es)[i..]) + tail
    decreases |es| - i
  {
    var ps := Separated(es);
    if i == |es| {
      assert ps[i..] == [];
      assert Concat(ps[i..]) + tail == tail;
    } else {
      JoinedIsConcat(es, i + 1, tail);
      ConcatFrom(ps, i, tail);
      var after := if i < |es| - 1 then ",\n" else "\n";
      assert ps[i] + (Concat(ps[i + 1..]) + tail) == es[i] + (after + (Concat(ps[i + 1..]) + tail));
    }
  }

  /** A reader `f` that takes one item off each entry of a chain reads the whole chain item by item. */
  lemma {:induction false} Chain<T>(f: string -> seq<T>, es: seq<string>, bs: seq<T>, i: nat, tail: string)
    requires |es| == |bs| && i <= |es| && f(tail) == []
    requires forall k :: i <= k < |es| ==> f(Joined(es, k, tail)) == [bs[k]] + f(Joined(es, k + 1, tail))
    ensures f(Joined(es, i, tail)) == bs[i..]
    decreases |es| - i
  {
    if i < |es| {
      Chain(f, es, bs, i + 1, tail);
      assert bs[i..] == [bs[i]] + bs[i + 1..];
    }
  }

  lemma JoinedStep(es: seq<string>, k: nat, tail: string, b: Paren.Block)
    requires k < |es|
    requires forall rest :: Paren.MatchBlock(es[k] + rest) == Some((b, rest))
    ensures Paren.Blocks(Joined(es, k, tail)) == [b] + Paren.Blocks(Joined(es, k + 1, tail))
  {
    var after := if k < |es| - 1 then ",\n" else "\n";
    var x := Joined(es, k + 1, tail);
    assert Joined(es, k, tail) == es[k] + (after + x);
    BlocksStep(es[k], after, x, b);
  }

  /** Entries that are each one whole match, separated as `to_data` separates them, are matched one by one. */
  lemma BlocksOfSeparated(es: seq<string>, bs: seq<Paren.Block>, tail: string)
    requires |es| == |bs| && '(' !in tail
    requires forall k, rest :: 0 <= k < |es| ==> Paren.MatchBlock(es[k] + rest) == Some((bs[k], rest))
    ensures Paren.Blocks(Concat(Separated(es)) + tail) == bs
  {
    forall k | 0 <= k < |es|
      ensures Paren.Blocks(Joined(es, k, tail)) == [bs[k]] + Paren.Blocks(Joined(es, k + 1, tail))
    {
      JoinedStep(es, k, tail, bs[k]);
    }
    BlocksNone(tail);
    Chain(Paren.Blocks, es, bs, 0, tail);
    JoinedIsConcat(es, 0, tail);
    assert Separated(es)[0..] == Separated(es);
    assert bs[0..] == bs;
  }

  /** Matches with distinct names in ascending order give each name its own entry. */
  lemma CollectDistinct(value: string -> real, bs: seq<Paren.Block>, names: seq<string>, m: Data)
    requires |bs| == |names| && StrictlySorted(names)
    requires forall n :: n in m <==> n in names
    requires forall k :: 0 <= k < |bs| ==> bs[k].name == names[k] && names[k] in m && Paren.TripleOf(value, bs[k]) == m[names[k]]
    ensures Paren.Collect(value, bs) == m
  {
    var c := Paren.Collect(value, bs);
    forall n ensures n in c <==> n in m {
      DistinctKey(value, bs, names, m, n);
    }
    forall n | n in m ensures c[n] == m[n] {
      DistinctEntry(value, bs, names, m, n);
    }
    SameMap(c, m);
  }

  lemma DistinctKey(value: string -> real, bs: seq<Paren.Block>, names: seq<string>, m: Data, n: string)
    requires |bs| == |names|
    requires forall n :: n in m <==> n in names
    requires forall k :: 0 <= k < |bs| ==> bs[k].name == names[k]
    ensures n in Paren.Collect(value, bs) <==> n in m
  {
    Paren.CollectKeys(value, bs, n);
    if n in m {
      var k :| 0 <= k < |names| && names[k] == n;
      assert bs[k].name == n;
    }
  }

  lemma DistinctEntry(value: string -> real, bs: seq<Paren.Block>, names: seq<string>, m: Data, n: string)
    requires |bs| == |names| && StrictlySorted(names)
    requires forall n :: n in m <==> n in names
    requires forall k :: 0 <= k < |bs| ==> bs[k].name == names[k] && names[k] in m && Paren.TripleOf(value, bs[k]) == m[names[k]]
    requires n in m
    ensures n in Paren.Collect(value, bs) && Paren.Collect(value, bs)[n] == m[n]
  {
    var k :| 0 <= k < |names| && names[k] == n;
    forall j | k < j < |bs| ensures bs[j].name != bs[k].name {
      assert LexLt(names[k], names[j]);
    }
    Paren.CollectLastWins(value, bs, k);
  }

  lemma SameMap(c: Data, m: Data)
    requires forall n :: n in c <==> n in m
    requires forall n :: n in m ==> c[n] == m[n]
    ensures c == m
  {
  }

  /** A text of plain opening, separated entries and plain closing reads as the matches of its entries. */
  lemma ReadSeparated(value: string -> real, head: string, es: seq<string>, bs: seq<Paren.Block>, tail: string)
    requires |es| == |bs|
    requires '(' !in head && '\\' !in head && '(' !in tail && '\\' !in tail
    requires forall k :: 0 <= k < |es| ==> '\\' !in es[k]
    requires forall k, rest :: 0 <= k < |es| ==> Paren.MatchBlock(es[k] + rest) == Some((bs[k], rest))
    ensures Paren.ReadParen(value, head + (Concat(Separated(es)) + tail)) == Paren.Collect(value, bs)
  {
    var x := Concat(Separated(es)) + tail;
    SeparatedAvoids(es, tail);
    AppendAvoids(head, x, '\\');
    Paren.JoinKeepsPlainText(head + x);
    Paren.BlocksSkipPlainText(head, x);
    BlocksOfSeparated(es, bs, tail);
  }

  lemma AppendAvoids(a: string, b: string, c: char)
    requires c !in a && c !in b
    ensures c !in a + b
  {
  }

  /** No separated entry, and not the closing text, holds a backslash. */
  lemma SeparatedAvoids(es: seq<string>, tail: string)
    requires '\\' !in tail
    requires forall k :: 0 <= k < |es| ==> '\\' !in es[k]
    ensures '\\' !in Concat(Separated(es)) + tail
  {
    var ps := Separated(es);
    forall i | 0 <= i < |ps| ensures '\\' !in ps[i] {
    }
    ConcatAvoids(ps, '\\');
    AppendAvoids(Concat(ps), tail, '\\');
  }

  /** The entries `to_data` writes, in `list_bpms` order, before their separators. */
  function EntryTexts(layout: Sdds.Layout, d: Data, names: seq<string>): (es: seq<string>)
    requires forall k :: 0 <= k < |names| ==> names[k] in d
    ensures |es| == |names|
  {
    if names == [] then [] else [Sdds.Entry(layout, names[0], d[names[0]])] + EntryTexts(layout, d, names[1..])
  }

  lemma {:induction false} EntryTextAt(layout: Sdds.Layout, d: Data, names: seq<string>, k: nat)
    requires forall k :: 0 <= k < |names| ==> names[k] in d
    requires k < |names|
    ensures EntryTexts(layout, d, names)[k] == Sdds.Entry(layout, names[k], d[names[k]])
    decreases k
  {
    if k > 0 {
      EntryTextAt(layout, d, names[1..], k - 1);
    }
  }

  lemma PiecesSeparated(layout: Sdds.Layout, d: Data, names: seq<string>)
    requires forall k :: 0 <= k < |names| ==> names[k] in d
    ensures Sdds.Pieces(layout, d, names) == Separated(EntryTexts(layout, d, names))
  {
    forall k | 0 <= k < |names| ensures Sdds.Pieces(layout, d, names)[k] == Separated(EntryTexts(layout, d, names))[k] {
      EntryTextAt(layout, d, names, k);
    }
  }

  /** No header item, once right-stripped, brings a character that none of the items holds. */
  lemma HeaderAvoids(header: seq<string>, c: char)
    requires forall i :: 0 <= i < |header| ==> c !in header[i]
    ensures c !in Concat(Sdds.RStrips(header))
  {
    var items := Sdds.RStrips(header);
    forall i | 0 <= i < |items| ensures c !in items[i] {
      assert items[i] <= header[i];
    }
    ConcatAvoids(items, c);
  }

  /** The braces around the header items bring neither '(' nor a backslash. */
  lemma FramedAvoids(h: string, c: char)
    requires c !in h && c != '{' && c != '}' && c != ',' && c != '\n'
    ensures c !in "{{" + h + "},\n{"
  {
    var s := "{{" + h + "},\n{";
    forall i | 0 <= i < |s| ensures s[i] != c {
      if i >= 2 && i < 2 + |h| {
        assert s[i] == h[i - 2];
      }
    }
  }

  /** Neither the opening nor the closing text of `to_data` holds '(' or a backslash. */
  lemma FrameAvoids(header: seq<string>)
    requires forall i :: 0 <= i < |header| ==> '(' !in header[i] && '\\' !in header[i]
    ensures var head := if header != [] then "{{" + Concat(Sdds.RStrips(header)) + "},\n{" else "{";
      var tail := if header != [] then "}}" else "}";
      '(' !in head && '\\' !in head && '(' !in tail && '\\' !in tail
  {
    HeaderAvoids(header, '(');
    HeaderAvoids(header, '\\');
    var h := Concat(Sdds.RStrips(header));
    FramedAvoids(h, '(');
    FramedAvoids(h, '\\');
  }

  /** The header and the opening brace, and the closing braces, around the entries. */
  lemma DataTextShape(layout: Sdds.Layout, d: Data, header: seq<string>)
    ensures var names := ListBpms(d);
      var head := if header != [] then "{{" + Concat(Sdds.RStrips(header)) + "},\n{" else "{";
      var tail := if header != [] then "}}" else "}";
      Sdds.DataText(layout, d, header) == head + (Concat(Sdds.Pieces(layout, d, names)) + tail)
  {
    var p := Concat(Sdds.Pieces(layout, d, ListBpms(d)));
    assert Sdds.DataBody(layout, d) == "{" + p + "}";
    if header != [] {
      HeadedShape(Concat(Sdds.RStrips(header)), p);
    } else {
      BareShape(p);
    }
  }

  lemma HeadedShape(h: string, p: string)
    ensures "{{" + h + "},\n" + ("{" + p + "}") + "}" == ("{{" + h + "},\n{") + (p + "}}")
  {
  }

  lemma BareShape(p: string)
    ensures "{" + p + "}" == "{" + (p + "}")
  {
  }

  /** No entry holds a backslash, so the line-continuation pass leaves the text alone. */
  lemma EntriesAvoid(layout: Sdds.Layout, d: Data, names: seq<string>)
    requires ReadableLayout(layout)
    requires forall k :: 0 <= k < |names| ==> names[k] in d && PlainName(names[k])
    ensures forall k :: 0 <= k < |names| ==> '\\' !in EntryTexts(layout, d, names)[k]
  {
    forall k | 0 <= k < |names| ensures '\\' !in EntryTexts(layout, d, names)[k] {
      EntryTextAt(layout, d, names, k);
      EntryAvoids(layout, names[k], d[names[k]]);
    }
  }

  /** Each entry, whatever follows it, is one whole match of the block pattern. */
  lemma EntriesMatch(layout: Sdds.Layout, d: Data, names: seq<string>)
    requires ReadableLayout(layout)
    requires forall k :: 0 <= k < |names| ==> names[k] in d && PlainName(names[k])
    ensures forall k, rest :: 0 <= k < |names| ==>
      Paren.MatchBlock(EntryTexts(layout, d, names)[k] + rest) == Some((EntryBlocks(layout, d, names)[k], rest))
  {
    forall k, rest | 0 <= k < |names|
      ensures Paren.MatchBlock(EntryTexts(layout, d, names)[k] + rest) == Some((EntryBlocks(layout, d, names)[k], rest))
    {
      EntryTextAt(layout, d, names, k);
      EntryBlockAt(layout, d, names, k);
      ReadEntry(layout, names[k], d[names[k]], rest);
    }
  }

  /** Each match carries its BPM's name and reads as the arrays `to_data` wrote for it. */
  lemma EntriesReadBack(value: string -> real, layout: Sdds.Layout, d: Data, names: seq<string>, m: Data)
    requires ReadableLayout(layout)
    requires forall k :: 0 <= k < |names| ==> names[k] in d
    requires m == map n | n in d :: Expected(value, layout, d[n])
    ensures forall k :: 0 <= k < |names| ==>
      && EntryBlocks(layout, d, names)[k].name == names[k] && names[k] in m
      && Paren.TripleOf(value, EntryBlocks(layout, d, names)[k]) == m[names[k]]
  {
    forall k | 0 <= k < |names|
      ensures && EntryBlocks(layout, d, names)[k].name == names[k] && names[k] in m
        && Paren.TripleOf(value, EntryBlocks(layout, d, names)[k]) == m[names[k]]
    {
      EntryBlockAt(layout, d, names, k);
      EntryReadsBack(value, layout, names[k], d[names[k]]);
    }
  }

  /** A text made of entries that are whole matches, in ascending name order, reads as the map they name. */
  lemma ReadAll(value: string -> real, text: string, head: string, es: seq<string>, bs: seq<Paren.Block>, names: seq<string>, m: Data, tail: string)
    requires text == head + (Concat(Separated(es)) + tail)
    requires |es| == |bs| == |names| && StrictlySorted(names)
    requires forall n :: n in m <==> n in names
    requires '(' !in head && '\\' !in head && '(' !in tail && '\\' !in tail
    requires forall k :: 0 <= k < |es| ==> '\\' !in es[k]
    requires forall k, rest :: 0 <= k < |es| ==> Paren.MatchBlock(es[k] + rest) == Some((bs[k], rest))
    requires forall k :: 0 <= k < |bs| ==> bs[k].name == names[k] && names[k] in m && Paren.TripleOf(value, bs[k]) == m[names[k]]
    ensures Paren.ReadParen(value, text) == m
  {
    ReadSeparated(value, head, es, bs, tail);
    CollectDistinct(value, bs, names, m);
  }

  /** The text `to_data` writes, as an opening, the separated entries and a closing. */
  lemma DataTextJoined(layout: Sdds.Layout, d: Data, header: seq<string>)
    ensures var names := ListBpms(d);
      var head := if header != [] then "{{" + Concat(Sdds.RStrips(header)) + "},\n{" else "{";
      var tail := if header != [] then "}}" else "}";
      Sdds.DataText(layout, d, header) == head + (Concat(Separated(EntryTexts(layout, d, names))) + tail)
  {
    DataTextShape(layout, d, header);
    PiecesSeparated(layout, d, ListBpms(d));
  }

  /**
   * `to_data` followed by `BPMDataParen.from_file`: every BPM comes back
   * under its own name, with the scaled arrays `to_data` wrote, first sample
   * dropped, each value formatted and read back. It holds for names the block
   * pattern reads whole, for a layout whose numbers read back as written, and
   * for header items with no '(', backslash or '\r'. No name, separator or
   * header item then brings a '\r' into the text, so the universal-newline
   * translation of `read_text` leaves it as written.
   */
  lemma DataReadsBack(value: string -> real, layout: Sdds.Layout, d: Data, header: seq<string>)
    requires ReadableLayout(layout)
    requires forall n :: n in d ==> PlainName(n)
    requires forall i :: 0 <= i < |header| ==> '(' !in header[i] && '\\' !in header[i] && '\r' !in header[i]
    ensures Paren.ReadParen(value, Sdds.DataText(layout, d, header)) == map n | n in d :: Expected(value, layout, d[n])
  {
    var names := ListBpms(d);
    var es := EntryTexts(layout, d, names);
    var bs := EntryBlocks(layout, d, names);
    var m := map n | n in d :: Expected(value, layout, d[n]);
    var head := if header != [] then "{{" + Concat(Sdds.RStrips(header)) + "},\n{" else "{";
    var tail := if header != [] then "}}" else "}";
    FrameAvoids(header);
    EntriesAvoid(layout, d, names);
    EntriesMatch(layout, d, names);
    EntriesReadBack(value, layout, d, names, m);
    DataTextJoined(layout, d, header);
    ReadAll(value, Sdds.DataText(layout, d, header), head, es, bs, names, m, tail);
  }
}
