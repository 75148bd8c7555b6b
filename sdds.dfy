/**
 * `BPMDataSDDS`: the reader of the row-tagged `.sdds` format
 * (`0 NAME x1 x2 ...` and `1 NAME y1 y2 ...` lines) and its writer of the
 * parenthesised `.data` format.
 */
module Sdds {
  import opened Strings
  import opened Tokens
  import opened Order
  import opened Dataset

  // ---------------------------------------------------------------- reading

  /** A data line that `from_file` keeps: the BPM, the plane its tag names, and its number tokens. */
  datatype Tagged = Tagged(name: string, plane: Component, toks: seq<string>)

  /**
   * The decision `from_file` takes on one line: `None` when the line is
   * skipped (blank, a `#` comment, fewer than three fields, a tag other than
   * "0" or "1", or a payload without a number).
   */
  function ParseLine(raw: string): (r: Option<Tagged>)
    ensures (Strip(raw) == [] || Strip(raw)[0] == '#') ==> r.None?
    ensures r.Some? ==> r.value.toks != [] && r.value.plane != Z
  {
    var s := Strip(raw);
    if s == [] || s[0] == '#' then None
    else
      var parts := SplitFields3(s);
      if |parts| < 3 then None
      else if parts[0] != "0" && parts[0] != "1" then None
      else
        var toks := NumTokens(parts[2]);
        if toks == [] then None
        else Some(Tagged(parts[1], if parts[0] == "0" then X else Y, toks))
  }

  /** The `acc` lists of one BPM, before any mirroring. */
  datatype Planes = Planes(x: seq<real>, y: seq<real>)

  type Acc = map<string, Planes>

  /** `acc[name][comp].extend(nums)` for a kept line; a skipped line changes nothing. */
  function Step(value: string -> real, acc: Acc, raw: string): Acc
  {
    match ParseLine(raw)
    case None => acc
    case Some(t) =>
      var cur := if t.name in acc then acc[t.name] else Planes([], []);
      var vs := Map(value, t.toks);
      acc[t.name := if t.plane == X then Planes(cur.x + vs, cur.y) else Planes(cur.x, cur.y + vs)]
  }

  /** `acc` after the first loop of `from_file`. */
  function Accumulate(value: string -> real, lines: seq<string>): Acc
    decreases |lines|
  {
    if lines == [] then map[]
    else Step(value, Accumulate(value, lines[..|lines| - 1]), lines[|lines| - 1])
  }

  /** Reference definition: the values of the kept lines of `name` and `plane`, in file order. */
  function PlaneOf(value: string -> real, lines: seq<string>, name: string, plane: Component): seq<real>
    decreases |lines|
  {
    if lines == [] then []
    else
      var rest := PlaneOf(value, lines[..|lines| - 1], name, plane);
      match ParseLine(lines[|lines| - 1])
      case None => rest
      case Some(t) => if t.name == name && t.plane == plane then rest + Map(value, t.toks) else rest
  }

  /** Reference definition: the BPMs that some kept line names. */
  function NamesOf(lines: seq<string>): set<string>
    decreases |lines|
  {
    if lines == [] then {}
    else
      var rest := NamesOf(lines[..|lines| - 1]);
      match ParseLine(lines[|lines| - 1])
      case None => rest
      case Some(t) => rest + {t.name}
  }

  /** The accumulator holds exactly the BPMs that some kept line names. */
  lemma {:induction false} AccumulateKeys(value: string -> real, lines: seq<string>)
    ensures Accumulate(value, lines).Keys == NamesOf(lines)
    decreases |lines|
  {
    if lines != [] {
      AccumulateKeys(value, lines[..|lines| - 1]);
    }
  }

  /** For each BPM, its x and y values are those of its tag-0 and tag-1 lines, in file order. */
  lemma {:induction false} AccumulateByName(value: string -> real, lines: seq<string>, name: string)
    requires name in Accumulate(value, lines)
    ensures Accumulate(value, lines)[name] == Planes(PlaneOf(value, lines, name, X), PlaneOf(value, lines, name, Y))
    decreases |lines|
  {
    var prev := lines[..|lines| - 1];
    var acc := Accumulate(value, prev);
    if name in acc {
      AccumulateByName(value, prev, name);
    } else {
      AccumulateKeys(value, prev);
      NoMentionNoValues(value, prev, name);
    }
  }

  /** A BPM that no kept line names has no values. */
  lemma {:induction false} NoMentionNoValues(value: string -> real, lines: seq<string>, name: string)
    requires name !in NamesOf(lines)
    ensures PlaneOf(value, lines, name, X) == [] && PlaneOf(value, lines, name, Y) == []
    decreases |lines|
  {
    if lines != [] {
      var prev := lines[..|lines| - 1];
      NoMentionNoValues(value, prev, name);
    }
  }

  /** Every BPM in the accumulator has at least one value. */
  lemma {:induction false} AccumulateNonEmpty(value: string -> real, lines: seq<string>)
    ensures forall n :: n in Accumulate(value, lines) ==>
              |Accumulate(value, lines)[n].x| + |Accumulate(value, lines)[n].y| > 0
    decreases |lines|
  {
    if lines != [] {
      AccumulateNonEmpty(value, lines[..|lines| - 1]);
    }
  }

  /**
   * The post-processing of one BPM: a missing plane is mirrored as zeros of
   * the other's length, and z is zeros of x's length. Two present planes keep
   * their own, possibly different, lengths.
   */
  function Mirror(p: Planes): (t: Triple)
    ensures |p.x| == 0 && |p.y| > 0 ==> t.x == Zeros(|p.y|) && t.y == p.y
    ensures |p.y| == 0 && |p.x| > 0 ==> t.x == p.x && t.y == Zeros(|p.x|)
    ensures |p.x| > 0 && |p.y| > 0 ==> t.x == p.x && t.y == p.y
    ensures |p.x| == 0 && |p.y| == 0 ==> t.x == [] && t.y == []
    ensures t.z == Zeros(|t.x|)
  {
    var x := if |p.x| == 0 && |p.y| > 0 then Zeros(|p.y|) else p.x;
    var y := if |p.y| == 0 && |x| > 0 then Zeros(|x|) else p.y;
    Triple(x, y, Zeros(|x|))
  }

  /** The second loop of `from_file`. */
  function Finish(acc: Acc): Data
  {
    map n | n in acc :: Mirror(acc[n])
  }

  /** What `BPMDataSDDS.from_file` builds from the text of a file. */
  function ReadSdds(value: string -> real, text: string): Data
  {
    Finish(Accumulate(value, Lines(text)))
  }

  /** Every BPM read has a non-empty x, a non-empty y, and a z of zeros as long as x. */
  lemma ReadSddsShape(value: string -> real, text: string)
    ensures forall n :: n in ReadSdds(value, text) ==>
              |ReadSdds(value, text)[n].x| > 0 && |ReadSdds(value, text)[n].y| > 0
              && ReadSdds(value, text)[n].z == Zeros(|ReadSdds(value, text)[n].x|)
  {
    AccumulateNonEmpty(value, Lines(text));
  }

  /** The `continue` tests of the first loop of `from_file` and the fields of a kept line. */
  method ParseRaw(raw: string) returns (r: Option<Tagged>)
    ensures r == ParseLine(raw)
  {
    var s := Strip(raw);
    if s == [] || s[0] == '#' {
      return None;
    }
    var parts := SplitFields3(s);
    if |parts| < 3 {
      return None;
    }
    var nStr, name, payload := parts[0], parts[1], parts[2];
    if nStr != "0" && nStr != "1" {
      return None;
    }
    var comp := if nStr == "0" then X else Y;
    var toks := NumTokens(payload);
    if toks == [] {
      return None;
    }
    return Some(Tagged(name, comp, toks));
  }

  /** The body of the first loop of `from_file` for one line. */
  method StepLine(acc: Acc, raw: string, value: string -> real) returns (next: Acc)
    ensures next == Step(value, acc, raw)
  {
    next := acc;
    var p := ParseRaw(raw);
    if p.None? {
      return;
    }
    var nums := Map(value, p.value.toks);
    var cur := if p.value.name in next then next[p.value.name] else Planes([], []);
    if p.value.plane == X {
      next := next[p.value.name := Planes(cur.x + nums, cur.y)];
    } else {
      next := next[p.value.name := Planes(cur.x, cur.y + nums)];
    }
  }

  /** The second loop of `from_file`: mirror a missing plane and synthesise z. */
  method FinishAcc(acc: Acc) returns (d: Data)
    ensures d == Finish(acc)
  {
    d := map[];
    var todo := acc.Keys;
    while todo != {}
      invariant todo <= acc.Keys
      invariant d == map n | n in acc.Keys - todo :: Mirror(acc[n])
      decreases |todo|
    {
      var name :| name in todo;
      var x := acc[name].x;
      var y := acc[name].y;
      if |x| == 0 && |y| > 0 {
        x := Zeros(|y|);
      }
      if |y| == 0 && |x| > 0 {
        y := Zeros(|x|);
      }
      d := d[name := Triple(x, y, Zeros(|x|))];
      todo := todo - {name};
    }
  }

  /** `BPMDataSDDS.from_file`, given the text of the file. */
  method FromFile(text: string, value: string -> real) returns (d: Data)
    ensures d == ReadSdds(value, text)
  {
    var lines := Lines(text);
    var acc: Acc := map[];
    for i := 0 to |lines|
      invariant acc == Accumulate(value, lines[..i])
    {
      assert lines[..i + 1][..i] == lines[..i];
      acc := StepLine(acc, lines[i], value);
    }
    assert lines[..|lines|] == lines;
    d := FinishAcc(acc);
  }

  // ---------------------------------------------------------------- writing

  /** Concatenation of a sequence of rows. */
  function Flatten(cs: seq<seq<string>>): seq<string>
  {
    if cs == [] then [] else cs[0] + Flatten(cs[1..])
  }

  /**
   * `vals[i:i + columns]` for `i` in `range(0, len(vals), columns)`: the rows
   * of `fmt_array`, each full but the last, which holds the remainder.
   */
  function Chunks(vals: seq<string>, columns: nat): (cs: seq<seq<string>>)
    requires columns > 0
    ensures Flatten(cs) == vals
    ensures forall k :: 0 <= k < |cs| ==> 0 < |cs[k]| <= columns
    ensures forall k :: 0 <= k < |cs| - 1 ==> |cs[k]| == columns
    decreases |vals|
  {
    if vals == [] then []
    else if |vals| <= columns then
      assert [vals][1..] == [];
      [vals]
    else
      var rest := Chunks(vals[columns..], columns);
      assert ([vals[..columns]] + rest)[1..] == rest;
      [vals[..columns]] + rest
  }

  /** `sep.join` of each row. */
  function JoinRows(sep: string, cs: seq<seq<string>>): (ls: seq<string>)
    ensures |ls| == |cs|
    ensures forall k :: 0 <= k < |cs| ==> ls[k] == Join(sep, cs[k])
  {
    if cs == [] then [] else [Join(sep, cs[0])] + JoinRows(sep, cs[1..])
  }

  /** `fmt_array(a)`: formatted values, `columns` to a row, rows separated by ",\n". */
  function FmtText(fmt: real -> string, sep: string, columns: int, a: seq<real>): string
  {
    var vals := Map(fmt, a);
    if columns > 0 then Join(",\n", JoinRows(sep, Chunks(vals, columns))) else Join(sep, vals)
  }

  /** Past position `i`, the first row is `vals[i:i + columns]` and the rest starts after it. */
  lemma RowsFrom(vals: seq<string>, sep: string, columns: nat, i: nat)
    requires columns > 0 && i < |vals|
    ensures var hi := if i + columns < |vals| then i + columns else |vals|;
      JoinRows(sep, Chunks(vals[i..], columns)) == [Join(sep, vals[i..hi])] + JoinRows(sep, Chunks(vals[hi..], columns))
  {
    var hi := if i + columns < |vals| then i + columns else |vals|;
    if i + columns < |vals| {
      assert vals[i..][..columns] == vals[i..hi];
      assert vals[i..][columns..] == vals[hi..];
    } else {
      assert vals[i..] == vals[i..hi];
      assert vals[hi..] == [];
    }
  }

  /** One turn of the row loop keeps the rows written so far and the rows still to come together. */
  lemma RowStep(vals: seq<string>, sep: string, columns: nat, i: nat, lines: seq<string>)
    requires columns > 0 && i < |vals|
    ensures var hi := if i + columns < |vals| then i + columns else |vals|;
      (lines + [Join(sep, vals[i..hi])]) + JoinRows(sep, Chunks(vals[hi..], columns))
      == lines + JoinRows(sep, Chunks(vals[i..], columns))
  {
    RowsFrom(vals, sep, columns, i);
  }

  /**
   * The row loop of `fmt_array`. The index stops at `len(vals)` rather than
   * passing it; the rows taken are those of `range(0, len(vals), columns)`.
   */
  method RowTexts(vals: seq<string>, sep: string, columns: int) returns (lines: seq<string>)
    requires columns > 0
    ensures lines == JoinRows(sep, Chunks(vals, columns))
  {
    lines := [];
    var i := 0;
    while i < |vals|
      invariant i <= |vals|
      invariant lines + JoinRows(sep, Chunks(vals[i..], columns)) == JoinRows(sep, Chunks(vals, columns))
      decreases |vals| - i
    {
      var hi := if i + columns < |vals| then i + columns else |vals|;
      RowStep(vals, sep, columns, i, lines);
      lines := lines + [Join(sep, vals[i..hi])];
      i := hi;
    }
  }

  /** `fmt_array`, one row per step of `range(0, len(vals), columns)`. */
  method FmtArray(a: seq<real>, fmt: real -> string, sep: string, columns: int) returns (r: string)
    ensures r == FmtText(fmt, sep, columns, a)
  {
    var vals := Map(fmt, a);
    if columns > 0 {
      var lines := RowTexts(vals, sep, columns);
      if lines == [] {
        return "";
      }
      r := Join(",\n", lines);
    } else {
      r := Join(sep, vals);
    }
  }

  /** The numbers of `fmt_array`'s text are the formatted values, when a separator always parts them. */
  lemma FmtTextReadsBack(fmt: real -> string, sep: string, columns: int, a: seq<real>)
    requires sep != [] && AllInert(sep)
    requires forall k :: 0 <= k < |a| ==> IsNumToken(fmt(a[k]))
    ensures NumTokens(FmtText(fmt, sep, columns, a)) == Map(fmt, a)
  {
    var vals := Map(fmt, a);
    if columns > 0 {
      var cs := Chunks(vals, columns);
      NumTokensOfJoinParts(",\n", JoinRows(sep, cs));
      RowsReadBack(sep, cs);
    } else {
      NumTokensOfJoin(sep, vals);
    }
  }

  /** Each row joined by `sep` reads back as the row. */
  lemma {:induction false} RowsReadBack(sep: string, cs: seq<seq<string>>)
    requires sep != [] && AllInert(sep)
    requires forall t :: t in Flatten(cs) ==> IsNumToken(t)
    ensures FlatTokens(JoinRows(sep, cs)) == Flatten(cs)
    decreases |cs|
  {
    if cs != [] {
      assert Flatten(cs) == cs[0] + Flatten(cs[1..]);
      assert forall k :: 0 <= k < |cs[0]| ==> cs[0][k] in Flatten(cs);
      NumTokensOfJoin(sep, cs[0]);
      assert JoinRows(sep, cs)[1..] == JoinRows(sep, cs[1..]);
      RowsReadBack(sep, cs[1..]);
    }
  }

  /** `a * scale`. */
  function Scaled(a: seq<real>, scale: real): (r: seq<real>)
    ensures |r| == |a|
    ensures forall k :: 0 <= k < |a| ==> r[k] == a[k] * scale
  {
    seq(|a|, k requires 0 <= k < |a| => a[k] * scale)
  }

  /** `a[1:]`. */
  function Drop1(a: seq<real>): (r: seq<real>)
    ensures |r| == if |a| > 0 then |a| - 1 else 0
    ensures forall k :: 0 <= k < |r| ==> r[k] == a[k + 1]
  {
    if a == [] then [] else a[1..]
  }

  /** `np.full_like(x, v)` for an `x` of `n` samples. */
  function Filled(n: nat, v: real): (r: seq<real>)
    ensures |r| == n
    ensures forall k :: 0 <= k < n ==> r[k] == v
  {
    seq(n, k requires 0 <= k < n => v)
  }

  /** The keyword arguments of `to_data` that shape the text (`indent` is unused there). */
  datatype Layout = Layout(includeZ: bool, fmt: real -> string, sep: string, columns: int, zFill: real, scale: real)

  /**
   * The three arrays `to_data` formats for one BPM: x and y scaled, z either
   * `z_fill` scaled or zeros, all as long as x, and the first sample of each dropped.
   */
  function Written(layout: Layout, t: Triple): (w: Triple)
    ensures |w.x| == (if |t.x| > 0 then |t.x| - 1 else 0) && |w.z| == |w.x|
    ensures |w.y| == (if |t.y| > 0 then |t.y| - 1 else 0)
    ensures forall k :: 0 <= k < |w.x| ==> w.x[k] == t.x[k + 1] * layout.scale
    ensures forall k :: 0 <= k < |w.y| ==> w.y[k] == t.y[k + 1] * layout.scale
    ensures forall k :: 0 <= k < |w.z| ==> w.z[k] == if layout.includeZ then layout.zFill * layout.scale else 0.0
  {
    var x := Scaled(t.x, layout.scale);
    var y := Scaled(t.y, layout.scale);
    var z := if layout.includeZ then Scaled(Filled(|x|, layout.zFill), layout.scale) else Zeros(|x|);
    Triple(Drop1(x), Drop1(y), Drop1(z))
  }

  /** The text of one entry, `("NAME"->` and the three braced arrays. */
  function EntryText(name: string, sx: string, sy: string, sz: string): string
  {
    "(\"" + name + "\"->\n{{" + sx + "},\n{" + sy + "},\n{" + sz + "}})"
  }

  function Entry(layout: Layout, name: string, t: Triple): string
  {
    var w := Written(layout, t);
    EntryText(name, FmtText(layout.fmt, layout.sep, layout.columns, w.x),
              FmtText(layout.fmt, layout.sep, layout.columns, w.y),
              FmtText(layout.fmt, layout.sep, layout.columns, w.z))
  }

  /** Entry `i` of `names` and what follows it: ",\n" for all but the last, "\n" for the last. */
  function Piece(layout: Layout, d: Data, names: seq<string>, i: nat): string
    requires i < |names| && names[i] in d
  {
    Entry(layout, names[i], d[names[i]]) + (if i < |names| - 1 then ",\n" else "\n")
  }

  function Pieces(layout: Layout, d: Data, names: seq<string>): (ps: seq<string>)
    requires forall i :: 0 <= i < |names| ==> names[i] in d
    ensures |ps| == |names|
    ensures forall i :: 0 <= i < |names| ==> ps[i] == Piece(layout, d, names, i)
  {
    seq(|names|, i requires 0 <= i < |names| => Piece(layout, d, names, i))
  }

  /** The header items with trailing whitespace removed, in order. */
  function RStrips(header: seq<string>): (r: seq<string>)
    ensures |r| == |header|
    ensures forall i :: 0 <= i < |header| ==> r[i] == RStrip(header[i])
  {
    seq(|header|, i requires 0 <= i < |header| => RStrip(header[i]))
  }

  /** The body `to_data` writes: "{", the entries in `list_bpms` order, "}". */
  function DataBody(layout: Layout, d: Data): string
  {
    var names := ListBpms(d);
    "{" + Concat(Pieces(layout, d, names)) + "}"
  }

  /**
   * The whole text `to_data` writes. A non-empty header is written as
   * "{{" and its right-stripped items, then "},\n", and the body is closed by
   * one more "}".
   */
  function DataText(layout: Layout, d: Data, header: seq<string>): string
  {
    if header != [] then "{{" + Concat(RStrips(header)) + "},\n" + DataBody(layout, d) + "}"
    else DataBody(layout, d)
  }

  /** The header part of `to_data`. */
  method WriteDataHeader(header: seq<string>) returns (out: string)
    ensures out == if header != [] then "{{" + Concat(RStrips(header)) + "},\n" else ""
  {
    out := "";
    if header != [] {
      out := "{{";
      ghost var items := RStrips(header);
      for i := 0 to |header|
        invariant out == "{{" + Concat(items[..i])
      {
        ConcatAppend(items, i);
        out := out + RStrip(header[i]);
      }
      assert items[..|header|] == items;
      out := out + "},\n";
    }
  }

  /** The entry loop of `to_data`. */
  method WriteEntries(d: Data, layout: Layout, names: seq<string>) returns (out: string)
    requires forall i :: 0 <= i < |names| ==> names[i] in d
    ensures out == Concat(Pieces(layout, d, names))
  {
    out := "";
    ghost var ps := Pieces(layout, d, names);
    for idx := 0 to |names|
      invariant out == Concat(ps[..idx])
    {
      ConcatAppend(ps, idx);
      var name := names[idx];
      var w := Written(layout, d[name]);
      var sx := FmtArray(w.x, layout.fmt, layout.sep, layout.columns);
      var sy := FmtArray(w.y, layout.fmt, layout.sep, layout.columns);
      var sz := FmtArray(w.z, layout.fmt, layout.sep, layout.columns);
      var entry := EntryText(name, sx, sy, sz);
      if idx < |names| - 1 {
        out := out + (entry + ",\n");
      } else {
        out := out + (entry + "\n");
      }
    }
    assert ps[..|names|] == ps;
  }

  /** `BPMDataSDDS.to_data`: the text written to the file. */
  method ToData(d: Data, layout: Layout, header: seq<string>) returns (out: string)
    ensures out == DataText(layout, d, header)
  {
    var head := WriteDataHeader(header);
    var names := ListBpms(d);
    var entries := WriteEntries(d, layout, names);
    out := head + ("{" + entries + "}");
    if header != [] {
      out := out + "}";
    }
  }
}
