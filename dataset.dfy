/**
 * What both reader classes hold: a map from BPM name to its x, y and z
 * sample arrays, and the queries the two classes share (`list_bpms`,
 * `get`, `summary_lengths`).
 */
module Dataset {
  import opened Strings
  import opened Order

  datatype Option<T> = None | Some(value: T)

  /** The two exceptions the queries raise, with their messages. */
  datatype Error = ValueError(msg: string) | KeyError(msg: string)

  datatype Result<T> = Ok(value: T) | Err(error: Error)

  /** The three sample arrays of one BPM. */
  datatype Triple = Triple(x: seq<real>, y: seq<real>, z: seq<real>)

  /** `_data`: BPM name to its arrays. */
  type Data = map<string, Triple>

  datatype Component = X | Y | Z

  /** `np.zeros(n)`. */
  function Zeros(n: nat): (r: seq<real>)
    ensures |r| == n
    ensures forall k :: 0 <= k < n ==> r[k] == 0.0
  {
    seq(n, k => 0.0)
  }

  /**
   * `f` applied to each element, in order: `float(tok)` for each token,
   * `fmt.format(v)` for each sample.
   */
  function Map<A, B>(f: A -> B, s: seq<A>): (r: seq<B>)
    ensures |r| == |s|
    ensures forall k :: 0 <= k < |s| ==> r[k] == f(s[k])
  {
    seq(|s|, k requires 0 <= k < |s| => f(s[k]))
  }

  /** `list_bpms`: `sorted(self._data.keys())`. */
  function ListBpms(d: Data): (names: seq<string>)
    ensures StrictlySorted(names)
    ensures |names| == |d.Keys|
    ensures forall n :: n in names <==> n in d
  {
    SortedOf(d.Keys)
  }

  /** The message both `get` methods raise for a component other than x, y or z. */
  const ComponentMessage := "component must be 'x', 'y', or 'z'"

  /**
   * `component.lower().strip()` checked against "x", "y", "z". Only ASCII
   * letters are lowered; no other character lowers to 'x', 'y', 'z' or to
   * whitespace, so the decision is the one full Unicode lowering takes.
   */
  function ParseComponent(component: string): (r: Result<Component>)
    ensures r.Err? <==> Strip(Lower(component)) !in ["x", "y", "z"]
    ensures r.Err? ==> r.error == ValueError(ComponentMessage)
  {
    var c := Strip(Lower(component));
    if c == "x" then Ok(X)
    else if c == "y" then Ok(Y)
    else if c == "z" then Ok(Z)
    else Err(ValueError(ComponentMessage))
  }

  function Pick(t: Triple, c: Component): seq<real>
  {
    match c
    case X => t.x
    case Y => t.y
    case Z => t.z
  }

  /**
   * `BPMDataParen.get`: the component is checked first; an unknown BPM then
   * raises the dictionary's own KeyError, whose message is the key.
   */
  function ParenGet(d: Data, bpm: string, component: string): (r: Result<seq<real>>)
    ensures ParseComponent(component).Err? ==> r == Err(ValueError(ComponentMessage))
    ensures ParseComponent(component).Ok? && bpm !in d ==> r == Err(KeyError(bpm))
    ensures ParseComponent(component).Ok? && bpm in d ==> r == Ok(Pick(d[bpm], ParseComponent(component).value))
  {
    match ParseComponent(component)
    case Err(e) => Err(e)
    case Ok(c) => if bpm in d then Ok(Pick(d[bpm], c)) else Err(KeyError(bpm))
  }

  /** The KeyError message of `BPMDataSDDS.get`. */
  function NotFoundMessage(d: Data, bpm: string): string
  {
    "BPM '" + bpm + "' not found. Available: " + Join(", ", ListBpms(d))
  }

  /** `BPMDataSDDS.get`: like `ParenGet`, with a message that lists the known names. */
  function SddsGet(d: Data, bpm: string, component: string): (r: Result<seq<real>>)
    ensures ParseComponent(component).Err? ==> r == Err(ValueError(ComponentMessage))
    ensures ParseComponent(component).Ok? && bpm !in d ==> r == Err(KeyError(NotFoundMessage(d, bpm)))
    ensures ParseComponent(component).Ok? && bpm in d ==> r == Ok(Pick(d[bpm], ParseComponent(component).value))
  {
    match ParseComponent(component)
    case Err(e) => Err(e)
    case Ok(c) => if bpm in d then Ok(Pick(d[bpm], c)) else Err(KeyError(NotFoundMessage(d, bpm)))
  }

  /** The message for an unknown BPM names the BPM and every known BPM. */
  lemma NotFoundNamesEveryBpm(d: Data, bpm: string)
    ensures IsInfix(bpm, NotFoundMessage(d, bpm))
    ensures forall n :: n in d ==> IsInfix(n, NotFoundMessage(d, bpm))
  {
    var names := ListBpms(d);
    var tail := bpm + "' not found. Available: " + Join(", ", names);
    assert NotFoundMessage(d, bpm) == "BPM '" + tail;
    PrefixIsInfix(bpm, tail);
    InfixOfSuffix(bpm, tail, "BPM '");
    forall n | n in d ensures IsInfix(n, NotFoundMessage(d, bpm)) {
      var i :| 0 <= i < |names| && names[i] == n;
      JoinContainsItems(", ", names, i);
      assert NotFoundMessage(d, bpm) == ("BPM '" + bpm + "' not found. Available: ") + Join(", ", names);
      InfixOfSuffix(n, Join(", ", names), "BPM '" + bpm + "' not found. Available: ");
    }
  }

  /** The letter that names a component, in lower or upper case. */
  function Letter(c: Component, upper: bool): char
  {
    match c
    case X => if upper then 'X' else 'x'
    case Y => if upper then 'Y' else 'y'
    case Z => if upper then 'Z' else 'z'
  }

  /** A component is accepted in either letter case and with surrounding whitespace. */
  lemma ComponentIgnoresCaseAndSpace(p: string, c: Component, upper: bool, q: string)
    requires AllSpace(p) && AllSpace(q)
    ensures ParseComponent(p + [Letter(c, upper)] + q) == Ok(c)
  {
    NormalisedLetter(p, c, upper, q);
    match c
    case X => assert [Letter(c, false)] == "x";
    case Y => assert [Letter(c, false)] == "y";
    case Z => assert [Letter(c, false)] == "z";
  }

  lemma NormalisedLetter(p: string, c: Component, upper: bool, q: string)
    requires AllSpace(p) && AllSpace(q)
    ensures Strip(Lower(p + [Letter(c, upper)] + q)) == [Letter(c, false)]
  {
    var ch := Letter(c, upper);
    var l := Letter(c, false);
    assert LowerChar(ch) == l;
    LowerOfSpaced(p, ch, q, l);
    StripOfOne(p, l, q);
  }

  lemma LowerOfSpaced(p: string, ch: char, q: string, c: char)
    requires AllSpace(p) && AllSpace(q)
    requires c == LowerChar(ch)
    ensures Lower(p + [ch] + q) == p + [c] + q
  {
    LowerAppend(p + [ch], q);
    LowerAppend(p, [ch]);
    LowerOfSpaces(p);
    LowerOfSpaces(q);
  }

  lemma LowerAppend(a: string, b: string)
    ensures Lower(a + b) == Lower(a) + Lower(b)
  {
    var l := Lower(a) + Lower(b);
    forall k | 0 <= k < |a + b| ensures Lower(a + b)[k] == l[k] {
      if k < |a| {
        assert (a + b)[k] == a[k];
      } else {
        assert (a + b)[k] == b[k - |a|];
      }
    }
  }

  lemma LowerOfSpaces(p: string)
    requires AllSpace(p)
    ensures Lower(p) == p
  {
    forall k | 0 <= k < |p| ensures Lower(p)[k] == p[k] {
      assert IsSpace(p[k]);
    }
  }

  lemma StripOfOne(p: string, c: char, q: string)
    requires AllSpace(p) && AllSpace(q) && !IsSpace(c)
    ensures Strip(p + [c] + q) == [c]
  {
    assert p + [c] + q == p + ([c] + q);
    SpaceRunOfSpaces(p, [c] + q);
    assert LStrip(p + [c] + q) == [c] + q;
    RStripOfSpaces([c], q);
  }

  lemma {:induction false} SpaceRunOfSpaces(p: string, r: string)
    requires AllSpace(p) && (r == [] || !IsSpace(r[0]))
    ensures SpaceRun(p + r) == |p|
    decreases |p|
  {
    if p != [] {
      assert (p + r)[1..] == p[1..] + r;
      SpaceRunOfSpaces(p[1..], r);
    } else {
      assert p + r == r;
    }
  }

  lemma {:induction false} RStripOfSpaces(w: string, q: string)
    requires w != [] && !IsSpace(w[|w| - 1]) && AllSpace(q)
    ensures RStrip(w + q) == w
    decreases |q|
  {
    if q == [] {
      assert w + q == w;
    } else {
      var s := w + q;
      assert s[..|s| - 1] == w + q[..|q| - 1];
      RStripOfSpaces(w, q[..|q| - 1]);
    }
  }

  // ---------------------------------------------------------------- summary_lengths

  /** One row of the `summary_lengths` table. */
  datatype LengthRow = LengthRow(bpm: string, lenX: nat, lenY: nat, lenZ: nat)

  function RowOf(d: Data, name: string): (row: LengthRow)
    requires name in d
  {
    LengthRow(name, |d[name].x|, |d[name].y|, |d[name].z|)
  }

  function Bpms(rows: seq<LengthRow>): seq<string>
  {
    seq(|rows|, i requires 0 <= i < |rows| => rows[i].bpm)
  }

  /**
   * The table `summary_lengths` returns: one row per BPM, its BPM column
   * ascending, each row holding that BPM's three array lengths.
   */
  function LengthTable(d: Data): (rows: seq<LengthRow>)
    ensures StrictlySorted(Bpms(rows))
    ensures forall n :: n in Bpms(rows) <==> n in d
    ensures forall i :: 0 <= i < |rows| ==> rows[i].bpm in d && rows[i] == RowOf(d, rows[i].bpm)
  {
    var names := ListBpms(d);
    NamesInData(d, names);
    var rows := RowsFor(d, names);
    TableOfNames(d, names, rows);
    rows
  }

  /** The rows of the given names, in the order given. */
  function RowsFor(d: Data, names: seq<string>): (rows: seq<LengthRow>)
    requires forall k :: 0 <= k < |names| ==> names[k] in d
    ensures |rows| == |names|
    ensures forall k :: 0 <= k < |names| ==> rows[k] == RowOf(d, names[k])
  {
    seq(|names|, k requires 0 <= k < |names| => RowOf(d, names[k]))
  }

  lemma NamesInData(d: Data, names: seq<string>)
    requires names == ListBpms(d)
    ensures forall k :: 0 <= k < |names| ==> names[k] in d
  {
  }

  lemma TableOfNames(d: Data, names: seq<string>, rows: seq<LengthRow>)
    requires StrictlySorted(names)
    requires forall n :: n in names <==> n in d
    requires |rows| == |names|
    requires forall i :: 0 <= i < |rows| ==> names[i] in d && rows[i] == RowOf(d, names[i])
    ensures StrictlySorted(Bpms(rows))
    ensures forall n :: n in Bpms(rows) <==> n in d
    ensures forall i :: 0 <= i < |rows| ==> rows[i].bpm in d && rows[i] == RowOf(d, rows[i].bpm)
  {
    assert Bpms(rows) == names;
  }

  /** Any table with the three properties above is `LengthTable(d)`. */
  lemma LengthTableUnique(d: Data, rows: seq<LengthRow>)
    requires StrictlySorted(Bpms(rows))
    requires forall n :: n in Bpms(rows) <==> n in d
    requires forall i :: 0 <= i < |rows| ==> rows[i].bpm in d && rows[i] == RowOf(d, rows[i].bpm)
    ensures rows == LengthTable(d)
  {
    var t := LengthTable(d);
    SortedUnique(Bpms(rows), d.Keys);
    SortedUnique(Bpms(t), d.Keys);
    assert |rows| == |Bpms(rows)| && |t| == |Bpms(t)|;
    forall i | 0 <= i < |rows| ensures rows[i] == t[i] {
      assert Bpms(rows)[i] == Bpms(t)[i];
    }
  }

  /** `summary_lengths` (both classes): the loop over the sorted names. */
  method SummaryLengths(d: Data) returns (rows: seq<LengthRow>)
    ensures rows == LengthTable(d)
  {
    var names := ListBpms(d);
    NamesInData(d, names);
    rows := LengthRows(d, names);
  }

  /** The loop of `summary_lengths`: one row per name, in the order given. */
  method LengthRows(d: Data, names: seq<string>) returns (rows: seq<LengthRow>)
    requires forall k :: 0 <= k < |names| ==> names[k] in d
    ensures rows == RowsFor(d, names)
  {
    rows := [];
    for i := 0 to |names|
      invariant |rows| == i
      invariant forall k :: 0 <= k < i ==> rows[k] == RowOf(d, names[k])
    {
      var arrays := d[names[i]];
      rows := rows + [LengthRow(names[i], |arrays.x|, |arrays.y|, |arrays.z|)];
    }
  }

  /**
   * `summary_lengths` as written: `pd.DataFrame([])` has no "BPM" column, so
   * `sort_values("BPM")` raises KeyError when there is no BPM at all.
   */
  function SummaryLengthsAsWritten(d: Data): (r: Result<seq<LengthRow>>)
    ensures d == map[] ==> r == Err(KeyError("BPM"))
    ensures d != map[] ==> r == Ok(LengthTable(d))
  {
    var rows := LengthTable(d);
    if rows == [] then
      assert Bpms(rows) == [];
      assert d.Keys == {};
      Err(KeyError("BPM"))
    else
      Ok(rows)
  }

  /** The table of an empty dataset is empty, where the code as written raises instead. */
  lemma EmptySummaryDiffers()
    ensures SummaryLengthsAsWritten(map[]) == Err(KeyError("BPM"))
    ensures LengthTable(map[]) == []
  {
  }
}
