/**
 * `generate_file_dict.py`: from a folder of `.data` files, the text of a
 * dictionary that pairs each matching file's path with the name of the
 * `.sdds` file it came from, and the path it is written to.
 *
 * The folder's listing (`os.listdir`) is given as the set of its entry names;
 * the messages printed for a badly named folder are the returned error.
 */
module FileDict {
  import opened Strings
  import opened Order
  import opened Dataset

  // ---------------------------------------------------------------- the folder name

  /** "HER" if the name contains "_HER_", else "LER" if it contains "_LER_". */
  function ModeOf(name: string): Option<string>
  {
    if IsInfix("_HER_", name) then Some("HER")
    else if IsInfix("_LER_", name) then Some("LER")
    else None
  }

  /** `\d{4}_\d{2}_\d{2}` on ten characters. */
  predicate IsDate(w: string)
  {
    |w| == 10 && IsDigit(w[0]) && IsDigit(w[1]) && IsDigit(w[2]) && IsDigit(w[3]) && w[4] == '_'
    && IsDigit(w[5]) && IsDigit(w[6]) && w[7] == '_' && IsDigit(w[8]) && IsDigit(w[9])
  }

  /** A date starts at position `i` of `s`. */
  predicate DateAt(s: string, i: int)
  {
    0 <= i && i + 10 <= |s| && IsDate(s[i..i + 10])
  }

  /** `re.search` from position `i`: the leftmost position at or after `i` where a date starts. */
  function FindDate(s: string, i: nat): (r: Option<nat>)
    ensures r.Some? ==> i <= r.value && DateAt(s, r.value)
    ensures r.Some? ==> forall j :: i <= j < r.value ==> !DateAt(s, j)
    ensures r.None? ==> forall j :: i <= j ==> !DateAt(s, j)
    decreases |s| - i
  {
    if i + 10 > |s| then None
    else if IsDate(s[i..i + 10]) then Some(i)
    else FindDate(s, i + 1)
  }

  /** `match.group(0)`: the first date in the name, if any. */
  function DateOf(name: string): Option<string>
  {
    match FindDate(name, 0)
    case None => None
    case Some(i) => Some(name[i..i + 10])
  }

  /** The folder name with every "input_" removed, in one left-to-right pass. */
  function Cleaned(name: string): string
  {
    ReplaceAll(name, "input_", "")
  }

  /** `os.path.join("./", f"file_dict_{cleaned}.txt")`. */
  function OutputPath(name: string): string
  {
    PathJoin("./", "file_dict_" + Cleaned(name) + ".txt")
  }

  // ---------------------------------------------------------------- the entries

  /** The test of the loop: a `.data` file whose name contains `MODE_DATE`. */
  predicate Keep(tag: string, f: string)
  {
    EndsWith(f, ".data") && IsInfix(tag, f)
  }

  /** The names the loop keeps, in the order it visits them. */
  function Kept(tag: string, names: seq<string>): seq<string>
    decreases |names|
  {
    if names == [] then []
    else
      var rest := Kept(tag, names[..|names| - 1]);
      var f := names[|names| - 1];
      if Keep(tag, f) then rest + [f] else rest
  }

  /** The `.sdds` name paired with a file: every ".data" becomes ".sdds". */
  function Partner(f: string): string
  {
    ReplaceAll(f, ".data", ".sdds")
  }

  /** One entry, `{"<full path>", "<sdds name>"}`. */
  function Entry(folder: string, f: string): string
  {
    "{\"" + PathJoin(folder, f) + "\", \"" + Partner(f) + "\"}"
  }

  /** The entry of each kept name, in order. */
  function EntryTexts(folder: string, kept: seq<string>): (es: seq<string>)
    ensures |es| == |kept|
    ensures forall i :: 0 <= i < |kept| ==> es[i] == Entry(folder, kept[i])
  {
    seq(|kept|, i requires 0 <= i < |kept| => Entry(folder, kept[i]))
  }

  /** The three writes: "{\n", the entries joined by ",\n", "\n}". */
  function DictText(entries: seq<string>): string
  {
    "{\n" + Join(",\n", entries) + "\n}"
  }

  // ---------------------------------------------------------------- generate_file_dict

  /** The message printed, with nothing written, for each badly named folder. */
  const ModeMessage: string := "Invalid folder name format. Expected format: ..._HER_..._YYYY_MM_DD or ..._LER_..._YYYY_MM_DD"
  const DateMessage: string := "Invalid folder name format. Could not extract date."

  datatype Generated = Invalid(message: string) | Dict(path: string, text: string)

  /** What `generate_file_dict(folderPath)` prints or writes, the folder holding `listing`. */
  function FileDictOf(folderPath: string, listing: set<string>): Generated
  {
    var name := BaseName(folderPath);
    match ModeOf(name)
    case None => Invalid(ModeMessage)
    case Some(mode) =>
      match DateOf(name)
      case None => Invalid(DateMessage)
      case Some(date) =>
        var kept := Kept(mode + "_" + date, SortedOf(listing));
        Dict(OutputPath(name), DictText(EntryTexts(folderPath, kept)))
  }

  /** `generate_file_dict`: the checks on the name, then the loop that appends the entries. */
  method GenerateFileDict(folderPath: string, listing: set<string>) returns (g: Generated)
    ensures g == FileDictOf(folderPath, listing)
  {
    var name := BaseName(folderPath);
    var mode := ModeOf(name);
    if mode.None? {
      return Invalid(ModeMessage);
    }
    var date := DateOf(name);
    if date.None? {
      return Invalid(DateMessage);
    }
    var tag := mode.value + "_" + date.value;
    var names := SortedOf(listing);
    var entries: seq<string> := [];
    ghost var kept: seq<string> := [];
    for i := 0 to |names|
      invariant kept == Kept(tag, names[..i])
      invariant entries == EntryTexts(folderPath, kept)
    {
      KeptStep(tag, names, i);
      if Keep(tag, names[i]) {
        EntryTextsAppend(folderPath, kept, names[i]);
        entries := entries + [Entry(folderPath, names[i])];
        kept := kept + [names[i]];
      }
    }
    assert names[..|names|] == names;
    g := Dict(OutputPath(name), DictText(entries));
  }

  lemma KeptStep(tag: string, names: seq<string>, i: nat)
    requires i < |names|
    ensures Kept(tag, names[..i + 1])
            == Kept(tag, names[..i]) + (if Keep(tag, names[i]) then [names[i]] else [])
  {
    assert names[..i + 1][..i] == names[..i];
  }

  lemma EntryTextsAppend(folder: string, kept: seq<string>, f: string)
    ensures EntryTexts(folder, kept + [f]) == EntryTexts(folder, kept) + [Entry(folder, f)]
  {
    var a := EntryTexts(folder, kept + [f]);
    var b := EntryTexts(folder, kept) + [Entry(folder, f)];
    forall i | 0 <= i < |a| ensures a[i] == b[i] {
      if i < |kept| {
        assert (kept + [f])[i] == kept[i];
      }
    }
  }

  // ---------------------------------------------------------------- properties

  /**
   * The three outcomes: no mode, then no date, print their messages; else
   * the dictionary is written for the mode and the first date of the name.
   */
  lemma Outcomes(folderPath: string, listing: set<string>)
    ensures var name := BaseName(folderPath);
      var g := FileDictOf(folderPath, listing);
      && (g == Invalid(ModeMessage) <==> !IsInfix("_HER_", name) && !IsInfix("_LER_", name))
      && (g == Invalid(DateMessage) <==>
            (IsInfix("_HER_", name) || IsInfix("_LER_", name)) && forall j :: 0 <= j ==> !DateAt(name, j))
      && (g.Dict? <==> (IsInfix("_HER_", name) || IsInfix("_LER_", name)) && exists j :: DateAt(name, j))
  {
    var name := BaseName(folderPath);
    assert ModeMessage != DateMessage by {
      assert |ModeMessage| != |DateMessage|;
    }
    var r := FindDate(name, 0);
    if r.Some? {
      assert DateAt(name, r.value);
    }
  }

  /** The date used is the leftmost one in the name, and it has the date's shape. */
  lemma DateIsFirst(name: string)
    requires DateOf(name).Some?
    ensures IsDate(DateOf(name).value)
    ensures exists i :: DateAt(name, i) && name[i..i + 10] == DateOf(name).value
                        && forall j :: 0 <= j < i ==> !DateAt(name, j)
  {
    var i := FindDate(name, 0).value;
    assert DateAt(name, i) && name[i..i + 10] == DateOf(name).value;
  }

  /** HER wins when the name holds both markers. */
  lemma HerFirst(name: string)
    requires IsInfix("_HER_", name)
    ensures ModeOf(name) == Some("HER")
  {
  }

  /** The dictionary goes to `./file_dict_<cleaned name>.txt`, and a name without "input_" is kept as it is. */
  lemma OutputPathShape(name: string)
    ensures OutputPath(name) == "./file_dict_" + Cleaned(name) + ".txt"
    ensures !IsInfix("input_", name) ==> Cleaned(name) == name
  {
    assert ("file_dict_" + Cleaned(name) + ".txt")[0] == 'f';
    assert "./" + ("file_dict_" + Cleaned(name) + ".txt") == "./file_dict_" + Cleaned(name) + ".txt";
    if !IsInfix("input_", name) {
      ReplaceAbsent(name, "input_", "");
    }
  }

  /** A replacement changes nothing when the pattern does not occur. */
  lemma {:induction false} ReplaceAbsent(s: string, pat: string, rep: string)
    requires pat != [] && !IsInfix(pat, s)
    ensures ReplaceAll(s, pat, rep) == s
    decreases |s|
  {
    if s != [] {
      assert !(pat <= s);
      ReplaceAbsent(s[1..], pat, rep);
      assert [s[0]] + s[1..] == s;
    }
  }

  /**
   * The kept names are exactly the sorted `.data` names holding the tag: the
   * loop over `sorted(os.listdir(...))` keeps the order of `sorted`.
   */
  lemma KeptIsSortedSelection(tag: string, listing: set<string>)
    ensures Kept(tag, SortedOf(listing)) == SortedOf(set f | f in listing && Keep(tag, f))
  {
    var names := SortedOf(listing);
    KeptSortedMembers(tag, names);
    SortedUnique(Kept(tag, names), set f | f in listing && Keep(tag, f));
  }

  lemma {:induction false} KeptSortedMembers(tag: string, names: seq<string>)
    requires StrictlySorted(names)
    ensures StrictlySorted(Kept(tag, names))
    ensures forall x :: x in Kept(tag, names) <==> x in names && Keep(tag, x)
    decreases |names|
  {
    if names != [] {
      var pre := names[..|names| - 1];
      var f := names[|names| - 1];
      assert StrictlySorted(pre) by {
        forall i, j | 0 <= i < j < |pre| ensures LexLt(pre[i], pre[j]) {
          assert pre[i] == names[i] && pre[j] == names[j];
        }
      }
      KeptSortedMembers(tag, pre);
      assert names == pre + [f];
      var rest := Kept(tag, pre);
      if Keep(tag, f) {
        forall i | 0 <= i < |rest| ensures LexLt(rest[i], f) {
          assert rest[i] in pre;
          var k :| 0 <= k < |pre| && pre[k] == rest[i];
          assert names[k] == rest[i];
        }
        SortedSnoc(rest, f);
      }
    }
  }

  lemma SortedSnoc(xs: seq<string>, f: string)
    requires StrictlySorted(xs)
    requires forall i :: 0 <= i < |xs| ==> LexLt(xs[i], f)
    ensures StrictlySorted(xs + [f])
  {
    var ys := xs + [f];
    forall i, j | 0 <= i < j < |ys| ensures LexLt(ys[i], ys[j]) {
      if j < |xs| {
        assert ys[i] == xs[i] && ys[j] == xs[j];
      } else {
        assert ys[i] == xs[i];
      }
    }
  }

  /** Every kept file has its entry in the dictionary. */
  lemma EveryKeptFileListed(folderPath: string, listing: set<string>, f: string)
    requires FileDictOf(folderPath, listing).Dict?
    requires f in listing
    requires var name := BaseName(folderPath);
      Keep(ModeOf(name).value + "_" + DateOf(name).value, f)
    ensures IsInfix(Entry(folderPath, f), FileDictOf(folderPath, listing).text)
  {
    var name := BaseName(folderPath);
    var tag := ModeOf(name).value + "_" + DateOf(name).value;
    var kept := Kept(tag, SortedOf(listing));
    KeptSortedMembers(tag, SortedOf(listing));
    assert f in kept;
    var i :| 0 <= i < |kept| && kept[i] == f;
    var es := EntryTexts(folderPath, kept);
    JoinContainsItems(",\n", es, i);
    InfixOfSuffix(es[i], Join(",\n", es), "{\n");
    InfixOfPrefix(es[i], "{\n" + Join(",\n", es), "\n}");
  }

  lemma {:induction false} InfixOfPrefix(sub: string, s: string, q: string)
    requires IsInfix(sub, s)
    ensures IsInfix(sub, s + q)
    decreases |s|
  {
    if sub <= s {
      assert sub <= s + q;
    } else {
      InfixOfPrefix(sub, s[1..], q);
      assert (s + q)[1..] == s[1..] + q;
    }
  }

  /** The partner of a `.data` name is a `.sdds` name: the final ".data" is always among those replaced. */
  lemma {:induction false} PartnerIsSdds(f: string)
    requires EndsWith(f, ".data")
    ensures EndsWith(Partner(f), ".sdds")
    decreases |f|
  {
    if |f| == 5 {
      assert f == ".data";
      assert f[5..] == [];
      assert Partner(f) == ".sdds" + ReplaceAll([], ".data", ".sdds");
    } else if ".data" <= f {
      // ".data" overlaps no shifted copy of itself, so the tail starts after this match.
      assert f[|f| - 5] == '.';
      assert |f| >= 10;
      assert f[5..][|f| - 10..] == f[|f| - 5..];
      PartnerIsSdds(f[5..]);
      EndsWithAfter(".sdds", Partner(f[5..]), ".sdds");
    } else {
      assert f[1..][|f| - 6..] == f[|f| - 5..];
      PartnerIsSdds(f[1..]);
      EndsWithAfter([f[0]], Partner(f[1..]), ".sdds");
    }
  }

  lemma EndsWithAfter(p: string, s: string, suf: string)
    requires EndsWith(s, suf)
    ensures EndsWith(p + s, suf)
  {
    assert (p + s)[|p + s| - |suf|..] == s[|s| - |suf|..];
  }
}
