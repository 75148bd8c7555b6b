/**
 * `convert_sdds_to_data.py`: each `.sdds` file found is read with
 * `BPMDataSDDS.from_file` and written next to itself as a `.data` file with
 * `to_data`; `main` counts the outcomes and turns them into an exit code.
 *
 * The file system is a value: the regular files with their text, the
 * directories, and the paths whose opening raises an OSError with its message.
 * Paths are normalised POSIX path strings; a path's folder is everything up to
 * and including its last '/'. The path properties follow Python 3.12's pathlib.
 */
module Convert {
  import opened Strings
  import opened Dataset
  import Sdds
  import Paren
  import DataRoundTrip

  // ---------------------------------------------------------------- paths

  /** `Path.name`. */
  function Name(p: string): string
  {
    BaseName(p)
  }

  /** The folder part of a path, up to and including its last '/' (empty for a bare name). */
  function Folder(p: string): (f: string)
    ensures f + Name(p) == p
    ensures f == [] || f[|f| - 1] == '/'
  {
    var k := LastSlashEnd(p);
    assert p[..k] + p[k..] == p;
    p[..k]
  }

  /** Index of the last '.' of `name`, or -1. */
  function LastDot(name: string): (k: int)
    ensures -1 <= k < |name|
    ensures k >= 0 ==> name[k] == '.'
    ensures forall j :: k < j < |name| ==> name[j] != '.'
  {
    if name == [] then -1
    else if name[|name| - 1] == '.' then |name| - 1
    else LastDot(name[..|name| - 1])
  }

  /** `Path.stem`: the name without its last suffix; a leading or a final dot starts no suffix. */
  function Stem(name: string): (s: string)
    ensures s <= name
  {
    var i := LastDot(name);
    if 0 < i < |name| - 1 then name[..i] else name
  }

  /** The destination's name, `f"{stem}{suffix}.data"`, which `with_suffix(".data")` also gives when there is no suffix. */
  function DestinationName(src: string, suffix: Option<string>): string
  {
    Stem(Name(src)) + (if suffix.Some? then suffix.value else "") + ".data"
  }

  /**
   * The destination path. `with_name` refuses a name holding '/', which only a
   * suffix holding '/' can give; that ValueError is raised outside the `try`.
   */
  function Destination(src: string, suffix: Option<string>): (r: Result<string>)
    ensures r.Err? <==> suffix.Some? && suffix.value != [] && '/' in DestinationName(src, suffix)
    ensures r.Ok? ==> r.value == Folder(src) + DestinationName(src, suffix)
  {
    var name := DestinationName(src, suffix);
    if suffix.Some? && suffix.value != [] && '/' in name then Err(ValueError("Invalid name '" + name + "'"))
    else Ok(Folder(src) + name)
  }

  // ---------------------------------------------------------------- files

  datatype Fs = Fs(files: map<string, string>, dirs: set<string>, fails: map<string, string>)

  /** `Path.exists()`. */
  predicate Exists(fs: Fs, p: string)
  {
    p in fs.files || p in fs.dirs
  }

  /** The arguments of `main` that reach `convert_one`, with `--fmt` given as the rendering it selects. */
  datatype Options = Options(includeZ: bool, fmt: real -> string, suffix: Option<string>,
                             overwrite: bool, dryRun: bool, scale: real)

  /** The default `z_fill` of `to_data`. */
  const ZFill: real := 0.0010580705711618066

  /** The keyword arguments `convert_one` passes to `to_data`, with `sep` and `columns` at their defaults. */
  function LayoutOf(opts: Options): Sdds.Layout
  {
    Sdds.Layout(opts.includeZ, opts.fmt, ",", 6, ZFill, opts.scale)
  }

  /**
   * The one string `convert_one` passes as `header_lines`,
   * `"06/17/2024 17:50:17",3927635417,"2024-06-17_17:32:32.919_Tune",3927635412`,
   * spelled as the text before its space, the space, and the text after it.
   */
  const HeaderLine: string := HeaderDate + " " + HeaderRest
  const HeaderDate: string := "\"06/17/2024"
  const HeaderRest: string := "17:50:17\"," + "3927635417," + "\"2024-06-17_" + "17:32:32.919_" + "Tune\"," + "3927635412"

  /** The header items actually passed: iterating a `str` gives its characters one by one. */
  function CharItems(s: string): (items: seq<string>)
    ensures |items| == |s|
    ensures forall i :: 0 <= i < |s| ==> items[i] == [s[i]]
  {
    seq(|s|, i requires 0 <= i < |s| => [s[i]])
  }

  /** The header items as evidently meant: the one line. */
  function ConvertHeader(): seq<string>
  {
    [HeaderLine]
  }

  /** The outcomes of `convert_one`; `NotAFile` is the bare "error" status. */
  datatype Status = Converted | SkippedExists | DryRun | NotAFile | Failed(msg: string)

  function StatusText(s: Status): string
  {
    match s
    case Converted => "ok"
    case SkippedExists => "skipped_exists"
    case DryRun => "dry_run"
    case NotAFile => "error"
    case Failed(msg) => "error: " + msg
  }

  /** The message of the OSError that opening `p` for writing raises, when `p` is a directory. */
  function IsADirectoryMessage(p: string): string
  {
    "[Errno 21] Is a directory: '" + p + "'"
  }

  /** `(src, dst, status)` and the file system after the call. */
  datatype Outcome = Outcome(src: string, dst: Option<string>, status: Status, fs: Fs)

  /**
   * `convert_one`: not a file; else the destination, whose ValueError
   * escapes; else the attempt on that destination.
   */
  function ConvertOne(fs: Fs, opts: Options, value: string -> real, src: string): (r: Result<Outcome>)
    ensures r.Ok? ==> r.value.src == src
    ensures r.Ok? && r.value.status != Converted ==> r.value.fs == fs
    ensures (r.Ok? && r.value.status == NotAFile) <==> src !in fs.files
    ensures r.Err? <==> src in fs.files && Destination(src, opts.suffix).Err?
  {
    if src !in fs.files then Ok(Outcome(src, None, NotAFile, fs))
    else
      match Destination(src, opts.suffix)
      case Err(e) => Err(e)
      case Ok(dst) => Ok(Attempt(fs, opts, value, src, dst))
  }

  /**
   * The part of `convert_one` past the destination: skip an existing one
   * unless overwriting or dry-running; stop at a dry run; otherwise read,
   * then write, each of which can raise an OSError that becomes the status.
   */
  function Attempt(fs: Fs, opts: Options, value: string -> real, src: string, dst: string): (o: Outcome)
    requires src in fs.files
    ensures o.src == src && o.dst == Some(dst)
    ensures o.status == SkippedExists <==> Exists(fs, dst) && !opts.overwrite && !opts.dryRun
    ensures o.status == DryRun <==> opts.dryRun
    ensures o.status != Converted ==> o.fs == fs
    ensures o.status == Converted <==>
              !(Exists(fs, dst) && !opts.overwrite) && !opts.dryRun
              && src !in fs.fails && dst !in fs.fails && dst !in fs.dirs
    ensures !o.status.NotAFile?
    ensures o.status.Failed? ==>
              o.status.msg == (if src in fs.fails then fs.fails[src]
                               else if dst in fs.fails then fs.fails[dst]
                               else IsADirectoryMessage(dst))
  {
    if Exists(fs, dst) && !opts.overwrite && !opts.dryRun then Outcome(src, Some(dst), SkippedExists, fs)
    else if opts.dryRun then Outcome(src, Some(dst), DryRun, fs)
    else if src in fs.fails then Outcome(src, Some(dst), Failed(fs.fails[src]), fs)
    else if dst in fs.fails then Outcome(src, Some(dst), Failed(fs.fails[dst]), fs)
    else if dst in fs.dirs then Outcome(src, Some(dst), Failed(IsADirectoryMessage(dst)), fs)
    else Outcome(src, Some(dst), Converted, fs.(files := fs.files[dst := ConvertedText(fs, opts, value, src)]))
  }

  /**
   * The text a conversion writes for the file `src`: `to_data` is handed the
   * header string itself, so its items are the string's characters.
   */
  function ConvertedText(fs: Fs, opts: Options, value: string -> real, src: string): string
    requires src in fs.files
  {
    Sdds.DataText(LayoutOf(opts), Sdds.ReadSdds(value, fs.files[src]), CharItems(HeaderLine))
  }

  /** The text a conversion evidently means to write: the header as one item. */
  function ConvertedTextIntended(fs: Fs, opts: Options, value: string -> real, src: string): string
    requires src in fs.files
  {
    Sdds.DataText(LayoutOf(opts), Sdds.ReadSdds(value, fs.files[src]), ConvertHeader())
  }

  // ---------------------------------------------------------------- properties of convert_one

  /** Something that is not a regular file is reported as "error" before anything else, with no destination. */
  lemma NotAFileFirst(fs: Fs, opts: Options, value: string -> real, src: string)
    requires src !in fs.files
    ensures ConvertOne(fs, opts, value, src) == Ok(Outcome(src, None, NotAFile, fs))
  {
  }

  /** The destination lies in the source's folder and its name is the stem, the suffix and ".data". */
  lemma DestinationShape(src: string, suffix: Option<string>)
    requires Destination(src, suffix).Ok?
    ensures Folder(Destination(src, suffix).value) == Folder(src)
    ensures Name(Destination(src, suffix).value) == DestinationName(src, suffix)
    ensures EndsWith(Destination(src, suffix).value, ".data")
  {
    var name := DestinationName(src, suffix);
    var stem := Stem(Name(src)) + (if suffix.Some? then suffix.value else "");
    assert Destination(src, suffix).value == (Folder(src) + stem) + ".data";
    NoSlashInStemPart(src, suffix);
    FolderOfJoined(Folder(src), name);
    EndsWithJoined(Folder(src) + stem, ".data");
  }

  lemma EndsWithJoined(s: string, suf: string)
    ensures EndsWith(s + suf, suf)
  {
    assert (s + suf)[|s|..] == suf;
  }

  lemma NoSlashInStemPart(src: string, suffix: Option<string>)
    requires !(suffix.Some? && suffix.value != [] && '/' in DestinationName(src, suffix))
    ensures '/' !in DestinationName(src, suffix)
  {
    var s := Stem(Name(src));
    assert forall c :: c in s ==> c in Name(src);
    if suffix.Some? && suffix.value == [] {
      assert DestinationName(src, suffix) == s + ".data";
    }
  }

  lemma FolderOfJoined(f: string, name: string)
    requires f == [] || f[|f| - 1] == '/'
    requires '/' !in name
    ensures Folder(f + name) == f && Name(f + name) == name
  {
    var p := f + name;
    forall j | |f| <= j < |p| ensures p[j] != '/' {
      assert p[j] == name[j - |f|];
    }
    assert f != [] ==> p[|f| - 1] == '/';
    assert LastSlashEnd(p) == |f|;
    assert p[..|f|] == f;
    assert p[|f|..] == name;
  }

  /** A source whose name ends in ".sdds" is never its own destination. */
  lemma DestinationIsNotSource(src: string, suffix: Option<string>)
    requires EndsWith(Name(src), ".sdds")
    requires Destination(src, suffix).Ok?
    ensures Destination(src, suffix).value != src
  {
    DestinationShape(src, suffix);
    var dst := Destination(src, suffix).value;
    EndsWithEndsWith(src, Name(src), ".sdds");
    EndsWithAt(dst, ".data", 1);
    EndsWithAt(src, ".sdds", 1);
  }

  lemma EndsWithEndsWith(s: string, t: string, u: string)
    requires EndsWith(s, t) && EndsWith(t, u)
    ensures EndsWith(s, u)
  {
    assert s[|s| - |u|..] == t[|t| - |u|..];
  }

  lemma EndsWithAt(s: string, suf: string, k: nat)
    requires EndsWith(s, suf) && k < |suf|
    ensures s[|s| - |suf| + k] == suf[k]
  {
    assert s[|s| - |suf|..][k] == suf[k];
  }

  /** The ValueError of `with_name` escapes exactly for a file, with a non-empty suffix holding '/'. */
  lemma CrashOnlyFromSuffix(fs: Fs, opts: Options, value: string -> real, src: string)
    ensures ConvertOne(fs, opts, value, src).Err? <==>
              src in fs.files && opts.suffix.Some? && opts.suffix.value != [] && '/' in opts.suffix.value
  {
    var name := DestinationName(src, opts.suffix);
    if opts.suffix.Some? {
      var s := Stem(Name(src));
      assert name == s + opts.suffix.value + ".data";
      assert '/' !in s by {
        assert forall c :: c in s ==> c in Name(src);
      }
      assert '/' !in ".data";
      SlashInMiddle(s, opts.suffix.value, ".data");
    }
  }

  lemma SlashInMiddle(a: string, b: string, c: string)
    requires '/' !in a && '/' !in c
    ensures '/' in a + b + c <==> '/' in b
  {
    if '/' in a + b + c {
      var k :| 0 <= k < |a + b + c| && (a + b + c)[k] == '/';
      assert |a| <= k < |a| + |b|;
      assert b[k - |a|] == '/';
    }
    if '/' in b {
      var k :| 0 <= k < |b| && b[k] == '/';
      assert (a + b + c)[|a| + k] == '/';
    }
  }

  /** An existing destination is skipped exactly when neither overwriting nor dry-running. */
  lemma SkipExactly(fs: Fs, opts: Options, value: string -> real, src: string)
    requires src in fs.files && Destination(src, opts.suffix).Ok?
    ensures var r := ConvertOne(fs, opts, value, src);
      r.Ok? && (r.value.status == SkippedExists <==>
                Exists(fs, Destination(src, opts.suffix).value) && !opts.overwrite && !opts.dryRun)
  {
  }

  /**
   * A file is converted exactly when it is neither skipped nor dry-run and
   * neither reading it nor writing its destination raises.
   */
  lemma ConvertsExactly(fs: Fs, opts: Options, value: string -> real, src: string)
    requires src in fs.files && Destination(src, opts.suffix).Ok?
    ensures var dst := Destination(src, opts.suffix).value;
      var r := ConvertOne(fs, opts, value, src);
      r.Ok? && (r.value.status == Converted <==>
                !(Exists(fs, dst) && !opts.overwrite) && !opts.dryRun
                && src !in fs.fails && dst !in fs.fails && dst !in fs.dirs)
  {
  }

  /**
   * An exception raised by the read or the write is reported as
   * `error: <message>`, the read's first, and nothing is written.
   */
  lemma FailureReported(fs: Fs, opts: Options, value: string -> real, src: string)
    requires src in fs.files && Destination(src, opts.suffix).Ok?
    requires var dst := Destination(src, opts.suffix).value;
      !(Exists(fs, dst) && !opts.overwrite) && !opts.dryRun
      && (src in fs.fails || dst in fs.fails || dst in fs.dirs)
    ensures var dst := Destination(src, opts.suffix).value;
      var r := ConvertOne(fs, opts, value, src);
      r.Ok? && r.value.status.Failed? && r.value.fs == fs
      && StatusText(r.value.status)
         == "error: " + (if src in fs.fails then fs.fails[src]
                         else if dst in fs.fails then fs.fails[dst]
                         else IsADirectoryMessage(dst))
  {
  }

  /** A dry run reads and writes nothing and is reported for every file it does not skip. */
  lemma DryRunWritesNothing(fs: Fs, opts: Options, value: string -> real, src: string)
    requires src in fs.files && Destination(src, opts.suffix).Ok? && opts.dryRun
    ensures ConvertOne(fs, opts, value, src) == Ok(Outcome(src, Some(Destination(src, opts.suffix).value), DryRun, fs))
  {
  }

  /** A conversion writes the destination, and only it, with the `.data` text of what it read. */
  lemma ConvertedWrites(fs: Fs, opts: Options, value: string -> real, src: string)
    requires ConvertOne(fs, opts, value, src).Ok? && ConvertOne(fs, opts, value, src).value.status == Converted
    ensures src in fs.files && Destination(src, opts.suffix).Ok?
    ensures ConvertOne(fs, opts, value, src).value.fs
            == fs.(files := fs.files[Destination(src, opts.suffix).value := ConvertedText(fs, opts, value, src)])
  {
  }

  /**
   * Reading the converted text back with `BPMDataParen.from_file` gives
   * every BPM of the source with the values written for it.
   */
  lemma ConvertedReadsBack(fs: Fs, opts: Options, value: string -> real, src: string)
    requires DataRoundTrip.ReadableLayout(LayoutOf(opts))
    requires src in fs.files
    requires forall n :: n in Sdds.ReadSdds(value, fs.files[src]) ==> DataRoundTrip.PlainName(n)
    ensures var d := Sdds.ReadSdds(value, fs.files[src]);
      Paren.ReadParen(value, ConvertedText(fs, opts, value, src))
      == map n | n in d :: DataRoundTrip.Expected(value, LayoutOf(opts), d[n])
  {
    CharItemsArePlain();
    DataRoundTrip.DataReadsBack(value, LayoutOf(opts), Sdds.ReadSdds(value, fs.files[src]), CharItems(HeaderLine));
  }

  /** The intended text reads back the same way. */
  lemma IntendedReadsBack(fs: Fs, opts: Options, value: string -> real, src: string)
    requires DataRoundTrip.ReadableLayout(LayoutOf(opts))
    requires src in fs.files
    requires forall n :: n in Sdds.ReadSdds(value, fs.files[src]) ==> DataRoundTrip.PlainName(n)
    ensures var d := Sdds.ReadSdds(value, fs.files[src]);
      Paren.ReadParen(value, ConvertedTextIntended(fs, opts, value, src))
      == map n | n in d :: DataRoundTrip.Expected(value, LayoutOf(opts), d[n])
  {
    HeaderIsPlain();
    DataRoundTrip.DataReadsBack(value, LayoutOf(opts), Sdds.ReadSdds(value, fs.files[src]), ConvertHeader());
  }

  /** No one-character header item holds '(', '\\' or '\r'. */
  lemma CharItemsArePlain()
    ensures forall i :: 0 <= i < |CharItems(HeaderLine)| ==>
              '(' !in CharItems(HeaderLine)[i] && '\\' !in CharItems(HeaderLine)[i] && '\r' !in CharItems(HeaderLine)[i]
  {
    HeaderAvoids('(');
    HeaderAvoids('\\');
    HeaderAvoids('\r');
  }

  lemma HeaderIsPlain()
    ensures forall i :: 0 <= i < |ConvertHeader()| ==>
              '(' !in ConvertHeader()[i] && '\\' !in ConvertHeader()[i] && '\r' !in ConvertHeader()[i]
  {
    HeaderAvoids('(');
    HeaderAvoids('\\');
    HeaderAvoids('\r');
    assert ConvertHeader()[0] == HeaderLine;
  }

  /** The header holds no '(', '\\' or '\r', so no line of it reads as a BPM entry or is translated on reading. */
  lemma HeaderAvoids(c: char)
    requires c == '(' || c == '\\' || c == '\r'
    ensures c !in HeaderLine
  {
    assert c !in HeaderDate && c !in HeaderRest;
  }

  // ---------------------------------------------------------------- the header as written

  /** The string with its whitespace characters left out. */
  function NoSpaces(s: string): (r: string)
    ensures |r| <= |s|
  {
    if s == [] then []
    else if IsSpace(s[0]) then NoSpaces(s[1..])
    else [s[0]] + NoSpaces(s[1..])
  }

  /** Leaving out a whitespace character makes the string shorter. */
  lemma {:induction false} NoSpacesShorter(s: string, i: nat)
    requires i < |s| && IsSpace(s[i])
    ensures |NoSpaces(s)| < |s|
    decreases i
  {
    if i > 0 {
      assert s[1..][i - 1] == s[i];
      NoSpacesShorter(s[1..], i - 1);
    }
  }

  /** Right-stripping each character on its own turns every whitespace character into nothing. */
  lemma {:induction false} CharItemsLoseSpaces(s: string)
    ensures Concat(Sdds.RStrips(CharItems(s))) == NoSpaces(s)
    decreases |s|
  {
    if s != [] {
      var items := Sdds.RStrips(CharItems(s));
      assert items[0] == RStrip([s[0]]);
      assert items[1..] == Sdds.RStrips(CharItems(s[1..]));
      CharItemsLoseSpaces(s[1..]);
      OneCharRStrip(s[0]);
    }
  }

  lemma OneCharRStrip(c: char)
    ensures RStrip([c]) == if IsSpace(c) then [] else [c]
  {
    assert [c][..0] == [];
  }

  /** As written, the header's space is lost; the one-line header keeps it. */
  lemma HeaderAsWrittenLosesSpace()
    ensures |Concat(Sdds.RStrips(CharItems(HeaderLine)))| < |HeaderLine|
    ensures Concat(Sdds.RStrips(ConvertHeader())) == HeaderLine
  {
    CharItemsLoseSpaces(HeaderLine);
    assert HeaderLine[|HeaderDate|] == ' ';
    NoSpacesShorter(HeaderLine, |HeaderDate|);
    assert HeaderLine[|HeaderLine| - 1] == '2';
    assert Sdds.RStrips(ConvertHeader()) == [RStrip(HeaderLine)];
    assert Concat([HeaderLine]) == HeaderLine;
  }

  /** So the file written as the code stands differs from the one written with the header line. */
  lemma HeaderFinding(layout: Sdds.Layout, d: Data)
    ensures Sdds.DataText(layout, d, CharItems(HeaderLine)) != Sdds.DataText(layout, d, ConvertHeader())
  {
    HeaderAsWrittenLosesSpace();
    var body := Sdds.DataBody(layout, d);
    var a := Concat(Sdds.RStrips(CharItems(HeaderLine)));
    var b := Concat(Sdds.RStrips(ConvertHeader()));
    assert |Sdds.DataText(layout, d, CharItems(HeaderLine))| == |a| + |body| + 6;
    assert |Sdds.DataText(layout, d, ConvertHeader())| == |b| + |body| + 6;
  }

  /** What a conversion writes starts with the header run together, its space gone. */
  lemma ConvertedHeaderAsWritten(fs: Fs, opts: Options, value: string -> real, src: string)
    requires src in fs.files
    ensures "{{" + NoSpaces(HeaderLine) + "},\n" <= ConvertedText(fs, opts, value, src)
    ensures NoSpaces(HeaderLine) != HeaderLine
  {
    HeaderAsWrittenLosesSpace();
    CharItemsLoseSpaces(HeaderLine);
    var p := "{{" + NoSpaces(HeaderLine) + "},\n";
    var body := Sdds.DataBody(LayoutOf(opts), Sdds.ReadSdds(value, fs.files[src]));
    assert ConvertedText(fs, opts, value, src) == p + body + "}";
    assert p + body + "}" == p + (body + "}");
  }

  /** What a conversion evidently means to write starts with the header line, space included. */
  lemma IntendedHeaderKept(fs: Fs, opts: Options, value: string -> real, src: string)
    requires src in fs.files
    ensures "{{" + HeaderLine + "},\n" <= ConvertedTextIntended(fs, opts, value, src)
    ensures ' ' in HeaderLine
  {
    HeaderAsWrittenLosesSpace();
    var p := "{{" + HeaderLine + "},\n";
    var body := Sdds.DataBody(LayoutOf(opts), Sdds.ReadSdds(value, fs.files[src]));
    assert ConvertedTextIntended(fs, opts, value, src) == p + body + "}";
    assert p + body + "}" == p + (body + "}");
    assert HeaderLine[|HeaderDate|] == ' ';
  }

  /** Every conversion, as written, writes a text other than the intended one. */
  lemma ConvertedDiffers(fs: Fs, opts: Options, value: string -> real, src: string)
    requires src in fs.files
    ensures ConvertedText(fs, opts, value, src) != ConvertedTextIntended(fs, opts, value, src)
  {
    HeaderFinding(LayoutOf(opts), Sdds.ReadSdds(value, fs.files[src]));
  }

  // ---------------------------------------------------------------- main

  /** The four counters of `main`. */
  datatype Tally = Tally(ok: nat, skipped: nat, dry: nat, errors: nat)

  function Total(t: Tally): nat
  {
    t.ok + t.skipped + t.dry + t.errors
  }

  /** The `if`/`elif` chain of the loop, which looks only at the status text. */
  function CountText(t: Tally, status: string): (u: Tally)
    ensures Total(u) == Total(t) + 1
  {
    if status == "ok" then t.(ok := t.ok + 1)
    else if status == "skipped_exists" then t.(skipped := t.skipped + 1)
    else if status == "dry_run" then t.(dry := t.dry + 1)
    else t.(errors := t.errors + 1)
  }

  /** Every outcome other than a conversion, a skip or a dry run is an error. */
  predicate IsError(s: Status)
  {
    s.NotAFile? || s.Failed?
  }

  /** The counters of a sequence of outcomes, by kind. */
  function TallyOf(ss: seq<Status>): Tally
  {
    if ss == [] then Tally(0, 0, 0, 0)
    else
      var t := TallyOf(ss[..|ss| - 1]);
      match ss[|ss| - 1]
      case Converted => t.(ok := t.ok + 1)
      case SkippedExists => t.(skipped := t.skipped + 1)
      case DryRun => t.(dry := t.dry + 1)
      case _ => t.(errors := t.errors + 1)
  }

  /** Every outcome is counted once. */
  lemma {:induction false} TallyCountsAll(ss: seq<Status>)
    ensures Total(TallyOf(ss)) == |ss|
    decreases |ss|
  {
    if ss != [] {
      TallyCountsAll(ss[..|ss| - 1]);
    }
  }

  /** No error is counted exactly when no outcome is an error. */
  lemma NoErrorsCounted(ss: seq<Status>)
    ensures TallyOf(ss).errors == 0 <==> forall i :: 0 <= i < |ss| ==> !IsError(ss[i])
  {
    if TallyOf(ss).errors == 0 {
      NoneCountedNoError(ss);
    }
    if forall i :: 0 <= i < |ss| ==> !IsError(ss[i]) {
      NoErrorNoneCounted(ss);
    }
  }

  lemma {:induction false} NoneCountedNoError(ss: seq<Status>)
    requires TallyOf(ss).errors == 0
    ensures forall i :: 0 <= i < |ss| ==> !IsError(ss[i])
    decreases |ss|
  {
    if ss != [] {
      var pre := ss[..|ss| - 1];
      ErrorsOfLast(ss);
      NoneCountedNoError(pre);
      forall i | 0 <= i < |ss| ensures !IsError(ss[i]) {
        if i < |pre| {
          assert pre[i] == ss[i];
        }
      }
    }
  }

  lemma {:induction false} NoErrorNoneCounted(ss: seq<Status>)
    requires forall i :: 0 <= i < |ss| ==> !IsError(ss[i])
    ensures TallyOf(ss).errors == 0
    decreases |ss|
  {
    if ss != [] {
      var pre := ss[..|ss| - 1];
      ErrorsOfLast(ss);
      forall i | 0 <= i < |pre| ensures !IsError(pre[i]) {
        assert pre[i] == ss[i];
      }
      NoErrorNoneCounted(pre);
    }
  }

  /** The last outcome adds one error exactly when it is one. */
  lemma ErrorsOfLast(ss: seq<Status>)
    requires ss != []
    ensures TallyOf(ss).errors == TallyOf(ss[..|ss| - 1]).errors + (if IsError(ss[|ss| - 1]) then 1 else 0)
  {
  }

  /** The text comparisons classify each outcome by its kind: an error message never reads as "ok". */
  lemma CountTextByKind(ss: seq<Status>, s: Status)
    ensures CountText(TallyOf(ss), StatusText(s)) == TallyOf(ss + [s])
  {
    assert (ss + [s])[..|ss|] == ss;
    if s.Failed? {
      assert StatusText(s)[0] == 'e';
    }
  }

  /** `convert_one` with the arguments `main` parsed, as a function of the file system and the file. */
  function Step(opts: Options, value: string -> real): (Fs, string) -> Result<Outcome>
  {
    (c: Fs, f: string) => ConvertOne(c, opts, value, f)
  }

  /** The loop of `main` so far: each file in turn, on the file system the previous ones left. */
  datatype Progress = Progress(fs: Fs, statuses: seq<Status>)

  function ConvertAll(step: (Fs, string) -> Result<Outcome>, fs: Fs, files: seq<string>): (r: Result<Progress>)
    ensures r.Ok? ==> |r.value.statuses| == |files|
    decreases |files|
  {
    if files == [] then Ok(Progress(fs, []))
    else
      match ConvertAll(step, fs, files[..|files| - 1])
      case Err(e) => Err(e)
      case Ok(p) =>
        match step(p.fs, files[|files| - 1])
        case Err(e) => Err(e)
        case Ok(o) => Ok(Progress(o.fs, p.statuses + [o.status]))
  }

  /** The exit code, the counters and the file system `main` leaves. */
  datatype Run = Run(code: int, tally: Tally, fs: Fs)

  /** `main` after argument parsing, given the sorted matches of the pattern. */
  function MainRun(fs: Fs, root: string, opts: Options, value: string -> real, files: seq<string>): Result<Run>
  {
    if root !in fs.dirs then Ok(Run(2, Tally(0, 0, 0, 0), fs))
    else if files == [] then Ok(Run(0, Tally(0, 0, 0, 0), fs))
    else
      match ConvertAll(Step(opts, value), fs, files)
      case Err(e) => Err(e)
      case Ok(p) =>
        var t := TallyOf(p.statuses);
        Ok(Run(if t.errors == 0 then 0 else 1, t, p.fs))
  }

  /** `main`: the early exits, then the loop over the files with its counters, then the exit code. */
  method RunMain(fs: Fs, root: string, opts: Options, value: string -> real, files: seq<string>)
    returns (r: Result<Run>)
    ensures r == MainRun(fs, root, opts, value, files)
  {
    if root !in fs.dirs {
      return Ok(Run(2, Tally(0, 0, 0, 0), fs));
    }
    if files == [] {
      return Ok(Run(0, Tally(0, 0, 0, 0), fs));
    }
    var done, tally := ConvertFiles(Step(opts, value), fs, files);
    if done.Err? {
      return Err(done.error);
    }
    r := Ok(Run(if tally.errors == 0 then 0 else 1, tally, done.value));
  }

  /** The loop of `main`: each file in turn, counting the status text of each outcome. */
  method ConvertFiles(step: (Fs, string) -> Result<Outcome>, fs: Fs, files: seq<string>)
    returns (r: Result<Fs>, tally: Tally)
    ensures match ConvertAll(step, fs, files)
      case Err(e) => r == Err(e)
      case Ok(p) => r == Ok(p.fs) && tally == TallyOf(p.statuses)
  {
    var cur := fs;
    tally := Tally(0, 0, 0, 0);
    ghost var statuses: seq<Status> := [];
    var i := 0;
    while i < |files|
      invariant 0 <= i <= |files|
      invariant ConvertAll(step, fs, files[..i]) == Ok(Progress(cur, statuses))
      invariant tally == TallyOf(statuses)
    {
      var o := step(cur, files[i]);
      LoopStep(step, fs, files, i, Progress(cur, statuses), o);
      if o.Err? {
        return Err(o.error), tally;
      }
      tally := CountText(tally, StatusText(o.value.status));
      statuses := statuses + [o.value.status];
      cur := o.value.fs;
      i := i + 1;
    }
    assert files[..i] == files;
    r := Ok(cur);
  }

  /** What one turn of the loop of `main` keeps: the run so far, and the counters of its outcomes. */
  lemma LoopStep(step: (Fs, string) -> Result<Outcome>, fs: Fs, files: seq<string>, i: nat, p: Progress, o: Result<Outcome>)
    requires i < |files| && ConvertAll(step, fs, files[..i]) == Ok(p)
    requires o == step(p.fs, files[i])
    ensures o.Err? ==> ConvertAll(step, fs, files) == Err(o.error)
    ensures o.Ok? ==> ConvertAll(step, fs, files[..i + 1]) == Ok(Progress(o.value.fs, p.statuses + [o.value.status]))
    ensures o.Ok? ==> CountText(TallyOf(p.statuses), StatusText(o.value.status)) == TallyOf(p.statuses + [o.value.status])
  {
    assert files[..i + 1][..i] == files[..i];
    if o.Err? {
      ConvertAllStops(step, fs, files, i + 1);
    } else {
      CountTextByKind(p.statuses, o.value.status);
    }
  }

  /** Once a file raises, the whole run raises that error. */
  lemma {:induction false} ConvertAllStops(step: (Fs, string) -> Result<Outcome>, fs: Fs, files: seq<string>, i: nat)
    requires i <= |files| && ConvertAll(step, fs, files[..i]).Err?
    ensures ConvertAll(step, fs, files) == ConvertAll(step, fs, files[..i])
    decreases |files| - i
  {
    if i < |files| {
      assert files[..i + 1][..i] == files[..i];
      ConvertAllStops(step, fs, files, i + 1);
    } else {
      assert files[..i] == files;
    }
  }

  /** The exit code is 2 for a missing folder, and otherwise 0 exactly when no file gave an error. */
  lemma ExitCodes(fs: Fs, root: string, opts: Options, value: string -> real, files: seq<string>)
    requires MainRun(fs, root, opts, value, files).Ok?
    ensures var run := MainRun(fs, root, opts, value, files).value;
      && (run.code == 2 <==> root !in fs.dirs)
      && (run.code == 0 <==> root in fs.dirs && run.tally.errors == 0)
      && (run.code == 1 <==> root in fs.dirs && run.tally.errors > 0)
      && (root in fs.dirs ==> Total(run.tally) == |files|)
  {
    if root in fs.dirs && files != [] {
      TallyCountsAll(ConvertAll(Step(opts, value), fs, files).value.statuses);
    }
  }

  /**
   * With a folder and at least one match, the exit code is 0 exactly when no
   * file was an error, and the counters count the outcomes by kind.
   */
  lemma ExitCodeOfOutcomes(fs: Fs, root: string, opts: Options, value: string -> real, files: seq<string>)
    requires root in fs.dirs && files != []
    requires ConvertAll(Step(opts, value), fs, files).Ok?
    ensures var p := ConvertAll(Step(opts, value), fs, files).value;
      var run := MainRun(fs, root, opts, value, files);
      && run.Ok? && run.value.tally == TallyOf(p.statuses)
      && (run.value.code == 0 <==> forall i :: 0 <= i < |files| ==> !IsError(p.statuses[i]))
  {
    NoErrorsCounted(ConvertAll(Step(opts, value), fs, files).value.statuses);
  }
}
