# BPM turn-by-turn data transcoder, modelled in Dafny

This project models the part of the SuperKEKB turn-by-turn BPM analysis
tools that moves beam-position-monitor readings between two text formats:

* the parenthesised `.data` format, one block per BPM,
  `("NAME"-> {{x values},{y values},{z values}})`, where long numbers may be
  broken across lines by a backslash and a line break;
* the row-tagged SDDS-like format: `#` header lines, then one line
  `0 NAME x1 x2 ...` and one line `1 NAME y1 y2 ...` per BPM.

`BPMDataParen` reads the first format and writes the second (`to_sdds`).
`BPMDataSDDS` reads the second format and writes the first (`to_data`). Both
classes hold a map from BPM name to its three sample arrays, and answer the
same queries: `list_bpms`, `get` and `summary_lengths`.
`convert_sdds_to_data.py` converts every `.sdds` file it finds, counts the
outcomes and returns an exit code. `generate_file_dict.py` writes a
dictionary that pairs each `.data` file of a measurement folder with its
`.sdds` partner.

Modules:

* `Strings`: Python's whitespace set, `strip`, `lower` on ASCII letters, `split(None, 2)`, `splitlines`, `join` and path helpers.
* `Order`: lexicographic order and `sorted` over a set of names.
* `Tokens`: the number pattern `_NUM_RE` as an automaton, and `findall` over it.
* `Dataset`: the dataset both classes hold and the queries they share.
* `Paren`: `BPMDataParen`, with the line joiner, the block pattern, `from_file` and `to_sdds`.
* `Sdds`: `BPMDataSDDS`, with `from_file`, `fmt_array` and `to_data`.
* `DataRoundTrip`: reading back what `to_data` writes with `BPMDataParen.from_file`.
* `SddsRoundTrip`: reading back what `to_sdds` writes with `BPMDataSDDS.from_file`.
* `Convert`: `convert_one` and `main` of the converter, over a file system given as a value.
* `FileDict`: `generate_file_dict`.

I/O is modelled as values:

* A file's text is a parameter, and a writer returns the text it writes.
* `float(token)` is a parameter `value: string -> real`.
* `fmt.format(v)` is a parameter `fmt: real -> string`.
* The `{:16.7f}` header rendering is a parameter `fixed: int -> string`.
* Samples are `real`. Scaling is exact multiplication.

The source's loops are methods with loop invariants, each proved equal to a
reference function. The properties are lemmas about those functions.

## Model

| member | source | states |
|---|---|---|
| Tokens.TokensAreNumbers | bpm_data_comparer.py:16 | every token that `findall` of the number pattern returns is itself exactly one match of the pattern |
| Tokens.NumTokensSplit | bpm_data_comparer.py:192 | a character that can neither start nor continue a number separates the tokens on its two sides: the tokens of `x + [c] + y` are those of x followed by those of y |
| Tokens.NumTokensOfJoin | bpm_data_comparer.py:192 | tokens joined by a non-empty separator of such characters are found again one by one, in order |
| Tokens.NumTokenIsLive | bpm_data_comparer.py:16 | a number consists only of digits, signs, dots and exponent marks |
| Order.SortedOf | bpm_data_comparer.py:55 | `sorted` of a set of names is strictly ascending and holds exactly the set's elements |
| Order.SortedUnique | bpm_data_comparer.py:55 | any strictly ascending sequence with the same elements is that sorted sequence |
| Dataset.ListBpms | bpm_data_comparer.py:54-55 | the names are strictly ascending, one per BPM, and a name is listed if and only if it is a BPM of the data |
| Dataset.ParseComponent | bpm_data_comparer.py:59-61 | the component is rejected with the ValueError message exactly when its lower-cased, stripped text is not x, y or z |
| Dataset.ComponentIgnoresCaseAndSpace | bpm_data_comparer.py:59 | a component letter in either case, surrounded by any whitespace, selects that component |
| Dataset.ParenGet | bpm_data_comparer.py:58-62 | a bad component raises ValueError first; an unknown BPM then raises KeyError with the name; otherwise the selected array is returned |
| Dataset.SddsGet | bpm_data_comparer.py:255-261 | as on the other class, but the KeyError message is the "not found. Available:" text listing the known names |
| Dataset.NotFoundNamesEveryBpm | bpm_data_comparer.py:260 | the KeyError message names the missing BPM and every known BPM |
| Dataset.LengthTable | bpm_data_comparer.py:65-81 | the summary table holds one row per BPM, its BPM column strictly ascending, each row holding that BPM's x, y and z lengths |
| Dataset.LengthTableUnique | bpm_data_comparer.py:264-275 | any table with those three properties is exactly the summary table |
| Dataset.SummaryLengths | bpm_data_comparer.py:264-275 | the loop over the sorted names builds exactly the summary table |
| Dataset.LengthRows | bpm_data_comparer.py:270-274 | the loop builds one row per name given, in that order, with that BPM's lengths |
| Dataset.SummaryLengthsAsWritten | bpm_data_comparer.py:81 | as written, an empty dataset raises KeyError("BPM") and any other dataset gives the summary table |
| Dataset.EmptySummaryDiffers | bpm_data_comparer.py:81 | the code as written raises on an empty dataset, where the intended table is empty |
| Paren.JoinRemovesContinuation | bpm_data_comparer.py:28-30 | a backslash followed by whitespace holding a line feed is removed together with all of that whitespace, so a number broken there is glued together |
| Paren.JoinKeepsPlainText | bpm_data_comparer.py:28-30 | text without a backslash is left unchanged |
| Paren.JoinNoNewParen | bpm_data_comparer.py:28-30 | joining lines never creates a '(' where there was none |
| Paren.QuoteFree | bpm_data_comparer.py:20 | the `[^"]+` run stops exactly at the first '"' |
| Paren.BraceFree | bpm_data_comparer.py:21-23 | the `[^{}]*` run stops exactly at the first brace |
| Paren.MatchBlockOfEntry | bpm_data_comparer.py:19-26 | an entry laid out as `("NAME"->` plus three braced bodies is one match of the block pattern, giving the name and the three bodies, and the text after it is untouched |
| Paren.BlocksSkipPlainText | bpm_data_comparer.py:44 | `finditer` skips text holding no '(' |
| Paren.BlocksAtMatch | bpm_data_comparer.py:44 | a match at the start is the first match, and the search resumes right after it |
| Paren.CollectKeys | bpm_data_comparer.py:43-50 | a name is in the dataset if and only if some match has that name |
| Paren.CollectLastWins | bpm_data_comparer.py:50 | when a name is matched several times, its last match gives its arrays |
| Paren.FromFile | bpm_data_comparer.py:39-51 | the loop over the matches builds the reference dataset of the joined text |
| Paren.NoParenNoData | bpm_data_comparer.py:39-51 | a text with no '(' gives an empty dataset |
| Paren.Normalize | bpm_data_comparer.py:153-156 | for N >= 0 the result has N values: the array's own values first, then zeros; a negative N cuts like a Python slice bound |
| Paren.NormalizeIdempotent | bpm_data_comparer.py:153-156 | an array already of length N is unchanged, and normalising twice is normalising once |
| Paren.FirstMostCommon | bpm_data_comparer.py:151 | the position chosen has the largest count, and no earlier position has as large a count |
| Paren.DefaultTurns | bpm_data_comparer.py:148-151 | the default turn count is 0 with no BPM; otherwise it is an x length that occurs most often, the first such to occur |
| Paren.DefaultTurnsUnique | bpm_data_comparer.py:151 | a length that is most frequent and first to occur is the default |
| Paren.XLengths | bpm_data_comparer.py:148 | one x length per BPM, in sorted-name order |
| Paren.WritePreamble | bpm_data_comparer.py:160-165 | the fixed header lines are written in order, with the RingID line only for a non-empty ring id |
| Paren.WriteSddsHeader | bpm_data_comparer.py:160-168 | the header is the fixed lines, then one "# " line per extra header item, right-stripped |
| Paren.WriteSddsRows | bpm_data_comparer.py:170-178 | the rows are an x line tagged 0 and a y line tagged 1 for each name in order, each holding the normalised array |
| Paren.ToSdds | bpm_data_comparer.py:129-178 | the text written is the header followed by the rows of every BPM in sorted order, with the default or the given turn count |
| Sdds.ParseLine | bpm_data_comparer.py:208-227 | a blank or '#' line is skipped; a kept line has a plane x or y and at least one number |
| Sdds.ParseRaw | bpm_data_comparer.py:209-227 | the `continue` tests and the field split decide each line as the reference does |
| Sdds.StepLine | bpm_data_comparer.py:229-231 | a kept line appends its numbers to its BPM's list for its plane; a skipped line changes nothing |
| Sdds.AccumulateKeys | bpm_data_comparer.py:208-231 | the accumulator holds exactly the BPMs that some kept line names |
| Sdds.AccumulateByName | bpm_data_comparer.py:208-231 | each BPM's x and y lists are the numbers of its tag-0 and tag-1 lines, in file order |
| Sdds.NoMentionNoValues | bpm_data_comparer.py:229-231 | a BPM no kept line names has no values |
| Sdds.Mirror | bpm_data_comparer.py:235-246 | a missing plane becomes zeros as long as the other plane; two present planes keep their own lengths; z is zeros as long as x |
| Sdds.FinishAcc | bpm_data_comparer.py:234-248 | the second loop mirrors every BPM of the accumulator |
| Sdds.FromFile | bpm_data_comparer.py:201-248 | reading a file gives the reference dataset of its lines |
| Sdds.ReadSddsShape | bpm_data_comparer.py:235-246 | every BPM read has a non-empty x, a non-empty y, and a z of zeros as long as x |
| Sdds.Chunks | bpm_data_comparer.py:343-344 | the rows of `fmt_array` concatenate back to the values; each is non-empty with at most `columns` values, and all but the last are full |
| Sdds.RowTexts | bpm_data_comparer.py:342-344 | the row loop joins each chunk of `columns` values with the separator |
| Sdds.FmtArray | bpm_data_comparer.py:339-350 | `fmt_array` gives "" for no values, the rows joined by ",\n" when `columns` is positive, and one joined line otherwise |
| Sdds.FmtTextReadsBack | bpm_data_comparer.py:339-350 | with a separator no number can contain, the numbers in `fmt_array`'s text are exactly the formatted values, in order |
| Sdds.Written | bpm_data_comparer.py:363-370 | x and y are scaled, z is `z_fill` scaled or zeros, z is as long as x, and the first sample of each is dropped |
| Sdds.WriteDataHeader | bpm_data_comparer.py:354-358 | a non-empty header is written as "{{", its right-stripped items, then "},\n"; an empty one writes nothing |
| Sdds.WriteEntries | bpm_data_comparer.py:362-376 | one entry per name in order, each followed by ",\n" except the last, which is followed by "\n" |
| Sdds.ToData | bpm_data_comparer.py:321-379 | the text written is the header, "{", the entries in sorted order, "}", and one more "}" after a header |
| DataRoundTrip.ReadEntry | bpm_data_comparer.py:372 | an entry `to_data` writes is one match of the block pattern, and the text after it is untouched |
| DataRoundTrip.EntryReadsBack | bpm_data_comparer.py:47-49 | the numbers of that match are the values `to_data` formatted, each read back by `float` |
| DataRoundTrip.DataReadsBack | bpm_data_comparer.py:321-379 | `BPMDataParen.from_file` on what `to_data` writes gives exactly the BPMs written, each with its scaled arrays minus the first sample, formatted and read back |
| SddsRoundTrip.LinesOfText | bpm_data_comparer.py:204 | `splitlines` of lines each closed by "\n" gives back those lines |
| SddsRoundTrip.SddsLines | bpm_data_comparer.py:159-178 | the text `to_sdds` writes splits into its header lines and then two row lines per BPM |
| SddsRoundTrip.RowParsed | bpm_data_comparer.py:208-227 | a row line `to_sdds` writes is kept, with its name, its plane and exactly the formatted values |
| SddsRoundTrip.CommentSkipped | bpm_data_comparer.py:210-211 | a header line, which starts with '#', is skipped |
| SddsRoundTrip.RowLinesRead | bpm_data_comparer.py:229-231 | over distinct names, the values gathered for a BPM and plane are that BPM's written row, and nothing for a BPM not written |
| SddsRoundTrip.SddsReadsBack | bpm_data_comparer.py:129-178 | `BPMDataSDDS.from_file` on what `to_sdds` writes gives exactly the BPMs written; each plane holds the `turns` values written for it, formatted and read back, and z is zeros |
| Convert.Folder | convert_sdds_to_data.py:64 | a path is its folder followed by its name, and the folder is empty or ends in '/' |
| Convert.LastDot | convert_sdds_to_data.py:64 | the index found is the last '.' of the name, or -1 when there is none |
| Convert.Destination | convert_sdds_to_data.py:63-66 | the destination is the stem, the suffix and ".data" in the source's folder; it fails exactly when a non-empty suffix puts a '/' in the name |
| Convert.DestinationShape | convert_sdds_to_data.py:63-66 | the destination lies in the source's folder, has the expected name, and ends in ".data" |
| Convert.DestinationIsNotSource | convert_sdds_to_data.py:63-66 | a source named "*.sdds" is never its own destination |
| Convert.NotAFileFirst | convert_sdds_to_data.py:59-60 | a path that is not a regular file gives status "error" and no destination, before anything else |
| Convert.ConvertOne | convert_sdds_to_data.py:43-80 | the outcome carries the source path; the bare "error" status comes exactly for a path that is not a file; an escaping exception comes exactly from a destination that cannot be formed; only a conversion changes the file system |
| Convert.ConvertsExactly | convert_sdds_to_data.py:68-80 | a file is converted exactly when it is not skipped, not dry-run, and neither the read nor the write raises |
| Convert.FailureReported | convert_sdds_to_data.py:71-80 | a read or write exception is reported as `error: <message>`, the read's first, and nothing is written |
| Convert.Attempt | convert_sdds_to_data.py:68-80 | the outcome is a skip exactly when the destination exists and neither flag is set, a dry run exactly when dry-running, and a conversion exactly when neither holds and neither reading the source nor writing the destination raises; it is never the bare "error"; a failure carries the message of the read's exception, else the write's; only a conversion writes |
| Convert.CrashOnlyFromSuffix | convert_sdds_to_data.py:63-64 | an exception escapes `convert_one` exactly for a regular file with a non-empty suffix that puts a '/' in the destination name |
| Convert.SkipExactly | convert_sdds_to_data.py:68-69 | an existing destination is skipped exactly when neither overwriting nor dry-running |
| Convert.DryRunWritesNothing | convert_sdds_to_data.py:72-73 | a dry run that is not skipped is reported as such and leaves the file system unchanged |
| Convert.ConvertedWrites | convert_sdds_to_data.py:75-78 | a conversion writes the destination, and only it, with the `.data` text of the source's dataset, whose header items are the header string's characters |
| Convert.ConvertedReadsBack | convert_sdds_to_data.py:75-78 | reading the converted text with `BPMDataParen.from_file` gives every BPM of the source with the values written for it |
| Convert.ConvertedHeaderAsWritten | convert_sdds_to_data.py:76-77 | the text a conversion writes starts with "{{", the header with its whitespace gone, and "},\n", which differs from the header line |
| Convert.IntendedHeaderKept | convert_sdds_to_data.py:76-77 | the intended text starts with "{{", the header line with its space, and "},\n" |
| Convert.IntendedReadsBack | convert_sdds_to_data.py:75-78 | the intended text reads back to the same dataset as the text written |
| Convert.ConvertedDiffers | convert_sdds_to_data.py:77 | for every file converted, the text written differs from the intended one |
| Convert.HeaderAsWrittenLosesSpace | convert_sdds_to_data.py:77 | right-stripping the header string's characters one by one loses its space, where the one-line header keeps it |
| Convert.HeaderFinding | convert_sdds_to_data.py:77 | so the file written as the code stands differs from the one written with the one-line header |
| Convert.CountText | convert_sdds_to_data.py:131-142 | each status text adds exactly one to the counters |
| Convert.TallyCountsAll | convert_sdds_to_data.py:115-142 | every outcome is counted once |
| Convert.NoErrorsCounted | convert_sdds_to_data.py:140-142 | no error is counted if and only if no outcome is an error |
| Convert.CountTextByKind | convert_sdds_to_data.py:131-142 | the status texts classify each outcome by its kind; an error message never counts as "ok" |
| Convert.ConvertAll | convert_sdds_to_data.py:120-130 | a loop that completes gives one status per file |
| Convert.ConvertAllStops | convert_sdds_to_data.py:120-130 | once a file raises, the whole run raises that error |
| Convert.LoopStep | convert_sdds_to_data.py:120-142 | one turn of the loop extends the run by that file's outcome and counts it |
| Convert.ConvertFiles | convert_sdds_to_data.py:115-142 | the loop gives the reference run, and its counters are those of the outcomes |
| Convert.RunMain | convert_sdds_to_data.py:104-150 | `main` after argument parsing gives the reference run, exit code and counters |
| Convert.ExitCodes | convert_sdds_to_data.py:104-150 | the exit code is 2 exactly for a missing folder, 0 exactly when no file gave an error, 1 otherwise, and every file is counted |
| Convert.ExitCodeOfOutcomes | convert_sdds_to_data.py:115-150 | with a folder and at least one file, the counters are those of the outcomes, and the exit code is 0 exactly when no outcome is an error |
| FileDict.HerFirst | generate_file_dict.py:14-17 | a name holding "_HER_" is HER, even when it also holds "_LER_" |
| FileDict.FindDate | generate_file_dict.py:23 | the position found is the leftmost date at or after the start, and none means no date anywhere after it |
| FileDict.DateIsFirst | generate_file_dict.py:23-28 | the date used has the `YYYY_MM_DD` shape and occurs in the name |
| FileDict.Outcomes | generate_file_dict.py:13-35 | the mode message exactly when neither marker occurs, the date message exactly when a marker but no date occurs, and the dictionary otherwise |
| FileDict.OutputPathShape | generate_file_dict.py:31-35 | the output path is "./file_dict_" plus the cleaned name plus ".txt", and a name without "input_" is kept as it is |
| FileDict.KeptIsSortedSelection | generate_file_dict.py:38-40 | the files kept are exactly the sorted `.data` names holding `MODE_DATE`, in sorted order |
| FileDict.EntryTexts | generate_file_dict.py:41-43 | one entry per kept file, in order, pairing the full path with the `.sdds` name |
| FileDict.PartnerIsSdds | generate_file_dict.py:42 | the partner of a `.data` name is a `.sdds` name |
| FileDict.EveryKeptFileListed | generate_file_dict.py:38-49 | every file in the folder that passes the test has its entry in the dictionary text |
| FileDict.GenerateFileDict | generate_file_dict.py:9-51 | the checks and the loop give the reference outcome: a message, or the path and the text written |

## Left out

- File reading and writing, printing and `argparse` are not modelled. A reader takes the file's text, a writer returns the text it writes, and the console messages are left out.
- `float()`, `fmt.format` and the `{:16.7f}` rendering are parameters, because floating-point rendering and parsing are not modelled. The round trips therefore hold for every rendering whose output is one number.
- Convert.Attempt: a `--fmt` that raises on a float (such as `"{:d}"`) is not modelled, because the rendering is a total function. The source then reports `error: ...` after the destination was opened and partly written; the model reports `Converted` with the whole text.
- The samples are reals and NumPy arrays are sequences. Scaling is exact, with no rounding.
- `summary_stats` (means, percentiles) is not part of this model, because it is floating-point statistics outside the transcoding core.
- `find_files` (glob, `--pattern`, `-r`) is not modelled. The sorted list of matches is an input of `Convert.RunMain`.
- The `--wrap` option is not modelled. It is accepted but never passed on to `to_data`.
- `to_data`'s `indent` argument is ignored, as in the source.
- Opening a file that raises is modelled as a map from path to OSError message. The exact message texts of Python's exceptions, and the `repr` quoting inside them, are left out. The directory case is spelled out in `Convert.IsADirectoryMessage`.
- A write that fails part-way and leaves a partial file is not modelled. A write either happens whole or raises.
- Paths are normalised POSIX strings, so pathlib's normalisation of `..`, repeated slashes and Windows paths is not modelled.
- `\d` is matched as the ASCII digits only; Python's `\d` also takes other Unicode decimal digits.
- `read_text(errors="replace")` decoding is not modelled. The text is given already decoded.
- The `__main__` block of `generate_file_dict.py` (lines 53-63) is not modelled, because it only checks the argument count and that the folder exists before the call.
- `os.listdir` is given as a set of names, because `sorted` makes its order irrelevant.
- SddsRoundTrip.SddsReadsBack: covers only a positive turn count. With zero turns, every row has no number and is dropped, so nothing comes back. The model states this only through `Sdds.ParseLine`'s contract.
- SddsRoundTrip.SddsReadsBack: requires names without whitespace and header texts without line breaks. `to_sdds` writes other names and texts too, but the reader then splits them differently.
- DataRoundTrip.DataReadsBack: requires names that start with no whitespace and hold no '"' or backslash, and header items with no '(' or backslash. Other names and items do not read back whole.
- DataRoundTrip.DataReadsBack: the universal-newline translation of `read_text` (a '\r' or "\r\n" read as '\n') is not modelled: the reader is given the text as written. The lemma therefore also requires no '\r' in any name, header item or separator, so that the translation would leave the text unchanged.
- The `if y.size == 0 and turns > 0` refill in `to_sdds` is never taken, because `normalize` has already padded y to `turns` values. `Paren.WriteSddsRows` keeps the branch, and its `ensures out == Rows(...)` proves that it changes nothing. The function `Paren.Plane` leaves the branch out, because it is never taken.

## Findings

| source | as written | input that shows it | evidently intended | confidence | as-written member | corrected member |
|---|---|---|---|---|---|---|
| bpm_data_comparer.py:81 | `pd.DataFrame(rows).sort_values("BPM")` on an empty `rows` has no "BPM" column and raises KeyError | a dataset with no BPM, e.g. a `.data` file with no block | an empty table with the four columns | not executed | Dataset.SummaryLengthsAsWritten | Dataset.SummaryLengths |
| convert_sdds_to_data.py:77 | `header_lines` is given one `str`, so `to_data` iterates its characters and right-strips each one, and the space in the header disappears | any conversion: the header written is `"06/17/202417:50:17",...` without its space | the header written as one line, space included | not executed | Convert.ConvertedHeaderAsWritten | Convert.IntendedHeaderKept |
