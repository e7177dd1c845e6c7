# METBK and WAVSS log parsers, modelled in Dafny

This project models the line parsers of `Parsers/parsers.py` and proves
properties about them. The parsers read raw `.log` files from two buoy
instruments:

- **METBK** (bulk meteorology). `parse_metbk` turns each raw line into a record
  of a timestamp and ten sensor fields.
  - A line whose last whitespace token is a number takes the data path. The path
    rewrites `"Na "` to `"NaN"`, finds the first timestamp (`yyyy/mm/dd`,
    optional whitespace, `HH:MM:SS`, any character but a newline, digits), deletes that text
    from the line, and takes the groups of the first match of the ten-field
    pattern.
  - When any step fails, the `except` block searches the line again for a
    timestamp, as the line stands at that point. If it finds one, the record is
    that timestamp and ten `"NaN"`. Otherwise the line is dropped.
- **WAVSS** (surface wave statistics). `parse_wavss` keeps a line holding
  `$TSPWA`. It cuts the line at the first `*`, splits the rest at `" $"` and
  `","`, and keeps the tokens when there are exactly 22 of them.
- **The loaders** `load_metbk` and `load_wavss`:
  - raise TypeError for a `files` argument that is not a list;
  - parse every file whose path ends with `.log` and skip the others;
  - concatenate the records in file order into the object's table.

The modules follow the program's structure:

- `Common`: `Option`, `Result`, the Python errors, raw lines and records, the
  column type, and the loaders' file arguments.
- `PyString`: `str.isspace`, `\d`, `in`, `endswith`, `split()[-1]`, and the
  greedy character runs the patterns use.
- `NaRewrite`: `re.sub(r'Na ', 'NaN', line)`.
- `TimestampRegex`: the timestamp pattern, matched by hand, and `re.findall`
  of it.
- `StampRemoval`: `re.sub(timestamp[0], '', line)`. The matched text is compiled
  as a pattern here. Its one character matched by `.` may be a metacharacter:
  a wildcard, a repeat, an alternation, an anchor, an escape or a syntax error.
- `DataRegex`: the ten-group pattern, matched by hand in `re`'s backtracking
  order, and `re.findall(...)[0]`.
- `Gathering`: how a list of lines becomes a list of records, and a list of
  files becomes a table. It is generic in the per-line and per-file parser.
- `Metbk` / `Wavss`: the schemas, the per-line functions, and the classes. Each
  class has a `data` field, a parse method whose loop follows the source
  statement by statement, and a load method.
- `MetbkProperties` / `WavssProperties`: the lemmas about them.

Each parse method is proved equal to a function of its input, and each load
method to a function of its file list:

- `ParseMetbk` equals `MetbkRecords`.
- `ParseWavss` equals `WavssRecords`.
- `LoadMetbk` and `LoadWavss` set `data` to `MetbkTable` and `WavssTable`.

The lemmas state what those functions promise.

Two behaviours of the code are worth knowing:

- The `"Na "` rewrite is not idempotent: `"Na a "` becomes `"NaNa "` on one
  pass and `"NaNaN"` on a second (`ReplaceNaNotIdempotent`).
- A line with a timestamp and a number at its end whose ten fields do not match
  is usually dropped, not filled with `"NaN"`. The `except` block searches the
  line as the `try` block left it, that is rewritten and with the timestamp
  removed (`Parsers/parsers.py` lines 145-155). The line is kept only when a
  timestamp is still found there, for instance a second one the line held.
  `StampWithoutDataDropped` states the case of a line with no other '/'.

## Model

The `Gathering` rows cite the METBK loops. The same members serve the WAVSS
loops as well: the line loop at `Parsers/parsers.py` lines 282-299 and the file
loop at lines 328-337.

Three definitions have no row of their own, because they carry no contract and
are read through the rows that use them:

- `Gathering.GatherFiles` is the file loop of lines 194-203 and 328-337. Its
  meaning is given by `GatherSnoc`, `GatherAppend`, `GatherOne`, `GatherSkips`,
  `GatherFrom` and `GatherKeeps`.
- `PyString.Contains` is `'$TSPWA' in line` at line 285, used by the
  `Wavss.WavssLine` and `WavssProperties.WavssLineKept` rows.
- `PyString.EndsWith` is `.endswith(".log")` at lines 195 and 329, used by the
  `Gathering` rows.

`DataRegex.MatchNumber`, `DataRegex.MatchInteger` and `DataRegex.MatchDataAt`
are stages of the data matcher whose contracts state only the groups' shape.
Their captures are stated by `MatchNumberCaptured`, `MatchIntegerCaptured` and,
for a match of the whole pattern, `FirstData`.

| member | source | states |
|---|---|---|
| Metbk.MetbkColumns | Parsers/parsers.py:76-88 | the METBK table has 11 columns; column `j` of the table is the entry of index `j` in `DATA_INDEX` |
| Metbk.NaNFields | Parsers/parsers.py:158 | the fallback fields are ten `"NaN"` |
| Metbk.StampRecordShaped | Parsers/parsers.py:165-167 | a timestamp's text before ten groups of the field pattern forms a record of the METBK shape |
| Metbk.Fallback | Parsers/parsers.py:153-161 | the `except` block keeps a line exactly when a timestamp is found in it; the record is then the text of the first timestamp match followed by ten `"NaN"`, of METBK shape |
| Metbk.ParseLine | Parsers/parsers.py:140-167 | every record a line yields has 11 tokens: a timestamp's text, then ten fields that are each `"NaN"` or a number `-*\d+\.\d+` |
| Metbk.Parser | Parsers/parsers.py:139-167 | every record the per-line parser yields has the METBK shape |
| Metbk.MetbkRecords | Parsers/parsers.py:137-169 | `parse_metbk` returns no more records than it gets lines, and every record has the METBK shape |
| Metbk.FileParser | Parsers/parsers.py:197-199 | every record parsed from a file's lines has the METBK shape |
| Metbk.MetbkTable | Parsers/parsers.py:191-203 | every row of the METBK table has the METBK shape and as many tokens as the table has columns |
| Metbk.Metbk.constructor | Parsers/parsers.py:71-117 | a new parser object holds no table |
| Metbk.Metbk.ParseMetbk | Parsers/parsers.py:120-169 | the loop over the raw lines returns the records `MetbkRecords` gives, None entries skipped |
| Metbk.Metbk.ParseRawLine | Parsers/parsers.py:140-167 | one pass of the loop body gives the record `ParseLine` gives: the `try` steps in order, then the `except` re-search on the line as it stands |
| Metbk.Metbk.LoadMetbk | Parsers/parsers.py:171-205 | a `files` that is not a list raises TypeError and leaves `data` unchanged; otherwise `data` becomes `MetbkTable` of the files |
| MetbkProperties.ReplaceNaKeepsStamp | Parsers/parsers.py:145-147 | the `"Na "` rewrite creates no timestamp: if the rewritten line has one, so does the original line |
| MetbkProperties.RecordNeedsStamp | Parsers/parsers.py:140-167 | a line yields a record only if the raw line holds a timestamp; this holds on every path, the fallback included |
| MetbkProperties.NotFloatFallsBack | Parsers/parsers.py:143-166 | when the last token is missing or not a number: a line with a timestamp yields exactly its first timestamp and ten `"NaN"`; a line without one yields nothing |
| MetbkProperties.WellFormedLine | Parsers/parsers.py:143-167 | the line starts with a timestamp whose `.`-matched character is '.' or one `re` reads as itself, then has ten fields one blank apart and a trailing text that starts with a blank, holds the newline, holds no `"Na "` and no '/', and whose line ends in a number; then the line yields exactly that timestamp and those fields, in schema order |
| MetbkProperties.FieldsToLineEnd | Parsers/parsers.py:143-167 | when only whitespace and the newline follow the ten fields and the last field is a number, the line yields exactly that timestamp and those fields |
| MetbkProperties.StampWithoutDataDropped | Parsers/parsers.py:145-161 | a line that starts with a timestamp (whose `.`-matched character is '.' or one `re` reads as itself) and ends in a number, whose rest holds no '/' and no `"Na "` and starts with neither 'a' nor a digit, and whose ten fields do not match, is dropped rather than filled with `"NaN"`: the `except` block searches the line after the timestamp was removed |
| MetbkProperties.NoSlashNoStamp | Parsers/parsers.py:116-117 | a text without '/' holds no timestamp |
| MetbkProperties.NoStampNoRecords | Parsers/parsers.py:137-169 | None entries and lines without a timestamp contribute nothing |
| MetbkProperties.AllLinesKept | Parsers/parsers.py:137-169 | there are as many records as entries exactly when every entry is a line that yields a record; then record `j` is the record of line `j` |
| MetbkProperties.MetbkRecordsAppend | Parsers/parsers.py:139-167 | the records of two runs of lines are the records of the first run followed by those of the second |
| MetbkProperties.MetbkTableAppend | Parsers/parsers.py:194-203 | the table of two runs of files is the first run's table followed by the second's |
| MetbkProperties.MetbkTableOne | Parsers/parsers.py:194-203 | a single `.log` file contributes the records of its lines; any other file contributes nothing |
| MetbkProperties.MetbkTableSkips | Parsers/parsers.py:195-203 | removing a file that is not a `.log` file from the list does not change the table |
| MetbkProperties.RewriteKeepsMatch | Parsers/parsers.py:145-147 | where the rewritten line matches the timestamp pattern, the original line matches it at the same index |
| MetbkProperties.SpacedPlain | Parsers/parsers.py:104-114 | fields laid out one blank apart before such a tail contain no `"Na "` and no '/' |
| MetbkProperties.LastFieldIsLastToken | Parsers/parsers.py:143 | `split()[-1]` of a line that ends with the ten fields and whitespace is the last field |
| MetbkProperties.LeadingStampFirst | Parsers/parsers.py:147 | when a line starts with a timestamp and no digit follows it, that timestamp is the first match |
| MetbkProperties.LeadingStampNoNa | Parsers/parsers.py:145 | the rewrite leaves unchanged a timestamp followed by text that holds no `"Na "` and does not start with 'a' |
| MetbkProperties.FieldFacts | Parsers/parsers.py:104-114 | a field's text is nonempty and holds no whitespace, '/' or `"Na "`, and neither starts nor ends with `a` |
| MetbkProperties.StampNoNa | Parsers/parsers.py:145 | a timestamp's text holds no `"Na "` and ends with a digit |
| NaRewrite.ReplaceNa | Parsers/parsers.py:145 | the rewrite keeps the length of the line |
| NaRewrite.ReplaceNaPointwise | Parsers/parsers.py:145 | the rewrite turns the blank of every `"Na "` into `N` and changes no other character |
| NaRewrite.ReplaceNaNoNa | Parsers/parsers.py:145 | a line without `"Na "` is left unchanged |
| NaRewrite.NoNaJoin | Parsers/parsers.py:145 | two texts without `"Na "`, with no `a` at the seam, join into a text without `"Na "` |
| NaRewrite.ReplaceNaNotIdempotent | Parsers/parsers.py:145 | applying the rewrite twice can differ from applying it once |
| PyString.LastToken | Parsers/parsers.py:143 | `split()[-1]` raises exactly on an all-whitespace line; otherwise it is a nonempty run of non-whitespace characters |
| PyString.LastTokenOf | Parsers/parsers.py:143 | `split()[-1]` of a text, a whitespace character, a token and trailing whitespace is that token |
| PyString.SkipSpace | Parsers/parsers.py:105 | the greedy `\s*` stops at the first character that is not whitespace |
| TimestampRegex.MatchTimestampAt | Parsers/parsers.py:116-117 | a match at `i` is a substring of the line that reads as date, whitespace, time, one non-newline character and digits, with no further digit after it |
| TimestampRegex.MatchTimestampAtShape | Parsers/parsers.py:116-117 | conversely, any such reading is the match at `i` |
| TimestampRegex.SearchTimestamp | Parsers/parsers.py:147 | the search finds the leftmost match at or after `i`, or reports that there is none |
| TimestampRegex.FirstTimestamp | Parsers/parsers.py:147 | `re.findall(...)` is empty exactly when no index matches; otherwise its first element is the leftmost match, and that text reads as a timestamp on its own |
| TimestampRegex.MatchedStampShape | Parsers/parsers.py:116-117 | the text of any match reads as a timestamp on its own |
| TimestampRegex.StampAtMoved | Parsers/parsers.py:116-117 | a timestamp reading carries over to the same characters at another place |
| TimestampRegex.StampChar | Parsers/parsers.py:116-117 | every character of a timestamp, except the one the `.` matched, is a digit, '/', ':' or whitespace |
| StampRemoval.Escape | Parsers/parsers.py:149 | `\` followed by the fraction digits compiles exactly when it is a `\0` escape or a three-digit octal escape up to 0o377; otherwise `re.error` is raised |
| StampRemoval.Compile | Parsers/parsers.py:149 | a timestamp's text fails to compile exactly when its `.`-matched character is `(`, `)`, `[` or a bad escape; a plain character compiles to the literal text, and a `.` to the text with a wildcard in its place |
| StampRemoval.MatchItems | Parsers/parsers.py:149 | a match of the compiled items ends within the line |
| StampRemoval.TryCounts | Parsers/parsers.py:149 | a greedy repeat that takes at least `lo` characters ends its match no earlier than `lo` characters in |
| StampRemoval.TryCountsLongest | Parsers/parsers.py:149 | a greedy repeat gives back one character at a time: the match is the one of the items after it from the place with the most characters, down to `lo`, where they match, and there is none when they match from none |
| StampRemoval.MatchPattern | Parsers/parsers.py:149 | a pattern holding `^` or `$` in the middle never matches |
| StampRemoval.Remove | Parsers/parsers.py:149 | `re.sub` with an empty replacement never makes the line longer |
| StampRemoval.CompiledMatchesItself | Parsers/parsers.py:149 | a timestamp whose `.` matched '.' or a plain character is matched in full by its own text |
| StampRemoval.RemoveLeadingStamp | Parsers/parsers.py:149 | for a line that starts with such a timestamp and has no '/' after it, removal leaves exactly the rest of the line |
| StampRemoval.RemoveSlashFree | Parsers/parsers.py:149 | the compiled text finds nothing in a stretch without '/' |
| DataRegex.MatchRest | Parsers/parsers.py:104-114 | the remaining `\s*(group)` items and `.*?\n` capture exactly `k` groups, each `"NaN"` or a number |
| DataRegex.MatchRestCaptured | Parsers/parsers.py:104-114 | the groups `MatchRest` captures are the line's own text: each stands where `\s*` leaves off after the one before (the first where it leaves off from `p`), and a newline follows the last |
| DataRegex.MatchField | Parsers/parsers.py:104-114 | a group at `q` and the items after it capture `k` groups of the field shape |
| DataRegex.MatchFieldCaptured | Parsers/parsers.py:104-114 | the first group `MatchField` captures is the line's text at `q`, and the others follow it as `MatchRestCaptured` says |
| DataRegex.NumberNotAtNaN | Parsers/parsers.py:104-114 | where `"NaN"` stands the number alternative cannot match, so trying it first does not change the match |
| DataRegex.MatchNumberCaptured | Parsers/parsers.py:104-114 | the groups of the number alternative start with the line's text at `q` |
| DataRegex.MatchIntegerCaptured | Parsers/parsers.py:104-114 | the same once the minus signs are taken |
| DataRegex.TryFraction | Parsers/parsers.py:104-114 | a number and the items after it capture groups of the field shape |
| DataRegex.TryFractionCaptured | Parsers/parsers.py:104-114 | the first group of a number is the line's text from `q` to where its fraction ends, and the others follow it |
| DataRegex.TryFractionLongest | Parsers/parsers.py:104-114 | the fraction digits are given back one at a time: the number ends at the last place, at most `j` fraction digits in, from which the rest matches, and there is no match when the rest matches from none of them |
| DataRegex.SearchData | Parsers/parsers.py:151 | the scan of `findall` finds the leftmost index at or after `i` where the pattern matches, or reports that none does |
| DataRegex.FirstData | Parsers/parsers.py:151 | `re.findall(DATA_PATTERN, line)[0]` is the leftmost match: ten groups of the field shape that are the line's text from the match position on; it raises exactly when no index matches |
| DataRegex.FirstDataSpaced | Parsers/parsers.py:151 | ten fields laid out one blank apart, before a tail that starts with a blank and holds the newline, are the first match of the data pattern |
| DataRegex.MatchRestSpaced | Parsers/parsers.py:104-114 | groups laid out one blank apart, followed by a newline, are captured as they are |
| DataRegex.FieldAtBlank | Parsers/parsers.py:104 | no group starts at whitespace |
| DataRegex.FieldChars | Parsers/parsers.py:104-113 | a group's text is made of '-', digits, '.' and the letters of `NaN` |
| DataRegex.AllFieldsEach | Parsers/parsers.py:104-113 | the recursive statement that every item is a group equals the quantified one |
| Gathering.Own | Parsers/parsers.py:139-167 | an entry contributes at most one record, exactly when it is a line the parser accepts, and that record is the parser's |
| Gathering.Collect | Parsers/parsers.py:137-169 | a parse loop returns no more records than it gets entries |
| Gathering.CollectAppend | Parsers/parsers.py:139-167 | the records of consecutive runs of lines are consecutive |
| Gathering.CollectFrom | Parsers/parsers.py:139-167 | every record is the parser's record of some line |
| Gathering.CollectNothing | Parsers/parsers.py:139-167 | entries that all give nothing give no records |
| Gathering.CollectAll | Parsers/parsers.py:139-167 | there are as many records as entries exactly when the parser accepts every entry |
| Gathering.CollectInOrder | Parsers/parsers.py:139-167 | when the parser accepts every entry, record `j` is the record of entry `j` |
| Gathering.CollectKeeps | Parsers/parsers.py:139-167 | a property every parsed record has, every collected record has |
| Gathering.CollectSnoc | Parsers/parsers.py:139-167 | one more entry adds its own contribution at the end |
| Gathering.CollectStep | Parsers/parsers.py:282-299 | a line that gives `rec` adds `rec`'s record, if any, at the end |
| Gathering.GatherFrom | Parsers/parsers.py:194-203 | every row of the table is a record of some file whose path ends with `.log` |
| Gathering.GatherSnoc | Parsers/parsers.py:194-203 | one more file adds its records at the end when it is a `.log` file, and nothing otherwise |
| Gathering.GatherAppend | Parsers/parsers.py:194-203 | the tables of consecutive runs of files are consecutive |
| Gathering.GatherOne | Parsers/parsers.py:195-203 | a single file contributes its parsed lines when its path ends with `.log`, and nothing otherwise |
| Gathering.GatherSkips | Parsers/parsers.py:195-203 | a file that is not a `.log` file can be removed from the list without changing the table |
| Gathering.GatherKeeps | Parsers/parsers.py:194-203 | a property every file's records have, every row of the table has |
| Common.AsLines | Parsers/parsers.py:197-199 | the lines handed to a parser are the file's lines, none of them None |
| Wavss.WavssColumns | Parsers/parsers.py:212-235 | the WAVSS table has 22 columns; column `j` of the table is the entry of index `j` in `DATA_INDEX` |
| Wavss.CutChecksum | Parsers/parsers.py:289 | the cut keeps the longest prefix without `*`; the character after it, if any, is `*` |
| Wavss.Split | Parsers/parsers.py:292 | the split yields at least one token; the first token is empty or starts with the line's first character |
| Wavss.WavssLine | Parsers/parsers.py:285-299 | a kept line holds `$TSPWA` and yields one token per column |
| Wavss.WavssRecords | Parsers/parsers.py:281-301 | `parse_wavss` raises TypeError exactly when an entry is None; otherwise it returns the records of the kept lines, in order |
| Wavss.RaisesAt | Parsers/parsers.py:285 | a None entry anywhere makes the call raise TypeError |
| Wavss.RecordsNext | Parsers/parsers.py:282-299 | past a prefix that does not raise, one more line adds its tokens at the end if it is kept |
| Wavss.FileRecords | Parsers/parsers.py:331-333 | the records of a file's lines number at most the lines, each with 22 tokens |
| Wavss.FileParser | Parsers/parsers.py:331-333 | every record parsed from a file has 22 tokens |
| Wavss.WavssTable | Parsers/parsers.py:325-337 | every row of the WAVSS table has as many tokens as the table has columns |
| Wavss.Wavss.constructor | Parsers/parsers.py:210-260 | a new parser object holds no table |
| Wavss.Wavss.ParseWavss | Parsers/parsers.py:264-301 | the loop over the raw lines raises TypeError at the first None entry; otherwise it returns the records `WavssRecords` gives |
| Wavss.Wavss.ParseWavssLine | Parsers/parsers.py:284-299 | one pass of the loop body: the marker test, the cut, the split and the count of 22, as `WavssLine` gives them |
| Wavss.Wavss.LoadWavss | Parsers/parsers.py:304-340 | a `files` that is not a list raises TypeError and leaves `data` unchanged; otherwise `data` becomes `WavssTable` of the files |
| WavssProperties.SplitWhole | Parsers/parsers.py:292 | a text without separators is one token |
| WavssProperties.SplitHead | Parsers/parsers.py:292 | a text without separators, then a separator, splits into that text followed by the tokens of the rest |
| WavssProperties.SplitJoin | Parsers/parsers.py:292 | splitting undoes joining with "," on tokens without separators |
| WavssProperties.SplitClean | Parsers/parsers.py:292 | no token holds ',' or `" $"`, and every character of a token is a character of the line |
| WavssProperties.SplitShift | Parsers/parsers.py:292 | a leading separator gives an empty first token, and the tokens after it are those of the rest |
| WavssProperties.SplitGrow | Parsers/parsers.py:292 | a character that starts no separator joins the first token of the rest |
| WavssProperties.TokensClean | Parsers/parsers.py:289-299 | a record is exactly the split tokens of the cut line, unchanged: 22 of them, none holding ',', `" $"` or `*` |
| WavssProperties.WavssLineKept | Parsers/parsers.py:285-296 | a line is kept exactly when it holds `$TSPWA` and, once cut and split, gives exactly 22 tokens |
| WavssProperties.CutBefore | Parsers/parsers.py:289 | the cut drops exactly the first `*` and everything after it |
| WavssProperties.JoinNoStar | Parsers/parsers.py:289 | tokens without `*` join into a text without `*` |
| WavssProperties.WellFormedLine | Parsers/parsers.py:285-299 | a `$TSPWA` sentence as the instrument writes it yields exactly its 22 tokens: a timestamp, `" $"`, 21 comma-separated tokens, `*` and a checksum |
| WavssProperties.RecordsShaped | Parsers/parsers.py:282-299 | every record has one token per column, and there are no more records than lines |
| WavssProperties.NoMarkerNoRecords | Parsers/parsers.py:285-286 | lines without `$TSPWA` contribute nothing |
| WavssProperties.AllLinesKept | Parsers/parsers.py:282-301 | with no None entry, there are as many records as lines exactly when every line is kept; then record `j` is the tokens of line `j` |
| WavssProperties.WavssRecordsAppend | Parsers/parsers.py:282-299 | the records of two runs of lines are the records of the first run followed by those of the second |
| WavssProperties.FileNeverRaises | Parsers/parsers.py:331-333 | the lines of a file never make `parse_wavss` raise |
| WavssProperties.WavssTableAppend | Parsers/parsers.py:328-337 | the table of two runs of files is the first run's table followed by the second's |
| WavssProperties.WavssTableOne | Parsers/parsers.py:328-337 | a single `.log` file contributes the records of its lines; any other file contributes nothing |
| WavssProperties.WavssTableSkips | Parsers/parsers.py:329-337 | removing a file that is not a `.log` file from the list does not change the table |

## Left out

- MatchRest: its own contract states the number and shape of the groups. That
  they are the line's text is the lemma `MatchRestCaptured`. Stated in the
  contract of this mutually recursive function, the fact makes the matcher's
  proofs exceed the resource limit.
- MatchField: the same holds: its capture is `MatchFieldCaptured`, and the
  order of the two alternatives is `NumberNotAtNaN`.
- TryFraction: the same holds: its capture is `TryFractionCaptured`, and the
  order in which it gives back digits is `TryFractionLongest`.

- Metbk.Metbk.LoadMetbk: `data` is the table as a list of records, before the
  `astype` cast of line 205. The cast is pandas' date and float parsing. A cast
  that raises is not modelled.
- Wavss.Wavss.LoadWavss: the same holds for the `astype` cast of line 340.
- pandas `DataFrame` construction and `pd.concat` are not modelled; a table is
  a sequence of records. The proofs show that every record has as many tokens
  as the table has columns, so the `DataFrame(good_data, columns=...)` calls
  cannot fail on a record's width.
- File opening, `readlines()` and the `print` diagnostic are I/O. A file is
  given as its path and the list of its lines.
- Whether `float()` accepts a token is the parameter `isFloat`. Python's float
  syntax (`nan`, `inf`, exponents, underscores, surrounding whitespace) is not
  modelled.
- `\d` is modelled as the ASCII digits. Python also accepts other Unicode
  decimal digits in a `str` pattern.
- `\s` and `str.split()` are modelled with the whitespace set of
  `str.isspace()`.
- No general regular-expression engine is modelled. The timestamp and data
  patterns are matched by hand. For the timestamp text used as a pattern, the
  model covers what that one character can do: a wildcard, `*` `+` `?` after the
  last seconds digit, `|`, `^` `$`, an octal escape, or a compile error.
- The source loops reassign `line` and, in METBK, `raw_data`. In the model
  these are local variables of the per-line methods. The list being iterated is
  unaffected, as in Python.
- `VELPTA` (`parse_velpt`, `load_velpta`) is a wrapper over `pd.read_csv` and is
  not part of this model.
- The `array`, `dcl` and `swnd_height` attributes, `DATA_TYPES` and `DATA_TYPE`
  are not modelled; they take part only in the left-out casts.
- The `"Na "` rewrite leaves `"Na 1.0"` as `"NaN1.0"`. The data pattern's `\s*`
  accepts zero blanks there. `MatchRest` allows this, but no lemma states that
  case on its own.
