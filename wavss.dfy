/** The WAVSS (surface wave statistics) log parser: a line holding a `$TSPWA`
    sentence is cut at its checksum, split at " $" and ",", and kept when it
    splits into exactly the table's 22 columns. */
module Wavss {
  import opened Common
  import opened PyString
  import opened Gathering

  /** The table's columns, in declaration order. */
  const WavssIndex: seq<Column> := [
    Column("TIMESTAMP", 0),
    Column("RECORD_TYPE", 1),
    Column("INSTRUMENT_DATE", 2),
    Column("INSTRUMENT_TIME", 3),
    Column("INSTRUMENT_SERIAL", 4),
    Column("BUOY_ID", 5),
    Column("LATITUDE", 6),
    Column("LONGITUDE", 7),
    Column("N_ZERO_CROSSINGS", 8),
    Column("AVERAGE_WAVE_HEIGHT", 9),
    Column("MEAN_SPECTRAL_PERIOD", 10),
    Column("MAXIMUM_WAVE_HEIGHT", 11),
    Column("SIGNIFICANT_WAVE_HEIGHT", 12),
    Column("SIGNIFICANT_PERIOD", 13),
    Column("AVERAGE_HEIGHT_10TH_HIGHEST", 14),
    Column("AVERAGE_PERIOD_10TH_HIGHEST", 15),
    Column("MEAN_WAVE_PERIOD", 16),
    Column("PEAK_PERIOD", 17),
    Column("TP5", 18),
    Column("HMO", 19),
    Column("MEAN_DIRECTION", 20),
    Column("MEAN_SPREAD", 21)
  ]

  /** How many tokens a kept line splits into. */
  const TokenCount: nat := 22

  /** The column names of the table, as the loader lays them out. */
  function WavssColumns(): (r: seq<string>)
    ensures |r| == |WavssIndex| == TokenCount
    ensures forall j :: 0 <= j < |r| ==> Column(r[j], j) in WavssIndex
  {
    seq(|WavssIndex|, j requires 0 <= j < |WavssIndex| => WavssIndex[j].name)
  }

  /** The text a wave-statistics sentence holds. */
  const Marker: string := "$TSPWA"

  /** `re.sub(r'\*.*', '', s, flags=re.DOTALL)`: everything from the first '*'
      on is dropped. */
  function CutChecksum(s: string): (r: string)
    ensures |r| <= |s| && r == s[..|r|]
    ensures '*' !in r
    ensures |r| < |s| ==> s[|r|] == '*'
    decreases |s|
  {
    if s == [] || s[0] == '*' then [] else [s[0]] + CutChecksum(s[1..])
  }

  /** A separator of `re.split(r' \$|,', ...)` starts at the front of `s`. */
  predicate SeparatorFirst(s: string) {
    (|s| >= 2 && s[0] == ' ' && s[1] == '$') || (s != [] && s[0] == ',')
  }

  /** `t` holds no separator: no ',' and no " $". */
  predicate SeparatorFree(t: string) {
    forall j :: 0 <= j < |t| ==> !SeparatorFirst(t[j..])
  }

  /** `re.split(r' \$|,', s)`. Scanning from the left, a " $" is tried before a
      ","; a character that starts neither belongs to the current token. */
  function Split(s: string): (r: seq<string>)
    ensures |r| >= 1
    ensures r[0] == [] || (s != [] && r[0][0] == s[0])
    decreases |s|
  {
    if s == [] then [""]
    else if |s| >= 2 && s[0] == ' ' && s[1] == '$' then [""] + Split(s[2..])
    else if s[0] == ',' then [""] + Split(s[1..])
    else
      var rest := Split(s[1..]);
      [[s[0]] + rest[0]] + rest[1..]
  }

  /** The tokens joined by ",": the inverse of `Split` on separator-free tokens. */
  function Join(ts: seq<string>): string
    requires ts != []
    decreases |ts|
  {
    if |ts| == 1 then ts[0] else ts[0] + "," + Join(ts[1..])
  }

  /** What one raw line of a WAVSS log contributes: its tokens when it holds
      the marker and, once cut at the checksum, splits into 22 tokens. */
  function WavssLine(line: string): (r: Option<Record>)
    ensures r.Some? ==> |r.value| == |WavssIndex| && Contains(line, Marker)
  {
    if !Contains(line, Marker) then None
    else
      var tokens := Split(CutChecksum(line));
      if |tokens| == TokenCount then Some(tokens) else None
  }

  /** The list `parse_wavss` returns, or the TypeError `'$TSPWA' in line`
      raises when an entry is None. */
  function WavssRecords(lines: seq<Line>): (r: Result<seq<Record>>)
    ensures r.Err? <==> exists j :: 0 <= j < |lines| && lines[j].None?
    ensures r.Err? ==> r.error == TypeError
    ensures r.Ok? ==> r.value == Collect(lines, WavssLine)
  {
    if forall j :: 0 <= j < |lines| ==> lines[j].Some? then
      Ok(Collect(lines, WavssLine))
    else Err(TypeError)
  }

  /** A None entry makes the whole call raise. */
  lemma RaisesAt(lines: seq<Line>, i: nat)
    requires i < |lines| && lines[i].None?
    ensures WavssRecords(lines) == Err(TypeError)
  {
  }

  /** Past a prefix that does not raise, one more line adds its tokens, if it
      is kept. */
  lemma RecordsNext(lines: seq<Line>, i: nat, rec: Option<Record>)
    requires i < |lines| && WavssRecords(lines[..i]).Ok?
    requires lines[i].Some? && rec == WavssLine(lines[i].value)
    ensures WavssRecords(lines[..i + 1])
      == Ok(WavssRecords(lines[..i]).value + (if rec.Some? then [rec.value] else []))
  {
    assert forall j :: 0 <= j < i + 1 ==> lines[..i + 1][j] == lines[j];
    assert forall j :: 0 <= j < i ==> lines[..i][j] == lines[j];
    CollectStep(lines, i, WavssLine, rec);
  }

  /** `parse_wavss` of the lines of one file, which are never None. */
  function FileRecords(lines: seq<string>): (r: seq<Record>)
    ensures |r| <= |lines| && forall k :: 0 <= k < |r| ==> |r[k]| == TokenCount
  {
    CollectKeeps(AsLines(lines), WavssLine, rec => |rec| == TokenCount);
    Collect(AsLines(lines), WavssLine)
  }

  /** `parse_wavss` as `load_wavss` applies it to every file. */
  function FileParser(): (p: seq<string> -> seq<Record>)
    ensures forall ls, k :: 0 <= k < |p(ls)| ==> |p(ls)[k]| == TokenCount
  {
    ls => FileRecords(ls)
  }

  /** The table `load_wavss` builds: the records of every `.log` file, in file
      order. */
  function WavssTable(files: seq<LogFile>): (r: seq<Record>)
    ensures forall j :: 0 <= j < |r| ==> |r[j]| == |WavssColumns()|
  {
    GatherKeeps(files, FileParser(), rec => |rec| == TokenCount);
    GatherFiles(files, FileParser())
  }

  /** The parser object; `data` is the table once a load has run. */
  class Wavss {
    var data: Option<seq<Record>>

    constructor()
      ensures data == None
    {
      data := None;
    }

    /** `parse_wavss`: the tokens of every wave-statistics line, in order; a
        None entry raises TypeError. */
    method ParseWavss(rawData: seq<Line>) returns (result: Result<seq<Record>>)
      ensures result == WavssRecords(rawData)
    {
      var goodData: seq<Record> := [];
      for i := 0 to |rawData|
        invariant WavssRecords(rawData[..i]) == Ok(goodData)
      {
        if rawData[i].None? {
          RaisesAt(rawData, i);
          return Err(TypeError);
        }
        var rec := ParseWavssLine(rawData[i].value);
        RecordsNext(rawData, i, rec);
        if rec.Some? {
          goodData := goodData + [rec.value];
        } else {
          assert goodData + [] == goodData;
        }
      }
      assert rawData[..|rawData|] == rawData;
      return Ok(goodData);
    }

    /** The body of the loop of `parse_wavss` for one line. */
    method ParseWavssLine(raw: string) returns (rec: Option<Record>)
      ensures rec == WavssLine(raw)
    {
      if !Contains(raw, Marker) {
        return None;
      }
      var line := CutChecksum(raw);
      var tokens := Split(line);
      if |tokens| != TokenCount {
        return None;
      }
      return Some(tokens);
    }

    /** `load_wavss`: a `files` that is not a list raises TypeError and leaves
        the object alone; otherwise `data` becomes the table of the `.log` files. */
    method LoadWavss(files: FilesArg) returns (outcome: Outcome)
      modifies this
      ensures files.NotAList? ==> outcome == Raised(TypeError) && data == old(data)
      ensures files.FileList? ==> outcome == Pass && data == Some(WavssTable(files.files))
    {
      if files.NotAList? {
        return Raised(TypeError);
      }
      var table: seq<Record> := [];
      var fs := files.files;
      for i := 0 to |fs|
        invariant table == GatherFiles(fs[..i], FileParser())
      {
        GatherSnoc(fs, i, FileParser());
        if EndsWith(fs[i].path, ".log") {
          var lines := AsLines(fs[i].lines);
          var parsed := ParseWavss(lines);
          table := table + parsed.value;
        }
      }
      assert fs[..|fs|] == fs;
      data := Some(table);
      return Pass;
    }
  }
}
