/** The METBK (bulk meteorology) log parser: each raw line is turned into a
    record of a timestamp and ten sensor fields, and the records of every
    `.log` file are gathered into one table. */
module Metbk {
  import opened Common
  import opened PyString
  import opened NaRewrite
  import opened TimestampRegex
  import opened StampRemoval
  import opened DataRegex
  import opened Gathering

  /** The table's columns, in declaration order. */
  const MetbkIndex: seq<Column> := [
    Column("TIMESTAMP", 0),
    Column("BAROMETRIC_PRESSURE", 1),
    Column("RELATIVE_HUMIDITY", 2),
    Column("AIR_TEMPERATURE", 3),
    Column("LONGWAVE_IRRADIANCE", 4),
    Column("PRECIPITATION", 5),
    Column("SEA_SURFACE_TEMPERATURE", 6),
    Column("SEA_SURFACE_CONDUCTIVITY", 7),
    Column("SHORTWAVE_IRRADIANCE", 8),
    Column("WIND_EASTWARD", 9),
    Column("WIND_NORTHWARD", 10)
  ]

  /** The column names of the table, as the loader lays them out. */
  function MetbkColumns(): (r: seq<string>)
    ensures |r| == |MetbkIndex| == FieldCount + 1
    ensures forall j :: 0 <= j < |r| ==> Column(r[j], j) in MetbkIndex
  {
    seq(|MetbkIndex|, j requires 0 <= j < |MetbkIndex| => MetbkIndex[j].name)
  }

  /** The ten fields of a line that holds a timestamp and no readable data. */
  function NaNFields(): (r: seq<string>)
    ensures |r| == FieldCount && forall j :: 0 <= j < |r| ==> r[j] == "NaN"
  {
    seq(FieldCount, j => "NaN")
  }

  /** `t` is the text of a timestamp match. */
  predicate IsStampText(t: string) {
    exists k | 0 <= k < |t| :: StampShape(Stamp(t, k))
  }

  /** A record as the parser builds it: a timestamp and ten fields, each a number
      or "NaN". */
  predicate MetbkShaped(rec: Record) {
    |rec| == FieldCount + 1 && IsStampText(rec[0])
    && forall j :: 1 <= j < |rec| ==> FieldShape(rec[j])
  }

  /** A timestamp's text before ten groups makes a record of the parser's shape. */
  lemma StampRecordShaped(st: Stamp, fs: seq<string>)
    requires StampShape(st)
    requires |fs| == FieldCount && forall j :: 0 <= j < FieldCount ==> FieldShape(fs[j])
    ensures MetbkShaped([st.text] + fs)
  {
    assert StampShape(Stamp(st.text, st.sepAt));
    var rec := [st.text] + fs;
    forall j | 1 <= j < |rec| ensures FieldShape(rec[j]) {
      assert rec[j] == fs[j - 1];
    }
  }

  /** The `except` branch: keep a line only for a timestamp it still holds, with
      all ten fields "NaN". */
  function Fallback(line: string): (r: Option<Record>)
    ensures r.Some? <==> FirstTimestamp(line).Some?
    ensures r.Some? ==> MetbkShaped(r.value) && r.value[1..] == NaNFields()
    ensures r.Some? ==> r.value == [FirstTimestamp(line).value.stamp.text] + NaNFields()
  {
    match FirstTimestamp(line)
    case Some(h) =>
      StampRecordShaped(h.stamp, NaNFields());
      Some([h.stamp.text] + NaNFields())
    case None => None
  }

  /** What one raw line contributes, step by step as in the `try` block; a step
      that raises sends the line, as rewritten so far, to `Fallback`. */
  function ParseLine(line: string, isFloat: string -> bool): (r: Option<Record>)
    ensures r.Some? ==> MetbkShaped(r.value)
  {
    match LastToken(line)
    case None => Fallback(line)                        // `split()[-1]` raises
    case Some(last) =>
      if !isFloat(last) then Fallback(line)            // `float()` raises
      else
        var rewritten := ReplaceNa(line);
        match FirstTimestamp(rewritten)
        case None => Fallback(rewritten)               // `timestamp[0]` raises
        case Some(h) =>
          match Compile(h.stamp)
          case Err(_) => Fallback(rewritten)           // `re.error`
          case Ok(p) =>
            var stripped := Remove(p, rewritten, 0);
            match FirstData(stripped)
            case None => Fallback(stripped)            // `findall(...)[0]` raises
            case Some(d) =>
              StampRecordShaped(h.stamp, d.groups);
              Some([h.stamp.text] + d.groups)
  }

  /** `ParseLine` with the float test fixed, as the loop of `parse_metbk`
      applies it to every line. */
  function Parser(isFloat: string -> bool): (p: string -> Option<Record>)
    ensures forall l :: p(l).Some? ==> MetbkShaped(p(l).value)
  {
    l => ParseLine(l, isFloat)
  }

  /** The list `parse_metbk` returns: the record of every line that gives one,
      in order, each a timestamp and ten fields. */
  function MetbkRecords(lines: seq<Line>, isFloat: string -> bool): (r: seq<Record>)
    ensures |r| <= |lines|
    ensures forall j :: 0 <= j < |r| ==> MetbkShaped(r[j])
  {
    CollectKeeps(lines, Parser(isFloat), MetbkShaped);
    Collect(lines, Parser(isFloat))
  }

  /** `parse_metbk` as `load_metbk` applies it to the lines of one file. */
  function FileParser(isFloat: string -> bool): (p: seq<string> -> seq<Record>)
    ensures forall ls, k :: 0 <= k < |p(ls)| ==> MetbkShaped(p(ls)[k])
  {
    ls => MetbkRecords(AsLines(ls), isFloat)
  }

  /** The table `load_metbk` builds: the records of every `.log` file, in file
      order, each as many tokens as the table has columns. */
  function MetbkTable(files: seq<LogFile>, isFloat: string -> bool): (r: seq<Record>)
    ensures forall j :: 0 <= j < |r| ==> MetbkShaped(r[j]) && |r[j]| == |MetbkColumns()|
  {
    GatherKeeps(files, FileParser(isFloat), MetbkShaped);
    GatherFiles(files, FileParser(isFloat))
  }

  /** The parser object; `data` is the table once a load has run. */
  class Metbk {
    var data: Option<seq<Record>>

    constructor()
      ensures data == None
    {
      data := None;
    }

    /** `parse_metbk`: one record per line that holds a timestamp, in order. */
    method ParseMetbk(rawData: seq<Line>, isFloat: string -> bool) returns (goodData: seq<Record>)
      ensures goodData == MetbkRecords(rawData, isFloat)
    {
      goodData := [];
      for i := 0 to |rawData|
        invariant goodData == Collect(rawData[..i], Parser(isFloat))
      {
        CollectSnoc(rawData, i, Parser(isFloat));
        if rawData[i].Some? {
          var rec := ParseRawLine(rawData[i].value, isFloat);
          if rec.Some? {
            goodData := goodData + [rec.value];
          }
        }
      }
      assert rawData[..|rawData|] == rawData;
    }

    /** The body of the loop of `parse_metbk` for one line: the `try` block, and
        the `except` block when a step of it raises. */
    method ParseRawLine(raw: string, isFloat: string -> bool) returns (rec: Option<Record>)
      ensures rec == ParseLine(raw, isFloat)
    {
      var line := raw;
      var failed := false;
      var timestamp: Option<Hit> := None;
      var fields: seq<string> := [];
      var last := LastToken(line);
      if last.None? || !isFloat(last.value) {
        failed := true;
      } else {
        line := ReplaceNa(line);
        timestamp := FirstTimestamp(line);
        if timestamp.None? {
          failed := true;
        } else {
          var pattern := Compile(timestamp.value.stamp);
          if pattern.Err? {
            failed := true;
          } else {
            line := Remove(pattern.value, line, 0);
            var found := FirstData(line);
            if found.None? {
              failed := true;
            } else {
              fields := found.value.groups;
            }
          }
        }
      }
      if failed {
        timestamp := FirstTimestamp(line);
        if timestamp.Some? {
          fields := NaNFields();
        }
      }
      if timestamp.Some? {
        rec := Some([timestamp.value.stamp.text] + fields);
      } else {
        rec := None;
      }
    }

    /** `load_metbk`: a `files` that is not a list raises TypeError and leaves
        the object alone; otherwise `data` becomes the table of the `.log` files. */
    method LoadMetbk(files: FilesArg, isFloat: string -> bool) returns (outcome: Outcome)
      modifies this
      ensures files.NotAList? ==> outcome == Raised(TypeError) && data == old(data)
      ensures files.FileList? ==> outcome == Pass && data == Some(MetbkTable(files.files, isFloat))
    {
      if files.NotAList? {
        return Raised(TypeError);
      }
      var table: seq<Record> := [];
      var fs := files.files;
      for i := 0 to |fs|
        invariant table == GatherFiles(fs[..i], FileParser(isFloat))
      {
        GatherSnoc(fs, i, FileParser(isFloat));
        if EndsWith(fs[i].path, ".log") {
          var goodData := ParseMetbk(AsLines(fs[i].lines), isFloat);
          table := table + goodData;
        }
      }
      assert fs[..|fs|] == fs;
      data := Some(table);
      return Pass;
    }
  }
}
