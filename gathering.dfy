/** How both parsers gather records: a list of raw lines gives the records of
    the lines that yield one, in order, and a list of files gives the records of
    its `.log` files, in order. The per-line and per-file parsers are
    parameters, so these facts hold for both. */
module Gathering {
  import opened Common
  import opened PyString

  /** What one entry contributes: None entries and lines the parser rejects
      give nothing, any other line its record. */
  function Own(line: Line, parse: string -> Option<Record>): (r: seq<Record>)
    ensures |r| <= 1
    ensures |r| == 1 <==> line.Some? && parse(line.value).Some?
    ensures |r| == 1 ==> r[0] == parse(line.value).value
  {
    match line
    case None => []
    case Some(l) => match parse(l) case Some(rec) => [rec] case None => []
  }

  /** The records of `lines`, entry by entry. */
  function Collect(lines: seq<Line>, parse: string -> Option<Record>): (r: seq<Record>)
    ensures |r| <= |lines|
    decreases |lines|
  {
    if lines == [] then [] else Collect(lines[..|lines| - 1], parse) + Own(lines[|lines| - 1], parse)
  }

  /** One more entry adds its own records at the end. */
  lemma CollectSnoc(lines: seq<Line>, i: nat, parse: string -> Option<Record>)
    requires i < |lines|
    ensures Collect(lines[..i + 1], parse) == Collect(lines[..i], parse) + Own(lines[i], parse)
  {
    assert lines[..i + 1][..i] == lines[..i];
  }

  /** A line the parser turns into `rec` adds `rec`'s record, if any, at the end. */
  lemma CollectStep(lines: seq<Line>, i: nat, parse: string -> Option<Record>, rec: Option<Record>)
    requires i < |lines| && lines[i].Some? && rec == parse(lines[i].value)
    ensures Collect(lines[..i + 1], parse) == Collect(lines[..i], parse) + (if rec.Some? then [rec.value] else [])
  {
    CollectSnoc(lines, i, parse);
  }

  /** Records of consecutive runs of lines are consecutive. */
  lemma {:induction false} CollectAppend(a: seq<Line>, b: seq<Line>, parse: string -> Option<Record>)
    ensures Collect(a + b, parse) == Collect(a, parse) + Collect(b, parse)
    decreases |b|
  {
    if b == [] {
      assert a + b == a;
    } else {
      var init := b[..|b| - 1];
      assert (a + b)[..|a + b| - 1] == a + init;
      assert (a + b)[|a + b| - 1] == b[|b| - 1];
      CollectAppend(a, init, parse);
    }
  }

  /** Every record is the record of some line. */
  lemma {:induction false} CollectFrom(lines: seq<Line>, parse: string -> Option<Record>, k: nat)
    requires k < |Collect(lines, parse)|
    ensures exists j :: 0 <= j < |lines| && lines[j].Some? && parse(lines[j].value) == Some(Collect(lines, parse)[k])
    decreases |lines|
  {
    var init := lines[..|lines| - 1];
    var r := Collect(lines, parse);
    if k < |Collect(init, parse)| {
      CollectFrom(init, parse, k);
      var j :| 0 <= j < |init| && init[j].Some? && parse(init[j].value) == Some(Collect(init, parse)[k]);
      assert lines[j] == init[j];
    } else {
      assert r[k] == Own(lines[|lines| - 1], parse)[0];
    }
  }

  /** Entries that all give nothing give no records. */
  lemma {:induction false} CollectNothing(lines: seq<Line>, parse: string -> Option<Record>)
    requires forall j :: 0 <= j < |lines| ==> lines[j].None? || parse(lines[j].value).None?
    ensures Collect(lines, parse) == []
    decreases |lines|
  {
    if lines != [] {
      CollectNothing(lines[..|lines| - 1], parse);
    }
  }

  /** There are as many records as entries exactly when every entry is a line
      the parser accepts. */
  lemma {:induction false} CollectAll(lines: seq<Line>, parse: string -> Option<Record>)
    ensures |Collect(lines, parse)| == |lines| <==>
      forall j :: 0 <= j < |lines| ==> lines[j].Some? && parse(lines[j].value).Some?
    decreases |lines|
  {
    if lines != [] {
      var init := lines[..|lines| - 1];
      CollectAll(init, parse);
      assert forall j :: 0 <= j < |init| ==> init[j] == lines[j];
    }
  }

  /** When the parser accepts every entry, the records are the entries'
      records, in order. */
  lemma {:induction false} CollectInOrder(lines: seq<Line>, parse: string -> Option<Record>)
    requires forall j :: 0 <= j < |lines| ==> lines[j].Some? && parse(lines[j].value).Some?
    ensures |Collect(lines, parse)| == |lines|
    ensures forall j :: 0 <= j < |lines| ==> Collect(lines, parse)[j] == parse(lines[j].value).value
    decreases |lines|
  {
    if lines != [] {
      var init := lines[..|lines| - 1];
      assert forall j :: 0 <= j < |init| ==> init[j] == lines[j];
      CollectInOrder(init, parse);
      var r := Collect(lines, parse);
      forall j | 0 <= j < |lines| ensures r[j] == parse(lines[j].value).value {
        if j < |init| {
          assert r[j] == Collect(init, parse)[j];
        }
      }
    }
  }

  /** A property every parsed line's record has, every collected record has. */
  lemma {:induction false} CollectKeeps(lines: seq<Line>, parse: string -> Option<Record>, ok: Record -> bool)
    requires forall l :: parse(l).Some? ==> ok(parse(l).value)
    ensures forall k :: 0 <= k < |Collect(lines, parse)| ==> ok(Collect(lines, parse)[k])
  {
    forall k | 0 <= k < |Collect(lines, parse)| ensures ok(Collect(lines, parse)[k]) {
      CollectFrom(lines, parse, k);
    }
  }

  /** The table of the files whose path ends with ".log", file by file. */
  function GatherFiles(files: seq<LogFile>, parse: seq<string> -> seq<Record>): (r: seq<Record>)
    decreases |files|
  {
    if files == [] then []
    else
      var f := files[|files| - 1];
      GatherFiles(files[..|files| - 1], parse) + (if EndsWith(f.path, ".log") then parse(f.lines) else [])
  }

  /** One more file adds its records at the end, if it is a `.log` file. */
  lemma GatherSnoc(files: seq<LogFile>, i: nat, parse: seq<string> -> seq<Record>)
    requires i < |files|
    ensures GatherFiles(files[..i + 1], parse)
      == GatherFiles(files[..i], parse) + (if EndsWith(files[i].path, ".log") then parse(files[i].lines) else [])
  {
    assert files[..i + 1][..i] == files[..i];
  }

  /** Tables of consecutive runs of files are consecutive. */
  lemma {:induction false} GatherAppend(a: seq<LogFile>, b: seq<LogFile>, parse: seq<string> -> seq<Record>)
    ensures GatherFiles(a + b, parse) == GatherFiles(a, parse) + GatherFiles(b, parse)
    decreases |b|
  {
    if b == [] {
      assert a + b == a;
    } else {
      var init := b[..|b| - 1];
      assert (a + b)[..|a + b| - 1] == a + init;
      var f := b[|b| - 1];
      var own := if EndsWith(f.path, ".log") then parse(f.lines) else [];
      assert (a + b)[|a + b| - 1] == f;
      assert GatherFiles(a + b, parse) == GatherFiles(a + init, parse) + own;
      GatherAppend(a, init, parse);
    }
  }

  /** One file contributes its records when its path ends with ".log", and
      nothing otherwise. */
  lemma GatherOne(f: LogFile, parse: seq<string> -> seq<Record>)
    ensures EndsWith(f.path, ".log") ==> GatherFiles([f], parse) == parse(f.lines)
    ensures !EndsWith(f.path, ".log") ==> GatherFiles([f], parse) == []
  {
    assert [f][..0] == [];
  }

  /** A file whose path does not end with ".log" is skipped without effect. */
  lemma GatherSkips(a: seq<LogFile>, f: LogFile, b: seq<LogFile>, parse: seq<string> -> seq<Record>)
    requires !EndsWith(f.path, ".log")
    ensures GatherFiles(a + [f] + b, parse) == GatherFiles(a + b, parse)
  {
    GatherAppend(a + [f], b, parse);
    GatherAppend(a, [f], parse);
    GatherAppend(a, b, parse);
    GatherOne(f, parse);
  }

  /** Every row of the table is a record of some `.log` file. */
  lemma {:induction false} GatherFrom(files: seq<LogFile>, parse: seq<string> -> seq<Record>, k: nat)
    requires k < |GatherFiles(files, parse)|
    ensures exists i :: 0 <= i < |files| && EndsWith(files[i].path, ".log") && GatherFiles(files, parse)[k] in parse(files[i].lines)
    decreases |files|
  {
    var init := files[..|files| - 1];
    var f := files[|files| - 1];
    var head := GatherFiles(init, parse);
    if k < |head| {
      GatherFrom(init, parse, k);
      var i :| 0 <= i < |init| && EndsWith(init[i].path, ".log") && head[k] in parse(init[i].lines);
      assert files[i] == init[i];
    } else {
      assert EndsWith(f.path, ".log");
      assert GatherFiles(files, parse)[k] == parse(f.lines)[k - |head|];
    }
  }

  /** A property every record of every file has, every gathered record has. */
  lemma {:induction false} GatherKeeps(files: seq<LogFile>, parse: seq<string> -> seq<Record>, ok: Record -> bool)
    requires forall ls, k :: 0 <= k < |parse(ls)| ==> ok(parse(ls)[k])
    ensures forall k :: 0 <= k < |GatherFiles(files, parse)| ==> ok(GatherFiles(files, parse)[k])
    decreases |files|
  {
    if files != [] {
      GatherKeeps(files[..|files| - 1], parse, ok);
    }
  }
}
