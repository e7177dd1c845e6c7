/** What the WAVSS parser promises about a line, a list of lines and a list of
    files. */
module WavssProperties {
  import opened Common
  import opened PyString
  import opened Gathering
  import opened Wavss

  // ---------------------------------------------------------------------------
  // Splitting.

  /** Dropping the first character of a separator-free text keeps it so. */
  lemma SeparatorFreeTail(x: string)
    requires x != [] && SeparatorFree(x)
    ensures SeparatorFree(x[1..]) && !SeparatorFirst(x)
  {
    assert x[0..] == x;
    forall j | 0 <= j < |x| - 1 ensures !SeparatorFirst(x[1..][j..]) {
      assert x[1..][j..] == x[j + 1..];
    }
  }

  /** A separator-free text is one token. */
  lemma {:induction false} SplitWhole(x: string)
    requires SeparatorFree(x)
    ensures Split(x) == [x]
    decreases |x|
  {
    if x != [] {
      SeparatorFreeTail(x);
      SplitWhole(x[1..]);
      assert [x[0]] + x[1..] == x;
    }
  }

  /** A text that does not start with a separator, followed by a separator,
      does not start with one either. */
  lemma NoSeparatorBefore(x: string, sep: string, y: string)
    requires x != [] && !SeparatorFirst(x) && (sep == "," || sep == " $")
    ensures !SeparatorFirst(x + sep + y) && (x + sep + y)[0] == x[0]
  {
    var s := x + sep + y;
    assert s[0] == x[0];
    assert |x| >= 2 ==> s[1] == x[1];
    assert |x| == 1 ==> s[1] == sep[0];
  }

  /** A separator-free text before a separator is the first token; the rest is
      split on its own. */
  lemma {:induction false} SplitHead(x: string, sep: string, y: string)
    requires SeparatorFree(x) && (sep == "," || sep == " $")
    ensures Split(x + sep + y) == [x] + Split(y)
    decreases |x|
  {
    var s := x + sep + y;
    if x == [] {
      assert s == sep + y;
      assert s[|sep|..] == y;
    } else {
      var x' := x[1..];
      SeparatorFreeTail(x);
      SplitHead(x', sep, y);
      NoSeparatorBefore(x, sep, y);
      assert s[1..] == x' + sep + y;
      assert [x[0]] + x' == x;
    }
  }

  /** `Split` undoes `Join` on separator-free tokens. */
  lemma {:induction false} SplitJoin(ts: seq<string>)
    requires ts != [] && forall k :: 0 <= k < |ts| ==> SeparatorFree(ts[k])
    ensures Split(Join(ts)) == ts
    decreases |ts|
  {
    if |ts| == 1 {
      SplitWhole(ts[0]);
    } else {
      SplitHead(ts[0], ",", Join(ts[1..]));
      SplitJoin(ts[1..]);
      assert [ts[0]] + ts[1..] == ts;
    }
  }

  /** Every token is free of separators and made of characters of the text. */
  lemma {:induction false} SplitClean(s: string)
    ensures forall k :: 0 <= k < |Split(s)| ==> SeparatorFree(Split(s)[k])
    ensures forall k, j :: 0 <= k < |Split(s)| && 0 <= j < |Split(s)[k]| ==> Split(s)[k][j] in s
    decreases |s|
  {
    if |s| >= 2 && s[0] == ' ' && s[1] == '$' {
      SplitClean(s[2..]);
      SplitShift(s, 2);
    } else if s != [] && s[0] == ',' {
      SplitClean(s[1..]);
      SplitShift(s, 1);
    } else if s != [] {
      SplitClean(s[1..]);
      SplitGrow(s, Split(s[1..]), Split(s));
    }
  }

  /** A character that starts no separator joins the first token `rest[0]` of
      the rest of the text; the facts of `SplitClean` carry over from the
      tokens `rest` of the rest to the tokens `r` of `s`. */
  lemma SplitGrow(s: string, rest: seq<string>, r: seq<string>)
    requires s != [] && !SeparatorFirst(s) && |rest| >= 1
    requires rest[0] == [] || (|s| >= 2 && rest[0][0] == s[1])
    requires r == [[s[0]] + rest[0]] + rest[1..]
    requires forall k :: 0 <= k < |rest| ==> SeparatorFree(rest[k])
    requires forall k, j :: 0 <= k < |rest| && 0 <= j < |rest[k]| ==> rest[k][j] in s[1..]
    ensures forall k :: 0 <= k < |r| ==> SeparatorFree(r[k])
    ensures forall k, j :: 0 <= k < |r| && 0 <= j < |r[k]| ==> r[k][j] in s
  {
    var t := [s[0]] + rest[0];
    forall j | 0 <= j < |t| ensures !SeparatorFirst(t[j..]) {
      if j > 0 {
        assert t[j..] == rest[0][j - 1..];
      } else if |t| >= 2 {
        assert t[1] == s[1];
      }
    }
    forall j | 0 <= j < |t| ensures t[j] in s {
      if j > 0 {
        assert t[j] == rest[0][j - 1];
        assert rest[0][j - 1] in s[1..];
      }
    }
    forall k | 1 <= k < |r| ensures SeparatorFree(r[k]) && forall j :: 0 <= j < |r[k]| ==> r[k][j] in s {
      assert r[k] == rest[k];
      forall j | 0 <= j < |r[k]| ensures r[k][j] in s {
        assert r[k][j] in s[1..];
      }
    }
  }

  /** After a leading separator of length `n`, the tokens are those of the rest,
      after an empty one, and their characters are characters of `s`. */
  lemma SplitShift(s: string, n: nat)
    requires (n == 2 && |s| >= 2 && s[0] == ' ' && s[1] == '$') || (n == 1 && s != [] && s[0] == ',')
    requires forall k, j :: 0 <= k < |Split(s[n..])| && 0 <= j < |Split(s[n..])[k]| ==> Split(s[n..])[k][j] in s[n..]
    requires forall k :: 0 <= k < |Split(s[n..])| ==> SeparatorFree(Split(s[n..])[k])
    ensures forall k :: 0 <= k < |Split(s)| ==> SeparatorFree(Split(s)[k])
    ensures forall k, j :: 0 <= k < |Split(s)| && 0 <= j < |Split(s)[k]| ==> Split(s)[k][j] in s
  {
    var r := Split(s);
    var rest := Split(s[n..]);
    assert r == [""] + rest;
    forall k, j | 0 <= k < |r| && 0 <= j < |r[k]| ensures r[k][j] in s {
      assert r[k] == rest[k - 1];
      assert rest[k - 1][j] in s[n..];
    }
    forall k | 0 <= k < |r| ensures SeparatorFree(r[k]) {
      if k > 0 {
        assert r[k] == rest[k - 1];
      }
    }
  }

  // ---------------------------------------------------------------------------
  // One line.

  /** A kept line's tokens are exactly its split tokens, 22 of them, none
      holding ',', " $" or '*'. */
  lemma TokensClean(line: string)
    requires WavssLine(line).Some?
    ensures WavssLine(line).value == Split(CutChecksum(line))
    ensures |WavssLine(line).value| == TokenCount
    ensures forall k :: 0 <= k < TokenCount ==>
      SeparatorFree(WavssLine(line).value[k]) && '*' !in WavssLine(line).value[k]
  {
    var cut := CutChecksum(line);
    SplitClean(cut);
    var r := WavssLine(line).value;
    forall k | 0 <= k < TokenCount ensures '*' !in r[k] {
      forall j | 0 <= j < |r[k]| ensures r[k][j] != '*' {
        assert r[k][j] in cut;
      }
    }
  }

  /** A line is kept exactly when it holds the marker and its part before the
      first '*' splits into 22 tokens. */
  lemma WavssLineKept(line: string)
    ensures WavssLine(line).Some? <==> Contains(line, Marker) && |Split(CutChecksum(line))| == TokenCount
  {
  }

  /** No '*' in the tokens, no '*' in their join. */
  lemma {:induction false} JoinNoStar(ts: seq<string>)
    requires ts != [] && forall k :: 0 <= k < |ts| ==> '*' !in ts[k]
    ensures '*' !in Join(ts)
    decreases |ts|
  {
    if |ts| > 1 {
      JoinNoStar(ts[1..]);
    }
  }

  /** The cut keeps exactly the part before the first '*'. */
  lemma CutBefore(body: string, cs: string)
    requires '*' !in body
    ensures CutChecksum(body + "*" + cs) == body
  {
    var s := body + "*" + cs;
    var r := CutChecksum(s);
    assert s[|body|] == '*';
    assert forall j :: 0 <= j < |body| ==> s[j] == body[j];
    assert |r| == |body|;
    assert s[..|body|] == body;
  }

  /** A text occurs in the middle of a concatenation. */
  lemma ContainsMiddle(a: string, t: string, b: string)
    ensures Contains(a + t + b, t)
  {
    assert (a + t + b)[|a|..|a| + |t|] == t;
    assert OccursAt(a + t + b, |a|, t);
  }

  /** The marker of a sentence of type TSPWA. */
  lemma MarkerInLine(t0: string, tail: string, cs: string)
    ensures Contains(t0 + " $" + ("TSPWA" + "," + tail) + "*" + cs, Marker)
  {
    var b := "," + tail + "*" + cs;
    assert t0 + " $" + ("TSPWA" + "," + tail) + "*" + cs == (t0 + " ") + Marker + b;
    ContainsMiddle(t0 + " ", Marker, b);
  }

  /** The wave-statistics sentence as the instrument writes it: a timestamp
      token, " $", then the 21 other tokens one comma apart, starting with
      "TSPWA", then '*' and a checksum. Such a line gives exactly its tokens. */
  lemma WellFormedLine(ts: seq<string>, cs: string)
    requires |ts| == TokenCount && ts[1] == "TSPWA"
    requires forall k :: 0 <= k < |ts| ==> SeparatorFree(ts[k]) && '*' !in ts[k]
    ensures WavssLine(ts[0] + " $" + Join(ts[1..]) + "*" + cs) == Some(ts)
  {
    var rest := Join(ts[1..]);
    var body := ts[0] + " $" + rest;
    var line := body + "*" + cs;
    JoinNoStar(ts[1..]);
    CutBefore(body, cs);
    SplitHead(ts[0], " $", rest);
    SplitJoin(ts[1..]);
    assert [ts[0]] + ts[1..] == ts;
    var tail := Join(ts[2..]);
    assert ts[1..][1..] == ts[2..];
    assert rest == "TSPWA" + "," + tail;
    MarkerInLine(ts[0], tail, cs);
  }

  // ---------------------------------------------------------------------------
  // The list of records.

  /** Every record has one entry per column, and there are no more records
      than lines. */
  lemma RecordsShaped(lines: seq<Line>)
    requires WavssRecords(lines).Ok?
    ensures |WavssRecords(lines).value| <= |lines|
    ensures forall j :: 0 <= j < |WavssRecords(lines).value| ==> |WavssRecords(lines).value[j]| == |WavssColumns()|
  {
    CollectKeeps(lines, WavssLine, rec => |rec| == TokenCount);
  }

  /** Lines without the marker contribute nothing. */
  lemma NoMarkerNoRecords(lines: seq<Line>)
    requires forall j :: 0 <= j < |lines| ==> lines[j].Some? && !Contains(lines[j].value, Marker)
    ensures WavssRecords(lines) == Ok([])
  {
    CollectNothing(lines, WavssLine);
  }

  /** When no entry is None, there are as many records as entries exactly when
      every line is kept, and then the records are the lines' tokens in order. */
  lemma AllLinesKept(lines: seq<Line>)
    requires forall j :: 0 <= j < |lines| ==> lines[j].Some?
    ensures |WavssRecords(lines).value| == |lines| <==>
      forall j :: 0 <= j < |lines| ==> WavssLine(lines[j].value).Some?
    ensures |WavssRecords(lines).value| == |lines| ==>
      forall j :: 0 <= j < |lines| ==> WavssRecords(lines).value[j] == WavssLine(lines[j].value).value
  {
    CollectAll(lines, WavssLine);
    if |WavssRecords(lines).value| == |lines| {
      CollectInOrder(lines, WavssLine);
    }
  }

  /** The records of two runs of lines are the records of the first run, then
      those of the second. */
  lemma WavssRecordsAppend(a: seq<Line>, b: seq<Line>)
    requires forall j :: 0 <= j < |a| ==> a[j].Some?
    requires forall j :: 0 <= j < |b| ==> b[j].Some?
    ensures WavssRecords(a + b) == Ok(WavssRecords(a).value + WavssRecords(b).value)
  {
    CollectAppend(a, b, WavssLine);
  }

  // ---------------------------------------------------------------------------
  // The table of a list of files.

  /** The lines of a file never make `parse_wavss` raise. */
  lemma FileNeverRaises(lines: seq<string>)
    ensures WavssRecords(AsLines(lines)) == Ok(FileRecords(lines))
  {
  }

  /** Two runs of files give their tables one after the other. */
  lemma WavssTableAppend(a: seq<LogFile>, b: seq<LogFile>)
    ensures WavssTable(a + b) == WavssTable(a) + WavssTable(b)
  {
    GatherAppend(a, b, FileParser());
  }

  /** A single file contributes its records if it is a `.log` file, and
      nothing otherwise. */
  lemma WavssTableOne(f: LogFile)
    ensures EndsWith(f.path, ".log") ==> WavssTable([f]) == FileRecords(f.lines)
    ensures !EndsWith(f.path, ".log") ==> WavssTable([f]) == []
  {
    GatherOne(f, FileParser());
  }

  /** A file that is not a `.log` file can be taken out of the list. */
  lemma WavssTableSkips(a: seq<LogFile>, f: LogFile, b: seq<LogFile>)
    requires !EndsWith(f.path, ".log")
    ensures WavssTable(a + [f] + b) == WavssTable(a + b)
  {
    GatherSkips(a, f, b, FileParser());
  }
}
