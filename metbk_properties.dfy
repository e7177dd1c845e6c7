/** What the METBK parser promises about a line, a list of lines and a list of
    files. */
module MetbkProperties {
  import opened Common
  import opened PyString
  import opened NaRewrite
  import opened TimestampRegex
  import opened StampRemoval
  import opened DataRegex
  import opened Gathering
  import opened Metbk

  // ---------------------------------------------------------------------------
  // The "Na " rewrite cannot make a timestamp appear.

  /** A timestamp reading survives a change of the character its `.` matched,
      as long as that character is still not a newline. */
  lemma StampAtExceptSep(s: string, t: string, i: nat, k: nat, e: nat)
    requires StampAt(s, i, k, e) && e <= |t| && t[k] != '\n'
    requires forall j :: i <= j < e && j != k ==> t[j] == s[j]
    ensures StampAt(t, i, k, e)
  {
    assert t[k - 8] == s[k - 8] && t[k - 7] == s[k - 7] && t[k - 6] == s[k - 6] && t[k - 5] == s[k - 5];
    assert t[k - 4] == s[k - 4] && t[k - 3] == s[k - 3] && t[k - 2] == s[k - 2] && t[k - 1] == s[k - 1];
    assert t[i] == s[i] && t[i + 1] == s[i + 1] && t[i + 2] == s[i + 2] && t[i + 3] == s[i + 3] && t[i + 4] == s[i + 4];
    assert t[i + 5] == s[i + 5] && t[i + 6] == s[i + 6] && t[i + 7] == s[i + 7] && t[i + 8] == s[i + 8] && t[i + 9] == s[i + 9];
  }

  /** `r` is `s` with the blank of every "Na " turned into 'N'. */
  predicate Rewritten(s: string, r: string) {
    |r| == |s| && forall j {:trigger r[j]} :: 0 <= j < |s| ==> r[j] == if ClosesNa(s, j) then 'N' else s[j]
  }

  /** A timestamp reading of the rewritten line is one of the line itself: the
      rewrite only turns blanks into 'N', and a timestamp holds no 'N' except
      possibly at its `.`, which matches a blank as well. */
  lemma RewriteKeepsStampAt(s: string, r: string, i: nat, k: nat, e: nat)
    requires Rewritten(s, r) && StampAt(r, i, k, e) && EndsDigits(r, e)
    ensures StampAt(s, i, k, e) && EndsDigits(s, e)
  {
    forall j | i <= j < e && j != k ensures s[j] == r[j] {
      StampChar(r, i, k, e, j);
    }
    assert s[k] != '\n';
    StampAtExceptSep(r, s, i, k, e);
  }

  /** Where the rewritten line has a timestamp, the line itself has one. */
  lemma RewriteKeepsMatch(s: string, r: string, i: nat)
    requires Rewritten(s, r) && i <= |r| && MatchTimestampAt(r, i).Some?
    ensures MatchTimestampAt(s, i).Some?
  {
    var st := MatchTimestampAt(r, i).value;
    MatchedStampAt(r, i, st);
    RewriteKeepsStampAt(s, r, i, i + st.sepAt, i + |st.text|);
    MatchTimestampAtShape(s, i, i + st.sepAt, i + |st.text|);
  }

  /** The "Na " rewrite creates no timestamp: where the rewritten line has one,
      the line itself has one. */
  lemma ReplaceNaKeepsStamp(s: string)
    ensures FirstTimestamp(ReplaceNa(s)).Some? ==> FirstTimestamp(s).Some?
  {
    var r := ReplaceNa(s);
    ReplaceNaPointwise(s);
    var h := FirstTimestamp(r);
    if h.Some? {
      RewriteKeepsMatch(s, r, h.value.pos);
    }
  }

  /** A line contributes a record only if it holds a timestamp: the fallback
      search and the data path both look at the line or at a rewrite of it. */
  lemma RecordNeedsStamp(line: string, isFloat: string -> bool)
    ensures ParseLine(line, isFloat).Some? ==> FirstTimestamp(line).Some?
  {
    ReplaceNaKeepsStamp(line);
  }

  /** A line whose last token is missing or not a number goes straight to the
      fallback: one record of its first timestamp and ten "NaN", or nothing. */
  lemma NotFloatFallsBack(line: string, isFloat: string -> bool)
    requires LastToken(line).None? || !isFloat(LastToken(line).value)
    ensures FirstTimestamp(line).None? ==> ParseLine(line, isFloat).None?
    ensures FirstTimestamp(line).Some? ==>
      ParseLine(line, isFloat) == Some([FirstTimestamp(line).value.stamp.text] + NaNFields())
  {
  }

  // ---------------------------------------------------------------------------
  // A well-formed line: a timestamp, then ten fields one blank apart.

  /** A group's text holds no blank and no "Na ", and neither starts nor ends
      with 'a'. */
  lemma FieldFacts(f: string)
    requires FieldShape(f)
    ensures f != [] && forall j :: 0 <= j < |f| ==> !IsSpace(f[j]) && f[j] != '/'
    ensures NoNa(f) && f[0] != 'a' && f[|f| - 1] != 'a'
  {
    FieldChars(f);
    if f != "NaN" {
      var m: nat, d: nat :| NumberParts(f, m, d);
      NumberHead(f, m, d);
    }
  }

  /** The text of a timestamp holds no "Na " and ends with a digit. */
  lemma StampNoNa(st: Stamp)
    requires StampShape(st)
    ensures NoNa(st.text) && IsDigit(st.text[|st.text| - 1])
  {
    var t := st.text;
    forall j | 0 <= j < |t| ensures !ClosesNa(t, j) {
      if 2 <= j && j - 1 != st.sepAt {
        StampChar(t, 0, st.sepAt, |t|, j - 1);
      }
    }
  }

  /** Fields laid out one blank apart before a tail that starts with a blank
      and holds no "Na " and no '/': no "Na ", no '/', and the layout starts
      with a blank. */
  lemma {:induction false} SpacedPlain(fs: seq<string>, tail: string)
    requires AllFields(fs) && tail != [] && tail[0] == ' '
    requires NoNa(tail) && forall j :: 0 <= j < |tail| ==> tail[j] != '/'
    ensures NoNa(Spaced(fs, tail))
    ensures forall j :: 0 <= j < |Spaced(fs, tail)| ==> Spaced(fs, tail)[j] != '/'
    ensures Spaced(fs, tail) != [] && Spaced(fs, tail)[0] == ' '
    decreases |fs|
  {
    if fs != [] {
      var f := fs[0];
      var rest := Spaced(fs[1..], tail);
      SpacedPlain(fs[1..], tail);
      FieldFacts(f);
      NoNaJoin(f, rest);
      NoNaJoin(" ", f + rest);
      assert Spaced(fs, tail) == " " + (f + rest);
      var s := Spaced(fs, tail);
      forall j | 0 <= j < |s| ensures s[j] != '/' {
        if 1 <= j < 1 + |f| {
          assert s[j] == f[j - 1];
        } else if j >= 1 + |f| {
          assert s[j] == rest[j - 1 - |f|];
        }
      }
    }
  }

  /** The last field of a layout is its last token before the tail. */
  lemma {:induction false} SpacedLast(fs: seq<string>, tail: string)
    requires fs != []
    ensures Spaced(fs, tail) == Spaced(fs[..|fs| - 1], "") + " " + fs[|fs| - 1] + tail
    decreases |fs|
  {
    if |fs| > 1 {
      var init := fs[..|fs| - 1];
      SpacedLast(fs[1..], tail);
      assert fs[1..][..|fs[1..]| - 1] == init[1..];
      assert Spaced(init, "") == " " + fs[0] + Spaced(init[1..], "");
    }
  }

  /** `split()[-1]` of a timestamp and a layout is the last field. */
  lemma LastFieldIsLastToken(t: string, fs: seq<string>, tail: string)
    requires fs != [] && FieldShape(fs[|fs| - 1]) && AllSpace(tail)
    ensures LastToken(t + Spaced(fs, tail)) == Some(fs[|fs| - 1])
  {
    var u := Spaced(fs[..|fs| - 1], "");
    var last := fs[|fs| - 1];
    SpacedLast(fs, tail);
    Regroup(t, u + " ", last, tail);
    FieldFacts(last);
    LastTokenOf(t + (u + " "), last, tail);
  }

  lemma Regroup(a: string, b: string, c: string, d: string)
    ensures a + (b + c + d) == a + b + c + d
  {
  }

  /** The first timestamp of a line that starts with one is that one. */
  lemma LeadingStampFirst(st: Stamp, rest: string)
    requires StampShape(st) && (rest == [] || !IsDigit(rest[0]))
    ensures FirstTimestamp(st.text + rest) == Some(Hit(0, st))
  {
    var t := st.text;
    var line := t + rest;
    StampAtMoved(t, 0, st.sepAt, |t|, line, 0);
    assert rest != [] ==> line[|t|] == rest[0];
    MatchTimestampAtShape(line, 0, st.sepAt, |t|);
    assert line[0..|t|] == t;
  }

  /** A timestamp followed by a text with no "Na " and no 'a' at its start has
      no "Na ". */
  lemma LeadingStampNoNa(st: Stamp, rest: string)
    requires StampShape(st) && NoNa(rest) && (rest == [] || rest[0] != 'a')
    ensures ReplaceNa(st.text + rest) == st.text + rest
  {
    StampNoNa(st);
    NoNaJoin(st.text, rest);
    ReplaceNaNoNa(st.text + rest);
  }

  /** The data path put together: a line that starts with a timestamp whose `.`
      matched '.' or a character `re` reads as itself, followed by ten fields one
      blank apart and a tail (the battery readings, say) that starts with a
      blank, holds the newline and has no "Na " and no '/', and whose last token
      is a number, gives the record of that timestamp and those fields,
      unchanged. */
  lemma WellFormedLine(st: Stamp, fs: seq<string>, tail: string, isFloat: string -> bool)
    requires StampShape(st) && (st.text[st.sepAt] == '.' || Plain(st.text[st.sepAt]))
    requires |fs| == FieldCount && forall j :: 0 <= j < |fs| ==> FieldShape(fs[j])
    requires tail != [] && tail[0] == ' ' && '\n' in tail
    requires NoNa(tail) && forall j :: 0 <= j < |tail| ==> tail[j] != '/'
    requires LastToken(st.text + Spaced(fs, tail)).Some?
    requires isFloat(LastToken(st.text + Spaced(fs, tail)).value)
    ensures ParseLine(st.text + Spaced(fs, tail), isFloat) == Some([st.text] + fs)
  {
    var rest := Spaced(fs, tail);
    AllFieldsEach(fs);
    SpacedPlain(fs, tail);
    LeadingStampNoNa(st, rest);
    LeadingStampFirst(st, rest);
    RemoveLeadingStamp(st, rest);
    FirstDataSpaced(rest, fs, tail);
  }

  /** When only whitespace follows the ten fields, the float test is made on
      the last field itself. */
  lemma FieldsToLineEnd(st: Stamp, fs: seq<string>, tail: string, isFloat: string -> bool)
    requires StampShape(st) && (st.text[st.sepAt] == '.' || Plain(st.text[st.sepAt]))
    requires |fs| == FieldCount && forall j :: 0 <= j < |fs| ==> FieldShape(fs[j])
    requires AllSpace(tail) && tail != [] && tail[0] == ' ' && '\n' in tail
    requires isFloat(fs[FieldCount - 1])
    ensures ParseLine(st.text + Spaced(fs, tail), isFloat) == Some([st.text] + fs)
  {
    LastFieldIsLastToken(st.text, fs, tail);
    forall j | 0 <= j < |tail| ensures !ClosesNa(tail, j) && tail[j] != '/' {
      assert IsSpace(tail[j]);
    }
    WellFormedLine(st, fs, tail, isFloat);
  }

  /** No timestamp without a '/'. */
  lemma NoSlashNoStamp(s: string)
    requires forall j :: 0 <= j < |s| ==> s[j] != '/'
    ensures FirstTimestamp(s).None?
  {
    forall j | 0 <= j <= |s| ensures MatchTimestampAt(s, j).None? {
      assert !DateAt(s, j);
    }
  }

  /** The fallback looks at the line after the rewrite and the removal of the
      timestamp: a line that starts with a timestamp and whose rest matches no
      ten fields is dropped, not filled with "NaN". */
  lemma StampWithoutDataDropped(st: Stamp, rest: string, isFloat: string -> bool)
    requires StampShape(st) && (st.text[st.sepAt] == '.' || Plain(st.text[st.sepAt]))
    requires forall j :: 0 <= j < |rest| ==> rest[j] != '/'
    requires NoNa(rest) && (rest == [] || (rest[0] != 'a' && !IsDigit(rest[0])))
    requires LastToken(st.text + rest).Some? && isFloat(LastToken(st.text + rest).value)
    requires FirstData(rest).None?
    ensures FirstTimestamp(st.text + rest) == Some(Hit(0, st))
    ensures ParseLine(st.text + rest, isFloat).None?
  {
    LeadingStampNoNa(st, rest);
    LeadingStampFirst(st, rest);
    RemoveLeadingStamp(st, rest);
    NoSlashNoStamp(rest);
  }

  // ---------------------------------------------------------------------------
  // The list of records.

  /** None entries and lines without a timestamp contribute nothing. */
  lemma NoStampNoRecords(lines: seq<Line>, isFloat: string -> bool)
    requires forall j :: 0 <= j < |lines| ==> lines[j].None? || FirstTimestamp(lines[j].value).None?
    ensures MetbkRecords(lines, isFloat) == []
  {
    forall j | 0 <= j < |lines| && lines[j].Some? ensures Parser(isFloat)(lines[j].value).None? {
      RecordNeedsStamp(lines[j].value, isFloat);
    }
    CollectNothing(lines, Parser(isFloat));
  }

  /** There are as many records as entries exactly when every entry is a line
      that gives a record, and then the records are the lines' records in
      order. */
  lemma AllLinesKept(lines: seq<Line>, isFloat: string -> bool)
    ensures |MetbkRecords(lines, isFloat)| == |lines| <==>
      forall j :: 0 <= j < |lines| ==> lines[j].Some? && ParseLine(lines[j].value, isFloat).Some?
    ensures |MetbkRecords(lines, isFloat)| == |lines| ==>
      forall j :: 0 <= j < |lines| ==> MetbkRecords(lines, isFloat)[j] == ParseLine(lines[j].value, isFloat).value
  {
    CollectAll(lines, Parser(isFloat));
    if |MetbkRecords(lines, isFloat)| == |lines| {
      CollectInOrder(lines, Parser(isFloat));
    }
  }

  /** The records of two runs of lines are the records of the first run, then
      those of the second. */
  lemma MetbkRecordsAppend(a: seq<Line>, b: seq<Line>, isFloat: string -> bool)
    ensures MetbkRecords(a + b, isFloat) == MetbkRecords(a, isFloat) + MetbkRecords(b, isFloat)
  {
    CollectAppend(a, b, Parser(isFloat));
  }

  // ---------------------------------------------------------------------------
  // The table of a list of files.

  /** Two runs of files give their tables one after the other. */
  lemma MetbkTableAppend(a: seq<LogFile>, b: seq<LogFile>, isFloat: string -> bool)
    ensures MetbkTable(a + b, isFloat) == MetbkTable(a, isFloat) + MetbkTable(b, isFloat)
  {
    GatherAppend(a, b, FileParser(isFloat));
  }

  /** A single file contributes its records if it is a `.log` file, and
      nothing otherwise. */
  lemma MetbkTableOne(f: LogFile, isFloat: string -> bool)
    ensures EndsWith(f.path, ".log") ==> MetbkTable([f], isFloat) == MetbkRecords(AsLines(f.lines), isFloat)
    ensures !EndsWith(f.path, ".log") ==> MetbkTable([f], isFloat) == []
  {
    GatherOne(f, FileParser(isFloat));
  }

  /** A file that is not a `.log` file can be taken out of the list. */
  lemma MetbkTableSkips(a: seq<LogFile>, f: LogFile, b: seq<LogFile>, isFloat: string -> bool)
    requires !EndsWith(f.path, ".log")
    ensures MetbkTable(a + [f] + b, isFloat) == MetbkTable(a + b, isFloat)
  {
    GatherSkips(a, f, b, FileParser(isFloat));
  }
}
