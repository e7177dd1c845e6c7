/** The METBK timestamp pattern `\d{4}/\d{2}/\d{2}\s*\d{2}:\d{2}:\d{2}.\d+`,
    matched by hand: a date, optional whitespace, a time, any one character
    other than a newline, and a run of digits. */
module TimestampRegex {
  import opened Common
  import opened PyString

  /** A timestamp match: the matched text, and the index in it of the character
      the pattern's `.` matched. That character is the only one of the text that
      `re` can read as special when the text is later used as a pattern. */
  datatype Stamp = Stamp(text: string, sepAt: nat)

  /** Where a search found a timestamp, and what it matched there. */
  datatype Hit = Hit(pos: nat, stamp: Stamp)

  /** `\d{4}/\d{2}/\d{2}` matches `s[i..i + 10]`. */
  predicate DateAt(s: string, i: nat) {
    && i + 10 <= |s|
    && IsDigit(s[i]) && IsDigit(s[i + 1]) && IsDigit(s[i + 2]) && IsDigit(s[i + 3])
    && s[i + 4] == '/' && IsDigit(s[i + 5]) && IsDigit(s[i + 6])
    && s[i + 7] == '/' && IsDigit(s[i + 8]) && IsDigit(s[i + 9])
  }

  /** `\d{2}:\d{2}:\d{2}` matches `s[w..w + 8]`. */
  predicate ClockAt(s: string, w: nat) {
    && w + 8 <= |s|
    && IsDigit(s[w]) && IsDigit(s[w + 1]) && s[w + 2] == ':'
    && IsDigit(s[w + 3]) && IsDigit(s[w + 4]) && s[w + 5] == ':'
    && IsDigit(s[w + 6]) && IsDigit(s[w + 7])
  }

  /** `s[i..e]` reads as `\d{4}/\d{2}/\d{2}\s*\d{2}:\d{2}:\d{2}.\d+`, with the `.`
      matching `s[k]`. */
  predicate StampAt(s: string, i: nat, k: nat, e: nat) {
    && i + 18 <= k && k + 1 < e <= |s|
    && DateAt(s, i)
    && (forall j :: i + 10 <= j < k - 8 ==> IsSpace(s[j]))
    && ClockAt(s, k - 8)
    && s[k] != '\n'
    && DigitsAt(s, k + 1, e - k - 1)
  }

  /** The whole text of the stamp reads as a timestamp, with the `.` at `sepAt`. */
  predicate StampShape(st: Stamp) {
    StampAt(st.text, 0, st.sepAt, |st.text|)
  }

  /** No digit follows index `e`: the closing `\d+` cannot take more. */
  predicate EndsDigits(s: string, e: nat) {
    e == |s| || (e < |s| && !IsDigit(s[e]))
  }

  /** The match of the timestamp pattern that starts at index `i`, if any. Every
      quantifier in the pattern is greedy and none can give back a character to
      let the rest match, so the match is unique. */
  function MatchTimestampAt(s: string, i: nat): (r: Option<Stamp>)
    requires i <= |s|
    ensures r.Some? ==> i + |r.value.text| <= |s| && r.value.text == s[i..i + |r.value.text|]
    ensures r.Some? ==> StampAt(s, i, i + r.value.sepAt, i + |r.value.text|)
    ensures r.Some? ==> EndsDigits(s, i + |r.value.text|)
  {
    if DateAt(s, i) then
      var w := SkipSpace(s, i + 10);
      if ClockAt(s, w) && w + 8 < |s| && s[w + 8] != '\n' then
        var n := DigitRun(s, w + 9);
        if n == 0 then None else Some(Stamp(s[i..w + 9 + n], w + 8 - i))
      else None
    else None
  }

  /** Conversely, where `s[i..e]` reads as a timestamp and no digit follows, that
      is what the pattern matches at `i`. */
  lemma MatchTimestampAtShape(s: string, i: nat, k: nat, e: nat)
    requires StampAt(s, i, k, e) && EndsDigits(s, e)
    ensures MatchTimestampAt(s, i) == Some(Stamp(s[i..e], k - i))
  {
    StampSpaceRun(s, i, k, e);
    StampFractionRun(s, i, k, e);
    MatchFromRuns(s, i, k, e);
  }

  lemma MatchFromRuns(s: string, i: nat, k: nat, e: nat)
    requires StampAt(s, i, k, e) && EndsDigits(s, e)
    requires SkipSpace(s, i + 10) == k - 8
    requires DigitRun(s, k + 1) == e - k - 1
    ensures MatchTimestampAt(s, i) == Some(Stamp(s[i..e], k - i))
  {
  }

  lemma StampSpaceRun(s: string, i: nat, k: nat, e: nat)
    requires StampAt(s, i, k, e)
    ensures SkipSpace(s, i + 10) == k - 8
  {
    SkipSpaceIs(s, i + 10, k - 8);
  }

  lemma StampFractionRun(s: string, i: nat, k: nat, e: nat)
    requires StampAt(s, i, k, e) && EndsDigits(s, e)
    ensures DigitRun(s, k + 1) == e - k - 1
  {
    DigitRunIs(s, k + 1, e - k - 1);
  }

  /** The leftmost match at or after index `i`, as `re.search` finds it. */
  function SearchTimestamp(s: string, i: nat): (r: Option<Hit>)
    requires i <= |s|
    ensures r.Some? ==> i <= r.value.pos <= |s| && MatchTimestampAt(s, r.value.pos) == Some(r.value.stamp)
    ensures r.Some? ==> forall j :: i <= j < r.value.pos ==> MatchTimestampAt(s, j).None?
    ensures r.None? ==> forall j :: i <= j <= |s| ==> MatchTimestampAt(s, j).None?
    decreases |s| - i
  {
    match MatchTimestampAt(s, i)
    case Some(st) => Some(Hit(i, st))
    case None => if i == |s| then None else SearchTimestamp(s, i + 1)
  }

  /** `re.findall(TIMESTAMP_PATTERN, s)`: empty exactly when this is None, and
      its first element the text of the returned stamp, which reads as a
      timestamp on its own. */
  function FirstTimestamp(s: string): (r: Option<Hit>)
    ensures r.Some? ==> r.value.pos <= |s| && MatchTimestampAt(s, r.value.pos) == Some(r.value.stamp)
    ensures r.Some? ==> forall j :: 0 <= j < r.value.pos ==> MatchTimestampAt(s, j).None?
    ensures r.None? <==> forall j :: 0 <= j <= |s| ==> MatchTimestampAt(s, j).None?
    ensures r.Some? ==> StampShape(r.value.stamp)
  {
    var h := SearchTimestamp(s, 0);
    if h.Some? then MatchedStampShape(s, h.value.pos, h.value.stamp); h else h
  }

  /** What a match at `i` says about `s`, one fact per clause. */
  lemma MatchedStampAt(s: string, i: nat, st: Stamp)
    requires i <= |s| && MatchTimestampAt(s, i) == Some(st)
    ensures StampAt(s, i, i + st.sepAt, i + |st.text|) && EndsDigits(s, i + |st.text|)
  {
  }

  /** The text of a match reads as a timestamp on its own. */
  lemma MatchedStampShape(s: string, i: nat, st: Stamp)
    requires i <= |s| && MatchTimestampAt(s, i) == Some(st)
    ensures StampShape(st)
  {
    StampTextShape(s, i, st);
  }

  lemma StampTextShape(s: string, i: nat, st: Stamp)
    requires i + |st.text| <= |s| && st.text == s[i..i + |st.text|]
    requires StampAt(s, i, i + st.sepAt, i + |st.text|)
    ensures StampShape(st)
  {
    var t := st.text;
    forall j | 0 <= j < |t| ensures t[j] == s[j - 0 + i] {
      assert t[j] == s[i..i + |t|][j];
    }
    StampAtMoved(s, i, i + st.sepAt, i + |t|, t, 0);
  }

  /** A timestamp reading carries over to another string holding the same
      characters at another place. */
  lemma StampAtMoved(s: string, i: nat, k: nat, e: nat, t: string, i': nat)
    requires StampAt(s, i, k, e)
    requires i' + (e - i) <= |t| && forall j :: i' <= j < i' + (e - i) ==> t[j] == s[j - i' + i]
    ensures StampAt(t, i', i' + (k - i), i' + (e - i))
  {
    var k' := i' + (k - i);
    var e' := i' + (e - i);
    assert t[k'] == s[k];
    assert t[k' - 8] == s[k - 8] && t[k' - 7] == s[k - 7] && t[k' - 6] == s[k - 6] && t[k' - 5] == s[k - 5];
    assert t[k' - 4] == s[k - 4] && t[k' - 3] == s[k - 3] && t[k' - 2] == s[k - 2] && t[k' - 1] == s[k - 1];
    assert t[i'] == s[i] && t[i' + 1] == s[i + 1] && t[i' + 2] == s[i + 2] && t[i' + 3] == s[i + 3] && t[i' + 4] == s[i + 4];
    assert t[i' + 5] == s[i + 5] && t[i' + 6] == s[i + 6] && t[i' + 7] == s[i + 7] && t[i' + 8] == s[i + 8] && t[i' + 9] == s[i + 9];
  }

  /** Every character of a timestamp reading other than the one at `k` is a
      digit, '/', ':' or whitespace. */
  lemma StampChar(s: string, i: nat, k: nat, e: nat, j: nat)
    requires StampAt(s, i, k, e) && i <= j < e && j != k
    ensures IsDigit(s[j]) || s[j] == '/' || s[j] == ':' || IsSpace(s[j])
  {
    if j < i + 10 {
      assert j - i in {0, 1, 2, 3, 4, 5, 6, 7, 8, 9};
    } else if k - 8 <= j < k {
      assert j - (k - 8) in {0, 1, 2, 3, 4, 5, 6, 7};
    }
  }
}
