/** The METBK data pattern: ten groups `(-*\d+\.\d+|NaN)`, the first one
    directly at the match start and each further one after `\s*`, then `.*?\n`
    (whatever follows, up to a newline). Matched by hand, with `re`'s
    backtracking order. */
module DataRegex {
  import opened Common
  import opened PyString

  /** How many groups the pattern captures. */
  const FieldCount: nat := 10

  /** `-*\d+\.\d+` matches all of `g`, read as `m` minus signs, `d` integer
      digits, a point and at least one fraction digit. */
  predicate NumberParts(g: string, m: nat, d: nat) {
    && d > 0 && m + d + 1 < |g|
    && (forall j :: 0 <= j < m ==> g[j] == '-')
    && DigitsAt(g, m, d) && g[m + d] == '.'
    && DigitsAt(g, m + d + 1, |g| - m - d - 1)
  }

  predicate IsNumber(g: string) {
    exists m: nat, d: nat | 0 <= m < |g| && 0 <= d < |g| :: NumberParts(g, m, d)
  }

  /** The group `(-*\d+\.\d+|NaN)` matches all of `g`. */
  predicate FieldShape(g: string) {
    g == "NaN" || IsNumber(g)
  }

  /** `k` captured groups, each matched in full by the group pattern. */
  predicate Shaped(gs: seq<string>, k: nat) {
    |gs| == k && forall j :: 0 <= j < k ==> FieldShape(gs[j])
  }

  /** Every one of `fs` is matched in full by the group pattern; stated one group
      at a time, for proofs that walk the list. */
  predicate AllFields(fs: seq<string>)
    decreases |fs|
  {
    fs == [] || (FieldShape(fs[0]) && AllFields(fs[1..]))
  }

  lemma {:induction false} AllFieldsEach(fs: seq<string>)
    ensures AllFields(fs) <==> forall j :: 0 <= j < |fs| ==> FieldShape(fs[j])
    decreases |fs|
  {
    if fs != [] {
      AllFieldsEach(fs[1..]);
      assert forall j :: 1 <= j < |fs| ==> fs[j] == fs[1..][j - 1];
    }
  }

  /** `.*?\n` matches from `p`: a newline stands at or after `p`. */
  predicate NewlineFrom(s: string, p: nat) {
    exists j :: p <= j < |s| && s[j] == '\n'
  }

  /** The groups `gs` are the text of `s` from `p` on: each one stands where
      `\s*` leaves off after the one before it (the first where `\s*` leaves
      off from `p`), and a newline follows the last. */
  predicate CapturedFrom(s: string, p: nat, gs: seq<string>)
    requires p <= |s|
    decreases |gs|, 1
  {
    if gs == [] then NewlineFrom(s, p) else CapturedAt(s, SkipSpace(s, p), gs)
  }

  /** The first of `gs` stands at `q`, and the others are captured after it. */
  predicate CapturedAt(s: string, q: nat, gs: seq<string>)
    decreases |gs|, 0
  {
    gs != [] && OccursAt(s, q, gs[0]) && CapturedFrom(s, q + |gs[0]|, gs[1..])
  }

  /** The remaining `k` items `\s*(-*\d+\.\d+|NaN)` from `p`, then `.*?\n`: the
      groups of the first way to match them, or None. */
  function MatchRest(s: string, p: nat, k: nat): (r: Option<seq<string>>)
    requires p <= |s|
    ensures r.Some? ==> Shaped(r.value, k)
    decreases k, 1, 0
  {
    if k == 0 then (if NewlineFrom(s, p) then Some([]) else None)
    // `\s*` is greedy, and no group can begin with whitespace, so giving back
    // a blank never helps
    else MatchField(s, SkipSpace(s, p), k)
  }

  /** "NaN" stands at `q`. */
  predicate NaNAt(s: string, q: nat) {
    q + 3 <= |s| && s[q] == 'N' && s[q + 1] == 'a' && s[q + 2] == 'N'
  }

  /** The group at `q`, then the `k - 1` items after it: the alternative
      `-*\d+\.\d+` is tried first, and "NaN" when it fails. The two cannot
      both start at `q` (`NumberNotAtNaN`), so the order does not change the
      match. */
  function MatchField(s: string, q: nat, k: nat): (r: Option<seq<string>>)
    requires q <= |s| && 1 <= k
    ensures r.Some? ==> Shaped(r.value, k)
    decreases k, 0, 2
  {
    match MatchNumber(s, q, k)
    case Some(gs) => Some(gs)
    case None =>
      if NaNAt(s, q) then
        match MatchRest(s, q + 3, k - 1)
        case Some(gs) => NaNSlice(s, q); Some([s[q..q + 3]] + gs)
        case None => None
      else None
  }

  lemma NaNSlice(s: string, q: nat)
    requires NaNAt(s, q)
    ensures s[q..q + 3] == "NaN"
  {
  }

  /** The number alternative at `q`, then the `k - 1` items after it. */
  function MatchNumber(s: string, q: nat, k: nat): (r: Option<seq<string>>)
    requires q <= |s| && 1 <= k
    ensures r.Some? ==> Shaped(r.value, k)
    decreases k, 0, 1
  {
    // `-*` and the integer `\d+` are greedy and cannot give back: a `\d`
    // or the `\.` after them would then have to match a '-' or a digit
    MatchInteger(s, q, CharRun(s, q, '-'), k)
  }

  /** The number alternative at `q`, once its `m` minus signs are taken: the
      integer digits, the point, then the fraction. */
  function MatchInteger(s: string, q: nat, m: nat, k: nat): (r: Option<seq<string>>)
    requires q + m <= |s| && forall x :: q <= x < q + m ==> s[x] == '-'
    requires 1 <= k
    ensures r.Some? ==> Shaped(r.value, k)
    decreases k, 0, 0
  {
    var d := DigitRun(s, q + m);
    if d > 0 && q + m + d < |s| && s[q + m + d] == '.' then
      TryFraction(s, q, m, d, DigitRun(s, q + m + d + 1), k - 1)
    else None
  }

  /** The fraction `\d+` of a number at `q` takes `j` digits first, then gives
      them back one at a time until the `rest` items after it match; see
      `TryFractionLongest` for the place where the number ends. */
  function TryFraction(s: string, q: nat, m: nat, d: nat, j: nat, rest: nat): (r: Option<seq<string>>)
    requires d > 0 && q + m + d + 1 + j <= |s|
    requires forall x :: q <= x < q + m ==> s[x] == '-'
    requires DigitsAt(s, q + m, d) && s[q + m + d] == '.' && DigitsAt(s, q + m + d + 1, j)
    ensures r.Some? ==> Shaped(r.value, rest + 1)
    decreases rest, 2, j
  {
    if j == 0 then None
    else
      var f := q + m + d + 1 + j;
      match MatchRest(s, f, rest)
      case Some(gs) => NumberSlice(s, q, m, d, j); Some([s[q..f]] + gs)
      case None => TryFraction(s, q, m, d, j - 1, rest)
  }

  /** The groups `MatchRest` captures are the line's own text from `p` on. */
  lemma {:induction false} MatchRestCaptured(s: string, p: nat, k: nat)
    requires p <= |s|
    ensures MatchRest(s, p, k).Some? ==> CapturedFrom(s, p, MatchRest(s, p, k).value)
    decreases k, 1, 0
  {
    if k > 0 {
      MatchRestUnfold(s, p, k);
      MatchFieldCaptured(s, SkipSpace(s, p), k);
    }
  }

  /** The groups `MatchField` captures start with the text at `q`, and the
      others follow it in the line. */
  lemma {:induction false} MatchFieldCaptured(s: string, q: nat, k: nat)
    requires q <= |s| && 1 <= k
    ensures MatchField(s, q, k).Some? ==> CapturedAt(s, q, MatchField(s, q, k).value)
    decreases k, 0, 2
  {
    if MatchNumber(s, q, k).Some? {
      MatchNumberCaptured(s, q, k);
      NumberFirst(s, q, k, MatchNumber(s, q, k).value);
    } else if NaNAt(s, q) {
      MatchRestCaptured(s, q + 3, k - 1);
      match MatchRest(s, q + 3, k - 1)
      case Some(gs) =>
        NaNSlice(s, q);
        GroupThenRest(s, q, q + 3, gs);
        assert MatchField(s, q, k) == Some([s[q..q + 3]] + gs);
      case None =>
    }
  }

  /** The number alternative does not match where "NaN" stands. */
  lemma NumberNotAtNaN(s: string, q: nat, k: nat)
    requires NaNAt(s, q) && 1 <= k
    ensures MatchNumber(s, q, k).None?
  {
    CharRunIs(s, q, '-', 0);
    DigitRunIs(s, q, 0);
    NumberToInteger(s, q, 0, k);
  }

  /** The groups of the number alternative start with the text at `q`. */
  lemma MatchNumberCaptured(s: string, q: nat, k: nat)
    requires q <= |s| && 1 <= k
    ensures MatchNumber(s, q, k).Some? ==> CapturedAt(s, q, MatchNumber(s, q, k).value)
    decreases k, 0, 1
  {
    var m := CharRun(s, q, '-');
    NumberToInteger(s, q, m, k);
    MatchIntegerCaptured(s, q, m, k);
  }

  /** The same, once the minus signs are taken. */
  lemma MatchIntegerCaptured(s: string, q: nat, m: nat, k: nat)
    requires q + m <= |s| && forall x :: q <= x < q + m ==> s[x] == '-'
    requires 1 <= k
    ensures MatchInteger(s, q, m, k).Some? ==> CapturedAt(s, q, MatchInteger(s, q, m, k).value)
    decreases k, 0, 0
  {
    var d := DigitRun(s, q + m);
    if d > 0 && q + m + d < |s| && s[q + m + d] == '.' {
      var j := DigitRun(s, q + m + d + 1);
      IntegerToFraction(s, q, m, d, j, k);
      TryFractionCaptured(s, q, m, d, j, k - 1);
    }
  }

  /** The groups of a number whose fraction has at most `j` digits start with
      the text at `q`. */
  lemma {:induction false} TryFractionCaptured(s: string, q: nat, m: nat, d: nat, j: nat, rest: nat)
    requires d > 0 && q + m + d + 1 + j <= |s|
    requires forall x :: q <= x < q + m ==> s[x] == '-'
    requires DigitsAt(s, q + m, d) && s[q + m + d] == '.' && DigitsAt(s, q + m + d + 1, j)
    ensures TryFraction(s, q, m, d, j, rest).Some? ==> CapturedAt(s, q, TryFraction(s, q, m, d, j, rest).value)
    decreases rest, 2, j
  {
    if j > 0 {
      TryFractionUnfold(s, q, m, d, j, rest);
      var f := q + m + d + 1 + j;
      match MatchRest(s, f, rest)
      case Some(gs) =>
        MatchRestCaptured(s, f, rest);
        GroupThenRest(s, q, f, gs);
      case None =>
        TryFractionCaptured(s, q, m, d, j - 1, rest);
    }
  }

  /** The order in which the fraction gives back its digits: the number ends at
      the last place, at most `j` fraction digits in, from which the rest
      matches, and there is no match when the rest matches from none of them. */
  lemma {:induction false} TryFractionLongest(s: string, q: nat, m: nat, d: nat, j: nat, rest: nat)
    requires d > 0 && q + m + d + 1 + j <= |s|
    requires forall x :: q <= x < q + m ==> s[x] == '-'
    requires DigitsAt(s, q + m, d) && s[q + m + d] == '.' && DigitsAt(s, q + m + d + 1, j)
    ensures var r := TryFraction(s, q, m, d, j, rest);
      && (r.Some? ==> m + d + 1 < |r.value[0]| <= m + d + 1 + j)
      && (r.Some? ==> forall f :: q + |r.value[0]| < f <= q + m + d + 1 + j ==> MatchRest(s, f, rest).None?)
      && (r.None? ==> forall f :: q + m + d + 1 < f <= q + m + d + 1 + j ==> MatchRest(s, f, rest).None?)
    decreases j
  {
    if j > 0 {
      TryFractionUnfold(s, q, m, d, j, rest);
      if MatchRest(s, q + m + d + 1 + j, rest).None? {
        TryFractionLongest(s, q, m, d, j - 1, rest);
      }
    }
  }

  /** The text from `q` to `f`, before the groups the rest captures from `f`. */
  lemma GroupThenRest(s: string, q: nat, f: nat, gs: seq<string>)
    requires q <= f <= |s| && CapturedFrom(s, f, gs)
    ensures var g := [s[q..f]] + gs; |g[0]| == f - q && g[1..] == gs && CapturedAt(s, q, g)
  {
    var g := [s[q..f]] + gs;
    assert g[1..] == gs;
  }

  lemma NumberSlice(s: string, q: nat, m: nat, d: nat, j: nat)
    requires d > 0 && 0 < j && q + m + d + 1 + j <= |s|
    requires forall x :: q <= x < q + m ==> s[x] == '-'
    requires DigitsAt(s, q + m, d) && s[q + m + d] == '.' && DigitsAt(s, q + m + d + 1, j)
    ensures NumberParts(s[q..q + m + d + 1 + j], m, d)
  {
    var g := s[q..q + m + d + 1 + j];
    assert forall x :: 0 <= x < |g| ==> g[x] == s[q + x];
  }

  /** The groups of a match of the whole pattern starting at `i`. */
  function MatchDataAt(s: string, i: nat): (r: Option<seq<string>>)
    requires i <= |s|
    ensures r.Some? ==> |r.value| == FieldCount && forall j :: 0 <= j < FieldCount ==> FieldShape(r.value[j])
  {
    MatchField(s, i, FieldCount)
  }

  /** Where the first match of the pattern starts, and its groups. */
  datatype DataHit = DataHit(pos: nat, groups: seq<string>)

  /** The leftmost match at or after `i`. */
  function SearchData(s: string, i: nat): (r: Option<DataHit>)
    requires i <= |s|
    ensures r.Some? ==> i <= r.value.pos <= |s| && MatchDataAt(s, r.value.pos) == Some(r.value.groups)
    ensures r.Some? ==> forall j :: i <= j < r.value.pos ==> MatchDataAt(s, j).None?
    ensures r.None? ==> forall j :: i <= j <= |s| ==> MatchDataAt(s, j).None?
    decreases |s| - i
  {
    match MatchDataAt(s, i)
    case Some(gs) => Some(DataHit(i, gs))
    case None => if i == |s| then None else SearchData(s, i + 1)
  }

  /** `re.findall(DATA_PATTERN, s)[0]`: the groups of the leftmost match; None
      where the list is empty and the indexing raises. */
  function FirstData(s: string): (r: Option<DataHit>)
    ensures r.Some? ==> r.value.pos <= |s| && MatchDataAt(s, r.value.pos) == Some(r.value.groups)
    ensures r.Some? ==> |r.value.groups| == FieldCount
    ensures r.Some? ==> forall j :: 0 <= j < FieldCount ==> FieldShape(r.value.groups[j])
    ensures r.Some? ==> forall j :: 0 <= j < r.value.pos ==> MatchDataAt(s, j).None?
    ensures r.None? <==> forall j :: 0 <= j <= |s| ==> MatchDataAt(s, j).None?
    ensures r.Some? ==> CapturedAt(s, r.value.pos, r.value.groups)
  {
    var h := SearchData(s, 0);
    if h.Some? then MatchFieldCaptured(s, h.value.pos, FieldCount); h else h
  }

  /** A line tail laid out as " f1 f2 ... fn" followed by `tail`. */
  function Spaced(fs: seq<string>, tail: string): string
    decreases |fs|
  {
    if fs == [] then tail else " " + fs[0] + Spaced(fs[1..], tail)
  }

  /** One step of `MatchRest`. */
  lemma MatchRestUnfold(s: string, p: nat, k: nat)
    requires p <= |s| && 1 <= k
    ensures MatchRest(s, p, k) == MatchField(s, SkipSpace(s, p), k)
  {
  }

  /** From `p` on, `s` holds a blank, then each of `fs` followed by a blank, and
      a newline somewhere after the last blank. */
  predicate LaidOut(s: string, p: nat, fs: seq<string>)
    decreases |fs|
  {
    p < |s| && s[p] == ' ' &&
    if fs == [] then NewlineFrom(s, p)
    else p + 1 + |fs[0]| <= |s| && s[p + 1..p + 1 + |fs[0]|] == fs[0] && LaidOut(s, p + 1 + |fs[0]|, fs[1..])
  }

  /** A `Spaced` layout before a tail that starts with a blank and holds a
      newline is laid out so. */
  lemma {:induction false} SpacedLaidOut(s: string, p: nat, fs: seq<string>, tail: string)
    requires tail != [] && tail[0] == ' ' && '\n' in tail
    requires p <= |s| && s[p..] == Spaced(fs, tail)
    ensures LaidOut(s, p, fs)
    decreases |fs|
  {
    if fs == [] {
      NewlineInTail(s, p, tail);
    } else {
      SpacedStep(s, p, fs, tail);
      SpacedLaidOut(s, p + 1 + |fs[0]|, fs[1..], tail);
    }
  }

  /** With no group left, the newline in the tail ends the match. */
  lemma NewlineInTail(s: string, p: nat, tail: string)
    requires tail != [] && tail[0] == ' ' && '\n' in tail && p <= |s| && s[p..] == tail
    ensures p < |s| && s[p] == ' ' && NewlineFrom(s, p)
  {
    var n :| 0 <= n < |tail| && tail[n] == '\n';
    assert s[p + n] == s[p..][n];
    assert s[p] == s[p..][0];
  }

  /** Groups laid out one blank apart, with a newline after them, are matched
      greedily and captured as they are. */
  lemma {:induction false} MatchRestSpaced(s: string, p: nat, fs: seq<string>)
    requires AllFields(fs) && LaidOut(s, p, fs)
    ensures MatchRest(s, p, |fs|) == Some(fs)
    decreases |fs|
  {
    if fs != [] {
      var e := p + 1 + |fs[0]|;
      assert FieldShape(fs[0]) && AllFields(fs[1..]) && LaidOut(s, e, fs[1..]);
      MatchRestSpaced(s, e, fs[1..]);
      SpacedCons(s, p, fs);
    }
  }

  /** The first group of a `Spaced` layout is matched, then the rest. */
  lemma SpacedCons(s: string, p: nat, fs: seq<string>)
    requires fs != [] && FieldShape(fs[0])
    requires p + 1 + |fs[0]| < |s| && s[p] == ' ' && s[p + 1..p + 1 + |fs[0]|] == fs[0]
    requires s[p + 1 + |fs[0]|] == ' '
    requires MatchRest(s, p + 1 + |fs[0]|, |fs| - 1) == Some(fs[1..])
    ensures MatchRest(s, p, |fs|) == Some(fs)
  {
    var f := fs[0];
    FieldAt(s, p + 1, f, |fs|, fs[1..]);
    BlankBeforeField(s, p, f, |fs|);
    assert [f] + fs[1..] == fs;
  }

  /** A single blank before a group is all that `\s*` takes. */
  lemma BlankBeforeField(s: string, p: nat, f: string, k: nat)
    requires FieldShape(f) && 1 <= k
    requires p + 1 + |f| <= |s| && s[p] == ' ' && s[p + 1..p + 1 + |f|] == f
    ensures MatchRest(s, p, k) == MatchField(s, p + 1, k)
  {
    FieldHead(f);
    assert s[p + 1] == f[0];
    SkipSpaceIs(s, p, p + 1);
    MatchRestUnfold(s, p, k);
  }

  /** How a nonempty `Spaced` layout reads on the line that holds it. */
  lemma SpacedStep(s: string, p: nat, fs: seq<string>, tail: string)
    requires fs != [] && tail != [] && tail[0] == ' '
    requires p <= |s| && s[p..] == Spaced(fs, tail)
    ensures p + 1 + |fs[0]| < |s|
    ensures s[p] == ' ' && s[p + 1..p + 1 + |fs[0]|] == fs[0]
    ensures s[p + 1 + |fs[0]|..] == Spaced(fs[1..], tail)
    ensures s[p + 1 + |fs[0]|] == ' '
  {
    var after := Spaced(fs[1..], tail);
    SpacedHead(fs[1..], tail);
    assert Spaced(fs, tail) == " " + fs[0] + after;
    BlankFieldRest(s, p, fs[0], after);
    assert s[p + 1 + |fs[0]|] == after[0];
  }

  /** Where `s[p..]` is a blank, `f` and `r`, each piece is found at its place. */
  lemma BlankFieldRest(s: string, p: nat, f: string, r: string)
    requires p <= |s| && s[p..] == " " + f + r
    ensures p + 1 + |f| + |r| == |s|
    ensures s[p] == ' ' && s[p + 1..p + 1 + |f|] == f && s[p + 1 + |f|..] == r
  {
    assert s[p] == s[p..][0];
    assert s[p + 1..p + 1 + |f|] == s[p..][1..1 + |f|];
    assert s[p + 1 + |f|..] == s[p..][1 + |f|..];
  }

  lemma SpacedHead(fs: seq<string>, tail: string)
    requires tail != [] && tail[0] == ' '
    ensures Spaced(fs, tail) != [] && Spaced(fs, tail)[0] == ' '
  {
  }

  /** A group's text starts with a minus sign, a digit or the 'N' of "NaN". */
  lemma FieldHead(f: string)
    requires FieldShape(f)
    ensures f != [] && !IsSpace(f[0])
  {
    if f != "NaN" {
      var m, d :| NumberParts(f, m, d);
      NumberHead(f, m, d);
    }
  }

  /** A group's text at `q`, followed by a blank, is matched there as one group
      when the items after it match. */
  lemma FieldAt(s: string, q: nat, f: string, k: nat, gs: seq<string>)
    requires FieldShape(f)
    requires q + |f| < |s| && s[q..q + |f|] == f && s[q + |f|] == ' '
    requires 1 <= k && MatchRest(s, q + |f|, k - 1) == Some(gs)
    ensures MatchField(s, q, k) == Some([f] + gs)
  {
    if f == "NaN" {
      assert s[q] == s[q..q + 3][0] && s[q + 1] == s[q..q + 3][1] && s[q + 2] == s[q..q + 3][2];
      NaNFieldAt(s, q, k, gs);
    } else {
      var m, d :| NumberParts(f, m, d);
      NumberAt(s, q, f, m, d, k, gs);
    }
  }

  /** A number that stands at `q`, followed by a blank, is matched there as one
      group when the items after it match. */
  lemma NumberAt(s: string, q: nat, f: string, m: nat, d: nat, k: nat, gs: seq<string>)
    requires NumberParts(f, m, d)
    requires q + |f| < |s| && s[q..q + |f|] == f && s[q + |f|] == ' '
    requires 1 <= k && MatchRest(s, q + |f|, k - 1) == Some(gs)
    ensures MatchField(s, q, k) == Some([f] + gs)
  {
    NumberOnLine(s, q, f, m, d);
    NumberRuns(s, q, m, d, |f| - m - d - 1);
    MatchFieldFromRuns(s, q, m, d, |f| - m - d - 1, k, gs);
    assert q + m + d + 1 + (|f| - m - d - 1) == q + |f|;
    NumberFirst(s, q, k, [f] + gs);
  }

  /** Where the number alternative matches, `MatchField` takes it. */
  lemma NumberFirst(s: string, q: nat, k: nat, gs: seq<string>)
    requires q <= |s| && 1 <= k && MatchNumber(s, q, k) == Some(gs)
    ensures MatchField(s, q, k) == Some(gs)
  {
  }

  /** The first character of a number is a minus sign or a digit. */
  lemma NumberHead(f: string, m: nat, d: nat)
    requires NumberParts(f, m, d)
    ensures f[0] == '-' || IsDigit(f[0])
  {
    if m == 0 {
      assert IsDigit(f[m]);
    }
  }

  /** The parts of a number `f` that stands at `q` of `s`, read on `s`. */
  lemma NumberOnLine(s: string, q: nat, f: string, m: nat, d: nat)
    requires NumberParts(f, m, d)
    requires q + |f| <= |s| && s[q..q + |f|] == f
    ensures forall x :: q <= x < q + m ==> s[x] == '-'
    ensures DigitsAt(s, q + m, d) && s[q + m + d] == '.'
    ensures DigitsAt(s, q + m + d + 1, |f| - m - d - 1)
    ensures s[q] == '-' || IsDigit(s[q])
  {
    forall x | 0 <= x < |f| ensures s[q + x] == f[x] {
      assert s[q..q + |f|][x] == f[x];
    }
    NumberHead(f, m, d);
    assert s[q] == f[0];
  }

  /** The greedy runs of `MatchField` over a number laid out on `s`. */
  lemma NumberRuns(s: string, q: nat, m: nat, d: nat, j: nat)
    requires d > 0 && 0 < j && q + m + d + 1 + j < |s| && !IsDigit(s[q + m + d + 1 + j])
    requires forall x :: q <= x < q + m ==> s[x] == '-'
    requires DigitsAt(s, q + m, d) && s[q + m + d] == '.' && DigitsAt(s, q + m + d + 1, j)
    ensures CharRun(s, q, '-') == m
    ensures DigitRun(s, q + m) == d
    ensures DigitRun(s, q + m + d + 1) == j
  {
    assert IsDigit(s[q + m]);
    CharRunIs(s, q, '-', m);
    DigitRunIs(s, q + m, d);
    DigitRunIs(s, q + m + d + 1, j);
  }

  lemma MatchFieldFromRuns(s: string, q: nat, m: nat, d: nat, j: nat, k: nat, gs: seq<string>)
    requires d > 0 && 0 < j && q + m + d + 1 + j <= |s|
    requires forall x :: q <= x < q + m ==> s[x] == '-'
    requires DigitsAt(s, q + m, d) && s[q + m + d] == '.' && DigitsAt(s, q + m + d + 1, j)
    requires CharRun(s, q, '-') == m && DigitRun(s, q + m) == d && DigitRun(s, q + m + d + 1) == j
    requires 1 <= k && MatchRest(s, q + m + d + 1 + j, k - 1) == Some(gs)
    ensures MatchNumber(s, q, k) == Some([s[q..q + m + d + 1 + j]] + gs)
  {
    NumberToFraction(s, q, m, d, j, k);
    FractionHit(s, q, m, d, j, k - 1, gs);
  }

  /** With the greedy runs known, `MatchNumber` goes on to try the fraction. */
  lemma NumberToFraction(s: string, q: nat, m: nat, d: nat, j: nat, k: nat)
    requires d > 0 && q + m + d + 1 + j <= |s| && 1 <= k
    requires forall x :: q <= x < q + m ==> s[x] == '-'
    requires DigitsAt(s, q + m, d) && s[q + m + d] == '.' && DigitsAt(s, q + m + d + 1, j)
    requires CharRun(s, q, '-') == m && DigitRun(s, q + m) == d && DigitRun(s, q + m + d + 1) == j
    ensures MatchNumber(s, q, k) == TryFraction(s, q, m, d, j, k - 1)
  {
    NumberToInteger(s, q, m, k);
    IntegerToFraction(s, q, m, d, j, k);
  }

  /** One step of `MatchNumber`: the minus signs. */
  lemma NumberToInteger(s: string, q: nat, m: nat, k: nat)
    requires q <= |s| && 1 <= k && CharRun(s, q, '-') == m
    ensures q + m <= |s| && forall x :: q <= x < q + m ==> s[x] == '-'
    ensures MatchNumber(s, q, k) == MatchInteger(s, q, m, k)
  {
  }

  /** One step of `MatchInteger`: the integer digits and the point. */
  lemma IntegerToFraction(s: string, q: nat, m: nat, d: nat, j: nat, k: nat)
    requires d > 0 && q + m + d + 1 + j <= |s| && 1 <= k
    requires forall x :: q <= x < q + m ==> s[x] == '-'
    requires s[q + m + d] == '.' && DigitRun(s, q + m) == d && DigitRun(s, q + m + d + 1) == j
    ensures MatchInteger(s, q, m, k) == TryFraction(s, q, m, d, j, k - 1)
  {
  }

  /** The longest fraction that lets the rest match is taken. */
  lemma FractionHit(s: string, q: nat, m: nat, d: nat, j: nat, rest: nat, gs: seq<string>)
    requires d > 0 && 0 < j && q + m + d + 1 + j <= |s|
    requires forall x :: q <= x < q + m ==> s[x] == '-'
    requires DigitsAt(s, q + m, d) && s[q + m + d] == '.' && DigitsAt(s, q + m + d + 1, j)
    requires MatchRest(s, q + m + d + 1 + j, rest) == Some(gs)
    ensures TryFraction(s, q, m, d, j, rest) == Some([s[q..q + m + d + 1 + j]] + gs)
  {
    TryFractionUnfold(s, q, m, d, j, rest);
  }

  /** One step of `TryFraction`. */
  lemma TryFractionUnfold(s: string, q: nat, m: nat, d: nat, j: nat, rest: nat)
    requires d > 0 && q + m + d + 1 + j <= |s|
    requires forall x :: q <= x < q + m ==> s[x] == '-'
    requires DigitsAt(s, q + m, d) && s[q + m + d] == '.' && DigitsAt(s, q + m + d + 1, j)
    ensures TryFraction(s, q, m, d, j, rest) ==
      if j == 0 then None
      else
        var f := q + m + d + 1 + j;
        match MatchRest(s, f, rest)
        case Some(gs) => Some([s[q..f]] + gs)
        case None => TryFraction(s, q, m, d, j - 1, rest)
  {
  }

  /** "NaN" at `q` is matched as a group when the items after it match. */
  lemma NaNFieldAt(s: string, q: nat, k: nat, gs: seq<string>)
    requires NaNAt(s, q)
    requires 1 <= k && MatchRest(s, q + 3, k - 1) == Some(gs)
    ensures MatchField(s, q, k) == Some(["NaN"] + gs)
  {
    CharRunIs(s, q, '-', 0);
    DigitRunIs(s, q, 0);
    assert MatchNumber(s, q, k) == None;
    NaNSlice(s, q);
  }

  /** A group's text is made of '-', digits, '.' and the letters of "NaN", and
      ends with a digit or 'N'. */
  lemma FieldChars(f: string)
    requires FieldShape(f)
    ensures forall j :: 0 <= j < |f| ==> f[j] == '-' || IsDigit(f[j]) || f[j] == '.' || f[j] == 'N' || f[j] == 'a'
    ensures f != [] && (IsDigit(f[|f| - 1]) || f[|f| - 1] == 'N')
    ensures forall j :: 0 <= j < |f| - 1 ==> f[j] == 'a' ==> f[j + 1] == 'N'
  {
    if f != "NaN" {
      var m: nat, d: nat :| NumberParts(f, m, d);
      assert NumberParts(f, m, d);
      forall j | 0 <= j < |f| ensures f[j] == '-' || IsDigit(f[j]) || f[j] == '.' {
        if j < m {
        } else if j < m + d {
          assert IsDigit(f[j]);
        } else if j > m + d {
          assert IsDigit(f[j]);
        }
      }
      assert IsDigit(f[|f| - 1]);
    }
  }

  /** No group can start at a blank. */
  lemma FieldAtBlank(s: string, q: nat, k: nat)
    requires q < |s| && IsSpace(s[q]) && 1 <= k
    ensures MatchField(s, q, k).None?
  {
    CharRunIs(s, q, '-', 0);
    DigitRunIs(s, q, 0);
    NumberToInteger(s, q, 0, k);
  }

  /** Ten fields laid out one blank apart after a leading blank, before a blank
      and a newline, are the first match of the data pattern, one character in. */
  lemma FirstDataSpaced(s: string, fs: seq<string>, tail: string)
    requires |fs| == FieldCount && forall j :: 0 <= j < |fs| ==> FieldShape(fs[j])
    requires tail != [] && tail[0] == ' ' && '\n' in tail
    requires s == Spaced(fs, tail)
    ensures FirstData(s) == Some(DataHit(1, fs))
  {
    AllFieldsEach(fs);
    SpacedLaidOut(s, 0, fs, tail);
    MatchRestSpaced(s, 0, fs);
    SpacedStep(s, 0, fs, tail);
    FieldHead(fs[0]);
    assert s[1] == s[1..1 + |fs[0]|][0];
    SkipSpaceIs(s, 0, 1);
    MatchRestUnfold(s, 0, FieldCount);
    FieldAtBlank(s, 0, FieldCount);
    assert SearchData(s, 0) == SearchData(s, 1);
  }
}
