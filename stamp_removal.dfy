/** The METBK parser removes the timestamp with `re.sub(timestamp[0], '', line)`:
    the matched text itself is compiled as a regular expression. Most of its
    characters are digits, '/', ':' and whitespace, which stand for themselves;
    only the one character the timestamp pattern's `.` matched can be special.
    This module compiles such a text the way `re` does and removes its matches. */
module StampRemoval {
  import opened Common
  import opened PyString
  import opened TimestampRegex

  /** One element of a compiled timestamp text. */
  datatype Item =
    | Lit(c: char)                          // a character matching itself
    | AnyButNewline                         // `.`
    | Repeat(r: char, min: nat, max: Option<nat>)  // `c*`, `c+` or `c?`, greedy

  /** A compiled timestamp text. */
  datatype Pattern =
    | Items(items: seq<Item>)
    | Either(left: seq<Item>, right: seq<Item>)  // `left|right`, left tried first
    | Nowhere                                    // a `^` or `$` inside: never matches

  /** The items matching `t` literally. */
  function Lits(t: string): (r: seq<Item>)
    ensures |r| == |t| && forall x :: 0 <= x < |t| ==> r[x] == Lit(t[x])
  {
    seq(|t|, x requires 0 <= x < |t| => Lit(t[x]))
  }

  predicate IsOctal(c: char) {
    '0' <= c <= '7'
  }

  function OctalDigit(c: char): (v: nat)
    requires IsOctal(c)
    ensures v < 8
  {
    c as int - '0' as int
  }

  /** The escape `\` followed by the digits `d` (the fraction of the timestamp):
      the character it stands for and how many digits it takes, or `re.error`.
      A `\0` takes up to two more octal digits; three octal digits make a
      character up to 0o377; anything else is a back reference to a group the
      pattern does not have. */
  function Escape(d: string): (r: Result<(char, nat)>)
    requires d != [] && forall x :: 0 <= x < |d| ==> IsDigit(d[x])
    ensures r.Ok? ==> 1 <= r.value.1 <= 3 && r.value.1 <= |d| && r.value.0 as int <= 0xFF
    ensures r.Ok? <==> d[0] == '0' || (3 <= |d| && IsOctal(d[0]) && IsOctal(d[1]) && IsOctal(d[2])
                                       && 64 * OctalDigit(d[0]) + 8 * OctalDigit(d[1]) + OctalDigit(d[2]) <= 0xFF)
  {
    if d[0] == '0' then
      if 2 <= |d| && IsOctal(d[1]) then
        if 3 <= |d| && IsOctal(d[2]) then Ok(((8 * OctalDigit(d[1]) + OctalDigit(d[2])) as char, 3))
        else Ok((OctalDigit(d[1]) as char, 2))
      else Ok(('\0', 1))
    else if 3 <= |d| && IsOctal(d[0]) && IsOctal(d[1]) && IsOctal(d[2]) then
      var v := 64 * OctalDigit(d[0]) + 8 * OctalDigit(d[1]) + OctalDigit(d[2]);
      if v <= 0xFF then Ok((v as char, 3)) else Err(RegexError)
    else Err(RegexError)
  }

  /** `re.compile` of a timestamp's text, decided by the character at `sepAt`. */
  function Compile(st: Stamp): (r: Result<Pattern>)
    requires StampShape(st)
    ensures r.Err? <==> st.text[st.sepAt] in {'(', ')', '['}
                        || (st.text[st.sepAt] == '\\' && Escape(st.text[st.sepAt + 1..]).Err?)
    ensures r.Ok? && r.value.Items? ==> StartsWithDate(r.value.items, st.text)
    ensures r.Ok? && r.value.Either? ==> StartsWithDate(r.value.left, st.text)
    ensures st.text[st.sepAt] == '.' ==> r == Ok(Items(Lits(st.text[..st.sepAt]) + [AnyButNewline] + Lits(st.text[st.sepAt + 1..])))
    ensures Plain(st.text[st.sepAt]) ==> r == Ok(Items(Lits(st.text)))
  {
    var t := st.text;
    var k := st.sepAt;
    var c := t[k];
    var head := t[..k];
    var tail := t[k + 1..];
    if c == '.' then Ok(Items(Lits(head) + [AnyButNewline] + Lits(tail)))
    else if c == '(' || c == ')' || c == '[' then Err(RegexError)  // missing or unbalanced parenthesis, unterminated set
    else if c == '*' then Ok(Items(Lits(t[..k - 1]) + [Repeat(t[k - 1], 0, None)] + Lits(tail)))
    else if c == '+' then Ok(Items(Lits(t[..k - 1]) + [Repeat(t[k - 1], 1, None)] + Lits(tail)))
    else if c == '?' then Ok(Items(Lits(t[..k - 1]) + [Repeat(t[k - 1], 0, Some(1))] + Lits(tail)))
    else if c == '|' then Ok(Either(Lits(head), Lits(tail)))
    else if c == '^' || c == '$' then Ok(Nowhere)
    else if c == '\\' then
      match Escape(tail)
      case Ok((e, n)) => Ok(Items(Lits(head) + [Lit(e)] + Lits(tail[n..])))
      case Err(err) => Err(err)
    else Ok(Items(Lits(t)))
  }

  /** A character `re` reads as itself here (`{`, `}` and `]` included: no closing
      brace can follow, and a lone `]` is literal). */
  predicate Plain(c: char) {
    c !in {'.', '(', ')', '[', '*', '+', '?', '|', '^', '$', '\\'}
  }

  /** The items begin with the literal date "dddd/" of `t`. */
  predicate StartsWithDate(items: seq<Item>, t: string) {
    5 <= |items| && 5 <= |t| && forall x :: 0 <= x < 5 ==> items[x] == Lit(t[x])
  }

  /** Where a match of `items` starting at `i` ends, in the order `re` tries the
      choices of a greedy repeat; None when there is no match at `i`. */
  function MatchItems(s: string, i: nat, items: seq<Item>): (r: Option<nat>)
    requires i <= |s|
    ensures r.Some? ==> i <= r.value <= |s|
    decreases |items|, 0, 0
  {
    if items == [] then Some(i)
    else match items[0]
      case Lit(c) => if i < |s| && s[i] == c then MatchItems(s, i + 1, items[1..]) else None
      case AnyButNewline => if i < |s| && s[i] != '\n' then MatchItems(s, i + 1, items[1..]) else None
      case Repeat(c, lo, hi) =>
        var n := CharRun(s, i, c);
        var top := if hi.Some? && hi.value < n then hi.value else n;
        if top < lo then None else TryCounts(s, i, lo, top, items[1..])
  }

  /** The repeat at `i` takes `n` characters, then one fewer, down to `lo`, until
      the `rest` matches. */
  function TryCounts(s: string, i: nat, lo: nat, n: nat, rest: seq<Item>): (r: Option<nat>)
    requires lo <= n && i + n <= |s|
    ensures r.Some? ==> i + lo <= r.value <= |s|
    decreases |rest|, 1, n - lo
  {
    match MatchItems(s, i + n, rest)
    case Some(e) => Some(e)
    case None => if n == lo then None else TryCounts(s, i, lo, n - 1, rest)
  }

  /** The rest matches from no place after `x` up to `top`. */
  predicate NoneAfter(s: string, x: int, top: nat, rest: seq<Item>)
    requires top <= |s|
  {
    forall y: nat :: x < y <= top ==> MatchItems(s, y, rest).None?
  }

  /** The order in which the repeat gives back its characters: the match is the
      one of the rest after the most characters, from `n` down to `lo`, with
      which the rest matches, and there is none when it matches after none. */
  lemma {:induction false} TryCountsLongest(s: string, i: nat, lo: nat, n: nat, rest: seq<Item>)
    requires lo <= n && i + n <= |s|
    ensures TryCounts(s, i, lo, n, rest).None? <==> NoneAfter(s, i + lo - 1, i + n, rest)
    ensures TryCounts(s, i, lo, n, rest).Some? ==>
      exists x :: i + lo <= x <= i + n && MatchItems(s, x, rest) == TryCounts(s, i, lo, n, rest) && NoneAfter(s, x, i + n, rest)
    decreases n - lo
  {
    var r := TryCounts(s, i, lo, n, rest);
    var top := i + n;
    if MatchItems(s, top, rest).Some? {
      assert MatchItems(s, top, rest) == r && NoneAfter(s, top, top, rest);
    } else if n > lo {
      TryCountsLongest(s, i, lo, n - 1, rest);
      var r' := TryCounts(s, i, lo, n - 1, rest);
      assert r == r';
      if r.Some? {
        var x :| i + lo <= x <= top - 1 && MatchItems(s, x, rest) == r' && NoneAfter(s, x, top - 1, rest);
        assert NoneAfter(s, x, top, rest);
      } else {
        assert NoneAfter(s, i + lo - 1, top, rest);
      }
    } else {
      assert NoneAfter(s, i + lo - 1, top, rest);
    }
  }

  /** Where a match of the pattern starting at `i` ends. */
  function MatchPattern(p: Pattern, s: string, i: nat): (r: Option<nat>)
    requires i <= |s|
    ensures r.Some? ==> i <= r.value <= |s|
    ensures p.Nowhere? ==> r.None?
  {
    match p
    case Items(xs) => MatchItems(s, i, xs)
    case Either(l, rt) => if MatchItems(s, i, l).Some? then MatchItems(s, i, l) else MatchItems(s, i, rt)
    case Nowhere => None
  }

  /** `re.sub(p, '', s[i..])`: scanning from the left, each match is cut out and
      the scan resumes after it; an empty match removes nothing. */
  function Remove(p: Pattern, s: string, i: nat): (r: string)
    requires i <= |s|
    ensures |r| <= |s| - i
    decreases |s| - i
  {
    if i == |s| then []
    else match MatchPattern(p, s, i)
      case Some(e) => if e > i then Remove(p, s, e) else [s[i]] + Remove(p, s, i + 1)
      case None => [s[i]] + Remove(p, s, i + 1)
  }

  /** Literal items match exactly their own text. */
  lemma {:induction false} MatchLits(s: string, i: nat, t: string, rest: seq<Item>)
    requires i + |t| <= |s| && s[i..i + |t|] == t
    ensures MatchItems(s, i, Lits(t) + rest) == MatchItems(s, i + |t|, rest)
    decreases |t|
  {
    if t != [] {
      assert s[i] == s[i..i + |t|][0];
      assert (Lits(t) + rest)[0] == Lit(t[0]);
      assert (Lits(t) + rest)[1..] == Lits(t[1..]) + rest;
      assert s[i + 1..i + |t|] == s[i..i + |t|][1..];
      assert MatchItems(s, i, Lits(t) + rest) == MatchItems(s, i + 1, (Lits(t) + rest)[1..]);
      MatchLits(s, i + 1, t[1..], rest);
    } else {
      assert Lits(t) + rest == rest;
    }
  }

  /** A match of items that begin with literal characters has those characters
      at the start. */
  lemma {:induction false} MatchedLits(s: string, i: nat, items: seq<Item>, t: string)
    requires i <= |s| && |t| <= |items| && forall x :: 0 <= x < |t| ==> items[x] == Lit(t[x])
    ensures MatchItems(s, i, items).Some? ==> i + |t| <= |s| && forall x :: 0 <= x < |t| ==> s[i + x] == t[x]
    decreases |t|
  {
    if t != [] {
      assert items[0] == Lit(t[0]);
      if i < |s| && s[i] == t[0] {
        assert MatchItems(s, i, items) == MatchItems(s, i + 1, items[1..]);
        MatchedLits(s, i + 1, items[1..], t[1..]);
      }
    }
  }

  /** Items for a timestamp whose `.` matched a '.' match its text in full. */
  lemma MatchDotItems(s: string, i: nat, t: string, k: nat)
    requires k < |t| && i + |t| <= |s| && s[i..i + |t|] == t && t[k] != '\n'
    ensures MatchItems(s, i, Lits(t[..k]) + [AnyButNewline] + Lits(t[k + 1..])) == Some(i + |t|)
  {
    var head := t[..k];
    var tail := t[k + 1..];
    assert s[i..i + k] == head;
    assert s[i + k + 1..i + k + 1 + |tail|] == tail;
    assert s[i + k] == t[k];
    MatchLits(s, i, head, [AnyButNewline] + Lits(tail));
    assert ([AnyButNewline] + Lits(tail))[1..] == Lits(tail) + [];
    MatchLits(s, i + k + 1, tail, []);
    assert Lits(head) + [AnyButNewline] + Lits(tail) == Lits(head) + ([AnyButNewline] + Lits(tail));
  }

  /** Literal items for the whole text match it in full. */
  lemma MatchPlainItems(s: string, i: nat, t: string)
    requires i + |t| <= |s| && s[i..i + |t|] == t
    ensures MatchItems(s, i, Lits(t)) == Some(i + |t|)
  {
    MatchLits(s, i, t, []);
    assert Lits(t) + [] == Lits(t);
  }

  /** A timestamp whose `.` matched a '.' or a character `re` reads literally is
      found again, in full, by its own text used as a pattern. */
  lemma CompiledMatchesItself(st: Stamp, s: string, i: nat)
    requires StampShape(st) && (st.text[st.sepAt] == '.' || Plain(st.text[st.sepAt]))
    requires i + |st.text| <= |s| && s[i..i + |st.text|] == st.text
    ensures Compile(st).Ok? && MatchPattern(Compile(st).value, s, i) == Some(i + |st.text|)
  {
    if st.text[st.sepAt] == '.' {
      MatchDotItems(s, i, st.text, st.sepAt);
    } else {
      MatchPlainItems(s, i, st.text);
    }
  }

  /** Where no '/' stands from `i` on, a pattern that begins with a literal
      date finds nothing there, and the rest of the line is kept as it is. */
  lemma {:induction false} RemoveSlashFree(p: Pattern, s: string, i: nat, t: string)
    requires p.Items? && StartsWithDate(p.items, t) && t[4] == '/'
    requires i <= |s| && forall j :: i <= j < |s| ==> s[j] != '/'
    ensures Remove(p, s, i) == s[i..]
    decreases |s| - i
  {
    if i < |s| {
      NoMatchWithoutSlash(s, i, p.items, t);
      RemoveSlashFree(p, s, i + 1, t);
      assert s[i..] == [s[i]] + s[i + 1..];
    }
  }

  lemma NoMatchWithoutSlash(s: string, i: nat, items: seq<Item>, t: string)
    requires StartsWithDate(items, t) && t[4] == '/'
    requires i <= |s| && forall j :: i <= j < |s| ==> s[j] != '/'
    ensures MatchItems(s, i, items).None?
  {
    MatchedLits(s, i, items, t[..5]);
  }

  /** The timestamp at the start of a line is cut out, and nothing after it is
      touched when no '/' follows. */
  lemma RemoveLeadingStamp(st: Stamp, rest: string)
    requires StampShape(st) && (st.text[st.sepAt] == '.' || Plain(st.text[st.sepAt]))
    requires forall j :: 0 <= j < |rest| ==> rest[j] != '/'
    ensures Compile(st).Ok? && Remove(Compile(st).value, st.text + rest, 0) == rest
  {
    var s := st.text + rest;
    ConcatParts(st.text, rest);
    CompiledMatchesItself(st, s, 0);
    CompiledItems(st);
    var p := Compile(st).value;
    RemoveLeading(p, s, |st.text|, st.text);
  }

  /** Such a timestamp compiles to items that begin with its literal date. */
  lemma CompiledItems(st: Stamp)
    requires StampShape(st) && (st.text[st.sepAt] == '.' || Plain(st.text[st.sepAt]))
    ensures Compile(st).Ok? && Compile(st).value.Items?
    ensures StartsWithDate(Compile(st).value.items, st.text) && st.text[4] == '/'
  {
  }

  lemma ConcatParts(t: string, rest: string)
    requires forall j :: 0 <= j < |rest| ==> rest[j] != '/'
    ensures (t + rest)[0..|t|] == t && (t + rest)[|t|..] == rest
    ensures forall j :: |t| <= j < |t + rest| ==> (t + rest)[j] != '/'
  {
    var s := t + rest;
    forall j | |t| <= j < |s| ensures s[j] != '/' {
      assert s[j] == rest[j - |t|];
    }
  }

  /** A pattern that begins with a literal date and matches the start of a line
      cuts out that match and nothing after it, when no '/' follows. */
  lemma RemoveLeading(p: Pattern, s: string, n: nat, t: string)
    requires p.Items? && StartsWithDate(p.items, t) && t[4] == '/'
    requires 0 < n <= |s| && MatchPattern(p, s, 0) == Some(n)
    requires forall j :: n <= j < |s| ==> s[j] != '/'
    ensures Remove(p, s, 0) == s[n..]
  {
    RemoveAfterMatch(p, s, 0, n);
    RemoveSlashFree(p, s, n, t);
  }

  /** A nonempty match at `i` is cut out and the scan resumes at its end. */
  lemma RemoveAfterMatch(p: Pattern, s: string, i: nat, e: nat)
    requires i < e <= |s| && MatchPattern(p, s, i) == Some(e)
    ensures Remove(p, s, i) == Remove(p, s, e)
  {
  }
}
