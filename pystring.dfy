/** The pieces of Python's `str` and `re` character classes the parsers rely on. */
module PyString {
  import opened Common

  /** `str.isspace()` for one character, which is also what `\s` matches in a
      `str` pattern. */
  predicate IsSpace(c: char) {
    || ('\t' <= c <= '\r')
    || ('\U{1c}' <= c <= '\U{1f}')
    || c == ' ' || c == '\U{85}' || c == '\U{a0}' || c == '\U{1680}'
    || ('\U{2000}' <= c <= '\U{200a}')
    || c == '\U{2028}' || c == '\U{2029}' || c == '\U{202f}' || c == '\U{205f}'
    || c == '\U{3000}'
  }

  /** `\d`, restricted to the ASCII digits. */
  predicate IsDigit(c: char) {
    '0' <= c <= '9'
  }

  predicate AllSpace(s: string) {
    forall j :: 0 <= j < |s| ==> IsSpace(s[j])
  }

  /** `n` digits start at index `i` of `s`. */
  predicate DigitsAt(s: string, i: nat, n: nat) {
    i + n <= |s| && forall j :: i <= j < i + n ==> IsDigit(s[j])
  }

  /** `t` occurs in `s` at index `i`. */
  predicate OccursAt(s: string, i: nat, t: string) {
    i + |t| <= |s| && s[i..i + |t|] == t
  }

  /** Python's `t in s`. */
  predicate Contains(s: string, t: string) {
    exists i :: 0 <= i <= |s| - |t| && OccursAt(s, i, t)
  }

  /** Python's `s.endswith(t)`. */
  predicate EndsWith(s: string, t: string) {
    |t| <= |s| && s[|s| - |t|..] == t
  }

  /** The greedy `\s*` from `i`: the first index at or after `i` that is not whitespace. */
  function SkipSpace(s: string, i: nat): (k: nat)
    requires i <= |s|
    ensures i <= k <= |s|
    ensures forall j :: i <= j < k ==> IsSpace(s[j])
    ensures k == |s| || !IsSpace(s[k])
    decreases |s| - i
  {
    if i == |s| || !IsSpace(s[i]) then i else SkipSpace(s, i + 1)
  }

  /** The length of the longest run of digits starting at `i`. */
  function DigitRun(s: string, i: nat): (n: nat)
    requires i <= |s|
    ensures DigitsAt(s, i, n)
    ensures i + n == |s| || !IsDigit(s[i + n])
    decreases |s| - i
  {
    if i == |s| || !IsDigit(s[i]) then 0 else 1 + DigitRun(s, i + 1)
  }

  /** The length of the longest run of the character `c` starting at `i`. */
  function CharRun(s: string, i: nat, c: char): (n: nat)
    requires i <= |s|
    ensures i + n <= |s|
    ensures forall j :: i <= j < i + n ==> s[j] == c
    ensures i + n == |s| || s[i + n] != c
    decreases |s| - i
  {
    if i == |s| || s[i] != c then 0 else 1 + CharRun(s, i + 1, c)
  }

  lemma SkipSpaceIs(s: string, i: nat, k: nat)
    requires i <= k <= |s|
    requires forall j :: i <= j < k ==> IsSpace(s[j])
    requires k == |s| || !IsSpace(s[k])
    ensures SkipSpace(s, i) == k
    decreases k - i
  {
    if i < k { SkipSpaceIs(s, i + 1, k); }
  }

  lemma DigitRunIs(s: string, i: nat, n: nat)
    requires DigitsAt(s, i, n)
    requires i + n == |s| || !IsDigit(s[i + n])
    ensures DigitRun(s, i) == n
    decreases n
  {
    if n > 0 { DigitRunIs(s, i + 1, n - 1); }
  }

  lemma CharRunIs(s: string, i: nat, c: char, n: nat)
    requires i + n <= |s|
    requires forall j :: i <= j < i + n ==> s[j] == c
    requires i + n == |s| || s[i + n] != c
    ensures CharRun(s, i, c) == n
    decreases n
  {
    if n > 0 { CharRunIs(s, i + 1, c, n - 1); }
  }

  /** Where the trailing whitespace of `s[..n]` begins. */
  function TrimEnd(s: string, n: nat): (k: nat)
    requires n <= |s|
    ensures k <= n
    ensures forall j :: k <= j < n ==> IsSpace(s[j])
    ensures k == 0 || !IsSpace(s[k - 1])
    decreases n
  {
    if n == 0 || !IsSpace(s[n - 1]) then n else TrimEnd(s, n - 1)
  }

  /** Where the run of non-whitespace characters that ends at `n` begins. */
  function TokenStart(s: string, n: nat): (b: nat)
    requires n <= |s|
    ensures b <= n
    ensures forall j :: b <= j < n ==> !IsSpace(s[j])
    ensures b == 0 || IsSpace(s[b - 1])
    decreases n
  {
    if n == 0 || IsSpace(s[n - 1]) then n else TokenStart(s, n - 1)
  }

  /** `s.split()[-1]`, or None where `s.split()` is empty and the indexing raises. */
  function LastToken(s: string): (r: Option<string>)
    ensures r.None? <==> AllSpace(s)
    ensures r.Some? ==> r.value != [] && forall j :: 0 <= j < |r.value| ==> !IsSpace(r.value[j])
  {
    var e := TrimEnd(s, |s|);
    if e == 0 then None else Some(s[TokenStart(s, e)..e])
  }

  lemma TrimEndIs(s: string, n: nat, k: nat)
    requires k <= n <= |s|
    requires forall j :: k <= j < n ==> IsSpace(s[j])
    requires k == 0 || !IsSpace(s[k - 1])
    ensures TrimEnd(s, n) == k
  {
    if n > k { TrimEndIs(s, n - 1, k); }
  }

  lemma TokenStartIs(s: string, n: nat, b: nat)
    requires b <= n <= |s|
    requires forall j :: b <= j < n ==> !IsSpace(s[j])
    requires b == 0 || IsSpace(s[b - 1])
    ensures TokenStart(s, n) == b
  {
    if n > b { TokenStartIs(s, n - 1, b); }
  }

  /** `split()[-1]` of a line made of anything, a space, a token and trailing whitespace. */
  lemma LastTokenOf(p: string, t: string, w: string)
    requires t != [] && forall j :: 0 <= j < |t| ==> !IsSpace(t[j])
    requires AllSpace(w)
    requires p == [] || IsSpace(p[|p| - 1])
    ensures LastToken(p + t + w) == Some(t)
  {
    var s := p + t + w;
    var e := |p| + |t|;
    assert s[..e] == p + t;
    assert s[e..] == w;
    assert s[|p|..e] == t;
    forall j | e <= j < |s| ensures IsSpace(s[j]) {
      assert s[j] == w[j - e];
    }
    assert s[e - 1] == t[|t| - 1];
    TrimEndIs(s, |s|, e);
    forall j | |p| <= j < e ensures !IsSpace(s[j]) {
      assert s[j] == t[j - |p|];
    }
    assert |p| > 0 ==> s[|p| - 1] == p[|p| - 1];
    TokenStartIs(s, e, |p|);
  }
}
