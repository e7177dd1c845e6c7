/** The METBK missing-value rewrite `re.sub(r'Na ', 'NaN', line)`. */
module NaRewrite {

  /** `re.sub(r'Na ', 'NaN', s)`: scanning from the left, each occurrence of
      "Na " is replaced by "NaN" and the scan resumes after it. */
  function ReplaceNa(s: string): (r: string)
    ensures |r| == |s|
    decreases |s|
  {
    if |s| >= 3 && s[0] == 'N' && s[1] == 'a' && s[2] == ' ' then "NaN" + ReplaceNa(s[3..])
    else if s == [] then []
    else [s[0]] + ReplaceNa(s[1..])
  }

  /** `s[j]` is the blank that ends an occurrence of "Na ". */
  predicate ClosesNa(s: string, j: int) {
    2 <= j < |s| && s[j - 2] == 'N' && s[j - 1] == 'a' && s[j] == ' '
  }

  /** No occurrence of "Na " in `s`. */
  predicate NoNa(s: string) {
    forall j :: 0 <= j < |s| ==> !ClosesNa(s, j)
  }

  /** The rewrite is total: it turns the blank of EVERY occurrence of "Na " into
      'N' (occurrences cannot overlap, so the scan never skips one) and leaves
      every other character alone. */
  lemma {:induction false} ReplaceNaPointwise(s: string)
    ensures |ReplaceNa(s)| == |s|
    ensures forall j {:trigger ReplaceNa(s)[j]} :: 0 <= j < |s| ==> ReplaceNa(s)[j] == if ClosesNa(s, j) then 'N' else s[j]
    decreases |s|
  {
    var r := ReplaceNa(s);
    if |s| >= 3 && s[0] == 'N' && s[1] == 'a' && s[2] == ' ' {
      var t := s[3..];
      ReplaceNaPointwise(t);
      assert r == "NaN" + ReplaceNa(t);
      forall j | 0 <= j < |s| ensures r[j] == if ClosesNa(s, j) then 'N' else s[j] {
        if j >= 3 {
          assert r[j] == ReplaceNa(t)[j - 3];
          assert ClosesNa(s, j) == ClosesNa(t, j - 3);
        }
      }
    } else if s != [] {
      var t := s[1..];
      ReplaceNaPointwise(t);
      assert r == [s[0]] + ReplaceNa(t);
      forall j | 0 <= j < |s| ensures r[j] == if ClosesNa(s, j) then 'N' else s[j] {
        if j >= 1 {
          assert r[j] == ReplaceNa(t)[j - 1];
          assert ClosesNa(s, j) == ClosesNa(t, j - 1);
        }
      }
    }
  }

  /** A line with no "Na " is left as it is. */
  lemma ReplaceNaNoNa(s: string)
    requires NoNa(s)
    ensures ReplaceNa(s) == s
  {
    ReplaceNaPointwise(s);
  }

  /** Two pieces free of "Na " stay free of it when joined, unless an 'a' stands
      at the seam. */
  lemma NoNaJoin(x: string, y: string)
    requires NoNa(x) && NoNa(y)
    requires x == [] || x[|x| - 1] != 'a'
    requires y == [] || y[0] != 'a'
    ensures NoNa(x + y)
  {
    var s := x + y;
    forall j | 0 <= j < |s| ensures !ClosesNa(s, j) {
      if j < |x| {
        assert ClosesNa(s, j) == ClosesNa(x, j);
      } else if j >= |x| + 2 {
        assert ClosesNa(s, j) == ClosesNa(y, j - |x|);
      } else if j == |x| + 1 {
        assert s[j - 1] == y[0];
      } else if j >= 1 {
        assert s[j - 1] == x[|x| - 1];
      }
    }
  }

  /** Unlike what one might expect of a sentinel substitution, the rewrite is
      not idempotent: the 'N' it writes can complete a new "Na ". */
  lemma ReplaceNaNotIdempotent()
    ensures ReplaceNa("Na a ") == "NaNa "
    ensures ReplaceNa(ReplaceNa("Na a ")) == "NaNaN"
  {
    assert "Na a "[3..] == "a ";
    assert ReplaceNa("a ") == "a ";
    assert ReplaceNa("Na a ") == "NaNa ";
    assert "NaNa "[1..] == "aNa ";
    assert "aNa "[1..] == "Na ";
    assert "Na "[3..] == "";
    assert ReplaceNa("Na ") == "NaN";
  }
}
