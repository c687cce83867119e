/** The `str` queries of Rust's standard library that the model needs:
    `starts_with` and `contains` with a string pattern. */
module Strings {

  /** `s.starts_with(prefix)` */
  predicate StartsWith(s: string, prefix: string) {
    |prefix| <= |s| && s[..|prefix|] == prefix
  }

  /** A string does not start with a prefix whose first character differs
      from its own. */
  lemma FirstCharacterDiffers(s: string, prefix: string)
    requires 0 < |prefix| && 0 < |s| && s[0] != prefix[0]
    ensures !StartsWith(s, prefix)
  {
    if |prefix| <= |s| {
      assert s[..|prefix|][0] == s[0];
    }
  }

  /** `pat` occurs in `s` starting at index `i` */
  predicate OccursAt(s: string, pat: string, i: int) {
    0 <= i && i + |pat| <= |s| && s[i..i + |pat|] == pat
  }

  /** `s.contains(pat)`, searched left to right */
  predicate Contains(s: string, pat: string)
    decreases |s|
  {
    StartsWith(s, pat) || (|s| > 0 && Contains(s[1..], pat))
  }

  /** An occurrence at index `i` is found by the search. */
  lemma {:induction false} OccursThenContains(s: string, pat: string, i: int)
    requires OccursAt(s, pat, i)
    ensures Contains(s, pat)
    decreases i
  {
    if i == 0 {
      assert s[..|pat|] == s[i..i + |pat|];
    } else {
      assert s[1..][i - 1..i - 1 + |pat|] == s[i..i + |pat|];
      OccursThenContains(s[1..], pat, i - 1);
    }
  }

  /** The search finds `pat` exactly when it occurs at some index. */
  lemma {:induction false} ContainsIff(s: string, pat: string)
    ensures Contains(s, pat) <==> exists i :: OccursAt(s, pat, i)
    decreases |s|
  {
    if Contains(s, pat) {
      if StartsWith(s, pat) {
        assert OccursAt(s, pat, 0);
      } else {
        ContainsIff(s[1..], pat);
        var j :| OccursAt(s[1..], pat, j);
        assert s[j + 1..j + 1 + |pat|] == s[1..][j..j + |pat|];
        assert OccursAt(s, pat, j + 1);
      }
    }
    if exists i :: OccursAt(s, pat, i) {
      var i :| OccursAt(s, pat, i);
      OccursThenContains(s, pat, i);
    }
  }

  /** A string contains every infix it was built around. */
  lemma {:induction false} ContainsInfix(a: string, b: string, c: string)
    ensures Contains(a + b + c, b)
    decreases |a|
  {
    if a == [] {
      assert a + b + c == b + c;
      assert (b + c)[..|b|] == b;
    } else {
      ContainsInfix(a[1..], b, c);
      assert (a + b + c)[1..] == a[1..] + b + c;
    }
  }

  /** A string contains the two-character pattern `[x, y]` exactly when some
      `x` is immediately followed by `y`. */
  lemma ContainsPair(s: string, x: char, y: char)
    ensures Contains(s, [x, y]) <==> exists i :: 0 <= i < |s| - 1 && s[i] == x && s[i + 1] == y
  {
    ContainsIff(s, [x, y]);
    if Contains(s, [x, y]) {
      var i :| OccursAt(s, [x, y], i);
      assert s[i..i + 2][0] == x && s[i..i + 2][1] == y;
    }
    forall i | 0 <= i < |s| - 1 && s[i] == x && s[i + 1] == y
      ensures Contains(s, [x, y])
    {
      assert s[i..i + 2] == [x, y];
      OccursThenContains(s, [x, y], i);
    }
  }
}
