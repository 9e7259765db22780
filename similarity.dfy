/**
 * `checkIfTwoStringsAreSimilar` of the older label revision: a prefix trim
 * and a substring shortcut before the Levenshtein table.
 */
module Similarity {
  import opened Strings
  import opened EditDistance

  /**
   * `s` from the first occurrence of `c` on, or all of `s` when `c` does not
   * occur (the offset of the found index is compared with the other string's
   * start index, which is offset 0, so a hit at 0 leaves `s` as it is too).
   */
  function TrimToFirst(c: char, s: string): (r: string)
    ensures |r| <= |s| && r == s[|s| - |r|..]
    ensures c !in s ==> r == s
    ensures c in s ==> r != [] && r[0] == c && c !in s[..|s| - |r|]
  {
    match IndexOf(s, c)
    case None => s
    case Some(k) => s[k..]
  }

  /** The trim keeps every occurrence of a string that starts with `c`. */
  lemma {:induction false} TrimKeepsOccurrences(p: string, s: string)
    requires p != []
    ensures Contains(TrimToFirst(p[0], s), p) <==> Contains(s, p)
  {
    var t := TrimToFirst(p[0], s);
    var off := |s| - |t|;
    assert t == s[off..];
    if Contains(s, p) {
      var k :| OccursAt(s, p, k);
      assert s[k] == p[0];
      assert k >= off by {
        assert forall j :: 0 <= j < off ==> s[j] == s[..off][j];
      }
      SuffixOccursAt(s, off, p, k - off);
    }
    if Contains(t, p) {
      var k :| OccursAt(t, p, k);
      SuffixOccursAt(s, off, p, k);
    }
  }

  /** An occurrence in a suffix is an occurrence in the whole string, shifted by the cut. */
  lemma SuffixOccursAt(s: string, off: nat, p: string, k: nat)
    requires off <= |s|
    ensures OccursAt(s[off..], p, k) <==> OccursAt(s, p, k + off)
  {
    if k + |p| <= |s| - off {
      assert s[off..][k..k + |p|] == s[k + off..k + off + |p|];
    }
  }

  /** The value `checkIfTwoStringsAreSimilar(str1, str2, threshold)` returns. */
  function Similar(str1: string, str2: string, threshold: int): bool {
    if str1 == [] || str2 == [] then false
    else
      var t := TrimToFirst(str1[0], str2);
      Contains(t, str1) || Lev(str1, t) <= threshold
  }

  /**
   * Never similar to or from the empty string; always similar when `str1`
   * occurs in `str2`; otherwise similar exactly when the distance from
   * `str1` to the trimmed `str2` is within the threshold.
   */
  lemma SimilarSpec(str1: string, str2: string, threshold: int)
    ensures str1 == [] || str2 == [] ==> !Similar(str1, str2, threshold)
    ensures str1 != [] && Contains(str2, str1) ==> Similar(str1, str2, threshold)
    ensures str1 != [] && str2 != [] && !Contains(str2, str1) ==>
              (Similar(str1, str2, threshold) <==> Lev(str1, TrimToFirst(str1[0], str2)) <= threshold)
  {
    if str1 != [] && str2 != [] {
      TrimKeepsOccurrences(str1, str2);
    }
  }

  /** A string is similar to itself at every non-negative threshold. */
  lemma SimilarToItself(s: string, threshold: int)
    requires s != []
    ensures Similar(s, s, threshold)
  {
    assert OccursAt(s, s, 0);
    SimilarSpec(s, s, threshold);
  }

  /** `checkIfTwoStringsAreSimilar`. */
  method CheckIfTwoStringsAreSimilar(str1: string, str2: string, threshold: int) returns (b: bool)
    ensures b == Similar(str1, str2, threshold)
  {
    if |str1| == 0 || |str2| == 0 {
      return false;
    }
    var s2 := str2;
    var ind := IndexOf(s2, str1[0]);
    if ind.Some? && ind.value != 0 {
      s2 := s2[ind.value..];
    }
    assert s2 == TrimToFirst(str1[0], str2);
    if Contains(s2, str1) {
      return true;
    }
    var d := LevenshteinTable(str1, s2);
    b := d <= threshold;
  }
}
