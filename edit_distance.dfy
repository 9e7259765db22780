/**
 * Levenshtein distance: the recursive definition, and the dynamic-programming
 * table of `getStringDistance` proved to compute it.
 */
module EditDistance {
  import opened Strings

  function Min3(x: int, y: int, z: int): (r: int)
    ensures r <= x && r <= y && r <= z
    ensures r == x || r == y || r == z
  {
    if x <= y && x <= z then x else if y <= z then y else z
  }

  /**
   * Unit-cost Levenshtein distance, defined by recursion on the last
   * characters: insertion, deletion and substitution each cost 1.
   */
  function Lev(a: string, b: string): nat
    decreases |a| + |b|
  {
    if |a| == 0 then |b|
    else if |b| == 0 then |a|
    else
      var a', b' := a[..|a| - 1], b[..|b| - 1];
      if a[|a| - 1] == b[|b| - 1] then Lev(a', b')
      else Min3(Lev(a', b), Lev(a, b'), Lev(a', b')) + 1
  }

  /** The unfolding of `Lev` on prefixes, as the table fills cell `(i, j)`. */
  lemma LevStep(a: string, b: string, i: nat, j: nat)
    requires 1 <= i <= |a| && 1 <= j <= |b|
    ensures Lev(a[..i], b[..j]) ==
      if a[i - 1] == b[j - 1] then Lev(a[..i - 1], b[..j - 1])
      else Min3(Lev(a[..i - 1], b[..j]), Lev(a[..i], b[..j - 1]), Lev(a[..i - 1], b[..j - 1])) + 1
  {
    assert a[..i][..i - 1] == a[..i - 1];
    assert b[..j][..j - 1] == b[..j - 1];
  }

  /** The distance is zero exactly when the strings are equal. */
  lemma {:induction false} LevZeroIffEqual(a: string, b: string)
    ensures Lev(a, b) == 0 <==> a == b
    decreases |a| + |b|
  {
    if |a| == 0 || |b| == 0 {
    } else {
      var a', b' := a[..|a| - 1], b[..|b| - 1];
      assert a == a' + [a[|a| - 1]] && b == b' + [b[|b| - 1]];
      LevZeroIffEqual(a', b');
      if a == b {
        assert a' == b';
      }
    }
  }

  /** The distance does not depend on the order of its arguments. */
  lemma {:induction false} LevSymmetric(a: string, b: string)
    ensures Lev(a, b) == Lev(b, a)
    decreases |a| + |b|
  {
    if |a| != 0 && |b| != 0 {
      var a', b' := a[..|a| - 1], b[..|b| - 1];
      LevSymmetric(a', b');
      if a[|a| - 1] != b[|b| - 1] {
        LevSymmetric(a', b);
        LevSymmetric(a, b');
      }
    }
  }

  /** The distance lies between the length difference and the longer length. */
  lemma {:induction false} LevLengthBounds(a: string, b: string)
    ensures |a| - |b| <= Lev(a, b) && |b| - |a| <= Lev(a, b)
    ensures Lev(a, b) <= if |a| <= |b| then |b| else |a|
    decreases |a| + |b|
  {
    if |a| != 0 && |b| != 0 {
      var a', b' := a[..|a| - 1], b[..|b| - 1];
      LevLengthBounds(a', b');
      LevLengthBounds(a', b);
      LevLengthBounds(a, b');
    }
  }

  /** One substituted last character: `("button", "buttom")` is at distance 1. */
  lemma ButtonButtom()
    ensures Lev("button", "buttom") == 1
  {
    var a, b := "button", "buttom";
    assert a[..5] == b[..5];
    LevZeroIffEqual(a[..5], b[..5]);
    assert Lev(a, b) == Min3(Lev(a[..5], b), Lev(a, b[..5]), Lev(a[..5], b[..5])) + 1;
  }

  /**
   * The table of `getStringDistance`: `dist[i, j]` is the distance between the
   * first `i` characters of `a` and the first `j` characters of `b`.
   */
  method LevenshteinTable(a: string, b: string) returns (d: nat)
    ensures d == Lev(a, b)
  {
    var n, m := |a|, |b|;
    var dist := new nat[n + 1, m + 1]((i, j) => 0);
    for i := 1 to n + 1
      invariant dist[0, 0] == 0
      invariant forall k :: 1 <= k < i ==> dist[k, 0] == k
    {
      dist[i, 0] := i;
    }
    for j := 1 to m + 1
      invariant dist[0, 0] == 0
      invariant forall k :: 1 <= k <= n ==> dist[k, 0] == k
      invariant forall l :: 1 <= l < j ==> dist[0, l] == l
    {
      dist[0, j] := j;
    }
    for i := 1 to n + 1
      invariant forall k, l :: 0 <= k < i && 0 <= l <= m ==> dist[k, l] == Lev(a[..k], b[..l])
      invariant forall k :: i <= k <= n ==> dist[k, 0] == k
    {
      FillRow(a, b, dist, i);
    }
    assert a[..n] == a && b[..m] == b;
    d := dist[n, m];
  }

  /** The inner loop: row `i` of the table from row `i - 1` and its first cell. */
  method FillRow(a: string, b: string, dist: array2<nat>, i: nat)
    requires dist.Length0 == |a| + 1 && dist.Length1 == |b| + 1 && 1 <= i <= |a|
    requires forall l :: 0 <= l <= |b| ==> dist[i - 1, l] == Lev(a[..i - 1], b[..l])
    requires dist[i, 0] == i
    modifies dist
    ensures forall l :: 0 <= l <= |b| ==> dist[i, l] == Lev(a[..i], b[..l])
    ensures forall k, l :: 0 <= k < dist.Length0 && 0 <= l < dist.Length1 && k != i ==> dist[k, l] == old(dist[k, l])
  {
    assert Lev(a[..i], b[..0]) == i by {
      assert b[..0] == [];
    }
    for j := 1 to |b| + 1
      invariant forall l :: 0 <= l < j ==> dist[i, l] == Lev(a[..i], b[..l])
      invariant forall k, l :: 0 <= k < dist.Length0 && 0 <= l < dist.Length1 && k != i ==> dist[k, l] == old(dist[k, l])
    {
      LevStep(a, b, i, j);
      if a[i - 1] == b[j - 1] {
        dist[i, j] := dist[i - 1, j - 1];
      } else {
        dist[i, j] := Min3(dist[i - 1, j], dist[i, j - 1], dist[i - 1, j - 1]) + 1;
      }
    }
  }

  /** What `getStringDistance` returns: `Int.max` for an empty argument. */
  function StringDistance(s1: string, s2: string): (r: int)
    ensures s1 == [] || s2 == [] ==> r == IntMax
    ensures s1 != [] && s2 != [] ==> r == Lev(s1, s2)
  {
    if s1 == [] || s2 == [] then IntMax else Lev(s1, s2)
  }

  /** `getStringDistance`. */
  method GetStringDistance(s1: string, s2: string) returns (d: int)
    ensures s1 == [] || s2 == [] ==> d == IntMax
    ensures s1 != [] && s2 != [] ==> d == Lev(s1, s2)
    ensures d == StringDistance(s1, s2)
  {
    if |s1| == 0 || |s2| == 0 {
      return IntMax;
    }
    d := LevenshteinTable(s1, s2);
  }

  /** Equal non-empty strings are at distance 0, all others strictly further. */
  lemma StringDistanceZeroIffEqual(s1: string, s2: string)
    ensures StringDistance(s1, s2) == 0 <==> s1 == s2 && s1 != []
  {
    LevZeroIffEqual(s1, s2);
  }
}
