/**
 * String helpers shared by the label and project modules.  Strings are
 * sequences of characters; only ASCII case mapping is modelled.
 */
module Strings {

  datatype Option<T> = None | Some(value: T)

  /** `Int.max` on the 64-bit platforms the service runs on. */
  const IntMax: int := 0x7FFF_FFFF_FFFF_FFFF

  /**
   * The characters the regular-expression engine treats as line
   * terminators: `.` does not match them and `$` may stand before a final one.
   */
  predicate IsLineTerminator(c: char) {
    c == '\n' || c == '\U{000B}' || c == '\U{000C}' || c == '\r'
    || c == '\U{0085}' || c == '\U{2028}' || c == '\U{2029}'
  }

  predicate IsUpper(c: char) {
    'A' <= c <= 'Z'
  }

  function ToLower(c: char): (r: char)
    ensures IsUpper(c) ==> r as int == c as int + 32
    ensures !IsUpper(c) ==> r == c
    ensures !IsUpper(r)
  {
    if IsUpper(c) then (c as int + 32) as char else c
  }

  /** ASCII-only model of `lowercased()`. */
  function Lower(s: string): (r: string)
    ensures |r| == |s|
    ensures forall k :: 0 <= k < |s| ==> r[k] == ToLower(s[k])
  {
    if s == [] then [] else [ToLower(s[0])] + Lower(s[1..])
  }

  /** `s.lowercased() == s`: the string has no upper-case letter. */
  predicate IsAllLower(s: string) {
    Lower(s) == s
  }

  lemma AllLowerIffNoUpper(s: string)
    ensures IsAllLower(s) <==> forall k :: 0 <= k < |s| ==> !IsUpper(s[k])
  {
    if forall k :: 0 <= k < |s| ==> !IsUpper(s[k]) {
      assert Lower(s) == s;
    } else {
      var k :| 0 <= k < |s| && IsUpper(s[k]);
      assert Lower(s)[k] != s[k];
    }
  }

  predicate StartsWith(s: string, prefix: string) {
    |prefix| <= |s| && s[..|prefix|] == prefix
  }

  /** No element of `s` occurs twice. */
  predicate NoDup<T(==)>(s: seq<T>) {
    forall i, j :: 0 <= i < j < |s| ==> s[i] != s[j]
  }

  /**
   * `order` lists the elements of `elems` once each: the unspecified
   * iteration order of a Swift `Set` or `Dictionary`, given as an input.
   */
  predicate IsEnumeration(order: seq<string>, elems: set<string>) {
    NoDup(order) && (forall x :: x in order ==> x in elems) && (forall x :: x in elems ==> x in order)
  }

  /** An enumeration has one entry per element. */
  lemma {:induction false} EnumerationSize(order: seq<string>, elems: set<string>)
    requires IsEnumeration(order, elems)
    ensures |order| == |elems|
  {
    if order == [] {
      assert elems == {};
    } else {
      var init, last := order[..|order| - 1], order[|order| - 1];
      var rest := elems - {last};
      forall x | x in init
        ensures x in rest
      {
        var i :| 0 <= i < |init| && init[i] == x;
        assert order[i] == x && order[|order| - 1] == last;
      }
      forall x | x in rest
        ensures x in init
      {
        var i :| 0 <= i < |order| && order[i] == x;
        assert i != |order| - 1;
        assert init[i] == x;
      }
      assert NoDup(init);
      EnumerationSize(init, rest);
    }
  }

  /** Position of the first occurrence of `c` in `s`, as `s.index(of: c)`. */
  function IndexOf(s: string, c: char): (r: Option<nat>)
    ensures r.None? <==> c !in s
    ensures r.Some? ==> r.value < |s| && s[r.value] == c
    ensures r.Some? ==> forall k :: 0 <= k < r.value ==> s[k] != c
  {
    if s == [] then None
    else if s[0] == c then Some(0)
    else match IndexOf(s[1..], c)
      case None => None
      case Some(k) => Some(k + 1)
  }

  /** `p` occurs in `s` starting at position `k`. */
  predicate OccursAt(s: string, p: string, k: int) {
    0 <= k && k + |p| <= |s| && s[k..k + |p|] == p
  }

  /** `s.contains(p)`: some occurrence of `p` exists. */
  function Contains(s: string, p: string): (r: bool)
    ensures r <==> exists k :: OccursAt(s, p, k)
    decreases |s|
  {
    if StartsWith(s, p) then
      assert OccursAt(s, p, 0);
      true
    else if s == [] then
      assert forall k :: !OccursAt(s, p, k);
      false
    else
      var r := Contains(s[1..], p);
      ShiftOccurrence(s, p);
      r
  }

  /** Occurrences in `s[1..]` are the occurrences in `s` after position 0. */
  lemma ShiftOccurrence(s: string, p: string)
    requires s != [] && !StartsWith(s, p)
    ensures (exists k :: OccursAt(s[1..], p, k)) <==> (exists k :: OccursAt(s, p, k))
  {
    if k :| OccursAt(s[1..], p, k) {
      assert s[1..][k..k + |p|] == s[k + 1..k + 1 + |p|];
      assert OccursAt(s, p, k + 1);
    }
    if k :| OccursAt(s, p, k) {
      assert k != 0;
      assert s[1..][k - 1..k - 1 + |p|] == s[k..k + |p|];
      assert OccursAt(s[1..], p, k - 1);
    }
  }

  /** First index at or after `k` holding `c`, or `|s|` if there is none. */
  function TokenEnd(s: string, c: char, k: nat): (r: nat)
    requires k <= |s|
    ensures k <= r <= |s|
    ensures r < |s| ==> s[r] == c
    ensures forall i :: k <= i < r ==> s[i] != c
    decreases |s| - k
  {
    if k == |s| || s[k] == c then k else TokenEnd(s, c, k + 1)
  }

  /**
   * `s.split(separator: c)` with Swift's default of omitting empty pieces:
   * the maximal runs of characters other than `c`, in order.
   */
  function Split(s: string, c: char): (r: seq<string>)
    ensures forall i :: 0 <= i < |r| ==> r[i] != [] && c !in r[i]
    decreases |s|
  {
    if s == [] then []
    else if s[0] == c then Split(s[1..], c)
    else
      var k := TokenEnd(s, c, 0);
      [s[..k]] + Split(s[k..], c)
  }

  /** A leading run of separators contributes no piece. */
  lemma SplitSkipsSeparator(c: char, s: string)
    ensures Split([c] + s, c) == Split(s, c)
  {
    assert ([c] + s)[1..] == s;
  }

  /** A piece `a` followed by a separator is split off as one element. */
  lemma {:induction false} SplitPiece(a: string, c: char, s: string)
    requires a != [] && c !in a
    ensures Split(a + [c] + s, c) == [a] + Split([c] + s, c)
  {
    var t := a + [c] + s;
    assert t[0] == a[0] && a[0] != c;
    var k := TokenEnd(t, c, 0);
    assert t[|a|] == c;
    assert forall i :: 0 <= i < |a| ==> t[i] == a[i];
    assert k == |a|;
    assert t[..k] == a;
    assert t[k..] == [c] + s;
  }

  /** A piece with no separator after it is the last element. */
  lemma SplitLastPiece(a: string, c: char)
    requires a != [] && c !in a
    ensures Split(a, c) == [a]
  {
    var k := TokenEnd(a, c, 0);
    assert k == |a|;
    assert a[..k] == a;
    assert a[k..] == [];
  }
}
