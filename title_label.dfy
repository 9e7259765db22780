/**
 * The bracketed component prefix of an issue or pull-request title: the
 * first match of the pattern `\[(.*?)\]`, and the title rewrite that
 * replaces it.
 */
module TitleLabels {
  import opened Strings

  /** No `]` and no line terminator in `t[lo..hi]`. */
  predicate Clean(t: string, lo: int, hi: int)
    requires 0 <= lo <= hi <= |t|
  {
    forall x :: lo <= x < hi ==> t[x] != ']' && !IsLineTerminator(t[x])
  }

  /**
   * `t[i..j+1]` is a match of `\[(.*?)\]` starting at `i`: an opening
   * bracket, then, on the same line, the nearest closing bracket (the lazy
   * `.*?` stops at the first `]`, and `.` does not cross a line terminator).
   */
  predicate MatchAt(t: string, i: int, j: int) {
    0 <= i < j < |t| && t[i] == '[' && t[j] == ']' && Clean(t, i + 1, j)
  }

  /** A match starting at `i` has exactly one end. */
  lemma MatchEndUnique(t: string, i: int, j: int, j': int)
    requires MatchAt(t, i, j) && MatchAt(t, i, j')
    ensures j == j'
  {
  }

  /** Index of the closing bracket that ends a match whose `[` is at `k - 1`. */
  function CloseFrom(t: string, k: nat): (r: Option<nat>)
    requires 0 < k <= |t|
    ensures r.Some? ==> k <= r.value < |t| && t[r.value] == ']' && Clean(t, k, r.value)
    ensures r.None? ==> forall j :: k <= j < |t| && t[j] == ']' ==> !Clean(t, k, j)
    decreases |t| - k
  {
    if k == |t| then None
    else if t[k] == ']' then Some(k)
    else if IsLineTerminator(t[k]) then None
    else CloseFrom(t, k + 1)
  }

  /** The leftmost match starting at or after `i`, as a pair of indices. */
  function FirstMatchFrom(t: string, i: nat): (r: Option<(nat, nat)>)
    ensures r.Some? ==> i <= r.value.0 && MatchAt(t, r.value.0, r.value.1)
    ensures r.Some? ==> forall a, b :: i <= a < r.value.0 ==> !MatchAt(t, a, b)
    ensures r.None? ==> forall a, b :: i <= a ==> !MatchAt(t, a, b)
    decreases |t| - i
  {
    if i >= |t| then None
    else if t[i] == '[' && i + 1 <= |t| then
      match CloseFrom(t, i + 1)
      case Some(j) => Some((i, j))
      case None => FirstMatchFrom(t, i + 1)
    else FirstMatchFrom(t, i + 1)
  }

  /**
   * `getTitleLabel`: the first match of `\[(.*?)\]` with its brackets, or
   * nothing when no `[` is followed on the same line by a `]`.
   */
  function GetTitleLabel(title: string): (r: Option<string>)
    ensures r.Some? ==> |r.value| >= 2 && r.value[0] == '[' && r.value[|r.value| - 1] == ']'
    ensures r.Some? ==> forall k :: 0 < k < |r.value| - 1 ==> r.value[k] != ']'
  {
    match FirstMatchFrom(title, 0)
    case None => None
    case Some((i, j)) =>
      assert MatchAt(title, i, j);
      Some(title[i..j + 1])
  }

  /**
   * No label exactly when there is no match; otherwise the label is the
   * text of the leftmost match.
   */
  lemma GetTitleLabelSpec(title: string)
    ensures GetTitleLabel(title).None? <==> forall i, j :: !MatchAt(title, i, j)
    ensures GetTitleLabel(title).Some? ==>
              exists i, j :: MatchAt(title, i, j) && GetTitleLabel(title).value == title[i..j + 1]
                             && forall a, b :: 0 <= a < i ==> !MatchAt(title, a, b)
  {
  }

  /** A title with a label has a `]`, so the rename step always finds one. */
  lemma LabelHasClosingBracket(title: string)
    requires GetTitleLabel(title).Some?
    ensures IndexOf(title, ']').Some?
  {
    GetTitleLabelSpec(title);
    var i, j :| MatchAt(title, i, j);
    assert title[j] == ']';
  }

  /** A title that starts with a bracketed word yields that word as its label. */
  lemma {:induction false} LeadingLabel(word: string, rest: string)
    requires forall k :: 0 <= k < |word| ==> word[k] != ']' && !IsLineTerminator(word[k])
    ensures GetTitleLabel("[" + word + "]" + rest) == Some("[" + word + "]")
  {
    var t := "[" + word + "]" + rest;
    assert t[0] == '[' && t[|word| + 1] == ']';
    assert forall x :: 1 <= x < |word| + 1 ==> t[x] == word[x - 1];
    assert MatchAt(t, 0, |word| + 1);
    var r := GetTitleLabel(t);
    GetTitleLabelSpec(t);
    var i, j :| MatchAt(t, i, j) && r.value == t[i..j + 1]
                && forall a, b :: 0 <= a < i ==> !MatchAt(t, a, b);
    assert i == 0;
    MatchEndUnique(t, 0, j, |word| + 1);
    assert t[..|word| + 2] == "[" + word + "]";
  }

  /** `String(lbl.dropFirst().dropLast())`. */
  function Unbracket(lbl: string): (r: string)
    ensures |lbl| >= 2 ==> |r| == |lbl| - 2
    ensures |lbl| < 2 ==> r == []
  {
    if |lbl| < 2 then [] else lbl[1..|lbl| - 1]
  }

  /** Putting back the first and last character of a label gives the label. */
  lemma UnbracketRestores(lbl: string)
    requires |lbl| >= 2
    ensures lbl == [lbl[0]] + Unbracket(lbl) + [lbl[|lbl| - 1]]
  {
  }

  /**
   * The renamed title: the new label, then the text after the title's first
   * `]`, with one space inserted when that text does not start with one.
   */
  function RenamedTitle(lbl: string, rest: string): (r: string)
    ensures |r| > |lbl| && r[..|lbl|] == lbl && r[|lbl|] == ' '
    ensures |rest| > 0 && rest[0] == ' ' ==> r[|lbl|..] == rest
    ensures !(|rest| > 0 && rest[0] == ' ') ==> r[|lbl| + 1..] == rest
  {
    if |rest| > 0 && rest[0] == ' ' then lbl + rest else lbl + " " + rest
  }
}
