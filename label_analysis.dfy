/**
 * Label and title reconciliation of the current revision (`LabelAnalysis`):
 * issues are matched against the component directory names, pull requests
 * against the component labels of the files their diff touches.  Every call
 * to the issue tracker is an entry of the returned effect log; the
 * component names, the diff and the iteration order of Swift's unordered
 * collections are inputs.
 */
module LabelAnalysis {
  import opened Strings
  import opened Effects
  import opened TitleLabels
  import opened EditDistance
  import opened DiffPaths

  /** Directory names that count as components: not entirely lower case. */
  function Candidates(names: seq<string>): set<string> {
    set n | n in names && !IsAllLower(n)
  }

  /**
   * A directory name is a candidate exactly when it is listed and has an
   * upper-case letter: an all-lower-case name is skipped.
   */
  lemma CandidateIffHasUpper(names: seq<string>, n: string)
    ensures n in Candidates(names) <==> n in names && exists k :: 0 <= k < |n| && IsUpper(n[k])
  {
    AllLowerIffNoUpper(n);
  }

  /** The case-insensitive distance the rules compare names by. */
  function NameDistance(name: string, u: string): int {
    StringDistance(Lower(name), Lower(u))
  }

  /** The `labelDist` dictionary of the issue rule: candidate name to distance. */
  function IssueDistances(names: seq<string>, u: string): map<string, int> {
    map n | n in names && !IsAllLower(n) :: NameDistance(n, u)
  }

  /**
   * The `reduce` over `labelDist`, visiting its keys in `order`: a key
   * replaces the accumulator only when it is strictly closer, starting
   * from `("", Int.max)`.
   */
  function MinPick(order: seq<string>, m: map<string, int>): (string, int)
    requires forall k :: k in order ==> k in m
  {
    if order == [] then ("", IntMax)
    else
      var acc := MinPick(order[..|order| - 1], m);
      var k := order[|order| - 1];
      if acc.1 > m[k] then (k, m[k]) else acc
  }

  /**
   * The pick is a minimum over the visited keys (capped at `Int.max`), and
   * it is either the initial pair or a visited key with its own distance.
   */
  lemma {:induction false} MinPickIsMinimum(order: seq<string>, m: map<string, int>)
    requires forall k :: k in order ==> k in m
    ensures MinPick(order, m).1 <= IntMax
    ensures forall k :: k in order ==> MinPick(order, m).1 <= m[k]
    ensures MinPick(order, m) == ("", IntMax)
            || (MinPick(order, m).0 in order && m[MinPick(order, m).0] == MinPick(order, m).1)
  {
    if order != [] {
      var init := order[..|order| - 1];
      assert forall k :: k in order ==> k in init || k == order[|order| - 1];
      MinPickIsMinimum(init, m);
    }
  }

  /** A pick within `bound` (below `Int.max`) exists exactly when some key is that close. */
  lemma MinPickWithin(order: seq<string>, m: map<string, int>, bound: int)
    requires forall k :: k in order ==> k in m
    requires bound < IntMax
    ensures MinPick(order, m).1 <= bound <==> exists k :: k in order && m[k] <= bound
    ensures MinPick(order, m).1 <= bound ==>
              MinPick(order, m).0 in order && m[MinPick(order, m).0] == MinPick(order, m).1
  {
    MinPickIsMinimum(order, m);
  }

  /**
   * The title edit and the comment of a rename to `newLabel`: the new title
   * keeps the text after the title's first `]`.
   */
  function RenameEffects(title: string, url: string, tl: string, newLabel: string): seq<Effect> {
    match IndexOf(title, ']')
    case None => []
    case Some(p) =>
      [EditIssue(url, "title", Text(RenamedTitle(newLabel, title[p + 1..]))),
       CreateComment(url, RenameComment(tl, newLabel))]
  }

  /** The loop filling `labelDist` in `addAndFixLabelsForIssues`. */
  method DistancesToNames(names: seq<string>, u: string) returns (labelDist: map<string, int>)
    ensures labelDist == IssueDistances(names, u)
  {
    labelDist := map[];
    for i := 0 to |names|
      invariant labelDist == IssueDistances(names[..i], u)
    {
      IssueDistancesStep(names, i, u);
      var name := names[i];
      if Lower(name) == name {
        continue;
      }
      var d := GetStringDistance(Lower(name), Lower(u));
      labelDist := labelDist[name := d];
    }
    assert names[..|names|] == names;
  }

  /** One more name adds its distance to the map, unless it is all lower case. */
  lemma IssueDistancesStep(names: seq<string>, i: nat, u: string)
    requires i < |names|
    ensures IssueDistances(names[..i + 1], u) ==
              if IsAllLower(names[i]) then IssueDistances(names[..i], u)
              else IssueDistances(names[..i], u)[names[i] := NameDistance(names[i], u)]
  {
    assert names[..i + 1] == names[..i] + [names[i]];
  }

  /** The `reduce` of `labelDist` to its closest entry, keys visited in `order`. */
  method ReduceToClosest(order: seq<string>, labelDist: map<string, int>) returns (lbl: string, dist: int)
    requires forall k :: k in order ==> k in labelDist
    ensures (lbl, dist) == MinPick(order, labelDist)
  {
    lbl, dist := "", IntMax;
    for k := 0 to |order|
      invariant (lbl, dist) == MinPick(order[..k], labelDist)
    {
      assert order[..k + 1][..k] == order[..k];
      if dist > labelDist[order[k]] {
        lbl, dist := order[k], labelDist[order[k]];
      }
    }
    assert order[..|order|] == order;
  }

  /**
   * The title update and the notification of a rename (lines 115-128 of the
   * issue rule, 184-196 of the pull-request rule).
   */
  method RetitleAndNotify(title: string, url: string, tl: string, newLabel: string) returns (log: seq<Effect>)
    ensures log == RenameEffects(title, url, tl, newLabel)
  {
    log := [];
    var range := IndexOf(title, ']');
    if range.Some? {
      var titleWithoutLabel := title[range.value + 1..];
      var updatedTitle := newLabel;
      if !(|titleWithoutLabel| > 0 && titleWithoutLabel[0] == ' ') {
        updatedTitle := updatedTitle + " " + titleWithoutLabel;
      } else {
        updatedTitle := updatedTitle + titleWithoutLabel;
      }
      log := log + [EditIssue(url, "title", Text(updatedTitle))];
      log := log + [CreateComment(url, RenameComment(tl, newLabel))];
    }
  }

  /**
   * What `addAndFixLabelsForIssues` sends for an issue titled `title` whose
   * title label is `titleLabel`.
   */
  function IssueEffectsWith(titleLabel: Option<string>, title: string, url: string, names: seq<string>, order: seq<string>): seq<Effect>
    requires IsEnumeration(order, Candidates(names))
  {
    match titleLabel
    case None => [CreateComment(url, NoPrefixComment)]
    case Some(tl) =>
      var u := Unbracket(tl);
      if u in names then [AddLabels(url, {tl})]
      else
        var pick := MinPick(order, IssueDistances(names, u));
        if pick.1 <= 2 then
          var b := "[" + pick.0 + "]";
          RenameEffects(title, url, tl, b) + [AddLabels(url, {b})]
        else []
  }

  /** What `addAndFixLabelsForIssues` sends for an issue titled `title`. */
  function IssueEffects(title: string, url: string, names: seq<string>, order: seq<string>): seq<Effect>
    requires IsEnumeration(order, Candidates(names))
  {
    IssueEffectsWith(GetTitleLabel(title), title, url, names, order)
  }

  /** A title with a `]` gets the title edit, then the notification. */
  lemma RenameTwoSteps(title: string, url: string, tl: string, newLabel: string)
    requires ']' in title
    ensures RenameEffects(title, url, tl, newLabel) ==
              [EditIssue(url, "title", Text(RenamedTitle(newLabel, title[IndexOf(title, ']').value + 1..]))),
               CreateComment(url, RenameComment(tl, newLabel))]
  {
  }

  /** `addAndFixLabelsForIssues`; `names` is the listing of the `components` directory. */
  method AddAndFixLabelsForIssues(title: string, url: string, names: seq<string>, order: seq<string>)
    returns (log: seq<Effect>)
    requires IsEnumeration(order, Candidates(names))
    ensures log == IssueEffects(title, url, names, order)
  {
    var titleLabel := GetTitleLabel(title);
    log := FixIssueLabels(titleLabel, title, url, names, order);
  }

  /** The body of `addAndFixLabelsForIssues` once the title label is known. */
  method FixIssueLabels(titleLabel: Option<string>, title: string, url: string, names: seq<string>, order: seq<string>)
    returns (log: seq<Effect>)
    requires IsEnumeration(order, Candidates(names))
    ensures log == IssueEffectsWith(titleLabel, title, url, names, order)
  {
    log := [];
    var labelsToAdd: seq<string> := [];
    if titleLabel.Some? {
      var tl := titleLabel.value;
      var u := Unbracket(tl);
      if u in names {
        labelsToAdd := labelsToAdd + [tl];
        assert Dedup(labelsToAdd) == {tl};
      } else {
        var labelDist := DistancesToNames(names, u);
        assert labelDist.Keys == Candidates(names);
        var lbl, dist := ReduceToClosest(order, labelDist);
        if dist <= 2 {
          var bracketedLabel := "[" + lbl + "]";
          labelsToAdd := labelsToAdd + [bracketedLabel];
          log := RetitleAndNotify(title, url, tl, bracketedLabel);
          assert Dedup(labelsToAdd) == {bracketedLabel};
        } else {
          assert IssueEffectsWith(titleLabel, title, url, names, order) == [];
        }
      }
    }
    if |labelsToAdd| > 0 {
      log := log + [AddLabels(url, Dedup(labelsToAdd))];
    } else if titleLabel.None? {
      log := log + [CreateComment(url, NoPrefixComment)];
    }
  }

  /** A title label naming a component directory is only added as a label. */
  lemma IssueExactMatch(title: string, url: string, names: seq<string>, order: seq<string>)
    requires IsEnumeration(order, Candidates(names))
    requires GetTitleLabel(title).Some? && Unbracket(GetTitleLabel(title).value) in names
    ensures IssueEffects(title, url, names, order) == [AddLabels(url, {GetTitleLabel(title).value})]
  {
  }

  /** A title without a label gets the missing-prefix comment and nothing else. */
  lemma IssueNoLabel(title: string, url: string, names: seq<string>, order: seq<string>)
    requires IsEnumeration(order, Candidates(names))
    requires forall i, j :: !MatchAt(title, i, j)
    ensures IssueEffects(title, url, names, order) == [CreateComment(url, NoPrefixComment)]
  {
  }

  /**
   * A title label that names no component: nothing at all is sent exactly
   * when no candidate is within distance 2 of it.
   */
  lemma IssueNoCloseName(title: string, url: string, names: seq<string>, order: seq<string>, tl: string)
    requires IsEnumeration(order, Candidates(names))
    requires GetTitleLabel(title) == Some(tl) && Unbracket(tl) !in names
    ensures IssueEffects(title, url, names, order) == [] <==>
              forall c :: c in Candidates(names) ==> NameDistance(c, Unbracket(tl)) > 2
  {
    var m := IssueDistances(names, Unbracket(tl));
    assert forall k :: k in order ==> k in m;
    MinPickWithin(order, m, 2);
    if MinPick(order, m).1 > 2 {
      forall c | c in Candidates(names)
        ensures m[c] > 2
      {
        assert c in order;
      }
    } else {
      LabelHasClosingBracket(title);
    }
  }

  /**
   * Otherwise the title is renamed to a candidate of minimum distance, a
   * comment reports the rename, and the new label is added, in that order.
   */
  lemma IssueRename(title: string, url: string, names: seq<string>, order: seq<string>, tl: string)
    requires IsEnumeration(order, Candidates(names))
    requires GetTitleLabel(title) == Some(tl) && Unbracket(tl) !in names
    requires IssueEffects(title, url, names, order) != []
    ensures exists c :: c in names && !IsAllLower(c)
              && NameDistance(c, Unbracket(tl)) <= 2
              && (forall c' :: c' in Candidates(names) ==>
                    NameDistance(c, Unbracket(tl)) <= NameDistance(c', Unbracket(tl)))
              && IssueEffects(title, url, names, order) ==
                   [EditIssue(url, "title", Text(RenamedTitle("[" + c + "]", title[IndexOf(title, ']').value + 1..]))),
                    CreateComment(url, RenameComment(tl, "[" + c + "]")),
                    AddLabels(url, {"[" + c + "]"})]
  {
    var u := Unbracket(tl);
    var m := IssueDistances(names, u);
    assert forall k :: k in order ==> k in m;
    MinPickIsMinimum(order, m);
    var pick := MinPick(order, m);
    assert pick.1 <= 2;
    var c := pick.0;
    assert c in order && m[c] == pick.1;
    assert c in Candidates(names);
    forall c' | c' in Candidates(names)
      ensures m[c] <= m[c']
    {
      assert c' in order;
    }
    LabelHasClosingBracket(title);
  }

  /**
   * The rename keeps the rest of the title: a title `[word]rest` becomes the
   * new label followed by `rest`, with a space in between.
   */
  lemma {:induction false} IssueRenameKeepsRest(word: string, rest: string, url: string, tl: string, newLabel: string)
    requires forall k :: 0 <= k < |word| ==> word[k] != ']' && !IsLineTerminator(word[k])
    ensures RenameEffects("[" + word + "]" + rest, url, tl, newLabel)[0] ==
              EditIssue(url, "title", Text(RenamedTitle(newLabel, rest)))
  {
    var t := "[" + word + "]" + rest;
    assert t[|word| + 1] == ']';
    assert forall k :: 0 <= k < |word| + 1 ==> t[k] != ']' by {
      assert forall k :: 1 <= k < |word| + 1 ==> t[k] == word[k - 1];
    }
    assert IndexOf(t, ']') == Some(|word| + 1);
    assert t[|word| + 2..] == rest;
  }

  /** The `labelDist` dictionary of the pull-request rule: path label to distance. */
  function PathDistances(labels: set<string>, u: string): map<string, int> {
    map l | l in labels :: NameDistance(Unbracket(l), u)
  }

  /**
   * What `addAndFixLabelsForPullRequests` sends once the path labels and the
   * title label are known; `order` is the iteration order of the label set.
   */
  function PullRequestEffectsWith(titleLabel: Option<string>, title: string, url: string, labels: set<string>,
                                  order: seq<string>): seq<Effect>
    requires IsEnumeration(order, labels)
  {
    MultiComment(url, labels) + TitleFix(titleLabel, title, url, labels, order)
    + if labels != {} then [AddLabels(url, labels)] else []
  }

  /**
   * The title repair between the comment and the labels: a rename to the
   * closest path label, or a prefix for a one-component change.  It holds
   * title edits and comments other than the multiple-components one.
   */
  function TitleFix(titleLabel: Option<string>, title: string, url: string, labels: set<string>,
                    order: seq<string>): (r: seq<Effect>)
    requires IsEnumeration(order, labels)
    ensures forall e :: e in r ==> IsTitleEdit(e) || (e.CreateComment? && e.text != MultipleComponentsComment)
  {
    EnumerationSize(order, labels);
    forall a, b {
      CommentsDiffer(a, b);
    }
    match titleLabel
    case Some(tl) =>
      if tl in labels then []
      else
        var pick := MinPick(order, PathDistances(labels, Unbracket(tl)));
        if pick.1 <= 2 then RenameEffects(title, url, tl, pick.0) else []
    case None =>
      if |labels| == 1 then
        [EditIssue(url, "title", Text(order[0] + " " + title)), CreateComment(url, PrefixedComment(order[0]))]
      else []
  }

  /** What `addAndFixLabelsForPullRequests` sends once the path labels are known. */
  function PullRequestEffects(title: string, url: string, labels: set<string>, order: seq<string>): seq<Effect>
    requires IsEnumeration(order, labels)
  {
    PullRequestEffectsWith(GetTitleLabel(title), title, url, labels, order)
  }

  /**
   * `addAndFixLabelsForPullRequests`; `diff` is the body of the diff
   * request (`None` when it threw).  `None` is a trap while reading the diff.
   */
  method AddAndFixLabelsForPullRequests(title: string, url: string, diff: Option<string>, order: seq<string>)
    returns (r: Option<seq<Effect>>)
    requires PathLabelSet(diff).Some? ==> IsEnumeration(order, PathLabelSet(diff).value)
    ensures PathLabelSet(diff).None? ==> r.None?
    ensures PathLabelSet(diff).Some? ==> r == Some(PullRequestEffects(title, url, PathLabelSet(diff).value, order))
  {
    var paths := GetFilePaths(diff);
    if paths.None? {
      return None;
    }
    var labels := GrabLabelsFromPaths(paths.value);
    if labels.None? {
      return None;
    }
    var labelsFromPaths := Dedup(labels.value);
    var titleLabel := GetTitleLabel(title);
    var log := FixPullRequestLabels(titleLabel, title, url, labelsFromPaths, order);
    r := Some(log);
  }

  /** The loop filling `labelDist` in `addAndFixLabelsForPullRequests`. */
  method DistancesToLabels(order: seq<string>, u: string) returns (labelDist: map<string, int>)
    ensures labelDist == PathDistances(Dedup(order), u)
  {
    labelDist := map[];
    for i := 0 to |order|
      invariant labelDist == PathDistances(Dedup(order[..i]), u)
    {
      assert order[..i + 1] == order[..i] + [order[i]];
      var d := GetStringDistance(Lower(Unbracket(order[i])), Lower(u));
      labelDist := labelDist[order[i] := d];
    }
    assert order[..|order|] == order;
  }

  /** The body of `addAndFixLabelsForPullRequests` once the labels are known. */
  method FixPullRequestLabels(titleLabel: Option<string>, title: string, url: string, labelsFromPaths: set<string>,
                              order: seq<string>) returns (log: seq<Effect>)
    requires IsEnumeration(order, labelsFromPaths)
    ensures log == PullRequestEffectsWith(titleLabel, title, url, labelsFromPaths, order)
  {
    EnumerationSize(order, labelsFromPaths);
    assert Dedup(order) == labelsFromPaths;
    var multi: seq<Effect> := [];
    if |labelsFromPaths| > 1 {
      multi := [CreateComment(url, MultipleComponentsComment)];
    }
    var labelsToAdd: seq<string> := order;
    var fix: seq<Effect> := [];
    if titleLabel.Some? {
      var tl := titleLabel.value;
      if tl !in labelsFromPaths {
        var u := Unbracket(tl);
        var labelDist := DistancesToLabels(order, u);
        var lbl, dist := ReduceToClosest(order, labelDist);
        if dist <= 2 {
          MinPickIsMinimum(order, labelDist);
          labelsToAdd := labelsToAdd + [lbl];
          fix := RetitleAndNotify(title, url, tl, lbl);
        }
      }
    } else if |labelsFromPaths| == 1 {
      var lbl := order[0];
      var updatedTitle := lbl + " " + title;
      fix := [EditIssue(url, "title", Text(updatedTitle)), CreateComment(url, PrefixedComment(lbl))];
    }
    assert multi == MultiComment(url, labelsFromPaths);
    assert fix == TitleFix(titleLabel, title, url, labelsFromPaths, order);
    log := multi + fix;
    if |labelsToAdd| > 0 {
      assert Dedup(labelsToAdd) == labelsFromPaths;
      log := log + [AddLabels(url, Dedup(labelsToAdd))];
    }
  }

  /**
   * The multiple-components comment is posted exactly when there is more
   * than one distinct path label; labels are added exactly when there is at
   * least one, and then they are the whole set, last.
   */
  lemma PullRequestCommentAndLabels(title: string, url: string, labels: set<string>, order: seq<string>)
    requires IsEnumeration(order, labels)
    ensures CreateComment(url, MultipleComponentsComment) in PullRequestEffects(title, url, labels, order)
            <==> |labels| > 1
    ensures labels != {} ==>
              var log := PullRequestEffects(title, url, labels, order);
              log != [] && log[|log| - 1] == AddLabels(url, labels)
    ensures labels == {} ==> forall e :: e in PullRequestEffects(title, url, labels, order) ==> !e.AddLabels?
  {
  }

  /** A title label that is already one of the path labels is never rewritten. */
  lemma PullRequestLabelKept(title: string, url: string, labels: set<string>, order: seq<string>)
    requires IsEnumeration(order, labels)
    requires GetTitleLabel(title).Some? && GetTitleLabel(title).value in labels
    ensures forall e :: e in PullRequestEffects(title, url, labels, order) ==> !IsTitleEdit(e)
  {
  }

  /** A title without a label, on a change to a single component, is prefixed with its label. */
  lemma PullRequestAutoPrefix(title: string, url: string, x: string, order: seq<string>)
    requires IsEnumeration(order, {x})
    requires GetTitleLabel(title).None?
    ensures PullRequestEffects(title, url, {x}, order) ==
              [EditIssue(url, "title", Text(x + " " + title)), CreateComment(url, PrefixedComment(x)),
               AddLabels(url, {x})]
  {
    EnumerationSize(order, {x});
    assert order[0] in {x};
  }

  /**
   * A title label outside the path labels with no path label within
   * distance 2: the title is left alone.
   */
  lemma PullRequestNoCloseLabel(title: string, url: string, labels: set<string>, order: seq<string>, tl: string)
    requires IsEnumeration(order, labels)
    requires GetTitleLabel(title) == Some(tl) && tl !in labels
    requires forall l :: l in labels ==> NameDistance(Unbracket(l), Unbracket(tl)) > 2
    ensures PullRequestEffects(title, url, labels, order) ==
              MultiComment(url, labels) + if labels != {} then [AddLabels(url, labels)] else []
  {
    var m := PathDistances(labels, Unbracket(tl));
    MinPickIsMinimum(order, m);
    assert forall k :: k in order ==> m[k] > 2;
  }

  /**
   * A title label outside the path labels with some path label within
   * distance 2: the title is renamed to a path label of minimum distance and
   * a comment reports it (`RenameTwoSteps`), between the multiple-components
   * comment and the labels.
   */
  lemma PullRequestRename(title: string, url: string, labels: set<string>, order: seq<string>, tl: string)
    requires IsEnumeration(order, labels)
    requires GetTitleLabel(title) == Some(tl) && tl !in labels
    requires exists l :: l in labels && NameDistance(Unbracket(l), Unbracket(tl)) <= 2
    ensures exists l :: l in labels
              && NameDistance(Unbracket(l), Unbracket(tl)) <= 2
              && (forall l' :: l' in labels ==>
                    NameDistance(Unbracket(l), Unbracket(tl)) <= NameDistance(Unbracket(l'), Unbracket(tl)))
              && PullRequestEffects(title, url, labels, order) ==
                   MultiComment(url, labels) + RenameEffects(title, url, tl, l) + [AddLabels(url, labels)]
  {
    var u := Unbracket(tl);
    ClosestPathLabel(labels, order, u);
    RenameToPick(title, url, labels, order, tl);
    var l := MinPick(order, PathDistances(labels, u)).0;
    assert l in labels && NameDistance(Unbracket(l), u) <= 2;
  }

  /** With the closest path label within 2, the log is the rename to it between comment and labels. */
  lemma RenameToPick(title: string, url: string, labels: set<string>, order: seq<string>, tl: string)
    requires IsEnumeration(order, labels)
    requires GetTitleLabel(title) == Some(tl) && tl !in labels
    requires MinPick(order, PathDistances(labels, Unbracket(tl))).1 <= 2
    ensures PullRequestEffects(title, url, labels, order) ==
              MultiComment(url, labels) + RenameEffects(title, url, tl, MinPick(order, PathDistances(labels, Unbracket(tl))).0)
              + [AddLabels(url, labels)]
  {
    EnumerationSize(order, labels);
    assert labels != {};
  }

  /** The closest path label, when one lies within 2, is a path label of minimum distance. */
  lemma ClosestPathLabel(labels: set<string>, order: seq<string>, u: string)
    requires IsEnumeration(order, labels)
    requires exists l :: l in labels && NameDistance(Unbracket(l), u) <= 2
    ensures var pick := MinPick(order, PathDistances(labels, u));
            pick.0 in labels && pick.1 == NameDistance(Unbracket(pick.0), u) && pick.1 <= 2
            && forall l' :: l' in labels ==> pick.1 <= NameDistance(Unbracket(l'), u)
  {
    var m := PathDistances(labels, u);
    MinPickIsMinimum(order, m);
    var l0 :| l0 in labels && m[l0] <= 2;
    assert l0 in order;
    var pick := MinPick(order, m);
    assert pick.0 in order && m[pick.0] == pick.1;
    forall l' | l' in labels
      ensures pick.1 <= m[l']
    {
      assert l' in order;
    }
  }

  const ActionabilityLabel: string := "Needs actionability review"

  /** `addNeedsActionabilityReviewLabel`: add the review label unless the issue has it. */
  function AddNeedsActionabilityReviewLabel(url: string, labels: seq<string>): (r: seq<Effect>)
    ensures r == [] <==> ActionabilityLabel in labels
    ensures r != [] ==> r == [AddLabels(url, {ActionabilityLabel})]
  {
    if ActionabilityLabel !in labels then [AddLabels(url, {ActionabilityLabel})] else []
  }
}
