/**
 * Label and title reconciliation of the older revision (`PRLabelAnalysis`):
 * the component names, or the path labels, are scanned in order and the
 * scan stops at the first one that is the title label or is similar to it
 * (`checkIfTwoStringsAreSimilar` at threshold 2).  The rename step slices
 * the title label, not the title, at the offset just after the title's
 * first `]`; an offset beyond the label traps and is modelled as `None`.
 */
module PRLabelAnalysis {
  import opened Strings
  import opened Effects
  import opened TitleLabels
  import opened Similarity
  import opened DiffPaths

  /** Where a scan stopped: at nothing, at the title label itself, or at a similar entry. */
  datatype Hit = NoHit | Same | Close(name: string)

  /** The scan of `addAndFixLabelsForIssues` over the component names. */
  function FirstNameHit(names: seq<string>, u: string): Hit {
    if names == [] then NoHit
    else if u == names[0] then Same
    else if Similar(names[0], u, 2) then Close(names[0])
    else FirstNameHit(names[1..], u)
  }

  /** `name` stops the name scan. */
  predicate NameStops(name: string, u: string) {
    u == name || Similar(name, u, 2)
  }

  /**
   * The scan result is decided by the first name that stops it: `Same` when
   * that name is the unbracketed label, `Close` with that name when it is
   * only similar, `NoHit` when no name stops the scan.
   */
  lemma {:induction false} FirstNameHitSpec(names: seq<string>, u: string)
    ensures FirstNameHit(names, u) == NoHit <==> forall k :: 0 <= k < |names| ==> !NameStops(names[k], u)
    ensures FirstNameHit(names, u) != NoHit ==>
              exists k :: 0 <= k < |names| && NameStops(names[k], u)
                && (forall j :: 0 <= j < k ==> !NameStops(names[j], u))
                && FirstNameHit(names, u) == if u == names[k] then Same else Close(names[k])
  {
    if names != [] {
      var tail := names[1..];
      FirstNameHitSpec(tail, u);
      if !NameStops(names[0], u) {
        assert FirstNameHit(names, u) == FirstNameHit(tail, u);
        if FirstNameHit(tail, u) != NoHit {
          var k :| 0 <= k < |tail| && NameStops(tail[k], u)
                   && (forall j :: 0 <= j < k ==> !NameStops(tail[j], u))
                   && FirstNameHit(tail, u) == if u == tail[k] then Same else Close(tail[k]);
          assert names[k + 1] == tail[k];
          forall j | 0 <= j < k + 1
            ensures !NameStops(names[j], u)
          {
            if j > 0 {
              assert names[j] == tail[j - 1];
            }
          }
          assert 0 <= k + 1 < |names| && NameStops(names[k + 1], u)
                 && (forall j :: 0 <= j < k + 1 ==> !NameStops(names[j], u))
                 && FirstNameHit(names, u) == if u == names[k + 1] then Same else Close(names[k + 1]);
        } else {
          forall k | 0 <= k < |names|
            ensures !NameStops(names[k], u)
          {
            if k > 0 {
              assert names[k] == tail[k - 1];
            }
          }
        }
      }
    }
  }

  /**
   * The rename step as written: the text after the title's first `]` is
   * taken from the title label at the same offset.  `None` when the offset
   * lies beyond the label (the slice traps).
   */
  function RenameEffectsAsWritten(title: string, url: string, tl: string, newLabel: string): Option<seq<Effect>> {
    match IndexOf(title, ']')
    case None => Some([])
    case Some(p) =>
      if p + 1 > |tl| then None
      else Some([EditIssue(url, "title", Text(RenamedTitle(newLabel, tl[p + 1..]))),
                 CreateComment(url, RenameComment(tl, newLabel))])
  }

  /**
   * What `addAndFixLabelsForIssues` sends once the title label is known;
   * `None` is the trap of the rename step.
   */
  function IssueEffectsWith(titleLabel: Option<string>, title: string, url: string, names: seq<string>): Option<seq<Effect>> {
    match titleLabel
    case None => Some([CreateComment(url, NoPrefixComment)])
    case Some(tl) =>
      match FirstNameHit(names, Unbracket(tl))
      case NoHit => Some([CreateComment(url, NoPrefixComment)])
      case Same => Some([AddLabels(url, {tl})])
      case Close(name) =>
        var b := "[" + name + "]";
        match RenameEffectsAsWritten(title, url, tl, b)
        case None => None
        case Some(es) => Some(es + [AddLabels(url, {b})])
  }

  /** What `addAndFixLabelsForIssues` sends for an issue titled `title`. */
  function IssueEffects(title: string, url: string, names: seq<string>): Option<seq<Effect>> {
    IssueEffectsWith(GetTitleLabel(title), title, url, names)
  }

  /** The rename step of both rules, as written. */
  method RetitleAndNotify(title: string, url: string, tl: string, newLabel: string) returns (r: Option<seq<Effect>>)
    ensures r == RenameEffectsAsWritten(title, url, tl, newLabel)
  {
    var range := IndexOf(title, ']');
    if range.None? {
      return Some([]);
    }
    if range.value + 1 > |tl| {
      return None;
    }
    var titleWithoutLabel := tl[range.value + 1..];
    var updatedTitle := newLabel;
    if !(|titleWithoutLabel| > 0 && titleWithoutLabel[0] == ' ') {
      updatedTitle := updatedTitle + " " + titleWithoutLabel;
    } else {
      updatedTitle := updatedTitle + titleWithoutLabel;
    }
    assert updatedTitle == RenamedTitle(newLabel, titleWithoutLabel);
    r := Some([EditIssue(url, "title", Text(updatedTitle)), CreateComment(url, RenameComment(tl, newLabel))]);
  }

  /** `addAndFixLabelsForIssues`; `names` is the listing of `/components`. */
  method AddAndFixLabelsForIssues(title: string, url: string, names: seq<string>) returns (r: Option<seq<Effect>>)
    ensures r == IssueEffects(title, url, names)
  {
    var titleLabel := GetTitleLabel(title);
    r := FixIssueLabels(titleLabel, title, url, names);
  }

  /**
   * The loop of `addAndFixLabelsForIssues`: it visits the names in order
   * and breaks at the first that is the unbracketed label or is similar to it.
   */
  method ScanNames(names: seq<string>, u: string) returns (hit: Hit)
    ensures hit == FirstNameHit(names, u)
  {
    hit := NoHit;
    var i := 0;
    while i < |names|
      invariant 0 <= i <= |names|
      invariant FirstNameHit(names[i..], u) == FirstNameHit(names, u)
    {
      assert names[i..][1..] == names[i + 1..];
      var name := names[i];
      if u == name {
        hit := Same;
        break;
      }
      var similar := CheckIfTwoStringsAreSimilar(name, u, 2);
      if similar {
        hit := Close(name);
        break;
      }
      i := i + 1;
    }
    assert hit == NoHit ==> names[i..] == [];
  }

  /** The body of `addAndFixLabelsForIssues` once the title label is known. */
  method FixIssueLabels(titleLabel: Option<string>, title: string, url: string, names: seq<string>)
    returns (r: Option<seq<Effect>>)
    ensures r == IssueEffectsWith(titleLabel, title, url, names)
  {
    var log: seq<Effect> := [];
    var labelsToAdd: seq<string> := [];
    if titleLabel.Some? {
      var tl := titleLabel.value;
      var hit := ScanNames(names, Unbracket(tl));
      match hit
      case NoHit =>
      case Same =>
        labelsToAdd := [tl];
      case Close(name) =>
        var bracketedName := "[" + name + "]";
        labelsToAdd := [bracketedName];
        var renamed := RetitleAndNotify(title, url, tl, bracketedName);
        if renamed.None? {
          return None;
        }
        log := renamed.value;
    }
    if |labelsToAdd| > 0 {
      assert Dedup(labelsToAdd) == {labelsToAdd[0]};
      var add := AddLabels(url, Dedup(labelsToAdd));
      assert [] + [add] == [add];
      log := log + [add];
    } else {
      log := [CreateComment(url, NoPrefixComment)];
    }
    r := Some(log);
  }

  /**
   * Whenever nothing was staged the missing-prefix comment is posted, even
   * when the title has a label; otherwise the staged label is added last.
   */
  lemma IssueNothingStaged(title: string, url: string, names: seq<string>)
    requires IssueEffects(title, url, names).Some?
    ensures var log := IssueEffects(title, url, names).value;
            (log == [CreateComment(url, NoPrefixComment)]) <==>
              (GetTitleLabel(title).None? || FirstNameHit(names, Unbracket(GetTitleLabel(title).value)) == NoHit)
    ensures var log := IssueEffects(title, url, names).value;
            log != [CreateComment(url, NoPrefixComment)] ==> log != [] && log[|log| - 1].AddLabels?
  {
  }

  /**
   * The older issue rule on a title that opens with `[word]`: when the
   * name scan stops at `word` itself only that label is added; when it
   * stops at a similar name the title is renamed to that name's label as
   * written (the rest of the title is lost), the rename is commented on and
   * the new label is added.
   */
  lemma {:induction false} IssueHitOutcomes(word: string, rest: string, url: string, names: seq<string>)
    requires forall k :: 0 <= k < |word| ==> word[k] != ']' && !IsLineTerminator(word[k])
    ensures FirstNameHit(names, word) == Same ==>
              IssueEffects("[" + word + "]" + rest, url, names) == Some([AddLabels(url, {"[" + word + "]"})])
    ensures FirstNameHit(names, word).Close? ==>
              var b := "[" + FirstNameHit(names, word).name + "]";
              IssueEffects("[" + word + "]" + rest, url, names)
                == Some([EditIssue(url, "title", Text(b + " ")), CreateComment(url, RenameComment("[" + word + "]", b)),
                         AddLabels(url, {b})])
  {
    var tl := "[" + word + "]";
    var title := tl + rest;
    LeadingLabel(word, rest);
    assert Unbracket(tl) == word;
    assert IssueEffects(title, url, names) == IssueEffectsWith(Some(tl), title, url, names);
    match FirstNameHit(names, word)
    case NoHit =>
    case Same =>
      assert IssueEffectsWith(Some(tl), title, url, names) == Some([AddLabels(url, {tl})]);
    case Close(name) =>
      var b := "[" + name + "]";
      RenameDropsRestOfTitle(word, rest, url, b);
      var es := [EditIssue(url, "title", Text(b + " ")), CreateComment(url, RenameComment(tl, b))];
      assert RenameEffectsAsWritten(title, url, tl, b) == Some(es);
      assert IssueEffectsWith(Some(tl), title, url, names) == Some(es + [AddLabels(url, {b})]);
      assert es + [AddLabels(url, {b})]
          == [EditIssue(url, "title", Text(b + " ")), CreateComment(url, RenameComment(tl, b)), AddLabels(url, {b})];
  }

  /**
   * As written, renaming a title that starts with its label drops the rest
   * of the title: `[Buton] Fix crash` becomes `[Button] ` (followed by a
   * space) rather than `[Button] Fix crash`.
   */
  lemma {:induction false} RenameDropsRestOfTitle(word: string, rest: string, url: string, newLabel: string)
    requires forall k :: 0 <= k < |word| ==> word[k] != ']' && !IsLineTerminator(word[k])
    ensures RenameEffectsAsWritten("[" + word + "]" + rest, url, "[" + word + "]", newLabel) ==
              Some([EditIssue(url, "title", Text(newLabel + " ")),
                    CreateComment(url, RenameComment("[" + word + "]", newLabel))])
  {
    var t := "[" + word + "]" + rest;
    assert t[|word| + 1] == ']';
    assert forall k :: 0 <= k < |word| + 1 ==> t[k] != ']' by {
      assert forall k :: 1 <= k < |word| + 1 ==> t[k] == word[k - 1];
    }
    assert IndexOf(t, ']') == Some(|word| + 1);
    assert ("[" + word + "]")[|word| + 2..] == [];
    assert RenamedTitle(newLabel, []) == newLabel + " ";
  }

  /**
   * As written, the rename step traps whenever text without a `]` precedes
   * the title label on the title: the offset past the title's `]` then lies
   * beyond the end of the label.
   */
  lemma {:induction false} RenameTrapsAfterLeadingText(pre: string, word: string, rest: string, url: string, newLabel: string)
    requires ']' !in pre
    requires forall k :: 0 <= k < |word| ==> word[k] != ']'
    ensures RenameEffectsAsWritten(pre + "[" + word + "]" + rest, url, "[" + word + "]", newLabel).None? <==> pre != []
  {
    var t := pre + "[" + word + "]" + rest;
    var p := |pre| + |word| + 1;
    assert t[p] == ']';
    assert forall k :: 0 <= k < p ==> t[k] != ']' by {
      assert forall k :: 0 <= k < |pre| ==> t[k] == pre[k];
      assert forall k :: |pre| + 1 <= k < p ==> t[k] == word[k - |pre| - 1];
    }
    assert IndexOf(t, ']') == Some(p);
  }

  /** The scan of `addAndFixLabelsForPullRequests` over the path labels, in set order. */
  function FirstLabelHit(order: seq<string>, tl: string): Hit {
    if order == [] then NoHit
    else if order[0] == tl then Same
    else if Similar(Unbracket(order[0]), Unbracket(tl), 2) then Close(order[0])
    else FirstLabelHit(order[1..], tl)
  }

  /** `lbl` stops the path-label scan for the title label `tl`. */
  predicate LabelStops(lbl: string, tl: string) {
    lbl == tl || Similar(Unbracket(lbl), Unbracket(tl), 2)
  }

  /**
   * The scan result is decided by the first path label that stops it:
   * `Same` when that label is the title label, `Close` with that label when
   * it is only similar once both are unbracketed, `NoHit` when none stops it.
   */
  lemma {:induction false} FirstLabelHitSpec(order: seq<string>, tl: string)
    ensures FirstLabelHit(order, tl) == NoHit <==> forall k :: 0 <= k < |order| ==> !LabelStops(order[k], tl)
    ensures FirstLabelHit(order, tl) != NoHit ==>
              exists k :: 0 <= k < |order| && LabelStops(order[k], tl)
                && (forall j :: 0 <= j < k ==> !LabelStops(order[j], tl))
                && FirstLabelHit(order, tl) == if order[k] == tl then Same else Close(order[k])
  {
    if order != [] {
      var tail := order[1..];
      FirstLabelHitSpec(tail, tl);
      if !LabelStops(order[0], tl) {
        assert FirstLabelHit(order, tl) == FirstLabelHit(tail, tl);
        if FirstLabelHit(tail, tl) != NoHit {
          var k :| 0 <= k < |tail| && LabelStops(tail[k], tl)
                   && (forall j :: 0 <= j < k ==> !LabelStops(tail[j], tl))
                   && FirstLabelHit(tail, tl) == if tail[k] == tl then Same else Close(tail[k]);
          assert order[k + 1] == tail[k];
          forall j | 0 <= j < k + 1
            ensures !LabelStops(order[j], tl)
          {
            if j > 0 {
              assert order[j] == tail[j - 1];
            }
          }
          assert 0 <= k + 1 < |order| && LabelStops(order[k + 1], tl)
                 && (forall j :: 0 <= j < k + 1 ==> !LabelStops(order[j], tl))
                 && FirstLabelHit(order, tl) == if order[k + 1] == tl then Same else Close(order[k + 1]);
        } else {
          forall k | 0 <= k < |order|
            ensures !LabelStops(order[k], tl)
          {
            if k > 0 {
              assert order[k] == tail[k - 1];
            }
          }
        }
      }
    }
  }

  /**
   * The auto-prefixed title: the label, a space, the title, and a `.` when
   * the title has a last character other than `.`.
   */
  function AutoPrefixedTitle(lbl: string, title: string): (r: string)
    ensures |r| >= |lbl| + 1 + |title| && r[..|lbl| + 1] == lbl + " " && r[|lbl| + 1..|lbl| + 1 + |title|] == title
    ensures title != [] ==> r[|r| - 1] == '.'
    ensures title != [] && title[|title| - 1] == '.' ==> |r| == |lbl| + 1 + |title|
    ensures title == [] ==> r == lbl + " "
  {
    var updated := lbl + " " + title;
    if |title| > 0 && title[|title| - 1] != '.' then updated + "." else updated
  }

  /**
   * What `addAndFixLabelsForPullRequests` sends once the path labels and the
   * title label are known.  A trap of the rename step comes after the
   * multiple-components comment has gone out, so that comment is the log
   * of the trapped run.
   */
  function PullRequestEffectsWith(titleLabel: Option<string>, title: string, url: string, labels: set<string>,
                                  order: seq<string>): Run
    requires IsEnumeration(order, labels)
  {
    EnumerationSize(order, labels);
    var multi := MultiComment(url, labels);
    var add := if labels != {} then [AddLabels(url, labels)] else [];
    match titleLabel
    case Some(tl) =>
      (match FirstLabelHit(order, tl)
       case Close(l) =>
         (match RenameEffectsAsWritten(title, url, tl, l)
          case None => Trapped(multi)
          case Some(es) => Finished(multi + es + add))
       case _ => Finished(multi + add))
    case None =>
      if |labels| == 1 then
        Finished(multi + [EditIssue(url, "title", Text(AutoPrefixedTitle(order[0], title))),
                          CreateComment(url, PrefixedComment(order[0]))] + add)
      else Finished(multi + add)
  }

  /** What `addAndFixLabelsForPullRequests` sends once the path labels are known. */
  function PullRequestEffects(title: string, url: string, labels: set<string>, order: seq<string>): Run
    requires IsEnumeration(order, labels)
  {
    PullRequestEffectsWith(GetTitleLabel(title), title, url, labels, order)
  }

  /**
   * `addAndFixLabelsForPullRequests`; `diff` is the body of the diff
   * request (`None` when it threw).  A trap of the diff comes before any
   * call, a trap of the rename after the multiple-components comment.
   */
  method AddAndFixLabelsForPullRequests(title: string, url: string, diff: Option<string>, order: seq<string>)
    returns (r: Run)
    requires PathLabelSet(diff).Some? ==> IsEnumeration(order, PathLabelSet(diff).value)
    ensures PathLabelSet(diff).None? ==> r == Trapped([])
    ensures PathLabelSet(diff).Some? ==> r == PullRequestEffects(title, url, PathLabelSet(diff).value, order)
  {
    var paths := GetFilePaths(diff);
    if paths.None? {
      return Trapped([]);
    }
    var labels := GrabLabelsFromPaths(paths.value);
    if labels.None? {
      return Trapped([]);
    }
    var labelsFromPaths := Dedup(labels.value);
    var titleLabel := GetTitleLabel(title);
    r := FixPullRequestLabels(titleLabel, title, url, labelsFromPaths, order);
  }

  /**
   * The loop of `addAndFixLabelsForPullRequests`: it visits the labels in
   * set order and breaks at the title label or at the first label similar to it.
   */
  method ScanLabels(order: seq<string>, tl: string) returns (hit: Hit)
    ensures hit == FirstLabelHit(order, tl)
  {
    hit := NoHit;
    var i := 0;
    while i < |order|
      invariant 0 <= i <= |order|
      invariant FirstLabelHit(order[i..], tl) == FirstLabelHit(order, tl)
    {
      assert order[i..][1..] == order[i + 1..];
      var lbl := order[i];
      if lbl == tl {
        hit := Same;
        break;
      }
      var similar := CheckIfTwoStringsAreSimilar(Unbracket(lbl), Unbracket(tl), 2);
      if similar {
        hit := Close(lbl);
        break;
      }
      i := i + 1;
    }
    assert hit == NoHit ==> order[i..] == [];
  }

  /** The body of `addAndFixLabelsForPullRequests` once the labels are known. */
  method FixPullRequestLabels(titleLabel: Option<string>, title: string, url: string, labelsFromPaths: set<string>,
                              order: seq<string>) returns (r: Run)
    requires IsEnumeration(order, labelsFromPaths)
    ensures r == PullRequestEffectsWith(titleLabel, title, url, labelsFromPaths, order)
  {
    EnumerationSize(order, labelsFromPaths);
    assert Dedup(order) == labelsFromPaths;
    var multi: seq<Effect> := [];
    if |labelsFromPaths| > 1 {
      multi := [CreateComment(url, MultipleComponentsComment)];
    }
    var labelsToAdd: seq<string> := order;
    var fix: seq<Effect> := [];
    if titleLabel.Some? {
      var tl := titleLabel.value;
      var hit := ScanLabels(order, tl);
      if hit.Close? {
        var renamed := RetitleAndNotify(title, url, tl, hit.name);
        if renamed.None? {
          return Trapped(multi);
        }
        fix := renamed.value;
      }
    } else if |labelsFromPaths| == 1 {
      var lbl := order[0];
      var updatedTitle := lbl + " " + title;
      if |title| > 0 && title[|title| - 1] != '.' {
        updatedTitle := updatedTitle + ".";
      }
      fix := [EditIssue(url, "title", Text(updatedTitle)), CreateComment(url, PrefixedComment(lbl))];
    }
    var add: seq<Effect> := [];
    if |labelsToAdd| > 0 {
      add := [AddLabels(url, Dedup(labelsToAdd))];
    }
    assert fix == [] ==> multi + fix + add == multi + add;
    r := Finished(multi + fix + add);
  }

  /**
   * The multiple-components comment is posted exactly when there is more
   * than one distinct path label, whether or not the run traps later; a
   * finished run adds exactly the path labels, last, whenever there is one.
   */
  lemma PullRequestCommentAndLabels(titleLabel: Option<string>, title: string, url: string, labels: set<string>,
                                    order: seq<string>)
    requires IsEnumeration(order, labels)
    ensures var log := PullRequestEffectsWith(titleLabel, title, url, labels, order).log;
            CreateComment(url, MultipleComponentsComment) in log <==> |labels| > 1
    ensures var run := PullRequestEffectsWith(titleLabel, title, url, labels, order);
            run.Finished? && labels != {} ==> run.log != [] && run.log[|run.log| - 1] == AddLabels(url, labels)
    ensures var log := PullRequestEffectsWith(titleLabel, title, url, labels, order).log;
            labels == {} ==> forall e :: e in log ==> !e.AddLabels?
  {
    EnumerationSize(order, labels);
    forall a, b {
      CommentsDiffer(a, b);
    }
  }

  /**
   * The rule traps exactly when a similar path label is found and the
   * as-written rename step traps; the comment about multiple components
   * sent before it is then all the trapped run has sent.
   */
  lemma PullRequestTrapKeepsComment(titleLabel: Option<string>, title: string, url: string, labels: set<string>,
                                    order: seq<string>)
    requires IsEnumeration(order, labels)
    ensures PullRequestEffectsWith(titleLabel, title, url, labels, order).Trapped? <==>
              titleLabel.Some? && FirstLabelHit(order, titleLabel.value).Close?
              && RenameEffectsAsWritten(title, url, titleLabel.value, FirstLabelHit(order, titleLabel.value).name).None?
    ensures PullRequestEffectsWith(titleLabel, title, url, labels, order).Trapped? ==>
              PullRequestEffectsWith(titleLabel, title, url, labels, order).log
                == if |labels| > 1 then [CreateComment(url, MultipleComponentsComment)] else []
  {
  }

  /**
   * A title without a label, on a change to a single component, is prefixed
   * with that component's label (and a final `.`).
   */
  lemma PullRequestAutoPrefix(title: string, url: string, x: string, order: seq<string>)
    requires IsEnumeration(order, {x})
    requires GetTitleLabel(title).None?
    ensures PullRequestEffects(title, url, {x}, order) ==
              Finished([EditIssue(url, "title", Text(AutoPrefixedTitle(x, title))), CreateComment(url, PrefixedComment(x)),
                    AddLabels(url, {x})])
  {
    EnumerationSize(order, {x});
    assert order[0] in {x};
    var edit := [EditIssue(url, "title", Text(AutoPrefixedTitle(x, title))), CreateComment(url, PrefixedComment(x))];
    assert MultiComment(url, {x}) == [];
    assert [] + edit + [AddLabels(url, {x})] == edit + [AddLabels(url, {x})];
    assert edit + [AddLabels(url, {x})] ==
             [EditIssue(url, "title", Text(AutoPrefixedTitle(x, title))), CreateComment(url, PrefixedComment(x)),
              AddLabels(url, {x})];
  }
}
