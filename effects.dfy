/**
 * The outbound calls of the issue tracker client, recorded in order.  Every
 * network call of the core becomes one entry of an effect log; remote lookups
 * are inputs of the operations instead.
 */
module Effects {

  /** The value of one field in an issue edit (`issueEdit: [field: value]`). */
  datatype EditValue = Text(text: string) | Logins(logins: seq<string>)

  datatype Effect =
    | EditIssue(url: string, field: string, value: EditValue)
    | CreateComment(url: string, text: string)
    | AddLabels(url: string, labels: set<string>)

  /**
   * How a handler run ends: it finishes with its log, or it traps after
   * sending `log`.  Either way `log` is every call that went out.
   */
  datatype Run = Finished(log: seq<Effect>) | Trapped(log: seq<Effect>)

  /** `first`, then `next` unless `first` trapped: the calls add up and a trap ends the run. */
  function Then(first: Run, next: Run): (r: Run)
    ensures r.Trapped? <==> first.Trapped? || next.Trapped?
    ensures r.log == if first.Trapped? then first.log else first.log + next.log
  {
    if first.Trapped? then first
    else if next.Trapped? then Trapped(first.log + next.log)
    else Finished(first.log + next.log)
  }

  /** The deduplicated label collection `Array(Set(labels))`, as a set. */
  function Dedup(labels: seq<string>): (r: set<string>)
    ensures forall l :: l in r <==> l in labels
  {
    set l | l in labels
  }

  const NoPrefixComment: string := "The title doesn't have a [Component] prefix."
  const MultipleComponentsComment: string := "This PR affects multiple components."

  /**
   * The comment reporting a rename.  Its fixed text is written as two
   * literals because the verifier does not unfold a long literal into its
   * characters, and `CommentsDiffer` needs the first one.
   */
  function RenameComment(from: string, to: string): string {
    "Your title label prefix " + "has been renamed from " + from + " to " + to + "."
  }

  /** The comment reporting an automatic prefix (two literals, as above). */
  function PrefixedComment(lbl: string): string {
    "Based on the changes, " + "the title has been prefixed with " + lbl + "."
  }

  /** Effects that edit the title of the issue at `url`. */
  predicate IsTitleEdit(e: Effect) {
    e.EditIssue? && e.field == "title"
  }

  /** The multiple-components comment, when there is more than one path label. */
  function MultiComment(url: string, labels: set<string>): seq<Effect> {
    if |labels| > 1 then [CreateComment(url, MultipleComponentsComment)] else []
  }

  /** The comments the pull-request rule may post besides the multiple-components one. */
  lemma CommentsDiffer(a: string, b: string)
    ensures RenameComment(a, b) != MultipleComponentsComment
    ensures PrefixedComment(a) != MultipleComponentsComment
  {
    assert RenameComment(a, b)[0] == 'Y';
    assert PrefixedComment(a)[0] == 'B';
    assert MultipleComponentsComment[0] == 'T';
  }
}
