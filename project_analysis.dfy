/**
 * Project-board rules: the issue edits made when a card moves between the
 * columns `Backlog`, `In progress` and `Done`, and the sprint-name gate of a
 * closed project.  Column names are looked up in a map of column ids; the
 * edits are the returned effect log.
 */
module ProjectAnalysis {
  import opened Strings
  import opened Effects

  const Backlog: string := "Backlog"
  const InProgress: string := "In progress"
  const Done: string := "Done"

  function AssignEdit(url: string, sender: string): Effect {
    EditIssue(url, "assignees", Logins([sender]))
  }

  function CloseEdit(url: string): Effect {
    EditIssue(url, "state", Text("closed"))
  }

  function ReopenEdit(url: string): Effect {
    EditIssue(url, "state", Text("open"))
  }

  /** A move out of the backlog into work or done, by a known sender: assign the sender. */
  predicate Assigns(fromName: string, toName: string, sender: Option<string>) {
    sender.Some? && fromName == Backlog && (toName == InProgress || toName == Done)
  }

  /** A move into `Done`: close the issue. */
  predicate Closes(toName: string) {
    toName == Done
  }

  /** A move out of `Done` back into the backlog or into work: reopen the issue. */
  predicate Reopens(fromName: string, toName: string) {
    fromName == Done && (toName == Backlog || toName == InProgress)
  }

  /** The edits of `didMoveCard` once both column names and the content URL are known. */
  function MoveEdits(fromName: string, toName: string, url: string, sender: Option<string>): seq<Effect> {
    (if Assigns(fromName, toName, sender) then [AssignEdit(url, sender.value)] else [])
    + (if Closes(toName) then [CloseEdit(url)] else [])
    + (if Reopens(fromName, toName) then [ReopenEdit(url)] else [])
  }

  /**
   * What `didMoveCard` edits: nothing unless both column ids are present
   * and both names are found, and nothing for a card without content.
   */
  function CardMoveEffects(fromColumn: Option<int>, toColumn: Option<int>, columnNames: map<int, string>,
                           contentUrl: Option<string>, sender: Option<string>): seq<Effect>
  {
    if fromColumn.None? || toColumn.None? then []
    else if fromColumn.value !in columnNames || toColumn.value !in columnNames then []
    else if contentUrl.None? then []
    else MoveEdits(columnNames[fromColumn.value], columnNames[toColumn.value], contentUrl.value, sender)
  }

  /**
   * `didMoveCard`: `fromColumn` is the moved-from column id of the change,
   * `toColumn` the card's column id, `columnNames` the column-name lookup,
   * `contentUrl` the card's issue URL and `sender` the login of the mover.
   */
  method DidMoveCard(fromColumn: Option<int>, toColumn: Option<int>, columnNames: map<int, string>,
                     contentUrl: Option<string>, sender: Option<string>) returns (log: seq<Effect>)
    ensures log == CardMoveEffects(fromColumn, toColumn, columnNames, contentUrl, sender)
  {
    log := [];
    if fromColumn.None? || toColumn.None? || fromColumn.value !in columnNames || toColumn.value !in columnNames {
      return;
    }
    var fromColumnName := columnNames[fromColumn.value];
    var toColumnName := columnNames[toColumn.value];
    if contentUrl.None? {
      return;
    }
    var url := contentUrl.value;
    if sender.Some? && fromColumnName == Backlog && (toColumnName == InProgress || toColumnName == Done) {
      log := log + [AssignEdit(url, sender.value)];
    }
    if toColumnName == Done {
      log := log + [CloseEdit(url)];
    }
    if fromColumnName == Done && (toColumnName == Backlog || toColumnName == InProgress) {
      log := log + [ReopenEdit(url)];
    }
  }

  /** A missing column id or column name, or a card without content, edits nothing. */
  lemma MoveGuards(fromColumn: Option<int>, toColumn: Option<int>, columnNames: map<int, string>,
                   contentUrl: Option<string>, sender: Option<string>)
    ensures fromColumn.None? || toColumn.None? || contentUrl.None? ==>
              CardMoveEffects(fromColumn, toColumn, columnNames, contentUrl, sender) == []
    ensures fromColumn.Some? && fromColumn.value !in columnNames ==>
              CardMoveEffects(fromColumn, toColumn, columnNames, contentUrl, sender) == []
    ensures toColumn.Some? && toColumn.value !in columnNames ==>
              CardMoveEffects(fromColumn, toColumn, columnNames, contentUrl, sender) == []
  {
  }

  /** The position of an edit in the fixed order assign, close, reopen. */
  function Rank(e: Effect): int {
    if e.EditIssue? && e.field == "assignees" then 0
    else if e.EditIssue? && e.value == Text("closed") then 1
    else 2
  }

  /**
   * Each rule contributes its edit exactly when its condition holds; the
   * edits come in the order assign, close, reopen; close and reopen never
   * come together, so there are at most two edits.
   */
  lemma {:induction false} MoveEditsRules(fromName: string, toName: string, url: string, sender: Option<string>)
    ensures sender.Some? ==> (AssignEdit(url, sender.value) in MoveEdits(fromName, toName, url, sender)
                              <==> Assigns(fromName, toName, sender))
    ensures CloseEdit(url) in MoveEdits(fromName, toName, url, sender) <==> Closes(toName)
    ensures ReopenEdit(url) in MoveEdits(fromName, toName, url, sender) <==> Reopens(fromName, toName)
    ensures !(CloseEdit(url) in MoveEdits(fromName, toName, url, sender)
              && ReopenEdit(url) in MoveEdits(fromName, toName, url, sender))
    ensures |MoveEdits(fromName, toName, url, sender)| <= 2
    ensures forall i, j :: 0 <= i < j < |MoveEdits(fromName, toName, url, sender)| ==>
              Rank(MoveEdits(fromName, toName, url, sender)[i]) < Rank(MoveEdits(fromName, toName, url, sender)[j])
  {
    var log := MoveEdits(fromName, toName, url, sender);
    assert "closed" != "open" by {
      assert |"closed"| != |"open"|;
    }
    assert "state" != "assignees" by {
      assert |"state"| != |"assignees"|;
    }
    assert Text("closed") != Text("open");
    assert forall e :: e in log ==> e == CloseEdit(url) || e == ReopenEdit(url) || (sender.Some? && e == AssignEdit(url, sender.value));
    assert Rank(CloseEdit(url)) == 1 && Rank(ReopenEdit(url)) == 2;
    if sender.Some? {
      assert Rank(AssignEdit(url, sender.value)) == 0;
    }
  }

  /** A card moved from the backlog straight to done by a known sender: assign, then close. */
  lemma BacklogToDone(url: string, s: string)
    ensures MoveEdits(Backlog, Done, url, Some(s)) == [AssignEdit(url, s), CloseEdit(url)]
  {
    assert Backlog != Done by {
      assert |Backlog| != |Done|;
    }
  }

  predicate IsDigit(c: char) {
    '0' <= c <= '9'
  }

  /** `\d{4}-\d{2}-\d{2}`: ten characters, dashes at 4 and 7, digits elsewhere. */
  predicate IsDate(d: string) {
    |d| == 10 && d[4] == '-' && d[7] == '-'
    && forall i :: 0 <= i < 10 && i != 4 && i != 7 ==> IsDigit(d[i])
  }

  /** `\d{4}-\d{2}-\d{2} - \d{4}-\d{2}-\d{2}`. */
  predicate IsDateRange(p: string) {
    |p| == 23 && IsDate(p[..10]) && p[10..13] == " - " && IsDate(p[13..])
  }

  /**
   * A name matching `^…$` with the date-range pattern: `^` anchors at the
   * start, and `$` matches at the end or before one final line terminator
   * (a final CR LF counts as one).
   */
  predicate SprintNameMatches(name: string) {
    IsDateRange(name)
    || (|name| == 24 && IsDateRange(name[..23]) && IsLineTerminator(name[23]))
    || (|name| == 25 && IsDateRange(name[..23]) && name[23..] == "\r\n")
  }

  /**
   * `s.components(separatedBy: sep)`: the pieces between the leftmost,
   * non-overlapping occurrences of `sep`; there is always at least one piece.
   */
  function Components(s: string, sep: string): (r: seq<string>)
    requires sep != []
    ensures |r| >= 1
    decreases |s|
  {
    if StartsWith(s, sep) then [[]] + Components(s[|sep|..], sep)
    else if s == [] then [[]]
    else
      var rest := Components(s[1..], sep);
      [[s[0]] + rest[0]] + rest[1..]
  }

  /** A string in which the separator's first character does not occur is one piece. */
  lemma {:induction false} ComponentsWhole(a: string, sep: string)
    requires sep != [] && sep[0] !in a
    ensures Components(a, sep) == [a]
    decreases |a|
  {
    if a != [] {
      assert a[0] != sep[0];
      ComponentsWhole(a[1..], sep);
      assert [a[0]] + a[1..] == a;
    }
  }

  /** A piece without the separator's first character, then the separator, is split off. */
  lemma {:induction false} ComponentsCut(a: string, sep: string, b: string)
    requires sep != [] && sep[0] !in a
    ensures Components(a + sep + b, sep) == [a] + Components(b, sep)
    decreases |a|
  {
    var s := a + sep + b;
    if a == [] {
      assert s == sep + b;
      assert StartsWith(s, sep);
      assert s[|sep|..] == b;
    } else {
      assert s[0] == a[0] && a[0] != sep[0];
      assert !StartsWith(s, sep);
      assert s[1..] == a[1..] + sep + b;
      ComponentsCut(a[1..], sep, b);
      assert [a[0]] + a[1..] == a;
    }
  }

  /**
   * The end date `didCloseProject` extracts: the last `" - "` piece of a
   * matching name; `None` when there is no name or the name does not match.
   */
  function SprintEndDate(projectName: Option<string>): Option<string> {
    if projectName.None? || !SprintNameMatches(projectName.value) then None
    else
      var pieces := Components(projectName.value, " - ");
      Some(pieces[|pieces| - 1])
  }

  /** A date-range name yields its second date, e.g. `2018-06-18` from `2018-06-05 - 2018-06-18`. */
  lemma {:induction false} DateRangeEndDate(d1: string, d2: string)
    requires IsDate(d1) && IsDate(d2)
    ensures SprintEndDate(Some(d1 + " - " + d2)) == Some(d2)
  {
    var name := d1 + " - " + d2;
    assert name[..10] == d1 && name[10..13] == " - " && name[13..] == d2;
    assert IsDateRange(name);
    assert ' ' !in d1 by {
      assert forall i :: 0 <= i < 10 ==> d1[i] != ' ';
    }
    assert ' ' !in d2 by {
      assert forall i :: 0 <= i < 10 ==> d2[i] != ' ';
    }
    ComponentsCut(d1, " - ", d2);
    ComponentsWhole(d2, " - ");
  }

  /** Names that are not date ranges, such as `Sprint 12`, are rejected. */
  lemma OtherNamesRejected()
    ensures SprintEndDate(Some("Sprint 12")) == None
    ensures SprintEndDate(None) == None
  {
  }

  /**
   * `didCloseProject`: the name gate and the end date; the date block that
   * follows is empty, so no effect is ever issued.
   */
  method DidCloseProject(projectName: Option<string>) returns (log: seq<Effect>, endDate: Option<string>)
    ensures log == []
    ensures endDate == SprintEndDate(projectName)
  {
    log := [];
    if projectName.None? {
      return log, None;
    }
    var name := projectName.value;
    if !SprintNameMatches(name) {
      return log, None;
    }
    var pieces := Components(name, " - ");
    endDate := Some(pieces[|pieces| - 1]);
  }
}
