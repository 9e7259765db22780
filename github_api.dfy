/**
 * The GitHub REST calls of `GithubAPI`: posting labels to an issue, with a
 * re-invocation after a successful credential refresh, the bulk pass that
 * labels every listed issue, and the API request headers.  Each invocation's
 * exchange with the server is an input (`Reply`); the requests made and the
 * label calls issued form the returned log.
 */
module Api {
  import opened Strings
  import opened Effects
  import opened Auth
  import TitleLabels
  import DiffPaths

  const GithubBaseURL: string := "https://api.github.com"
  const IssuesPath: string := "/repos/yarneo/material-components-ios/issues"
  const AllStates: string := "?state=all"

  /** The endpoint `addLabelsToIssue` posts to: the issue URL followed by `/labels`. */
  function LabelsURL(url: string): (r: string)
    ensures StartsWith(r, url) && r[|url|..] == "/labels"
  {
    var r := url + "/labels";
    assert r[..|url|] == url;
    r
  }

  /** The listing `setLabelsForAllIssues` fetches: every issue, open or closed, of the repository. */
  function IssuesListURL(): (r: string)
    ensures StartsWith(r, GithubBaseURL)
    ensures r[|GithubBaseURL|..] == IssuesPath + AllStates
  {
    var r := GithubBaseURL + IssuesPath + AllStates;
    assert r[..|GithubBaseURL|] == GithubBaseURL;
    assert r[|GithubBaseURL|..] == IssuesPath + AllStates;
    r
  }

  /** A label post: its endpoint, the labels and the `Authorization` header it carries. */
  datatype Request = Post(url: string, labels: set<string>, authorization: string)

  /**
   * One invocation's exchange: `perform()` throws, or a response with its
   * status code, the refreshes a 401 or 403 would run, and its body.
   */
  datatype Reply<B> = Threw | Replied(code: int, refresh: seq<Attempt>, body: B)

  predicate WellFormed<B>(xs: seq<Reply<B>>) {
    forall k :: 0 <= k < |xs| && xs[k].Replied? ==> |xs[k].refresh| == RefreshAttempts
  }

  lemma WellFormedTail<B>(xs: seq<Reply<B>>)
    requires xs != [] && WellFormed(xs)
    ensures WellFormed(xs[1..])
  {
    assert forall k :: 0 <= k < |xs| - 1 ==> xs[1..][k] == xs[k + 1];
  }

  /** The response was unauthorized and a refresh succeeded: the call is made again. */
  predicate Retried<B>(x: Reply<B>)
    requires x.Replied? ==> |x.refresh| == RefreshAttempts
  {
    x.Replied? && RetryOutcome(x.code, x.refresh).refreshed
  }

  function AfterReply<B>(t: Tokens, x: Reply<B>): Tokens
    requires x.Replied? ==> |x.refresh| == RefreshAttempts
  {
    if x.Threw? then t else RetryTokens(t, x.code, x.refresh)
  }

  /** The credentials after a chain of invocations, each re-invoking the next after a refresh. */
  function ChainTokens<B>(t: Tokens, xs: seq<Reply<B>>): Tokens
    requires WellFormed(xs)
    decreases |xs|
  {
    if xs == [] then t
    else
      var t1 := AfterReply(t, xs[0]);
      if Retried(xs[0]) then WellFormedTail(xs); ChainTokens(t1, xs[1..]) else t1
  }

  /**
   * The posts of `addLabelsToIssue`: one per invocation, and another
   * invocation after each successful refresh.  When `xs` runs out the
   * request is taken to throw.
   */
  function LabelPosts(url: string, labels: set<string>, t: Tokens, xs: seq<Reply<string>>): seq<Request>
    requires WellFormed(xs)
    decreases |xs|
  {
    var post := Post(LabelsURL(url), labels, "token " + t.access);
    if xs == [] || !Retried(xs[0]) then [post]
    else WellFormedTail(xs); [post] + LabelPosts(url, labels, AfterReply(t, xs[0]), xs[1..])
  }

  /**
   * Every post goes to the labels endpoint with the same labels; there is a
   * second post exactly when the first response led to a successful
   * refresh; a re-posted request never carries an empty access token.
   */
  lemma {:induction false} LabelPostsSpec(url: string, labels: set<string>, t: Tokens, xs: seq<Reply<string>>)
    requires WellFormed(xs)
    ensures |LabelPosts(url, labels, t, xs)| >= 1
    ensures LabelPosts(url, labels, t, xs)[0].authorization == "token " + t.access
    ensures |LabelPosts(url, labels, t, xs)| > 1 <==> xs != [] && Retried(xs[0])
    ensures |LabelPosts(url, labels, t, xs)| <= |xs| + 1
    ensures forall k :: 0 <= k < |LabelPosts(url, labels, t, xs)| ==>
              LabelPosts(url, labels, t, xs)[k].url == LabelsURL(url) && LabelPosts(url, labels, t, xs)[k].labels == labels
    ensures forall k :: 1 <= k < |LabelPosts(url, labels, t, xs)| ==>
              LabelPosts(url, labels, t, xs)[k].authorization != "token "
    decreases |xs|
  {
    if xs != [] && Retried(xs[0]) {
      WellFormedTail(xs);
      var t1 := AfterReply(t, xs[0]);
      RefreshedHasAccessToken(t, xs[0].code, xs[0].refresh);
      assert t1.access != "";
      assert "token " + t1.access != "token " by {
        assert |"token " + t1.access| > |"token "|;
      }
      LabelPostsSpec(url, labels, t1, xs[1..]);
    }
  }

  /** `githubAPIHTTPHeaders`: three headers, the token being the installation access token. */
  method GithubAPIHTTPHeaders(auth: GithubAuth) returns (headers: map<string, string>)
    ensures headers.Keys == {"Authorization", "Accept", "User-Agent"}
    ensures |headers| == 3
    ensures headers["Authorization"] == "token " + auth.accessToken
    ensures headers["Accept"] == MachineManPreview
    ensures headers["User-Agent"] == "Material CI App"
  {
    headers := map[];
    headers := headers["Authorization" := "token " + auth.accessToken];
    headers := headers["Accept" := MachineManPreview];
    headers := headers["User-Agent" := "Material CI App"];
  }

  /**
   * `addLabelsToIssue`: `xs[0]` is this invocation's exchange and `xs[1..]`
   * those of the invocations it makes again after a refresh.
   */
  method AddLabelsToIssue(auth: GithubAuth, url: string, labels: set<string>, xs: seq<Reply<string>>)
    returns (posts: seq<Request>)
    requires WellFormed(xs)
    modifies auth
    ensures posts == LabelPosts(url, labels, old(auth.Current()), xs)
    ensures auth.Current() == ChainTokens(old(auth.Current()), xs)
    decreases |xs|
  {
    var labelsURL := url + "/labels";
    var headers := GithubAPIHTTPHeaders(auth);
    posts := [Post(labelsURL, labels, headers["Authorization"])];
    if xs == [] {
      return;
    }
    match xs[0]
    case Threw =>
    case Replied(code, refresh, _) =>
      var refreshed, _ := auth.RefreshCredentialsIfUnauthorized(code, refresh);
      if refreshed {
        WellFormedTail(xs);
        var again := AddLabelsToIssue(auth, url, labels, xs[1..]);
        posts := posts + again;
      }
  }

  /** The fields of a listed issue that `createIssueData` reads. */
  datatype IssueInfo = IssueInfo(title: string, url: string)

  /** A `pull_request` object: its `diff_url` and the diff fetched from it (`None` when the fetch throws). */
  datatype PullRequestRef = PullRequestRef(diffUrl: Option<string>, diff: Option<string>)

  /** One element of the listing: `info` is `None` when `createIssueData` fails. */
  datatype ListedIssue = ListedIssue(info: Option<IssueInfo>, pullRequest: Option<PullRequestRef>)

  /** The issue is a pull request with a non-empty `diff_url`. */
  predicate HasDiff(issue: ListedIssue) {
    issue.pullRequest.Some? && issue.pullRequest.value.diffUrl.Some? && |issue.pullRequest.value.diffUrl.value| > 0
  }

  function TitleLabelList(title: string): seq<string> {
    match TitleLabels.GetTitleLabel(title)
    case None => []
    case Some(l) => [l]
  }

  /** The labels staged for one issue: its title label, then its path labels; `None` on a trap. */
  function StagedLabels(issue: ListedIssue): Option<seq<string>>
    requires issue.info.Some?
  {
    var title := TitleLabelList(issue.info.value.title);
    if !HasDiff(issue) then Some(title)
    else
      var diff := issue.pullRequest.value.diff;
      var paths := if diff.None? then Some([]) else DiffPaths.PathsOfLines(Split(diff.value, '\n'));
      match paths
      case None => None
      case Some(ps) =>
        match DiffPaths.LabelsOfPaths(ps)
        case None => None
        case Some(ls) => Some(title + ls)
  }

  /**
   * A staged label is the title label or a label of a path the diff
   * touches, and path labels are looked at only for a pull request with a
   * non-empty diff URL; a trap comes only from the diff.
   */
  lemma StagedLabelsSpec(issue: ListedIssue)
    requires issue.info.Some?
    ensures StagedLabels(issue).None? <==> HasDiff(issue) && DiffPaths.PathLabelSet(issue.pullRequest.value.diff).None?
    ensures StagedLabels(issue).Some? ==> forall l :: l in StagedLabels(issue).value <==>
              TitleLabels.GetTitleLabel(issue.info.value.title) == Some(l)
              || (HasDiff(issue) && l in DiffPaths.PathLabelSet(issue.pullRequest.value.diff).value)
  {
  }

  /** The label call of one listed issue, made only when something is staged. */
  function IssueLabelCall(issue: ListedIssue): Option<seq<Effect>> {
    if issue.info.None? then Some([])
    else match StagedLabels(issue)
      case None => None
      case Some(ls) => Some(if |ls| > 0 then [AddLabels(issue.info.value.url, set l | l in ls)] else [])
  }

  /**
   * A call is made for an issue exactly when its staged list is non-empty,
   * with the staged labels stripped of duplicates; a listing entry without
   * issue data is skipped.
   */
  lemma IssueLabelCallSpec(issue: ListedIssue)
    ensures issue.info.None? ==> IssueLabelCall(issue) == Some([])
    ensures issue.info.Some? ==> (IssueLabelCall(issue).None? <==> StagedLabels(issue).None?)
    ensures issue.info.Some? && StagedLabels(issue).Some? ==>
              (IssueLabelCall(issue) == Some([]) <==> StagedLabels(issue).value == [])
    ensures issue.info.Some? && StagedLabels(issue).Some? && StagedLabels(issue).value != [] ==>
              |IssueLabelCall(issue).value| == 1
              && IssueLabelCall(issue).value[0].AddLabels?
              && IssueLabelCall(issue).value[0].url == issue.info.value.url
              && forall l :: l in IssueLabelCall(issue).value[0].labels <==> l in StagedLabels(issue).value
  {
  }

  /** An issue that is not a pull request is labelled with its title label alone, if it has one. */
  lemma PlainIssueTitleOnly(title: string, url: string)
    ensures IssueLabelCall(ListedIssue(Some(IssueInfo(title, url)), None))
         == Some(match TitleLabels.GetTitleLabel(title)
                 case None => []
                 case Some(l) => [AddLabels(url, {l})])
  {
    var issue := ListedIssue(Some(IssueInfo(title, url)), None);
    match TitleLabels.GetTitleLabel(title)
    case None =>
    case Some(l) =>
      assert StagedLabels(issue) == Some([l]);
      assert (set x | x in [l]) == {l};
  }

  /**
   * The label calls for the listed issues, in listing order.  A trap while
   * staging an issue ends the run; the calls made for the issues before it
   * have gone out and stay in the log.
   */
  function ListedEffects(issues: seq<ListedIssue>): Run {
    if issues == [] then Finished([])
    else
      var prev := ListedEffects(issues[..|issues| - 1]);
      if prev.Trapped? then prev
      else
        match IssueLabelCall(issues[|issues| - 1])
        case None => Trapped(prev.log)
        case Some(e) => Finished(prev.log + e)
  }

  /**
   * At most one call per listed issue, each adding a non-empty set of
   * labels to the URL of one of the listed issues, whether or not the run
   * traps.
   */
  lemma {:induction false} ListedEffectsSpec(issues: seq<ListedIssue>)
    ensures |ListedEffects(issues).log| <= |issues|
    ensures forall e :: e in ListedEffects(issues).log ==>
              e.AddLabels? && e.labels != {}
              && exists k :: 0 <= k < |issues| && issues[k].info.Some? && e.url == issues[k].info.value.url
  {
    if issues != [] {
      var init, last := issues[..|issues| - 1], issues[|issues| - 1];
      ListedEffectsSpec(init);
      var es := ListedEffects(init).log;
      if ListedEffects(init).Finished? && IssueLabelCall(last).Some? {
        var e := IssueLabelCall(last).value;
        IssueLabelCallSpec(last);
        forall x: Effect | x in es + e
          ensures x.AddLabels? && x.labels != {}
          ensures exists k :: 0 <= k < |issues| && issues[k].info.Some? && x.url == issues[k].info.value.url
        {
          if x in es {
            var k :| 0 <= k < |init| && init[k].info.Some? && x.url == init[k].info.value.url;
            assert issues[k] == init[k];
          } else {
            assert x == e[0];
            assert StagedLabels(last).value[0] in x.labels;
            assert issues[|issues| - 1] == last;
          }
        }
      } else {
        forall x: Effect | x in es
          ensures exists k :: 0 <= k < |issues| && issues[k].info.Some? && x.url == issues[k].info.value.url
        {
          var k :| 0 <= k < |init| && init[k].info.Some? && x.url == init[k].info.value.url;
          assert issues[k] == init[k];
        }
      }
    }
  }

  /**
   * The run traps exactly when staging some listed issue traps; it then
   * holds exactly the calls made for the issues before the first such one.
   */
  lemma {:induction false} ListedTrapPoint(issues: seq<ListedIssue>)
    ensures ListedEffects(issues).Trapped? <==> exists i :: 0 <= i < |issues| && IssueLabelCall(issues[i]).None?
    ensures ListedEffects(issues).Trapped? ==>
              exists i :: 0 <= i < |issues| && IssueLabelCall(issues[i]).None?
                && ListedEffects(issues[..i]) == Finished(ListedEffects(issues).log)
  {
    if issues != [] {
      var init, last := issues[..|issues| - 1], issues[|issues| - 1];
      ListedTrapPoint(init);
      assert forall i :: 0 <= i < |init| ==> init[i] == issues[i];
      assert issues[..|issues| - 1] == init;
      if ListedEffects(init).Trapped? {
        var i :| 0 <= i < |init| && IssueLabelCall(init[i]).None?
                 && ListedEffects(init[..i]) == Finished(ListedEffects(init).log);
        assert init[..i] == issues[..i];
      } else if IssueLabelCall(last).None? {
        assert IssueLabelCall(issues[|issues| - 1]).None?;
      } else {
        forall i | 0 <= i < |issues|
          ensures IssueLabelCall(issues[i]).Some?
        {
          if i < |init| {
            assert issues[i] == init[i];
          }
        }
      }
    }
  }

  /** Once the first `i` issues have trapped, the whole listing's run is that run. */
  lemma {:induction false} ListedTrapSticks(issues: seq<ListedIssue>, i: nat)
    requires i <= |issues| && ListedEffects(issues[..i]).Trapped?
    ensures ListedEffects(issues) == ListedEffects(issues[..i])
    decreases |issues|
  {
    if i == |issues| {
      assert issues[..i] == issues;
    } else {
      var init := issues[..|issues| - 1];
      assert init[..i] == issues[..i];
      ListedTrapSticks(init, i);
    }
  }

  /** The labels staged for one issue, as the loop body of `setLabelsForAllIssues` builds them. */
  method StageIssue(issue: ListedIssue) returns (staged: Option<seq<string>>)
    requires issue.info.Some?
    ensures staged == StagedLabels(issue)
  {
    var labelsToAdd: seq<string> := [];
    var titleLabel := TitleLabels.GetTitleLabel(issue.info.value.title);
    if titleLabel.Some? {
      labelsToAdd := labelsToAdd + [titleLabel.value];
    }
    assert labelsToAdd == TitleLabelList(issue.info.value.title);
    if issue.pullRequest.Some? {
      var pr := issue.pullRequest.value;
      if pr.diffUrl.Some? && |pr.diffUrl.value| > 0 {
        var paths := DiffPaths.GetFilePaths(pr.diff);
        if paths.None? {
          return None;
        }
        var labels := DiffPaths.GrabLabelsFromPaths(paths.value);
        if labels.None? {
          return None;
        }
        labelsToAdd := labelsToAdd + labels.value;
      }
    }
    return Some(labelsToAdd);
  }

  /** The `for issue in result` loop of `setLabelsForAllIssues`. */
  method LabelListedIssues(issues: seq<ListedIssue>) returns (log: Run)
    ensures log == ListedEffects(issues)
  {
    var calls: seq<Effect> := [];
    for i := 0 to |issues|
      invariant ListedEffects(issues[..i]) == Finished(calls)
    {
      assert issues[..i + 1][..i] == issues[..i];
      var issue := issues[i];
      assert issues[..i + 1][i] == issue;
      if issue.info.None? {
        assert calls + [] == calls;
        continue;
      }
      var staged := StageIssue(issue);
      if staged.None? {
        assert ListedEffects(issues[..i + 1]) == Trapped(calls);
        ListedTrapSticks(issues, i + 1);
        return Trapped(calls);
      }
      var labelsToAdd := staged.value;
      if |labelsToAdd| > 0 {
        assert IssueLabelCall(issue) == Some([AddLabels(issue.info.value.url, set l | l in labelsToAdd)]);
        calls := calls + [AddLabels(issue.info.value.url, set l | l in labelsToAdd)];
      } else {
        assert IssueLabelCall(issue) == Some([]);
        assert calls + [] == calls;
      }
    }
    assert issues[..|issues|] == issues;
    return Finished(calls);
  }

  /**
   * The label calls of `setLabelsForAllIssues`: after a successful
   * refresh the whole pass runs again first, and then the original
   * response is still parsed and its issues labelled.  A body that does
   * not decode (`None`) labels nothing.  A trap anywhere ends the run with
   * the calls made until then.
   */
  function BulkEffects(xs: seq<Reply<Option<seq<ListedIssue>>>>): Run
    requires WellFormed(xs)
    decreases |xs|
  {
    if xs == [] || xs[0].Threw? then Finished([])
    else
      var again := if Retried(xs[0]) then WellFormedTail(xs); BulkEffects(xs[1..]) else Finished([]);
      match xs[0].body
      case None => again
      case Some(issues) => Then(again, ListedEffects(issues))
  }

  /**
   * The calls of the re-invocation come first and are kept whatever
   * happens next; a trap in the re-invocation is the trap of the whole run.
   */
  lemma BulkKeepsReinvocation(xs: seq<Reply<Option<seq<ListedIssue>>>>)
    requires WellFormed(xs) && xs != [] && Retried(xs[0])
    ensures WellFormed(xs[1..])
    ensures BulkEffects(xs[1..]).log <= BulkEffects(xs).log
    ensures BulkEffects(xs[1..]).Trapped? ==> BulkEffects(xs) == BulkEffects(xs[1..])
  {
    WellFormedTail(xs);
  }

  /**
   * An unauthorized listing that is refreshed and then listed again labels
   * every issue of the listing twice: once in the re-invocation, once from
   * the original response.  When the listing traps, the re-invocation's
   * run, with the calls it made, is the whole run.
   */
  lemma RetriedListingLabelsTwice(first: Reply<Option<seq<ListedIssue>>>, second: Reply<Option<seq<ListedIssue>>>,
                                  issues: seq<ListedIssue>)
    requires first.Replied? && second.Replied? && |first.refresh| == RefreshAttempts && |second.refresh| == RefreshAttempts
    requires Retried(first) && !Retried(second)
    requires first.body == Some(issues) && second.body == Some(issues)
    ensures WellFormed([first, second])
    ensures BulkEffects([first, second]) ==
              if ListedEffects(issues).Finished? then Finished(ListedEffects(issues).log + ListedEffects(issues).log)
              else ListedEffects(issues)
  {
    var xs := [first, second];
    var l := ListedEffects(issues);
    assert xs[1..] == [second];
    assert [] + l.log == l.log;
    assert BulkEffects([second]) == l;
  }

  /** A listing that is not unauthorized is processed once. */
  lemma AuthorizedListingOnce(x: Reply<Option<seq<ListedIssue>>>, rest: seq<Reply<Option<seq<ListedIssue>>>>,
                              issues: seq<ListedIssue>)
    requires x.Replied? && |x.refresh| == RefreshAttempts && !Unauthorized(x.code) && x.body == Some(issues)
    requires WellFormed(rest)
    ensures WellFormed([x] + rest)
    ensures BulkEffects([x] + rest) == ListedEffects(issues)
  {
    var xs := [x] + rest;
    assert xs[0] == x;
    assert forall k :: 1 <= k < |xs| ==> xs[k] == rest[k - 1];
    assert [] + ListedEffects(issues).log == ListedEffects(issues).log;
  }

  /**
   * `setLabelsForAllIssues`: `xs[0]` is the listing response of this
   * invocation and `xs[1..]` those of the invocations it makes again.
   */
  method SetLabelsForAllIssues(auth: GithubAuth, xs: seq<Reply<Option<seq<ListedIssue>>>>)
    returns (log: Run)
    requires WellFormed(xs)
    modifies auth
    ensures log == BulkEffects(xs)
    ensures auth.Current() == ChainTokens(old(auth.Current()), xs)
    decreases |xs|
  {
    if xs == [] {
      return Finished([]);
    }
    match xs[0]
    case Threw =>
      return Finished([]);
    case Replied(code, refresh, body) =>
      var before: Run := Finished([]);
      var refreshed, _ := auth.RefreshCredentialsIfUnauthorized(code, refresh);
      if refreshed {
        WellFormedTail(xs);
        before := SetLabelsForAllIssues(auth, xs[1..]);
        if before.Trapped? {
          return before;
        }
      }
      if body.None? {
        return before;
      }
      var calls := LabelListedIssues(body.value);
      var sent := before.log + calls.log;
      if calls.Trapped? {
        return Trapped(sent);
      }
      return Finished(sent);
  }
}
