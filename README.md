# material-automation in Dafny

A model of the automation service that labels and tidies the issues and pull
requests of the Material Components repositories, with proofs about it.

- **Title labels.** A title's `[Component]` prefix is found with the regular
  expression `\[(.*?)\]`.
- **Issues.** An issue's prefix is checked against the component directory
  names. A near miss within edit distance 2 is renamed, the submitter gets a
  comment, and the label is added. A missing prefix gets a comment.
- **Pull requests.** The components a pull request touches come from the file
  paths in its diff. The pull request gets those labels. When the change
  affects several components it gets a comment. Its title prefix is fixed or
  added.
- **Project boards.** Moving a card between the `Backlog`, `In progress` and
  `Done` columns assigns, closes or reopens its issue. A closed project
  passes on only when its name is a sprint date range.
- **Credentials.** The GitHub App credentials are refreshed when a response is
  unauthorized, with up to four attempts. The request that got the
  unauthorized response is then made again.

Two revisions of the label rules are modelled:
- `LabelAnalysis`, the newer one: closest name by Levenshtein distance.
- `PRLabelAnalysis`, the older one: first similar name by a trimmed
  Levenshtein test.

The older revision is modelled as written, including the defects listed under
"## Findings".

How the model represents the world:
- **Calls out.** Every call the service makes to GitHub becomes an entry of a
  returned effect log (`Effects.Effect`): edit an issue, comment, add labels.
- **Inputs.** Everything it reads from GitHub is a parameter: directory names,
  diff text, column names, responses, token replies.
- **Iteration order.** The order in which Swift walks a `Set` or a
  `Dictionary` is unspecified. It is an explicit `order` parameter, required
  to list the keys exactly once (`Strings.IsEnumeration`).
- **Traps.** Where Swift would trap (an out-of-range index or slice), the
  handler stops, and the calls it already made stay made.
  - A handler that can trap after making calls returns an `Effects.Run`:
    `Finished(log)` or `Trapped(log)`. In both, `log` is every call that
    went out. This covers the older pull-request rule and the bulk
    labelling pass.
  - Where a trap can only come before the first call, the outcome is
    `None`. This covers diff parsing, the older issue rule and the newer
    pull-request rule. The as-written rename step also returns `None`, and
    the pull-request rule that calls it keeps the comment it sent earlier.
- **Process-wide credentials.** The static `JWTToken` and `accessToken` are
  the fields of the class `Auth.GithubAuth`. Its methods update those fields.

Modules, one per file:

| file | module | models |
|---|---|---|
| `strings.dfy` | `Strings` | strings, ASCII case mapping, `split`, `Option` |
| `effects.dfy` | `Effects` | the effect log and the comment texts |
| `title_label.dfy` | `TitleLabels` | `getTitleLabel` and the renamed title |
| `edit_distance.dfy` | `EditDistance` | `getStringDistance` against a recursive Levenshtein distance |
| `similarity.dfy` | `Similarity` | `checkIfTwoStringsAreSimilar` |
| `diff_paths.dfy` | `DiffPaths` | `getFilePaths`, `grabLabelsFromPaths` |
| `label_analysis.dfy` | `LabelAnalysis` | `LabelAnalysis.swift` |
| `pr_label_analysis.dfy` | `PRLabelAnalysis` | `PRLabelAnalysis.swift` |
| `project_analysis.dfy` | `ProjectAnalysis` | `ProjectAnalysis.swift` |
| `github_auth.dfy` | `Auth` | `GithubAuth.swift` |
| `github_api.dfy` | `Api` | `GithubAPI.swift` |

How the source was read:
- `Sources/LabelAnalysis.swift:92` calls `getTitleLabel(title:installation:)`.
  That file declares only `getTitleLabel(title:)`, so the call is modelled as
  that function.
- `getTitleLabel`, `getFilePaths` and `grabLabelsFromPaths` are identical in
  both revisions. One definition serves both.

## Model

| member | source | states |
|---|---|---|
| TitleLabels.GetTitleLabel | Sources/LabelAnalysis.swift:24-41 | A label found has at least two characters, starts with `[`, ends with `]` and has no other `]`. |
| TitleLabels.GetTitleLabelSpec | Sources/LabelAnalysis.swift:26-34 | There is no label exactly when no `[` is followed on the same line by a `]`. Otherwise the label is the text of the leftmost such match. |
| TitleLabels.LeadingLabel | Sources/LabelAnalysis.swift:26-34 | A title that opens with `[word]` (no `]` or line break in `word`) has the label `[word]`. |
| TitleLabels.LabelHasClosingBracket | Sources/LabelAnalysis.swift:115 | A title with a label always contains a `]`, so the rename step always finds one. |
| TitleLabels.Unbracket | Sources/LabelAnalysis.swift:94 | The result is two characters shorter than the label. A string shorter than two gives the empty string. |
| TitleLabels.UnbracketRestores | Sources/LabelAnalysis.swift:94 | Putting the first and last character back gives the label, so the result is exactly the inside of the label. |
| TitleLabels.RenamedTitle | Sources/LabelAnalysis.swift:117-122 | The new title is the label, one space, then the rest of the title. A rest that already starts with a space is not given a second one. |
| EditDistance.Min3 | Sources/LabelAnalysis.swift:238 | The smallest of three values: no larger than any and equal to one. |
| EditDistance.LevenshteinTable | Sources/LabelAnalysis.swift:224-242 | The table filled by the nested loops ends with the recursive unit-cost Levenshtein distance. |
| EditDistance.FillRow | Sources/LabelAnalysis.swift:234-240 | The inner loop makes every cell of row `i` the Levenshtein distance of the two prefixes, from row `i - 1`, and changes no other row. |
| EditDistance.GetStringDistance | Sources/LabelAnalysis.swift:220-243 | `Int.max` when either string is empty, otherwise the Levenshtein distance. |
| EditDistance.StringDistanceZeroIffEqual | Sources/LabelAnalysis.swift:220-243 | The distance is 0 exactly when both strings are equal and non-empty. |
| EditDistance.LevZeroIffEqual | Sources/LabelAnalysis.swift:224-242 | The Levenshtein distance is 0 exactly for equal strings. |
| EditDistance.LevSymmetric | Sources/LabelAnalysis.swift:224-242 | The distance does not depend on the order of the two strings. |
| EditDistance.LevLengthBounds | Sources/LabelAnalysis.swift:224-242 | The distance is at least the difference of the lengths and at most the longer length. |
| EditDistance.LevStep | Sources/LabelAnalysis.swift:235-238 | One table cell is the diagonal on equal characters, otherwise one more than the least neighbour. |
| EditDistance.ButtonButtom | Sources/LabelAnalysis.swift:220-243 | `button` and `buttom` are at distance 1. |
| Similarity.TrimToFirst | Sources/PRLabelAnalysis.swift:214-217 | The second string is cut to a suffix that starts at the first occurrence of the first string's first character, or kept whole when that character does not occur. |
| Similarity.TrimKeepsOccurrences | Sources/PRLabelAnalysis.swift:214-221 | The cut never removes an occurrence of the first string, so the containment test gives the same answer. |
| Similarity.SimilarSpec | Sources/PRLabelAnalysis.swift:209-242 | Empty strings are never similar. Containment makes them similar. Otherwise they are similar exactly when the distance to the trimmed second string is within the threshold. |
| Similarity.SimilarToItself | Sources/PRLabelAnalysis.swift:209-242 | Every non-empty string is similar to itself. |
| Similarity.CheckIfTwoStringsAreSimilar | Sources/PRLabelAnalysis.swift:209-242 | The loops compute the similarity test. |
| DiffPaths.HeaderLines | Sources/LabelAnalysis.swift:50-51 | Exactly the diff lines beginning with `+++`, and never more entries than lines. |
| DiffPaths.HeaderLinesAppend | Sources/LabelAnalysis.swift:49-52 | The filter keeps line order: the header lines of two consecutive line lists are the header lines of the first, then those of the second. |
| DiffPaths.HeaderLinesSingle | Sources/LabelAnalysis.swift:50-51 | A single line is kept exactly when it begins with `+++`. |
| DiffPaths.PathsOfLinesSpec | Sources/LabelAnalysis.swift:49-57 | One path per header line, equal to the line minus its first six characters. It traps exactly when a header line is shorter than six. |
| DiffPaths.GetFilePaths | Sources/LabelAnalysis.swift:43-62 | The loop collects the paths of the header lines of the `\n`-split diff. A failed fetch gives no paths. |
| DiffPaths.ComponentPathLabel | Sources/LabelAnalysis.swift:67-69 | `components/X/...` and `components/X` give the label `[X]`. |
| DiffPaths.BareComponentsTraps | Sources/LabelAnalysis.swift:68-69 | `components/` has no second piece, so `slashed[1]` traps. |
| DiffPaths.OtherPathLabels | Sources/LabelAnalysis.swift:70-72 | Every path starting with `catalog/` gives `[Catalog]`. Every path under neither `components/` nor `catalog/` gives nothing. |
| DiffPaths.LabelsOfPathsSpec | Sources/LabelAnalysis.swift:64-75 | It traps exactly when some path traps. Otherwise every label comes from a path, and every labelled path contributes its label. |
| DiffPaths.LabelsOfPathsAppend | Sources/LabelAnalysis.swift:64-75 | Labels follow path order: the labels of concatenated path lists are concatenated. |
| DiffPaths.GrabLabelsFromPaths | Sources/LabelAnalysis.swift:64-75 | The loop collects exactly the path labels. |
| Effects.Dedup | Sources/LabelAnalysis.swift:133-134 | `Array(Set(labels))` keeps exactly the labels given. |
| Effects.CommentsDiffer | Sources/LabelAnalysis.swift:126-127 | Neither the rename comment nor the prefix comment is the multiple-components comment. |
| LabelAnalysis.MinPickIsMinimum | Sources/LabelAnalysis.swift:110 | The reduce from `("", Int.max)` gives a distance no larger than any key's. The result is the start value or a key with its distance. |
| LabelAnalysis.MinPickWithin | Sources/LabelAnalysis.swift:110-111 | The minimum is within a bound exactly when some key's distance is, and then the picked key is one of the keys. |
| LabelAnalysis.DistancesToNames | Sources/LabelAnalysis.swift:100-108 | The loop maps each name that is not all lower-case to its lower-cased distance from the label's inside. |
| LabelAnalysis.CandidateIffHasUpper | Sources/LabelAnalysis.swift:101-105 | A listed directory name takes part exactly when it has an upper-case letter. An all-lower-case name is skipped. |
| Strings.AllLowerIffNoUpper | Sources/LabelAnalysis.swift:103 | `name.lowercased() == name` holds exactly when the name has no upper-case letter. |
| LabelAnalysis.ReduceToClosest | Sources/LabelAnalysis.swift:110 | The reduce over the dictionary, in its iteration order. |
| LabelAnalysis.RetitleAndNotify | Sources/LabelAnalysis.swift:115-128 | With a `]` in the title: a title edit built from the text after the title's first `]`, then the rename comment. Without one: nothing. |
| LabelAnalysis.RenameTwoSteps | Sources/LabelAnalysis.swift:115-128 | A title containing `]` always gets the title edit and the comment. |
| LabelAnalysis.AddAndFixLabelsForIssues | Sources/LabelAnalysis.swift:88-139 | The issue rule produces the issue's effect log. |
| LabelAnalysis.FixIssueLabels | Sources/LabelAnalysis.swift:93-138 | The rule for a given title label produces its effect log. |
| LabelAnalysis.IssueExactMatch | Sources/LabelAnalysis.swift:96-97 | A label naming a component directory is added as it is, and nothing else happens. |
| LabelAnalysis.IssueNoLabel | Sources/LabelAnalysis.swift:135-137 | A title without a label gets only the missing-prefix comment. |
| LabelAnalysis.IssueNoCloseName | Sources/LabelAnalysis.swift:111 | An unknown label causes no effect exactly when every candidate name is more than 2 away. |
| LabelAnalysis.IssueRename | Sources/LabelAnalysis.swift:99-134 | Otherwise a closest candidate within 2 is chosen. The title is edited to that bracketed name, the submitter gets a comment, and the label is added. |
| LabelAnalysis.IssueRenameKeepsRest | Sources/LabelAnalysis.swift:115-124 | For `[word]rest`, the new title is the corrected label followed by `rest`. |
| LabelAnalysis.AddAndFixLabelsForPullRequests | Sources/LabelAnalysis.swift:157-210 | The pull-request rule produces its effect log from the diff's label set, or traps exactly when the diff traps. |
| LabelAnalysis.DistancesToLabels | Sources/LabelAnalysis.swift:172-178 | The loop maps each path label to its lower-cased distance from the title label. |
| LabelAnalysis.FixPullRequestLabels | Sources/LabelAnalysis.swift:162-209 | The rule for a given title label produces its effect log. |
| LabelAnalysis.TitleFix | Sources/LabelAnalysis.swift:168-205 | The title repair holds only title edits and comments other than the multiple-components one. |
| LabelAnalysis.PullRequestCommentAndLabels | Sources/LabelAnalysis.swift:162-167 | The multiple-components comment is posted exactly when there are two or more distinct path labels. The path labels are added last whenever there are any. With no path labels nothing is added. |
| LabelAnalysis.PullRequestLabelKept | Sources/LabelAnalysis.swift:170 | A title label that is among the path labels leaves the title alone. |
| LabelAnalysis.PullRequestAutoPrefix | Sources/LabelAnalysis.swift:199-205 | An unlabelled title on a one-component change is prefixed with that label, then the prefix comment is posted, then the label is added. |
| LabelAnalysis.PullRequestNoCloseLabel | Sources/LabelAnalysis.swift:172-181 | When no path label is within 2 there is no rename, only the comment and the labels. |
| LabelAnalysis.PullRequestRename | Sources/LabelAnalysis.swift:172-197 | Otherwise a closest path label within 2 is chosen, the title is renamed to it with a comment, then the labels are added. |
| LabelAnalysis.ClosestPathLabel | Sources/LabelAnalysis.swift:179-180 | When some path label is within 2, the reduce picks a path label within 2 whose distance is no larger than any other's. |
| LabelAnalysis.RenameToPick | Sources/LabelAnalysis.swift:180-195 | With the picked label within 2, the log is the comment, the rename to that label, then the labels. |
| LabelAnalysis.AddNeedsActionabilityReviewLabel | Sources/LabelAnalysis.swift:246-251 | `Needs actionability review` is added exactly when the issue does not already carry it. |
| PRLabelAnalysis.FirstNameHitSpec | Sources/PRLabelAnalysis.swift:93-119 | The scan stops at the first name that equals the label's inside or is similar to it within 2. It reports which case applied. |
| PRLabelAnalysis.ScanNames | Sources/PRLabelAnalysis.swift:93-119 | The loop with `break` computes that scan. |
| PRLabelAnalysis.RetitleAndNotify | Sources/PRLabelAnalysis.swift:104-116 | The rename as written: the rest is sliced from the title label, using the position of the title's `]`. It traps when that position lies past the label. |
| PRLabelAnalysis.AddAndFixLabelsForIssues | Sources/PRLabelAnalysis.swift:88-127 | The older issue rule produces its effect log, or traps. |
| PRLabelAnalysis.FixIssueLabels | Sources/PRLabelAnalysis.swift:91-126 | The rule for a given title label produces its effect log. |
| PRLabelAnalysis.IssueHitOutcomes | Sources/PRLabelAnalysis.swift:91-126 | For a title opening with `[word]`: a scan stopped by `word` itself adds that label and nothing else. A scan stopped by a similar name retitles to that name's label as written, comments, then adds the new label. |
| PRLabelAnalysis.IssueNothingStaged | Sources/PRLabelAnalysis.swift:121-126 | The missing-prefix comment is posted exactly when there is no label or no name stops the scan. Otherwise the log ends with the label added. |
| PRLabelAnalysis.RenameDropsRestOfTitle | Sources/PRLabelAnalysis.swift:104-111 | For `[word]rest` the new title is the new label and a space, so `rest` is lost. |
| PRLabelAnalysis.RenameTrapsAfterLeadingText | Sources/PRLabelAnalysis.swift:104-105 | With text before the label, the rename traps, and only then. |
| PRLabelAnalysis.AutoPrefixedTitle | Sources/PRLabelAnalysis.swift:184-187 | The label, a space, then the title. A `.` is appended unless the title already ends with one. An empty title gives the label and a space. |
| PRLabelAnalysis.ScanLabels | Sources/PRLabelAnalysis.swift:159-181 | The loop over the path labels stops at the title label or at the first similar one. |
| PRLabelAnalysis.FirstLabelHitSpec | Sources/PRLabelAnalysis.swift:159-181 | The scan stops at the first path label that is the title label or is similar to it once both are unbracketed. It reports which case applied. |
| PRLabelAnalysis.AddAndFixLabelsForPullRequests | Sources/PRLabelAnalysis.swift:145-196 | A trap in the diff comes before any call. Otherwise the run is the rule's run for the diff's label set, including the comment already sent when the rename traps. |
| PRLabelAnalysis.FixPullRequestLabels | Sources/PRLabelAnalysis.swift:150-195 | For a given title label the rule finishes with its log. When the rename traps, the run holds the multiple-components comment already sent. |
| PRLabelAnalysis.PullRequestCommentAndLabels | Sources/PRLabelAnalysis.swift:150-155 | The multiple-components comment is sent exactly when there are two or more distinct path labels, even when the run traps later. A finished run adds the path labels last whenever there are any. |
| PRLabelAnalysis.PullRequestTrapKeepsComment | Sources/PRLabelAnalysis.swift:150-173 | The rule traps exactly when a similar path label is found and the as-written rename traps. The trapped run has then sent the multiple-components comment, if there was one, and nothing else. |
| PRLabelAnalysis.PullRequestAutoPrefix | Sources/PRLabelAnalysis.swift:182-191 | An unlabelled title on a one-component change is prefixed, then the prefix comment is posted, then the label is added. |
| ProjectAnalysis.DidMoveCard | Sources/ProjectAnalysis.swift:24-53 | The guarded edits of a card move, in order: assign, close, reopen. |
| ProjectAnalysis.MoveGuards | Sources/ProjectAnalysis.swift:26-37 | A missing column id, an unknown column name or a card without content edits nothing. |
| ProjectAnalysis.MoveEditsRules | Sources/ProjectAnalysis.swift:38-52 | Assign exactly on backlog to in-progress or done with a sender. Close exactly on entering done. Reopen exactly on done to backlog or in-progress. Never both close and reopen. At most two edits, in rule order. |
| ProjectAnalysis.BacklogToDone | Sources/ProjectAnalysis.swift:38-47 | Backlog to done by a sender: assign, then close. |
| ProjectAnalysis.Components | Sources/ProjectAnalysis.swift:64 | Splitting by a separator always gives at least one piece. |
| ProjectAnalysis.ComponentsWhole | Sources/ProjectAnalysis.swift:64 | A string without the separator's first character is one piece. |
| ProjectAnalysis.ComponentsCut | Sources/ProjectAnalysis.swift:64 | A piece, then the separator, splits off that piece. |
| ProjectAnalysis.DateRangeEndDate | Sources/ProjectAnalysis.swift:61-64 | A name `d1 - d2` of two `dddd-dd-dd` dates passes the pattern, and its end date is `d2`. |
| ProjectAnalysis.OtherNamesRejected | Sources/ProjectAnalysis.swift:57-66 | A missing name or a name like `Sprint 12` yields no end date. |
| ProjectAnalysis.DidCloseProject | Sources/ProjectAnalysis.swift:55-77 | No effect on any input. The end date is the last ` - ` piece of a matching name. |
| Auth.FirstSuccess | Sources/GithubAuth.swift:98-102 | The position of the first successful refresh. None exactly when all fail. |
| Auth.RetryOutcome | Sources/GithubAuth.swift:96-114 | No refresh and `false` unless the code is 401 or 403. Otherwise 1 to 4 refreshes: `true` right after the first success, `false` after four failures. |
| Auth.RefreshedHasAccessToken | Sources/GithubAuth.swift:124-127 | After a successful retry the stored access token is not empty. |
| Auth.AuthorizedKeepsTokens | Sources/GithubAuth.swift:99 | A response that is not unauthorized leaves both tokens unchanged. |
| Auth.VerifyGooglerPassword | Sources/GithubAuth.swift:136-142 | False without `SECRET_TOKEN`. Otherwise true exactly when the header is `Basic ` followed by the secret. |
| Auth.GithubAuth.constructor | Sources/GithubAuth.swift:28-29 | Both tokens start empty. |
| Auth.GithubAuth.SignAndEncodeJWT | Sources/GithubAuth.swift:33-51 | A missing app id gives "" and stores nothing. A throw stores nothing. A signed token is stored and returned. |
| Auth.GithubAuth.CreateAccessToken | Sources/GithubAuth.swift:67-79 | The JSON token, or "" when it is absent, is stored and returned. A throw returns nil and stores nothing. |
| Auth.GithubAuth.RefreshGithubCredentials | Sources/GithubAuth.swift:116-134 | True exactly when signing does not throw, a token URL is found and a non-empty token is created. The new tokens are given by `RefreshTokens`. |
| Auth.GithubAuth.RefreshCredentialsIfUnauthorized | Sources/GithubAuth.swift:96-114 | The loop returns what `RetryOutcome` states. The tokens are those left by the refreshes it ran. |
| Auth.GithubAuth.GithubAuthHTTPHeaders | Sources/GithubAuth.swift:88-94 | Exactly three headers: `Bearer ` and the JWT, the machine-man preview media type, and `Material Automation`. |
| Api.LabelsURL | Sources/GithubAPI.swift:28 | The issue URL followed by `/labels`. |
| Api.IssuesListURL | Sources/GithubAPI.swift:44-46 | The base URL followed by the repository's issue path and `?state=all`. |
| Api.LabelPostsSpec | Sources/GithubAPI.swift:27-40 | Every post goes to the labels URL with the same labels, and the first carries the current token. A second post is made exactly when the response led to a successful refresh. No re-post carries an empty token. |
| Api.GithubAPIHTTPHeaders | Sources/GithubAPI.swift:82-89 | Exactly three headers: `token ` and the access token, the machine-man preview media type, and `Material CI App`. |
| Api.AddLabelsToIssue | Sources/GithubAPI.swift:27-40 | The posts made by the re-invocation chain. The credentials are left as that chain of refreshes leaves them. |
| Api.StagedLabelsSpec | Sources/GithubAPI.swift:57-67 | The staged labels are the title label plus, only for a pull request with a non-empty diff URL, the diff's path labels. A trap comes only from that diff. |
| Api.IssueLabelCallSpec | Sources/GithubAPI.swift:54-70 | An issue without data is skipped. A label call is made exactly when something is staged, with the staged labels stripped of duplicates. |
| Api.PlainIssueTitleOnly | Sources/GithubAPI.swift:57-67 | An issue that is not a pull request gets its title label alone, or nothing. |
| Api.ListedEffectsSpec | Sources/GithubAPI.swift:53-71 | At most one call per listed issue, whether or not the pass traps. Each adds a non-empty label set to a listed issue's URL. |
| Api.ListedTrapPoint | Sources/GithubAPI.swift:53-71 | The pass traps exactly when staging some issue traps. It then holds exactly the calls made for the issues before the first such issue. |
| Api.ListedTrapSticks | Sources/GithubAPI.swift:53-71 | Once the issues so far have trapped, the pass ends with that run and its calls. |
| Api.StageIssue | Sources/GithubAPI.swift:57-67 | The staging steps give the staged labels. |
| Api.LabelListedIssues | Sources/GithubAPI.swift:53-71 | The loop over the listing makes the label calls in listing order. On a trap it keeps the calls already made. |
| Api.BulkKeepsReinvocation | Sources/GithubAPI.swift:49-53 | After a refresh, the re-invocation's calls come first and are kept whatever follows. A trap in the re-invocation ends the whole pass. |
| Api.RetriedListingLabelsTwice | Sources/GithubAPI.swift:49-53 | A refreshed listing is processed by the re-invocation and again from the original response, so each call appears twice. If the listing traps, the run is the re-invocation's trapped run. |
| Api.AuthorizedListingOnce | Sources/GithubAPI.swift:49-53 | A listing that is not unauthorized is processed once. |
| Api.SetLabelsForAllIssues | Sources/GithubAPI.swift:42-76 | The label calls of the whole bulk pass, re-invocation first. A trap keeps every call made before it. The credentials are left as the refreshes leave them. |

## Left out

- HTTP and JSON: every request and response is an input, and every call that changes GitHub is an effect-log entry. This covers `CURLRequest.perform`, `jsonDecode`, the installation listing in `getFirstAppInstallationAccessTokenURL` (its result is `Attempt.tokenUrl`) and the reading of the diff in `getFilePaths` (its text is a parameter).
- `getDirectoryContentPathNames`, `getProjectColumnName`, `editIssue` and `createComment` are not declared in `Sources/GithubAPI.swift`. Their results are parameters and their calls are effects.
- `Sources/main.swift` (server and routing), `Sources/GithubData.swift` (JSON objects; only their shapes appear), `Sources/GitHubAppConfig.swift` and `Sources/Analytics.swift` are not part of this model.
- JWT signing: `signAndEncodeJWT` is reduced to its outcome (`SignOutcome`), because RS256 signing is a library call.
- `verifyGithubSignature` uses an HMAC-SHA1 library call and is not modelled.
- The randomised exponential sleep between refresh attempts is floating-point timing and is left out. Only the number of attempts is modelled.
- `credentialsLock` is concurrency and is left out.
- Logging (`LogFile`, `print`) is output only and is left out.
- The `DateFormatter` and `Calendar` code of `didCloseProject` depends on locale and time zone, and its results are unused. The model stops at the end date.
- Strings are sequences of code points:
  - `lowercased()` maps ASCII letters only;
  - `\d` matches ASCII digits only;
  - a CR LF pair counts as two characters, not one Swift `Character`;
  - `NSString` UTF-16 ranges are taken as code-point positions.
- `Int.max` is taken as 2^63 - 1, the 64-bit platform value.
- The body of a label post (`labels.description`) is not rendered as text. A post carries the set of labels, because `Array(Set(...))` has no defined order.
- Api.AddLabelsToIssue: the chain of re-invocations is bounded by the scripted replies, and an exhausted script counts as a throwing request. In the source a server that keeps answering 401 after each successful refresh makes the chain unbounded.
- Api.SetLabelsForAllIssues: has the same bound. Each issue's label call is one `AddLabels` effect. The refresh-and-repost of that call is modelled by `Api.AddLabelsToIssue` and is not composed into the bulk pass. The listing request itself is not in the log.
- Auth.GithubAuth.RefreshCredentialsIfUnauthorized: also returns `tries`, the number of refreshes it ran. The source returns only the flag.
- The installation argument passed at `Sources/LabelAnalysis.swift:92` has no counterpart.

## Findings

| source | as written | input that shows it | evidently intended | confidence | as-written member | corrected member |
|---|---|---|---|---|---|---|
| Sources/PRLabelAnalysis.swift:104-111 | The rest of the title is sliced from `titleLabel` at the position just past the title's first `]`. The same happens at 166-173. | Issue `[Buton] Fix crash` with component `Button` | The new title is `[Button] Fix crash`, the rest being sliced from the title, as `Sources/LabelAnalysis.swift:115-122` does. As written it is `[Button] `. | not executed; high | PRLabelAnalysis.RenameDropsRestOfTitle | LabelAnalysis.IssueRenameKeepsRest |
| Sources/PRLabelAnalysis.swift:104-105 | That position is used as an index into `titleLabel`, which is shorter than the title whenever text precedes the label. | Issue `Fix [Buton] crash` with component `Button` | The rename happens whenever the title has a `]`. As written the slice is out of range and traps. | not executed; medium | PRLabelAnalysis.RenameTrapsAfterLeadingText | LabelAnalysis.RenameTwoSteps |
