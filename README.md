# Retention purge of old posts — a Dafny model

The program purges old posts from an account on a social platform in one run. It runs these steps in order:

1. It picks the account: the configured user ID, or else the ID that a lookup of the configured username returns.
2. It fetches that account's timeline once.
3. It keeps as deletion candidates the posts whose creation time parses and is strictly before a cutoff. The cutoff is computed once, as "now minus the configured number of years".
4. It asks once for confirmation.
5. On the exact answer `y` it runs the deletion pass. In this program the pass is simulated: the delete call is disabled, and every candidate is reported as "would have been deleted".

The model is split into five modules:

- `Wrappers`: the `Option` and `Result` types.
- `Account`: `getUserID` and the choice between a configured user ID and a username.
- `Retention`: the filter loop. A method appends to a sequence and is proved equal to the recursive function `Candidates`. Lemmas about that function state the selection rule.
- `Deletion`: the deletion loop.
- `Purge`: the whole run as a method. It returns the outcome and the trace of calls it made: the username lookup, the timeline fetch and the confirmation prompt.

Timestamps are integers. Three things become parameters: the timestamp parser (`string -> Option<int>`), the calendar shift by years, and the clock reading `now`. The platform's lookup and timeline calls are also parameters, as functions from their arguments to their responses.

## Model

| member | source | states |
|---|---|---|
| `Account.GetUserID` | main.go:24-42 | The lookup succeeds exactly when the call did not fail and returned at least one user. The result is then the first user's ID. A failed call gives `LookupFailed`. An empty user list gives `NoUserFound` for that username. |
| `Account.ResolveUserID` | main.go:63-78 | A non-empty configured user ID is the result, whatever the lookup would answer. If both the user ID and the username are empty, the result is `NoAccountConfigured`. Otherwise the result is `GetUserID` applied to the lookup of the username. |
| `Account.ResolvedIdOrigin` | main.go:63-78 | A chosen ID is either the configured user ID or the first user the username lookup returned. There is no other source. |
| `Account.NoLookupNoDependence` | main.go:64-71 | When no lookup is needed, two different lookup services give the same result. So the choice does not depend on the platform. |
| `Account.ResolveFailsIff` | main.go:63-78 | Choosing the account fails exactly when nothing is configured, or the lookup of the username fails or returns no user. Both directions are proved. |
| `Account.NeedsLookup` | main.go:65-69 | A lookup is needed if and only if the configured user ID is empty and the configured username is not. |
| `Purge.LookupCalls` | main.go:67-73 | At most one lookup is made. It is made exactly when the user ID is empty and the username is not. It is then the lookup of the configured username. |
| `Purge.Confirmed` | main.go:135 | The gate opens if and only if the answer is exactly one character, the lower-case `y`. So `Y`, `yes` and the empty answer all decline. |
| `Purge.Cutoff` | main.go:89-90 | The cutoff is `now` shifted back by the configured years. Under a monotone calendar, a non-negative number of years puts it no later than `now`. |
| `Retention.Selected` | main.go:121-126 | A post is selected if and only if its timestamp parses to a time strictly before the cutoff. A post that parses to exactly the cutoff is not selected. |
| `Retention.Candidates` | main.go:119-130 | The candidates are never more than the fetched posts. |
| `Retention.Unparsable` | main.go:121-125 | There are never more warnings than fetched posts. |
| `Retention.SelectCandidates` | main.go:119-130 | The loop's candidate slice equals `Candidates(tweets, parse, cutoff)`. Its list of warned-about IDs equals `Unparsable(tweets, parse)`. |
| `Retention.CandidatesAppend` | main.go:119-130 | Filtering `a + b` gives the candidates of `a` followed by those of `b`. Each post is judged on its own against the same cutoff. |
| `Retention.UnparsableAppend` | main.go:121-125 | The warnings for `a + b` are those for `a` followed by those for `b`. |
| `Retention.CandidateIff` | main.go:121-129 | A post is a candidate if and only if it was fetched, its timestamp parses, and the parsed time is strictly before the cutoff. |
| `Retention.AtCutoffKept` | main.go:126 | A post timestamped exactly at the cutoff is never a candidate. |
| `Retention.CandidateMultiplicity` | main.go:119-130 | A selected post occurs among the candidates exactly as often as it occurs in the timeline. A post that is not selected does not occur at all. |
| `Retention.CandidatesSubsequence` | main.go:119-130 | The candidates are a subsequence of the fetched posts, so their arrival order is kept. |
| `Retention.OnlyUnparsableReported` | main.go:121-125 | An ID is among the warnings if and only if some fetched post with that ID has a timestamp that does not parse. |
| `Retention.UnparsableReported` | main.go:121-124 | Every fetched post whose timestamp does not parse has its ID in the warnings. |
| `Retention.EachPostJudgedOnce` | main.go:119-130 | The number of candidates plus the number of warnings is at most the number of fetched posts. |
| `Retention.UnparsableSkipped` | main.go:121-125 | A post with a malformed timestamp adds exactly its own warning and no candidate. The posts after it are judged as if it were absent. |
| `Retention.CandidatesIdempotent` | main.go:126-129 | Filtering the candidates again against the same cutoff returns all of them. |
| `Retention.EarlierCutoffFewerCandidates` | main.go:126 | An earlier cutoff selects a subsequence of what a later cutoff selects, from the same posts. |
| `Purge.MoreYearsFewerCandidates` | main.go:89-90 | Assume a monotone calendar: shifting by zero years changes nothing, and more years never give a later instant. Then more configured years give a cutoff no later than fewer years give. The candidates for more years are a subsequence of the candidates for fewer years. |
| `Deletion.DeletionPass` | main.go:141-148 | Each candidate gets exactly one report, in list order. The report is "would have deleted" when no error is pending. When an error is pending, each report is a failure, and the pass still goes on to every later candidate. |
| `Purge.Run` | main.go:63-148 | If neither a user ID nor a username is set, the run is fatal and makes no call. A configured user ID means no lookup. A failed account choice or a failed timeline call ends the run as fatal. Otherwise there is exactly one timeline call, with the chosen ID and the configured maximum. The candidates are `Candidates` against the one cutoff `addYears(now, -years)`. One confirmation prompt follows, even when there are no candidates. The deletion pass runs if and only if the answer is exactly `"y"`. It then reports every candidate, in order, as would-have-been-deleted. |

## Left out

- Loading `.env`, reading environment variables and checking for the bearer token (main.go:46-54). The configuration is a `Config` value, and an unset string variable is `""`, as `os.Getenv` returns it.
- The HTTP client and the bearer-token authorizer (main.go:16-22, 56-61). The username lookup and the timeline call are function parameters that give the platform's response.
- The missing-value and `strconv.Atoi` errors for `X_LIMIT_YEARS_PRIOR` and `X_LIMIT_TWEET_FETCH` (main.go:81-88, 94-101). Both values are given integers. The maximum is passed to the timeline call unchecked, as the program does.
- RFC 3339 timestamp parsing, `time.Now` and `AddDate`. These are library code. They become the parser, the clock reading `now` and the calendar shift `addYears`, so the model assumes nothing about calendar arithmetic.
- Console output: the cutoff date, the per-candidate lines, the prompt text and the skip or deleted messages. `fmt.Scanln` tokenisation is also left out: `response` is the word it stores.
- The run's exit via `log.Fatal` is modelled as the outcome `Fatal`. Process exit codes are not modelled.
- The delete call. It is commented out in the source, so the model issues none. Idempotent delete, a "not found" response counted as success, and retries therefore have nothing to model.
- Pagination, cursors, backoff, concurrent deletion and the success/failure summary. The program has none of these: it makes one timeline call (main.go:113) and does not aggregate results.
- The confirmation prompt appears even when there are no candidates, because main.go:132-138 has no emptiness check. `Purge.Run` states this.
- EarlierCutoffFewerCandidates: stated over cutoff values only. `addYears` is a parameter, so more configured years give an earlier cutoff only under the monotone-calendar premise of `Purge.MoreYearsFewerCandidates`. The model does not prove that Go's `AddDate` satisfies that premise.
