/**
 * One run of the purge: choose the account, fetch its timeline once, select
 * the posts older than the retention cutoff, ask once for confirmation and
 * run the (simulated) deletion pass. The platform, the clock, the timestamp
 * parser and the calendar are parameters; the run returns, besides its
 * outcome, the trace of calls it made to the platform and to the console.
 */
module Purge {
  import opened Wrappers
  import opened Account
  import opened Retention
  import opened Deletion

  /** The configuration read from the environment; "" stands for an unset string. */
  datatype Config = Config(
    userId: string,       // X_USERID
    username: string,     // X_USERNAME
    yearsPrior: int,      // X_LIMIT_YEARS_PRIOR, already converted to an integer
    maxResults: int)      // X_LIMIT_TWEET_FETCH, already converted to an integer

  /** What the platform's timeline call returns: an error, or the posts of one response. */
  datatype TimelineResponse =
    | TimelineError(message: string)
    | Timeline(tweets: seq<Tweet>)

  /**
   * The collaborators of a run: the username lookup, the timeline call
   * (user ID and maximum result count), the timestamp parser, and the
   * calendar shift `addYears(t, n)` of instant `t` by `n` years.
   */
  datatype Platform = Platform(
    lookup: string -> LookupResponse,
    timeline: (string, int) -> TimelineResponse,
    parse: Parser,
    addYears: (int, int) -> int)

  /** A call the run makes outside itself, in the order it makes them. */
  datatype Call =
    | UserNameLookup(username: string)
    | UserTweetTimeline(userId: string, maxResults: int)
    | ConfirmationPrompt

  /** Why a run ended before the confirmation prompt. */
  datatype RunError =
    | AccountFailed(error: AccountError)
    | FetchFailed(message: string)

  /** How a run ends. */
  datatype Outcome =
    | Fatal(error: RunError)
    | Declined(candidates: seq<Tweet>, skipped: seq<string>)
    | Finished(candidates: seq<Tweet>, skipped: seq<string>, reports: seq<Report>)

  /** The confirmation gate: only the exact answer "y" lets the deletion pass run. */
  predicate Confirmed(response: string): (r: bool)
    ensures r <==> |response| == 1 && response[0] == 'y'
  {
    response == "y"
  }

  /**
   * What the model assumes of a calendar shift when it relates years to
   * instants: shifting by zero years changes nothing, and shifting by more
   * years never gives an earlier instant.
   */
  ghost predicate MonotoneCalendar(addYears: (int, int) -> int)
  {
    && (forall t :: addYears(t, 0) == t)
    && (forall t, n1, n2 | n1 <= n2 :: addYears(t, n1) <= addYears(t, n2))
  }

  /**
   * The cutoff of a run: the clock reading `now` moved back by the
   * configured number of years. With a monotone calendar, a non-negative
   * number of years puts it no later than `now`.
   */
  function Cutoff(cfg: Config, platform: Platform, now: int): (r: int)
    ensures MonotoneCalendar(platform.addYears) && cfg.yearsPrior >= 0 ==> r <= now
  {
    var cutoff := platform.addYears(now, -cfg.yearsPrior);
    assert MonotoneCalendar(platform.addYears) && cfg.yearsPrior >= 0 ==>
      cutoff <= platform.addYears(now, 0) == now;
    cutoff
  }

  /**
   * With a monotone calendar, configuring more years of retention selects a
   * subsequence of the candidates that fewer years select, from the same
   * timeline and clock reading.
   */
  lemma MoreYearsFewerCandidates(more: Config, fewer: Config, platform: Platform, now: int, tweets: seq<Tweet>)
    requires MonotoneCalendar(platform.addYears)
    requires more.yearsPrior >= fewer.yearsPrior
    ensures Cutoff(more, platform, now) <= Cutoff(fewer, platform, now)
    ensures IsSubsequence(Candidates(tweets, platform.parse, Cutoff(more, platform, now)),
                          Candidates(tweets, platform.parse, Cutoff(fewer, platform, now)))
  {
    EarlierCutoffFewerCandidates(tweets, platform.parse, Cutoff(more, platform, now), Cutoff(fewer, platform, now));
  }

  /** The lookup calls that choosing the account makes: one, for the username, or none. */
  function LookupCalls(cfg: Config): (r: seq<Call>)
    ensures |r| <= 1
    ensures r != [] <==> NeedsLookup(cfg.userId, cfg.username)
    ensures NeedsLookup(cfg.userId, cfg.username) ==> r == [UserNameLookup(cfg.username)]
  {
    if NeedsLookup(cfg.userId, cfg.username) then [UserNameLookup(cfg.username)] else []
  }

  /**
   * One run. `now` is the single clock reading the cutoff is computed from;
   * `response` is the answer the operator types at the prompt.
   */
  method Run(cfg: Config, platform: Platform, now: int, response: string)
    returns (out: Outcome, calls: seq<Call>)
    // nothing configured to name the account: fatal before any call
    ensures cfg.userId == "" && cfg.username == "" ==>
      out == Fatal(AccountFailed(NoAccountConfigured)) && calls == []
    // a configured user ID is used as it is, with no lookup
    ensures cfg.userId != "" ==> forall c | c in calls :: !c.UserNameLookup?
    // the account could not be chosen: the run ends after the lookup, if any
    ensures var account := ResolveUserID(cfg.userId, cfg.username, platform.lookup);
      account.Failure? ==> out == Fatal(AccountFailed(account.error)) && calls == LookupCalls(cfg)
    // otherwise the timeline of that account is fetched exactly once
    ensures var account := ResolveUserID(cfg.userId, cfg.username, platform.lookup);
      account.Success? ==>
        && |calls| > |LookupCalls(cfg)|
        && calls[..|LookupCalls(cfg)| + 1] == LookupCalls(cfg) + [UserTweetTimeline(account.value, cfg.maxResults)]
        && match platform.timeline(account.value, cfg.maxResults)
           case TimelineError(message) =>
             out == Fatal(FetchFailed(message)) && |calls| == |LookupCalls(cfg)| + 1
           case Timeline(tweets) =>
             // every fetched post is judged against the one cutoff, and the
             // operator is asked once, even when there is no candidate
             && !out.Fatal?
             && out.candidates == Candidates(tweets, platform.parse, Cutoff(cfg, platform, now))
             && out.skipped == Unparsable(tweets, platform.parse)
             && calls == LookupCalls(cfg) + [UserTweetTimeline(account.value, cfg.maxResults), ConfirmationPrompt]
    // the deletion pass runs only on the exact answer "y"
    ensures out.Finished? <==> !out.Fatal? && response == "y"
    // and then reports each candidate once, in order, as deleted
    ensures out.Finished? ==>
      && |out.reports| == |out.candidates|
      && forall i | 0 <= i < |out.candidates| :: out.reports[i] == WouldHaveDeleted(out.candidates[i].id)
  {
    calls := [];
    var account := ResolveUserID(cfg.userId, cfg.username, platform.lookup);
    if NeedsLookup(cfg.userId, cfg.username) {
      calls := calls + [UserNameLookup(cfg.username)];
    }
    if account.Failure? {
      out := Fatal(AccountFailed(account.error));
      return;
    }
    var userId := account.value;

    var cutoff := Cutoff(cfg, platform, now);

    calls := calls + [UserTweetTimeline(userId, cfg.maxResults)];
    var fetched := platform.timeline(userId, cfg.maxResults);
    if fetched.TimelineError? {
      out := Fatal(FetchFailed(fetched.message));
      return;
    }
    // the error value still in scope when the deletion pass runs
    var err: Option<string> := None;

    var toDelete, skipped := SelectCandidates(fetched.tweets, platform.parse, cutoff);

    calls := calls + [ConfirmationPrompt];
    if !Confirmed(response) {
      out := Declined(toDelete, skipped);
      return;
    }

    var reports := DeletionPass(toDelete, err);
    out := Finished(toDelete, skipped, reports);
  }
}
