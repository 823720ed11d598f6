/**
 * The deletion pass over the confirmed candidates. The platform's delete
 * call is disabled in this program, so the pass only reports; the error it
 * tests is the one left over from fetching the timeline.
 */
module Deletion {
  import opened Wrappers
  import opened Retention

  /** What the pass reports for one candidate. */
  datatype Report =
    | WouldHaveDeleted(tweetId: string)
    | DeleteFailed(tweetId: string, error: string)

  /**
   * Visits every candidate once, in order, and reports it. `pending` is the
   * error value in scope at that point of the run: with none, every candidate
   * is reported as (would-be) deleted; with one, every candidate is reported
   * as failed and the pass still goes on to the next.
   */
  method DeletionPass(toDelete: seq<Tweet>, pending: Option<string>) returns (reports: seq<Report>)
    ensures |reports| == |toDelete|
    ensures forall i | 0 <= i < |toDelete| ::
      reports[i] == if pending.None? then WouldHaveDeleted(toDelete[i].id)
                    else DeleteFailed(toDelete[i].id, pending.value)
  {
    reports := [];
    for i := 0 to |toDelete|
      invariant |reports| == i
      invariant forall k | 0 <= k < i ::
        reports[k] == if pending.None? then WouldHaveDeleted(toDelete[k].id)
                      else DeleteFailed(toDelete[k].id, pending.value)
    {
      var tweet := toDelete[i];
      if pending.Some? {
        reports := reports + [DeleteFailed(tweet.id, pending.value)];
        continue;
      }
      reports := reports + [WouldHaveDeleted(tweet.id)];
    }
  }
}
