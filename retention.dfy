/**
 * The retention filter: which fetched posts are older than the cutoff and
 * so become deletion candidates. Timestamps are abstract integers and the
 * timestamp parser is a parameter that may fail.
 */
module Retention {
  import opened Wrappers

  /** A post as the timeline returns it; `createdAt` is still the unparsed text. */
  datatype Tweet = Tweet(id: string, createdAt: string, text: string)

  /** The parser of creation timestamps: the instant, or None when the text is malformed. */
  type Parser = string -> Option<int>

  /** A post is selected when its timestamp parses and is strictly before the cutoff. */
  predicate Selected(t: Tweet, parse: Parser, cutoff: int): (r: bool)
    ensures r <==> parse(t.createdAt).Some? && parse(t.createdAt).value < cutoff
    ensures parse(t.createdAt) == Some(cutoff) ==> !r
  {
    match parse(t.createdAt)
    case Some(created) => created < cutoff
    case None => false
  }

  /** The candidates among `tweets`, in arrival order. */
  function Candidates(tweets: seq<Tweet>, parse: Parser, cutoff: int): (r: seq<Tweet>)
    ensures |r| <= |tweets|
  {
    if tweets == [] then []
    else
      (if Selected(tweets[0], parse, cutoff) then [tweets[0]] else [])
      + Candidates(tweets[1..], parse, cutoff)
  }

  /** The IDs of the posts whose timestamp does not parse, in arrival order: the warnings. */
  function Unparsable(tweets: seq<Tweet>, parse: Parser): (r: seq<string>)
    ensures |r| <= |tweets|
  {
    if tweets == [] then []
    else
      (if parse(tweets[0].createdAt).None? then [tweets[0].id] else [])
      + Unparsable(tweets[1..], parse)
  }

  /** `xs` is `ys` with some elements removed and the rest in their original order. */
  predicate IsSubsequence<T(==)>(xs: seq<T>, ys: seq<T>)
    decreases |ys|
  {
    if xs == [] then true
    else if ys == [] then false
    else (xs[0] == ys[0] && IsSubsequence(xs[1..], ys[1..])) || IsSubsequence(xs, ys[1..])
  }

  /**
   * The filter loop: walks the fetched posts once, skips (and reports) each
   * post whose timestamp does not parse, and appends every other post whose
   * time is strictly before the one `cutoff`.
   */
  method SelectCandidates(tweets: seq<Tweet>, parse: Parser, cutoff: int)
    returns (toDelete: seq<Tweet>, skipped: seq<string>)
    ensures toDelete == Candidates(tweets, parse, cutoff)
    ensures skipped == Unparsable(tweets, parse)
  {
    toDelete, skipped := [], [];
    for i := 0 to |tweets|
      invariant toDelete == Candidates(tweets[..i], parse, cutoff)
      invariant skipped == Unparsable(tweets[..i], parse)
    {
      var tweet := tweets[i];
      assert tweets[..i + 1] == tweets[..i] + [tweet];
      CandidatesAppend(tweets[..i], [tweet], parse, cutoff);
      UnparsableAppend(tweets[..i], [tweet], parse);
      var createdAt := parse(tweet.createdAt);
      if createdAt.None? {
        skipped := skipped + [tweet.id];
        continue;
      }
      if createdAt.value < cutoff {
        toDelete := toDelete + [tweet];
      }
    }
    assert tweets[..|tweets|] == tweets;
  }

  /** Filtering a concatenation filters each part on its own: posts are judged independently. */
  lemma {:induction false} CandidatesAppend(a: seq<Tweet>, b: seq<Tweet>, parse: Parser, cutoff: int)
    ensures Candidates(a + b, parse, cutoff) == Candidates(a, parse, cutoff) + Candidates(b, parse, cutoff)
  {
    if a == [] {
      assert a + b == b;
    } else {
      var head := if Selected(a[0], parse, cutoff) then [a[0]] else [];
      assert (a + b)[0] == a[0];
      assert (a + b)[1..] == a[1..] + b;
      CandidatesAppend(a[1..], b, parse, cutoff);
      calc {
        Candidates(a + b, parse, cutoff);
        head + Candidates(a[1..] + b, parse, cutoff);
        head + (Candidates(a[1..], parse, cutoff) + Candidates(b, parse, cutoff));
        (head + Candidates(a[1..], parse, cutoff)) + Candidates(b, parse, cutoff);
        Candidates(a, parse, cutoff) + Candidates(b, parse, cutoff);
      }
    }
  }

  /** The warnings for a concatenation are those of each part. */
  lemma {:induction false} UnparsableAppend(a: seq<Tweet>, b: seq<Tweet>, parse: Parser)
    ensures Unparsable(a + b, parse) == Unparsable(a, parse) + Unparsable(b, parse)
  {
    if a == [] {
      assert a + b == b;
    } else {
      var head := if parse(a[0].createdAt).None? then [a[0].id] else [];
      assert (a + b)[0] == a[0];
      assert (a + b)[1..] == a[1..] + b;
      UnparsableAppend(a[1..], b, parse);
      calc {
        Unparsable(a + b, parse);
        head + Unparsable(a[1..] + b, parse);
        head + (Unparsable(a[1..], parse) + Unparsable(b, parse));
        (head + Unparsable(a[1..], parse)) + Unparsable(b, parse);
        Unparsable(a, parse) + Unparsable(b, parse);
      }
    }
  }

  /** A post is a candidate exactly when it was fetched and is selected. */
  lemma {:induction false} CandidateIff(tweets: seq<Tweet>, t: Tweet, parse: Parser, cutoff: int)
    ensures t in Candidates(tweets, parse, cutoff) <==> t in tweets && Selected(t, parse, cutoff)
  {
    if tweets != [] {
      CandidateIff(tweets[1..], t, parse, cutoff);
      assert t in tweets <==> t == tweets[0] || t in tweets[1..];
    }
  }

  /** Every fetched post whose timestamp does not parse is reported by its ID. */
  lemma {:induction false} UnparsableReported(tweets: seq<Tweet>, t: Tweet, parse: Parser)
    requires t in tweets && parse(t.createdAt).None?
    ensures t.id in Unparsable(tweets, parse)
  {
    if t != tweets[0] {
      UnparsableReported(tweets[1..], t, parse);
    }
  }

  /** An ID is among the warnings exactly when some fetched post with that ID has a timestamp that does not parse. */
  lemma {:induction false} OnlyUnparsableReported(tweets: seq<Tweet>, id: string, parse: Parser)
    ensures id in Unparsable(tweets, parse) <==> exists t | t in tweets :: t.id == id && parse(t.createdAt).None?
  {
    if tweets != [] {
      OnlyUnparsableReported(tweets[1..], id, parse);
      assert forall t :: t in tweets <==> t == tweets[0] || t in tweets[1..];
    }
  }

  /** There are never more candidates and warnings together than fetched posts. */
  lemma {:induction false} EachPostJudgedOnce(tweets: seq<Tweet>, parse: Parser, cutoff: int)
    ensures |Candidates(tweets, parse, cutoff)| + |Unparsable(tweets, parse)| <= |tweets|
  {
    if tweets != [] {
      EachPostJudgedOnce(tweets[1..], parse, cutoff);
    }
  }

  /** A post timestamped exactly at the cutoff is kept, never a candidate. */
  lemma AtCutoffKept(tweets: seq<Tweet>, t: Tweet, parse: Parser, cutoff: int)
    requires parse(t.createdAt) == Some(cutoff)
    ensures t !in Candidates(tweets, parse, cutoff)
  {
    CandidateIff(tweets, t, parse, cutoff);
  }

  /**
   * Each selected post occurs among the candidates as often as it was
   * fetched, and no other post occurs at all: one append per selected post.
   */
  lemma {:induction false} CandidateMultiplicity(tweets: seq<Tweet>, t: Tweet, parse: Parser, cutoff: int)
    ensures multiset(Candidates(tweets, parse, cutoff))[t] ==
      if Selected(t, parse, cutoff) then multiset(tweets)[t] else 0
  {
    if tweets != [] {
      CandidateMultiplicity(tweets[1..], t, parse, cutoff);
      assert tweets == [tweets[0]] + tweets[1..];
      assert multiset(tweets) == multiset([tweets[0]]) + multiset(tweets[1..]);
    }
  }

  /** The candidates keep the arrival order: they are a subsequence of the fetched posts. */
  lemma {:induction false} CandidatesSubsequence(tweets: seq<Tweet>, parse: Parser, cutoff: int)
    ensures IsSubsequence(Candidates(tweets, parse, cutoff), tweets)
  {
    if tweets != [] {
      var rest := Candidates(tweets[1..], parse, cutoff);
      CandidatesSubsequence(tweets[1..], parse, cutoff);
      if Selected(tweets[0], parse, cutoff) {
        assert ([tweets[0]] + rest)[1..] == rest;
      } else {
        assert [] + rest == rest;
        SubsequenceSkip(rest, tweets);
      }
    }
  }

  /** A subsequence of the tail of `ys` is a subsequence of `ys`. */
  lemma SubsequenceSkip<T>(xs: seq<T>, ys: seq<T>)
    requires ys != [] && IsSubsequence(xs, ys[1..])
    ensures IsSubsequence(xs, ys)
  {
  }

  /**
   * A post whose timestamp does not parse is left out and does not stop the
   * posts after it from being judged.
   */
  lemma UnparsableSkipped(before: seq<Tweet>, bad: Tweet, after: seq<Tweet>, parse: Parser, cutoff: int)
    requires parse(bad.createdAt).None?
    ensures Candidates(before + [bad] + after, parse, cutoff)
      == Candidates(before, parse, cutoff) + Candidates(after, parse, cutoff)
    ensures Unparsable(before + [bad] + after, parse)
      == Unparsable(before, parse) + [bad.id] + Unparsable(after, parse)
  {
    assert Candidates([bad], parse, cutoff) == [] + Candidates([], parse, cutoff);
    assert Unparsable([bad], parse) == [bad.id] + Unparsable([], parse);
    CandidatesAppend(before + [bad], after, parse, cutoff);
    CandidatesAppend(before, [bad], parse, cutoff);
    UnparsableAppend(before + [bad], after, parse);
    UnparsableAppend(before, [bad], parse);
  }

  /** Filtering the candidates again with the same cutoff selects all of them. */
  lemma {:induction false} CandidatesIdempotent(tweets: seq<Tweet>, parse: Parser, cutoff: int)
    ensures Candidates(Candidates(tweets, parse, cutoff), parse, cutoff) == Candidates(tweets, parse, cutoff)
  {
    if tweets != [] {
      var rest := Candidates(tweets[1..], parse, cutoff);
      CandidatesIdempotent(tweets[1..], parse, cutoff);
      if Selected(tweets[0], parse, cutoff) {
        assert ([tweets[0]] + rest)[1..] == rest;
      } else {
        assert [] + rest == rest;
      }
    }
  }

  /** An earlier cutoff (more years of retention) selects a subsequence of what a later one selects. */
  lemma {:induction false} EarlierCutoffFewerCandidates(tweets: seq<Tweet>, parse: Parser, earlier: int, later: int)
    requires earlier <= later
    ensures IsSubsequence(Candidates(tweets, parse, earlier), Candidates(tweets, parse, later))
  {
    if tweets != [] {
      var t := tweets[0];
      var restE := Candidates(tweets[1..], parse, earlier);
      var restL := Candidates(tweets[1..], parse, later);
      EarlierCutoffFewerCandidates(tweets[1..], parse, earlier, later);
      if Selected(t, parse, earlier) {
        assert ([t] + restE)[1..] == restE && ([t] + restL)[1..] == restL;
      } else if Selected(t, parse, later) {
        assert [] + restE == restE;
        assert ([t] + restL)[1..] == restL;
        SubsequenceSkip(restE, [t] + restL);
      } else {
        assert [] + restE == restE && [] + restL == restL;
      }
    }
  }
}
