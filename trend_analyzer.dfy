/**
 * The trend analyzer: the sample data used when the trend services are
 * unavailable, the accumulation of Reddit topics, the retry loop around
 * Google Trends, and the merge of the three sources. The services
 * themselves, the clock and the random generator are parameters.
 */
module TrendAnalyzer {
  import opened Wrappers
  import opened Text

  /** One point of interest over time; `day` is a day number (days since some epoch). */
  datatype InterestPoint = InterestPoint(day: int, score: int)

  /** The result of `analyze_trends` (and of the sample-data generator); `note` is absent for live data. */
  datatype TrendReport = TrendReport(keyword: string, relatedTopics: seq<string>, risingTrends: seq<string>,
                                     interestOverTime: seq<InterestPoint>, redditTopics: seq<string>,
                                     redditTrends: seq<string>, note: Option<string>)

  // ---------------------------------------------------------------------------
  // Sample data (`get_mock_trend_data`).

  const MockNote := "Sample data - APIs unavailable"

  function MockTopics(keyword: string): seq<string> {
    [keyword + " tips", keyword + " guide", keyword + " tutorial",
     keyword + " examples", keyword + " best practices", keyword + " strategies",
     keyword + " tools", keyword + " resources", keyword + " case studies"]
  }

  function MockTrends(keyword: string): seq<string> {
    ["new " + keyword + " trends", keyword + " 2024", keyword + " latest",
     keyword + " updates", keyword + " innovations", keyword + " future",
     keyword + " predictions", keyword + " developments"]
  }

  /** The score of day `i`: a weekly pattern plus the variation, clamped to [10, 100]. */
  function MockScore(i: nat, variation: int): (score: int)
    ensures 10 <= score <= 100
  {
    var base := 30 + (i % 7) * 5;
    var v := base + variation;
    if v < 10 then 10 else if v > 100 then 100 else v
  }

  /**
   * The 30 points from 30 days before `today` on, one per day; `variation(i)`
   * stands for the `random.randint(-10, 10)` drawn for day `i`.
   */
  function MockInterest(today: int, variation: nat -> int): seq<InterestPoint> {
    seq(30, i requires 0 <= i < 30 => InterestPoint(today - 30 + i, MockScore(i, variation(i))))
  }

  /** The sample data for `keyword`; `today` stands for `datetime.now()`. */
  method MockTrendData(keyword: string, today: int, variation: nat -> int) returns (data: TrendReport)
    ensures data == TrendReport(keyword, MockTopics(keyword), MockTrends(keyword), MockInterest(today, variation),
                                [], [], Some(MockNote))
  {
    var interest: seq<InterestPoint> := [];
    for i := 0 to 30
      invariant |interest| == i
      invariant forall k :: 0 <= k < i ==> interest[k] == InterestPoint(today - 30 + k, MockScore(k, variation(k)))
    {
      var baseScore := 30 + (i % 7) * 5;
      var v := baseScore + variation(i);
      var score := if v < 10 then 10 else if v > 100 then 100 else v;
      interest := interest + [InterestPoint(today - 30 + i, score)];
    }
    data := TrendReport(keyword, MockTopics(keyword), MockTrends(keyword), interest, [], [], Some(MockNote));
  }

  lemma ContainsKeyword(keyword: string, before: string, after: string)
    ensures Contains(before + keyword + after, keyword)
  {
    var s := before + keyword + after;
    assert s[|before|..|before| + |keyword|] == keyword;
    assert OccursAt(s, keyword, |before|);
  }

  lemma StartsWithKeyword(keyword: string, after: string)
    ensures Contains(keyword + after, keyword)
  {
    ContainsKeyword(keyword, "", after);
    assert "" + keyword + after == keyword + after;
  }

  /** Nine sample topics and eight sample trends, each one containing the keyword. */
  lemma MockListsMentionKeyword(keyword: string)
    ensures |MockTopics(keyword)| == 9 && |MockTrends(keyword)| == 8
    ensures forall t <- MockTopics(keyword) :: Contains(t, keyword)
    ensures forall t <- MockTrends(keyword) :: Contains(t, keyword)
  {
    MockTopicsMentionKeyword(keyword);
    MockTrendsMentionKeyword(keyword);
  }

  lemma MockTopicsMentionKeyword(keyword: string)
    ensures forall t <- MockTopics(keyword) :: Contains(t, keyword)
  {
    StartsWithKeyword(keyword, " tips");
    StartsWithKeyword(keyword, " guide");
    StartsWithKeyword(keyword, " tutorial");
    StartsWithKeyword(keyword, " examples");
    StartsWithKeyword(keyword, " best practices");
    StartsWithKeyword(keyword, " strategies");
    StartsWithKeyword(keyword, " tools");
    StartsWithKeyword(keyword, " resources");
    StartsWithKeyword(keyword, " case studies");
  }

  lemma MockTrendsMentionKeyword(keyword: string)
    ensures forall t <- MockTrends(keyword) :: Contains(t, keyword)
  {
    ContainsKeyword(keyword, "new ", " trends");
    StartsWithKeyword(keyword, " 2024");
    StartsWithKeyword(keyword, " latest");
    StartsWithKeyword(keyword, " updates");
    StartsWithKeyword(keyword, " innovations");
    StartsWithKeyword(keyword, " future");
    StartsWithKeyword(keyword, " predictions");
    StartsWithKeyword(keyword, " developments");
  }

  /**
   * The sample interest has 30 points on consecutive days, the first 30
   * days before `today`, each scored within [10, 100] whatever the
   * variation.
   */
  lemma MockInterestShape(today: int, variation: nat -> int)
    ensures |MockInterest(today, variation)| == 30
    ensures MockInterest(today, variation)[0].day == today - 30
    ensures forall i :: 0 < i < 30 ==> MockInterest(today, variation)[i].day == MockInterest(today, variation)[i - 1].day + 1
    ensures forall i :: 0 <= i < 30 ==> 10 <= MockInterest(today, variation)[i].score <= 100
  {
    var points := MockInterest(today, variation);
    forall i | 0 <= i < 30 ensures points[i].day == today - 30 + i && 10 <= points[i].score <= 100 {
      assert points[i] == InterestPoint(today - 30 + i, MockScore(i, variation(i)));
    }
  }

  /**
   * With a variation drawn from [-10, 10], as `random.randint(-10, 10)` does,
   * the clamp never applies: the score is the weekly pattern plus the
   * variation, between 20 and 70.
   */
  lemma ClampInactive(i: nat, variation: int)
    requires -10 <= variation <= 10
    ensures MockScore(i, variation) == 30 + (i % 7) * 5 + variation
    ensures 20 <= MockScore(i, variation) <= 70
  {
    assert 0 <= i % 7 <= 6;
  }

  // ---------------------------------------------------------------------------
  // Reddit (`get_reddit_trends`).

  const Subreddits: seq<string> := ["technology", "programming", "startups", "entrepreneur",
                                    "business", "marketing", "artificial", "MachineLearning",
                                    "datascience", "webdev", "productivity", "innovation"]

  /** The topics and the trend lines collected so far. */
  datatype RedditData = RedditData(topics: seq<string>, trends: seq<string>)

  /** A post of the search over all subreddits. */
  datatype BroadPost = BroadPost(subreddit: string, title: string)

  /** A title as a topic: cut to 100 characters plus "..." when longer. */
  function Topic(title: string): string {
    if |title| > 100 then title[..100] + "..." else title
  }

  /** A trend line: the subreddit and the title's first 80 characters. */
  function TrendLine(subreddit: string, title: string): string {
    "r/" + subreddit + ": " + Take(title, 80)
  }

  /** The inner loop over one subreddit's results, which stops once five topics are collected. */
  function SearchSubreddit(acc: RedditData, name: string, results: seq<string>): RedditData
    decreases |results|
  {
    if results == [] then acc
    else
      var next := RedditData(acc.topics + [Topic(results[0])], acc.trends + [TrendLine(name, results[0])]);
      if |next.topics| >= 5 then next else SearchSubreddit(next, name, results[1..])
  }

  /** The outer loop over the subreddits; `search(name)` is what the hot search yields (limit 3). */
  function SearchSubreddits(acc: RedditData, names: seq<string>, search: string -> seq<string>): RedditData
    decreases |names|
  {
    if names == [] then acc
    else SearchSubreddits(SearchSubreddit(acc, names[0], Take(search(names[0]), 3)), names[1..], search)
  }

  /** The fallback over all subreddits (limit 5). */
  function BroadSearch(acc: RedditData, posts: seq<BroadPost>): RedditData
    decreases |posts|
  {
    if posts == [] then acc
    else
      var p := posts[0];
      BroadSearch(RedditData(acc.topics + [Topic(p.title)], acc.trends + [TrendLine(p.subreddit, p.title)]), posts[1..])
  }

  /**
   * What the Reddit fetch returns. `client` is false when the client
   * cannot be created (both lists are then empty); a search that fails part
   * way is modelled by the shorter list of what it yielded.
   */
  function RedditTrends(client: bool, search: string -> seq<string>, broad: seq<BroadPost>): RedditData {
    if !client then RedditData([], [])
    else
      var found := SearchSubreddits(RedditData([], []), Take(Subreddits, 5), search);
      if found.topics == [] then BroadSearch(found, Take(broad, 5)) else found
  }

  /** `get_reddit_trends`, with its nested loops and the early exit from the inner one. */
  method GetRedditTrends(client: bool, search: string -> seq<string>, broad: seq<BroadPost>)
    returns (data: RedditData)
    ensures data == RedditTrends(client, search, broad)
  {
    if !client {
      return RedditData([], []);
    }
    var topics: seq<string> := [];
    var trends: seq<string> := [];
    var names := Take(Subreddits, 5);
    for s := 0 to |names|
      invariant SearchSubreddits(RedditData(topics, trends), names[s..], search)
        == SearchSubreddits(RedditData([], []), names, search)
    {
      var name := names[s];
      var results := Take(search(name), 3);
      assert names[s..][1..] == names[s + 1..];
      ghost var goal := SearchSubreddit(RedditData(topics, trends), name, results);
      var k := 0;
      while k < |results|
        invariant k <= |results|
        invariant SearchSubreddit(RedditData(topics, trends), name, results[k..]) == goal
        decreases |results| - k
      {
        var title := results[k];
        assert results[k..][1..] == results[k + 1..];
        topics := topics + [Topic(title)];
        trends := trends + [TrendLine(name, title)];
        if |topics| >= 5 {
          break;
        }
        k := k + 1;
      }
    }
    if topics == [] {
      var posts := Take(broad, 5);
      for k := 0 to |posts|
        invariant BroadSearch(RedditData(topics, trends), posts[k..]) == RedditTrends(client, search, broad)
      {
        var post := posts[k];
        assert posts[k..][1..] == posts[k + 1..];
        topics := topics + [Topic(post.title)];
        trends := trends + [TrendLine(post.subreddit, post.title)];
      }
    }
    data := RedditData(topics, trends);
  }

  /** The most topics the subreddit loop can reach from `collected` topics with `remaining` subreddits to go. */
  function MaxTopics(collected: nat, remaining: nat): nat
    decreases remaining
  {
    if remaining == 0 then collected
    else if collected >= 5 then collected + remaining
    else MaxTopics(if collected + 3 < 5 then collected + 3 else 5, remaining - 1)
  }

  /**
   * One subreddit adds its results while fewer than five topics are
   * collected and never goes past five that way; once five are collected
   * it still adds its first result before the check stops it.
   */
  lemma {:induction false} SubredditCount(acc: RedditData, name: string, results: seq<string>)
    ensures var n, r := |acc.topics|, |SearchSubreddit(acc, name, results).topics|;
      r == if results == [] then n
           else if n >= 5 then n + 1
           else if n + |results| < 5 then n + |results|
           else 5
    ensures |SearchSubreddit(acc, name, results).topics| - |acc.topics|
         == |SearchSubreddit(acc, name, results).trends| - |acc.trends|
    decreases |results|
  {
    if results != [] {
      var next := RedditData(acc.topics + [Topic(results[0])], acc.trends + [TrendLine(name, results[0])]);
      if |next.topics| < 5 {
        SubredditCount(next, name, results[1..]);
      }
    }
  }

  /**
   * The subreddit loop collects at most `MaxTopics` topics, exactly that many
   * when every search yields its three results, and as many trend lines as
   * topics.
   */
  lemma {:induction false} SubredditsCount(acc: RedditData, names: seq<string>, search: string -> seq<string>)
    ensures |SearchSubreddits(acc, names, search).topics| <= MaxTopics(|acc.topics|, |names|)
    ensures (forall k :: 0 <= k < |names| ==> |search(names[k])| >= 3) ==>
      |SearchSubreddits(acc, names, search).topics| == MaxTopics(|acc.topics|, |names|)
    ensures |SearchSubreddits(acc, names, search).topics| - |acc.topics|
         == |SearchSubreddits(acc, names, search).trends| - |acc.trends|
    decreases |names|
  {
    if names != [] {
      var results := Take(search(names[0]), 3);
      var next := SearchSubreddit(acc, names[0], results);
      SubredditCount(acc, names[0], results);
      SubredditsCount(next, names[1..], search);
      if |acc.topics| < 5 {
        MaxTopicsMonotone(|next.topics|, if |acc.topics| + 3 < 5 then |acc.topics| + 3 else 5, |names| - 1);
      }
      if forall k :: 0 <= k < |names| ==> |search(names[k])| >= 3 {
        assert |search(names[0])| >= 3;
        forall k | 0 <= k < |names[1..]| ensures |search(names[1..][k])| >= 3 {
          assert names[1..][k] == names[k + 1];
        }
      }
    }
  }

  lemma {:induction false} MaxTopicsMonotone(a: nat, b: nat, remaining: nat)
    requires a <= b
    ensures MaxTopics(a, remaining) <= MaxTopics(b, remaining)
    decreases remaining
  {
    if remaining > 0 && a < 5 {
      var a', b' := if a + 3 < 5 then a + 3 else 5, if b + 3 < 5 then b + 3 else 5;
      if b < 5 {
        MaxTopicsMonotone(a', b', remaining - 1);
      } else {
        MaxTopicsMonotone(a', 5, remaining - 1);
        assert MaxTopics(5, remaining - 1) == 5 + remaining - 1;
      }
    }
  }

  lemma {:induction false} BroadCount(acc: RedditData, posts: seq<BroadPost>)
    ensures |BroadSearch(acc, posts).topics| == |acc.topics| + |posts|
    ensures |BroadSearch(acc, posts).trends| == |acc.trends| + |posts|
    decreases |posts|
  {
    if posts != [] {
      var p := posts[0];
      BroadCount(RedditData(acc.topics + [Topic(p.title)], acc.trends + [TrendLine(p.subreddit, p.title)]), posts[1..]);
    }
  }

  /**
   * The Reddit lists always have the same length. The five-topic check
   * leaves only the current subreddit, so up to eight topics come back,
   * and exactly eight when each of the first five subreddits yields three
   * posts.
   */
  lemma RedditCounts(client: bool, search: string -> seq<string>, broad: seq<BroadPost>)
    ensures |RedditTrends(client, search, broad).topics| == |RedditTrends(client, search, broad).trends|
    ensures |RedditTrends(client, search, broad).topics| <= 8
    ensures client && (forall k :: 0 <= k < 5 ==> |search(Subreddits[k])| >= 3) ==>
      |RedditTrends(client, search, broad).topics| == 8
  {
    var names := Take(Subreddits, 5);
    assert |names| == 5;
    var empty := RedditData([], []);
    SubredditsCount(empty, names, search);
    assert MaxTopics(0, 5) == 8;
    var found := SearchSubreddits(empty, names, search);
    if client && found.topics == [] {
      BroadCount(found, Take(broad, 5));
    }
  }

  /** The subreddit loop depends on the searches of the listed subreddits only. */
  lemma {:induction false} SubredditsSearched(acc: RedditData, names: seq<string>, search: string -> seq<string>,
                                              search': string -> seq<string>)
    requires forall k :: 0 <= k < |names| ==> search(names[k]) == search'(names[k])
    ensures SearchSubreddits(acc, names, search) == SearchSubreddits(acc, names, search')
    decreases |names|
  {
    if names != [] {
      var next := SearchSubreddit(acc, names[0], Take(search(names[0]), 3));
      forall k | 0 <= k < |names[1..]| ensures search(names[1..][k]) == search'(names[1..][k]) {
        assert names[1..][k] == names[k + 1];
      }
      SubredditsSearched(next, names[1..], search, search');
    }
  }

  /** Only the first five subreddits are searched: searches of the others make no difference. */
  lemma OnlyFirstFiveSearched(client: bool, search: string -> seq<string>, search': string -> seq<string>,
                              broad: seq<BroadPost>)
    requires forall k :: 0 <= k < 5 ==> search(Subreddits[k]) == search'(Subreddits[k])
    ensures RedditTrends(client, search, broad) == RedditTrends(client, search', broad)
  {
    var names := Take(Subreddits, 5);
    assert forall k :: 0 <= k < |names| ==> names[k] == Subreddits[k];
    SubredditsSearched(RedditData([], []), names, search, search');
  }

  /** A topic is the title when it has at most 100 characters, else its first 100 followed by "...". */
  lemma TopicTruncation(title: string)
    ensures |title| <= 100 ==> Topic(title) == title
    ensures |title| > 100 ==> |Topic(title)| == 103 && Topic(title)[..100] == title[..100] && Topic(title)[100..] == "..."
  {
  }

  /** A trend line carries the whole title when it has at most 80 characters, else its first 80. */
  lemma TrendLineTruncation(subreddit: string, title: string)
    ensures TrendLine(subreddit, title)[..|subreddit| + 4] == "r/" + subreddit + ": "
    ensures |title| <= 80 ==> TrendLine(subreddit, title)[|subreddit| + 4..] == title
    ensures |title| > 80 ==> TrendLine(subreddit, title)[|subreddit| + 4..] == title[..80]
  {
    var head := "r/" + subreddit + ": ";
    assert |head| == |subreddit| + 4;
    assert TrendLine(subreddit, title) == head + Take(title, 80);
  }

  // ---------------------------------------------------------------------------
  // Google Trends (`try_google_trends_with_retry`).

  /** One row of the interest table: its day, and its value when `int(...)` accepts it. */
  datatype InterestRow = InterestRow(day: int, value: Option<int>)

  /**
   * What one attempt produced: it raised before collecting anything, or it
   * got the top and rising query columns and the interest rows (each empty
   * when its part failed or was missing).
   */
  datatype Attempt = Raised | Answered(top: seq<string>, rising: seq<string>, rows: seq<InterestRow>)

  datatype GoogleData = GoogleData(keyword: string, relatedTopics: seq<string>, risingTrends: seq<string>,
                                   interestOverTime: seq<InterestPoint>)

  /** The interest points of the rows whose value converts, in order. */
  function Interest(rows: seq<InterestRow>): seq<InterestPoint>
    decreases |rows|
  {
    if rows == [] then []
    else
      var row := rows[|rows| - 1];
      Interest(rows[..|rows| - 1]) + (if row.value.Some? then [InterestPoint(row.day, row.value.value)] else [])
  }

  /** The loop over the rows, skipping those whose value does not convert. */
  method ReadInterest(rows: seq<InterestRow>) returns (points: seq<InterestPoint>)
    ensures points == Interest(rows)
  {
    points := [];
    for k := 0 to |rows|
      invariant points == Interest(rows[..k])
    {
      assert rows[..k + 1][..k] == rows[..k];
      var row := rows[k];
      if row.value.Some? {
        points := points + [InterestPoint(row.day, row.value.value)];
      }
    }
    assert rows[..|rows|] == rows;
  }

  /** The interest is empty exactly when no row converts. */
  lemma {:induction false} InterestEmpty(rows: seq<InterestRow>)
    ensures Interest(rows) == [] <==> forall k :: 0 <= k < |rows| ==> rows[k].value.None?
    decreases |rows|
  {
    if rows != [] {
      var init := rows[..|rows| - 1];
      InterestEmpty(init);
      assert forall k :: 0 <= k < |init| ==> init[k] == rows[k];
    }
  }

  /** The data of an answered attempt: the first five related and rising queries, and the interest. */
  function AttemptData(keyword: string, a: Attempt): GoogleData
    requires a.Answered?
  {
    GoogleData(keyword, Take(a.top, 5), Take(a.rising, 5), Interest(a.rows))
  }

  /** An attempt succeeds when it answered with at least one non-empty list. */
  predicate Succeeds(keyword: string, a: Attempt) {
    a.Answered? && (AttemptData(keyword, a).relatedTopics != [] || AttemptData(keyword, a).risingTrends != []
                    || AttemptData(keyword, a).interestOverTime != [])
  }

  /**
   * The retry loop; `attempt(k)` is what attempt `k` produced. It returns
   * the data of the first successful attempt among the first `maxRetries`
   * ones, and nothing when none succeeds.
   */
  method TryGoogleTrends(keyword: string, attempt: nat -> Attempt, maxRetries: nat) returns (r: Option<GoogleData>)
    ensures r.None? <==> forall k :: 0 <= k < maxRetries ==> !Succeeds(keyword, attempt(k))
    ensures r.Some? ==>
      (exists k :: 0 <= k < maxRetries && Succeeds(keyword, attempt(k)) &&
         (forall m :: 0 <= m < k ==> !Succeeds(keyword, attempt(m))) && r.value == AttemptData(keyword, attempt(k)))
    ensures r.Some? ==> r.value.relatedTopics != [] || r.value.risingTrends != [] || r.value.interestOverTime != []
  {
    for k := 0 to maxRetries
      invariant forall m :: 0 <= m < k ==> !Succeeds(keyword, attempt(m))
    {
      var a := attempt(k);
      if a.Answered? {
        var related := Take(a.top, 5);
        var rising := Take(a.rising, 5);
        var interest := ReadInterest(a.rows);
        if related != [] || rising != [] || interest != [] {
          return Some(GoogleData(keyword, related, rising, interest));
        }
      }
    }
    return None;
  }

  // ---------------------------------------------------------------------------
  // The merge (`analyze_trends`).

  /**
   * `analyze_trends` with the Reddit lists and the Google data as values.
   * With Google data, each empty query list is replaced by its sample list;
   * without, the sample data is returned with the Reddit lists put in.
   */
  method AnalyzeTrends(keyword: string, reddit: RedditData, google: Option<GoogleData>, today: int,
                       variation: nat -> int) returns (result: TrendReport)
    ensures result.keyword == keyword
    ensures result.relatedTopics != [] && result.risingTrends != []
    ensures result.redditTopics == reddit.topics && result.redditTrends == reddit.trends
    ensures google.Some? ==>
      result.relatedTopics == (if google.value.relatedTopics != [] then google.value.relatedTopics else MockTopics(keyword)) &&
      result.risingTrends == (if google.value.risingTrends != [] then google.value.risingTrends else MockTrends(keyword)) &&
      result.interestOverTime == google.value.interestOverTime && result.note.None?
    ensures google.None? ==>
      result.relatedTopics == MockTopics(keyword) && result.risingTrends == MockTrends(keyword) &&
      result.interestOverTime == MockInterest(today, variation) && result.note == Some(MockNote)
  {
    if google.Some? {
      var g := google.value;
      result := TrendReport(keyword, g.relatedTopics, g.risingTrends, g.interestOverTime, reddit.topics, reddit.trends, None);
      if result.relatedTopics == [] || result.risingTrends == [] {
        var mock := MockTrendData(keyword, today, variation);
        if result.relatedTopics == [] {
          result := result.(relatedTopics := mock.relatedTopics);
        }
        if result.risingTrends == [] {
          result := result.(risingTrends := mock.risingTrends);
        }
      }
    } else {
      var mock := MockTrendData(keyword, today, variation);
      mock := mock.(redditTopics := reddit.topics);
      mock := mock.(redditTrends := reddit.trends);
      result := mock;
    }
  }
}
