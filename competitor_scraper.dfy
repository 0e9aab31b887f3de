/**
 * The statistics part of the competitor scraper: one record per post found
 * on the page, the average title length, the posting-frequency estimate and
 * the five most frequent title keywords. The page itself is abstracted to
 * the (title, link, date) triples extracted from its post elements.
 */
module CompetitorScraper {
  import opened Wrappers
  import opened Text

  // ---------------------------------------------------------------------------
  // Data.

  /** What was extracted from one post element; each part may be missing. */
  datatype Candidate = Candidate(title: Option<string>, link: Option<string>, date: Option<string>)

  /** One entry of the `posts` list of the report. */
  datatype PostRecord = PostRecord(title: string, url: string, date: Option<string>)

  /** The posting-frequency estimate: posts over the span in whole days (at least 1). */
  datatype Frequency = Unknown | PerDay(posts: nat, days: nat) | PerWeek(posts: nat, days: nat)

  datatype Report = Report(totalPosts: nat, avgTitleLength: nat, estimatedFrequency: Frequency,
                           topKeywords: seq<string>, posts: seq<PostRecord>)

  /** What the scraper returns: an error object, or the report. */
  datatype ScrapeResult = Failed(error: string) | Scraped(report: Report)

  /** Python truthiness of an optional string. */
  predicate Present(v: Option<string>) {
    v.Some? && v.value != ""
  }

  /** The record of one candidate: `title or ""`, `link or url`, `date or None`. */
  function Record(url: string, c: Candidate): PostRecord {
    PostRecord(c.title.GetOr(""),
               if Present(c.link) then c.link.value else url,
               if Present(c.date) then c.date else None)
  }

  /** The records of all candidates, in order. */
  function Records(url: string, candidates: seq<Candidate>): seq<PostRecord> {
    seq(|candidates|, k requires 0 <= k < |candidates| => Record(url, candidates[k]))
  }

  /** The runs of word characters of the lowercased title when there is one, and nothing otherwise. */
  function WordsOf(c: Candidate): seq<string> {
    if Present(c.title) then WordRuns(Lower(c.title.value)) else []
  }

  /** The words of the candidates' titles, in order. */
  function TitleWords(candidates: seq<Candidate>): seq<string>
    decreases |candidates|
  {
    if candidates == [] then []
    else TitleWords(candidates[..|candidates| - 1]) + WordsOf(candidates[|candidates| - 1])
  }

  /**
   * The date of a candidate when it is present and parses; `parseDate`
   * stands for `datetime.fromisoformat` on the first 19 characters and
   * gives the instant in seconds, or `None` when it raises.
   */
  function DateOf(c: Candidate, parseDate: string -> Option<int>): seq<int> {
    if Present(c.date) then
      var parsed := parseDate(Take(c.date.value, 19));
      if parsed.Some? then [parsed.value] else []
    else []
  }

  /** The dates that parse, in order. */
  function ParsedDates(candidates: seq<Candidate>, parseDate: string -> Option<int>): seq<int>
    decreases |candidates|
  {
    if candidates == [] then []
    else ParsedDates(candidates[..|candidates| - 1], parseDate) + DateOf(candidates[|candidates| - 1], parseDate)
  }

  /** The loop over the post elements: it builds the records, the title words and the dates together. */
  method ExtractPosts(url: string, candidates: seq<Candidate>, parseDate: string -> Option<int>)
    returns (posts: seq<PostRecord>, titleWords: seq<string>, dates: seq<int>)
    ensures posts == Records(url, candidates)
    ensures titleWords == TitleWords(candidates)
    ensures dates == ParsedDates(candidates, parseDate)
  {
    posts, titleWords, dates := [], [], [];
    for i := 0 to |candidates|
      invariant posts == Records(url, candidates[..i])
      invariant titleWords == TitleWords(candidates[..i])
      invariant dates == ParsedDates(candidates[..i], parseDate)
    {
      var c := candidates[i];
      ExtractStep(url, candidates, parseDate, i);
      if Present(c.title) {
        titleWords := titleWords + WordRuns(Lower(c.title.value));
      } else {
        assert WordsOf(c) == [];
      }
      posts := posts + [Record(url, c)];
      if Present(c.date) {
        var parsed := parseDate(Take(c.date.value, 19));
        if parsed.Some? {
          dates := dates + [parsed.value];
        } else {
          assert DateOf(c, parseDate) == [];
        }
      } else {
        assert DateOf(c, parseDate) == [];
      }
    }
    assert candidates[..|candidates|] == candidates;
  }

  lemma ExtractStep(url: string, candidates: seq<Candidate>, parseDate: string -> Option<int>, i: nat)
    requires i < |candidates|
    ensures Records(url, candidates[..i + 1]) == Records(url, candidates[..i]) + [Record(url, candidates[i])]
    ensures TitleWords(candidates[..i + 1]) == TitleWords(candidates[..i]) + WordsOf(candidates[i])
    ensures ParsedDates(candidates[..i + 1], parseDate) == ParsedDates(candidates[..i], parseDate) + DateOf(candidates[i], parseDate)
  {
    assert candidates[..i + 1][..i] == candidates[..i];
  }

  // ---------------------------------------------------------------------------
  // Average title length.

  /** Total number of whitespace-separated words over the records' titles. */
  function TitleWordTotal(posts: seq<PostRecord>): nat
    decreases |posts|
  {
    if posts == [] then 0 else TitleWordTotal(posts[..|posts| - 1]) + |Fields(posts[|posts| - 1].title)|
  }

  /** `int(total / len(posts))`, or 0 when there are no posts. */
  function AvgTitleLength(posts: seq<PostRecord>): nat {
    if |posts| == 0 then 0 else TitleWordTotal(posts) / |posts|
  }

  /** The average is the integer part of the mean: 0 without posts, otherwise truncated. */
  lemma AvgTitleLengthTruncates(posts: seq<PostRecord>)
    ensures |posts| == 0 ==> AvgTitleLength(posts) == 0
    ensures |posts| > 0 ==>
      AvgTitleLength(posts) * |posts| <= TitleWordTotal(posts) < (AvgTitleLength(posts) + 1) * |posts|
  {
    if |posts| > 0 {
      DivBounds(TitleWordTotal(posts), |posts|);
    }
  }

  /** Integer division rounds down. */
  lemma DivBounds(t: nat, n: nat)
    requires n > 0
    ensures (t / n) * n <= t < (t / n + 1) * n
  {
    var q, r := t / n, t % n;
    assert t == q * n + r;
    assert (q + 1) * n == q * n + n;
  }

  // ---------------------------------------------------------------------------
  // Posting frequency.

  predicate Sorted(s: seq<int>) {
    forall i, j :: 0 <= i < j < |s| ==> s[i] <= s[j]
  }

  /** `dates.sort()`: insertion sort by adjacent swaps. */
  method SortDates(a: array<int>)
    modifies a
    ensures Sorted(a[..])
    ensures multiset(a[..]) == multiset(old(a[..]))
  {
    for i := 0 to a.Length
      invariant Sorted(a[..i])
      invariant multiset(a[..]) == multiset(old(a[..]))
    {
      InsertDate(a, i);
    }
    assert a[..a.Length] == a[..];
  }

  /** Moves `a[i]` down into the sorted prefix `a[..i]`. */
  method InsertDate(a: array<int>, i: nat)
    requires i < a.Length && Sorted(a[..i])
    modifies a
    ensures Sorted(a[..i + 1])
    ensures multiset(a[..]) == multiset(old(a[..]))
    ensures a[i + 1..] == old(a[i + 1..])
  {
    var j := i;
    assert Sinking(a[..], i, j);
    while 0 < j && a[j - 1] > a[j]
      invariant 0 <= j <= i < a.Length
      invariant Sinking(a[..], i, j)
      invariant multiset(a[..]) == multiset(old(a[..]))
      invariant a[i + 1..] == old(a[i + 1..])
    {
      ghost var before := a[..];
      a[j - 1], a[j] := a[j], a[j - 1];
      assert a[..] == Swap(before, j - 1);
      SwapSinks(before, i, j);
      j := j - 1;
    }
    SunkSorted(a[..], i, j);
  }

  /**
   * `s[..i + 1]` while `s[j]` sinks: sorted apart from `s[j]`, which is at
   * most every element after it.
   */
  predicate Sinking(s: seq<int>, i: nat, j: nat)
    requires j <= i < |s|
  {
    (forall p, q :: 0 <= p < q <= i && p != j && q != j ==> s[p] <= s[q]) &&
    (forall q :: j < q <= i ==> s[j] <= s[q])
  }

  /** `s` with the elements at `k` and `k + 1` exchanged. */
  function Swap(s: seq<int>, k: nat): (t: seq<int>)
    requires k + 1 < |s|
    ensures |t| == |s|
  {
    s[k := s[k + 1]][k + 1 := s[k]]
  }

  lemma SwapSinks(s: seq<int>, i: nat, j: nat)
    requires 0 < j <= i < |s| && Sinking(s, i, j) && s[j - 1] > s[j]
    ensures Sinking(Swap(s, j - 1), i, j - 1)
    ensures multiset(Swap(s, j - 1)) == multiset(s)
  {
  }

  lemma SunkSorted(s: seq<int>, i: nat, j: nat)
    requires j <= i < |s| && Sinking(s, i, j) && (j == 0 || s[j - 1] <= s[j])
    ensures Sorted(s[..i + 1])
  {
  }

  /** The earliest instant of a non-empty list. */
  function Earliest(s: seq<int>): (m: int)
    requires s != []
    decreases |s|
  {
    if |s| == 1 then s[0]
    else
      var m := Earliest(s[..|s| - 1]);
      if s[|s| - 1] < m then s[|s| - 1] else m
  }

  /** The latest instant of a non-empty list. */
  function Latest(s: seq<int>): (m: int)
    requires s != []
    decreases |s|
  {
    if |s| == 1 then s[0]
    else
      var m := Latest(s[..|s| - 1]);
      if s[|s| - 1] > m then s[|s| - 1] else m
  }

  /** `Earliest` and `Latest` are the least and the greatest element. */
  lemma {:induction false} EarliestLatest(s: seq<int>)
    requires s != []
    ensures Earliest(s) in s && Latest(s) in s
    ensures forall k :: 0 <= k < |s| ==> Earliest(s) <= s[k] <= Latest(s)
    decreases |s|
  {
    if |s| > 1 {
      var init := s[..|s| - 1];
      EarliestLatest(init);
      assert forall k :: 0 <= k < |init| ==> init[k] == s[k];
    }
  }

  /** After sorting, the first date is the earliest and the last the latest. */
  lemma SortedEnds(s: seq<int>, t: seq<int>)
    requires s != [] && Sorted(t) && multiset(t) == multiset(s)
    ensures t[0] == Earliest(s) && t[|t| - 1] == Latest(s)
  {
    EarliestLatest(s);
    assert |t| == |s| by {
      assert |multiset(t)| == |multiset(s)|;
    }
    assert t[0] in multiset(s) && t[|t| - 1] in multiset(s);
    assert Earliest(s) in multiset(t) && Latest(s) in multiset(t);
  }

  /** Whole days in a span of seconds, as `timedelta.days`, with `or 1` for a zero. */
  function SpanDays(seconds: nat): (d: nat) {
    var days := seconds / 86400;
    if days == 0 then 1 else days
  }

  /** The estimate, with the span taken from the earliest to the latest date. */
  function EstimatedFrequency(totalPosts: nat, dates: seq<int>): Frequency {
    if |dates| > 1 then
      EarliestLatest(dates);
      var days := SpanDays(Latest(dates) - Earliest(dates));
      if totalPosts >= days then PerDay(totalPosts, days) else PerWeek(totalPosts, days)
    else Unknown
  }

  /**
   * Lines 67-77 of backend/services/competitor_scraper.py: sort the dates,
   * then measure the span between the first and the last one.
   */
  method EstimateFrequency(totalPosts: nat, dates: seq<int>) returns (f: Frequency)
    ensures f == EstimatedFrequency(totalPosts, dates)
  {
    if |dates| > 1 {
      var a := new int[|dates|](k requires 0 <= k < |dates| => dates[k]);
      assert a[..] == dates;
      SortDates(a);
      SortedEnds(dates, a[..]);
      var span := a[a.Length - 1] - a[0];
      var days := span / 86400;
      if days == 0 {
        days := 1;
      }
      if totalPosts >= days {
        f := PerDay(totalPosts, days);
      } else {
        f := PerWeek(totalPosts, days);
      }
    } else {
      f := Unknown;
    }
  }

  /**
   * The estimate is "Unknown" exactly when fewer than two dates parsed;
   * otherwise it counts all posts over a span of at least one day, the
   * span rounded down to whole days, and it is per day exactly when there
   * is at least one post per day.
   */
  lemma FrequencyRules(totalPosts: nat, dates: seq<int>)
    ensures EstimatedFrequency(totalPosts, dates) == Unknown <==> |dates| < 2
    ensures EstimatedFrequency(totalPosts, dates) != Unknown ==>
      var f := EstimatedFrequency(totalPosts, dates);
      var span := Latest(dates) - Earliest(dates);
      f.posts == totalPosts && f.days >= 1 &&
      span < (f.days + 1) * 86400 && (span >= 86400 ==> f.days * 86400 <= span) &&
      (f.PerDay? <==> totalPosts >= f.days)
  {
    if |dates| > 1 {
      EarliestLatest(dates);
      var span := Latest(dates) - Earliest(dates);
      assert span == (span / 86400) * 86400 + span % 86400;
    }
  }

  // ---------------------------------------------------------------------------
  // Keywords.

  const Stopwords: set<string> := {"the", "and", "of", "to", "in", "a", "for", "on", "with", "at", "by",
                                   "an", "is", "from", "as", "it", "that", "this", "be", "are", "was",
                                   "or", "but", "not", "your", "you", "we", "our"}

  predicate IsKeyword(w: string) {
    w !in Stopwords && |w| > 2
  }

  /** The title words kept as keywords, in order. */
  function Keywords(words: seq<string>): seq<string>
    decreases |words|
  {
    if words == [] then []
    else
      var w := words[|words| - 1];
      Keywords(words[..|words| - 1]) + (if IsKeyword(w) then [w] else [])
  }

  /** Every keyword keeps its number of occurrences; every other word is dropped. */
  lemma {:induction false} KeywordsCounted(words: seq<string>)
    ensures forall w :: multiset(Keywords(words))[w] == if IsKeyword(w) then multiset(words)[w] else 0
    decreases |words|
  {
    if words != [] {
      var init, w := words[..|words| - 1], words[|words| - 1];
      assert words == init + [w];
      KeywordsCounted(init);
    }
  }

  /** A word is a keyword of the titles exactly when it is a title word, no stop word, and longer than two. */
  lemma KeywordsExactly(words: seq<string>)
    ensures forall w :: w in Keywords(words) <==> w in words && w !in Stopwords && |w| > 2
  {
    KeywordsCounted(words);
    forall w ensures w in Keywords(words) <==> w in words && IsKeyword(w) {
      assert w in Keywords(words) <==> multiset(Keywords(words))[w] > 0;
      assert w in words <==> multiset(words)[w] > 0;
    }
  }

  // ---------------------------------------------------------------------------
  // `Counter(keywords).most_common(5)`.

  /** Index of the first occurrence of `w`, or `|words|` when it does not occur. */
  function FirstIndex(words: seq<string>, w: string): (i: nat)
    ensures i <= |words|
    ensures i < |words| ==> words[i] == w
    ensures forall k :: 0 <= k < i ==> words[k] != w
    decreases |words|
  {
    if words == [] then 0
    else if w in words[..|words| - 1] then FirstIndex(words[..|words| - 1], w)
    else if words[|words| - 1] == w then |words| - 1
    else |words|
  }

  /** The keys of the counter: the distinct words, in order of first occurrence. */
  function Distinct(words: seq<string>): seq<string>
    decreases |words|
  {
    if words == [] then []
    else
      var w := words[|words| - 1];
      Distinct(words[..|words| - 1]) + (if w in words[..|words| - 1] then [] else [w])
  }

  /** The distinct words are the words. */
  lemma {:induction false} DistinctMembers(words: seq<string>)
    ensures forall w :: w in Distinct(words) <==> w in words
    decreases |words|
  {
    if words != [] {
      var init := words[..|words| - 1];
      DistinctMembers(init);
      assert words == init + [words[|words| - 1]];
    }
  }

  /** Appending a word does not move the first occurrence of a word already there. */
  lemma FirstIndexInit(words: seq<string>, x: string)
    requires words != [] && x in words[..|words| - 1]
    ensures FirstIndex(words, x) == FirstIndex(words[..|words| - 1], x)
  {
  }

  /** The distinct words are listed in order of first occurrence. */
  lemma {:induction false} DistinctOrder(words: seq<string>)
    ensures forall i, j :: 0 <= i < j < |Distinct(words)| ==>
      FirstIndex(words, Distinct(words)[i]) < FirstIndex(words, Distinct(words)[j])
    decreases |words|
  {
    if words != [] {
      var init, w := words[..|words| - 1], words[|words| - 1];
      DistinctOrder(init);
      DistinctMembers(init);
      var d := Distinct(init);
      forall i | 0 <= i < |d| ensures FirstIndex(words, d[i]) == FirstIndex(init, d[i]) < |init| {
        assert d[i] in init;
        FirstIndexInit(words, d[i]);
      }
      if w !in init {
        assert FirstIndex(words, w) == |init|;
      }
    }
  }

  /**
   * `a` comes before `b` in the ranking by `count` with ties broken by
   * `pos`: more occurrences, or as many and an earlier position.
   */
  predicate Before(count: string -> nat, pos: string -> nat, a: string, b: string) {
    count(a) > count(b) || (count(a) == count(b) && pos(a) < pos(b))
  }

  predicate RankedBy(count: string -> nat, pos: string -> nat, r: seq<string>) {
    forall i, j :: 0 <= i < j < |r| ==> Before(count, pos, r[i], r[j])
  }

  /** Stable insertion by descending count: `x` goes after every key counted at least as often. */
  function Insert(count: string -> nat, x: string, r: seq<string>): seq<string>
    decreases |r|
  {
    if r == [] then [x]
    else if count(x) > count(r[0]) then [x] + r
    else [r[0]] + Insert(count, x, r[1..])
  }

  /** A stable sort of `keys` by descending count (what `most_common` does). */
  function Rank(count: string -> nat, keys: seq<string>): seq<string>
    decreases |keys|
  {
    if keys == [] then [] else Insert(count, keys[|keys| - 1], Rank(count, keys[..|keys| - 1]))
  }

  /** `Counter(words).most_common(n)`, keys only. */
  function MostCommon(words: seq<string>, n: nat): seq<string> {
    Take(Rank(w => Count(words, w), Distinct(words)), n)
  }

  /** A key that comes before every key of a ranking can be put in front of it. */
  lemma ConsRanked(count: string -> nat, pos: string -> nat, y: string, r: seq<string>)
    requires RankedBy(count, pos, r)
    requires forall z :: z in r ==> Before(count, pos, y, z)
    ensures RankedBy(count, pos, [y] + r)
  {
    var s := [y] + r;
    forall i, j | 0 <= i < j < |s| ensures Before(count, pos, s[i], s[j]) {
      assert s[j] == r[j - 1];
      if i > 0 {
        assert s[i] == r[i - 1];
      }
    }
  }

  /** Insertion adds just the inserted key. */
  lemma {:induction false} InsertMultiset(count: string -> nat, x: string, r: seq<string>)
    ensures multiset(Insert(count, x, r)) == multiset(r) + multiset{x}
    decreases |r|
  {
    if r != [] && count(x) <= count(r[0]) {
      InsertMultiset(count, x, r[1..]);
      assert r == [r[0]] + r[1..];
    }
  }

  /** The keys after the first of a ranking are ranked too, and come after the first. */
  lemma TailRanked(count: string -> nat, pos: string -> nat, r: seq<string>)
    requires r != [] && RankedBy(count, pos, r)
    ensures RankedBy(count, pos, r[1..])
    ensures forall z :: z in r[1..] ==> Before(count, pos, r[0], z)
  {
    var tail := r[1..];
    forall i, j | 0 <= i < j < |tail| ensures Before(count, pos, tail[i], tail[j]) {
      assert tail[i] == r[i + 1] && tail[j] == r[j + 1];
    }
    forall z | z in tail ensures Before(count, pos, r[0], z) {
      var k :| 0 <= k < |tail| && tail[k] == z;
      assert r[k + 1] == z;
    }
  }

  /** Inserting a key later than all ranked keys keeps the ranking. */
  lemma {:induction false} InsertRanked(count: string -> nat, pos: string -> nat, x: string, r: seq<string>)
    requires RankedBy(count, pos, r)
    requires forall y :: y in r ==> pos(y) < pos(x)
    ensures RankedBy(count, pos, Insert(count, x, r))
    decreases |r|
  {
    if r == [] {
    } else {
      TailRanked(count, pos, r);
      var tail := r[1..];
      assert r == [r[0]] + tail;
      if count(x) > count(r[0]) {
        ConsRanked(count, pos, x, r);
      } else {
        InsertRanked(count, pos, x, tail);
        var rest := Insert(count, x, tail);
        InsertMultiset(count, x, tail);
        forall z | z in rest ensures Before(count, pos, r[0], z) {
          assert z in multiset(rest);
        }
        ConsRanked(count, pos, r[0], rest);
      }
    }
  }

  /** Sorting keys listed by increasing `pos` ranks them by count, then by `pos`. */
  lemma {:induction false} RankRanked(count: string -> nat, pos: string -> nat, keys: seq<string>)
    requires forall i, j :: 0 <= i < j < |keys| ==> pos(keys[i]) < pos(keys[j])
    ensures RankedBy(count, pos, Rank(count, keys))
    ensures multiset(Rank(count, keys)) == multiset(keys)
    decreases |keys|
  {
    if keys != [] {
      var init, x := keys[..|keys| - 1], keys[|keys| - 1];
      RankRanked(count, pos, init);
      var r := Rank(count, init);
      forall y | y in r ensures pos(y) < pos(x) {
        assert y in multiset(init);
      }
      InsertRanked(count, pos, x, r);
      InsertMultiset(count, x, r);
      assert keys == init + [x];
    }
  }

  /** The ranking of the distinct words: all of them, by count, ties in order of first occurrence. */
  lemma RankDistinct(words: seq<string>)
    ensures var r := Rank(w => Count(words, w), Distinct(words));
      RankedBy(w => Count(words, w), w => FirstIndex(words, w), r) &&
      |r| == |Distinct(words)| && forall w :: w in r <==> w in words
  {
    var count, pos := w => Count(words, w), w => FirstIndex(words, w);
    var d := Distinct(words);
    DistinctOrder(words);
    DistinctMembers(words);
    RankRanked(count, pos, d);
    var r := Rank(count, d);
    assert |r| == |d| by {
      assert |multiset(r)| == |multiset(d)|;
    }
    forall w ensures w in r <==> w in words {
      assert w in r <==> w in multiset(d);
    }
  }

  /**
   * `most_common(n)` lists `min(n, number of distinct words)` distinct words
   * of the list, by non-increasing count with ties in order of first
   * occurrence, and every word of the list it leaves out comes after each
   * word it lists.
   */
  lemma MostCommonRanking(words: seq<string>, n: nat)
    ensures var d := |Distinct(words)|; |MostCommon(words, n)| == if n < d then n else d
    ensures forall w :: w in MostCommon(words, n) ==> w in words
    ensures forall i, j :: 0 <= i < j < |MostCommon(words, n)| ==> MostCommon(words, n)[i] != MostCommon(words, n)[j]
    ensures forall i, j :: 0 <= i < j < |MostCommon(words, n)| ==>
      Count(words, MostCommon(words, n)[i]) > Count(words, MostCommon(words, n)[j]) ||
      (Count(words, MostCommon(words, n)[i]) == Count(words, MostCommon(words, n)[j]) &&
       FirstIndex(words, MostCommon(words, n)[i]) < FirstIndex(words, MostCommon(words, n)[j]))
    ensures forall w, i :: w in words && w !in MostCommon(words, n) && 0 <= i < |MostCommon(words, n)| ==>
      Count(words, MostCommon(words, n)[i]) > Count(words, w) ||
      (Count(words, MostCommon(words, n)[i]) == Count(words, w) && FirstIndex(words, MostCommon(words, n)[i]) < FirstIndex(words, w))
  {
    var count, pos := w => Count(words, w), w => FirstIndex(words, w);
    RankDistinct(words);
    var r := Rank(count, Distinct(words));
    PrefixRanked(count, pos, r, n);
  }

  /** The first `n` keys of a ranking are ranked, and come before every key left out. */
  lemma PrefixRanked(count: string -> nat, pos: string -> nat, r: seq<string>, n: nat)
    requires RankedBy(count, pos, r)
    ensures RankedBy(count, pos, Take(r, n))
    ensures forall w, i :: w in r && w !in Take(r, n) && 0 <= i < |Take(r, n)| ==> Before(count, pos, Take(r, n)[i], w)
  {
    var top := Take(r, n);
    assert top == r[..|top|];
    forall i, j | 0 <= i < j < |top| ensures Before(count, pos, top[i], top[j]) {
      assert top[i] == r[i] && top[j] == r[j];
    }
    forall w, i | w in r && w !in top && 0 <= i < |top| ensures Before(count, pos, top[i], w) {
      var p :| 0 <= p < |r| && r[p] == w;
      assert p >= |top|;
      assert top[i] == r[i];
    }
  }

  // ---------------------------------------------------------------------------
  // The whole scrape.

  const FetchError := "Failed to fetch or parse the URL."

  /**
   * What the scraper reports for a page: `None` stands for a page that could
   * not be fetched or parsed, `Some(candidates)` for the post elements found.
   */
  function Scrape(url: string, page: Option<seq<Candidate>>, parseDate: string -> Option<int>): ScrapeResult {
    match page
    case None => Failed(FetchError)
    case Some(candidates) =>
      var posts := Records(url, candidates);
      Scraped(Report(|posts|, AvgTitleLength(posts), EstimatedFrequency(|posts|, ParsedDates(candidates, parseDate)),
                     MostCommon(Keywords(TitleWords(candidates)), 5), posts))
  }

  /** `scrape_competitor` from the candidates on. */
  method ScrapeCompetitor(url: string, page: Option<seq<Candidate>>, parseDate: string -> Option<int>)
    returns (result: ScrapeResult)
    ensures result == Scrape(url, page, parseDate)
  {
    if page.None? {
      return Failed(FetchError);
    }
    var posts, titleWords, dates := ExtractPosts(url, page.value, parseDate);
    var totalPosts := |posts|;
    var avgTitleLength := AvgTitleLength(posts);
    var estimatedFrequency := EstimateFrequency(totalPosts, dates);
    var keywords := Keywords(titleWords);
    var topKeywords := MostCommon(keywords, 5);
    return Scraped(Report(totalPosts, avgTitleLength, estimatedFrequency, topKeywords, posts));
  }

  /**
   * A fetched page gives one record per candidate, so the post total is the
   * number of candidates; a missing title becomes the empty string, a
   * missing or empty link becomes the page's URL, an empty date becomes none.
   */
  lemma OneRecordPerCandidate(url: string, candidates: seq<Candidate>, parseDate: string -> Option<int>, k: nat)
    requires k < |candidates|
    ensures Scrape(url, Some(candidates), parseDate).Scraped?
    ensures var report := Scrape(url, Some(candidates), parseDate).report;
      report.totalPosts == |report.posts| == |candidates| &&
      report.posts[k].title == (if candidates[k].title.Some? then candidates[k].title.value else "") &&
      report.posts[k].url == (if candidates[k].link.Some? && candidates[k].link.value != "" then candidates[k].link.value else url) &&
      report.posts[k].date == (if candidates[k].date == Some("") then None else candidates[k].date)
  {
  }

  /** The keywords reported are at most five, each a title word that is no stop word and longer than two. */
  lemma TopKeywordsAreKeywords(url: string, candidates: seq<Candidate>, parseDate: string -> Option<int>)
    ensures var top := Scrape(url, Some(candidates), parseDate).report.topKeywords;
      |top| <= 5 &&
      forall w :: w in top ==> w in TitleWords(candidates) && w !in Stopwords && |w| > 2
  {
    var keywords := Keywords(TitleWords(candidates));
    MostCommonRanking(keywords, 5);
    KeywordsExactly(TitleWords(candidates));
  }
}
