# Content strategy planner: a verified model of its core

The planner is a web back end that asks a language model for a four-week
social-media content calendar, turns the model's free text into weeks and
posts, e-mails calendars as plain text, gathers statistics about a
competitor's blog, and summarises trends for a keyword from Reddit and
Google Trends (with sample data standing in when those services fail).

This project models, in Dafny, the deterministic logic inside that glue:

- `calendar_parser.dfy` (module `CalendarParser`): `parse_calendar_output`.
  The text is cut at the markers `Week<ws*><digits>:` or
  `Week<ws*><digits>-` (any case). The week numbers come from a separate
  search for `Week<ws*><digits>` that needs no colon or dash. Every
  non-blank line of a week's block becomes one post. It also covers
  `generate_calendar`, which returns the parser's result unchanged.
- `calendar_router.dfy` (module `CalendarRouter`): the all-fields check of
  the generate endpoint, and `calendar_to_text`, the e-mail body.
- `competitor_scraper.dfy` (module `CompetitorScraper`): what
  `scrape_competitor` does once the candidate posts are found. That is the
  records with their defaults, the title words, the parsed dates, the
  average title length, the frequency estimate, and the top-5 keywords by
  count with ties in order of first occurrence.
- `trend_analyzer.dfy` (module `TrendAnalyzer`): the sample-data generator,
  the Reddit accumulation with its early exit, the Google Trends retry loop
  and the merge in `analyze_trends`.
- `calendar.dfy`, `text.dfy` and `wrappers.dfy` hold the shared pieces:
  - the calendar records;
  - the string functions of Python that the code relies on: `str.strip`,
    `str.splitlines`, `str.split`, `str.join`, `str.lower`, `re.findall(r'\w+')`,
    slicing, `int`/`str` of integers and `collections.Counter` counts;
  - an `Option` type.

Loops in the source are methods with loop invariants. Most methods are
proved equal to a specification function, and the properties are proved
about those functions. `SortDates`, `TryGoogleTrends` and `AnalyzeTrends`
have relational contracts instead: sorted and a permutation; the first
attempt that got data; and the merge rules. The hand-off between the services is modelled as plain
values:
- the text the language model produced;
- the candidate posts found on a page;
- the search results of each subreddit;
- what each Google Trends attempt returned;
- the random variation and today's date.

## Model

| member | source | states |
|---|---|---|
| CalendarParser.Parse | backend/services/calendar_generator.py:42-44 | one week per marker found by the split; `MarkersExactly` shows these are all the markers of the text |
| CalendarParser.NumberOfWeeks | backend/services/calendar_generator.py:42-44 | the number of weeks is the number of positions of the text where `Week\s*\d+[:-]` matches |
| CalendarParser.MarkersExactly | backend/services/calendar_generator.py:42 | the split cuts at exactly the positions where a marker matches, in strictly increasing order: none is skipped and none is invented |
| CalendarParser.AllMarkersFound | backend/services/calendar_generator.py:42 | the left-to-right scan from any position finds every marker that starts at or after it |
| CalendarParser.MarkerAt | backend/services/calendar_generator.py:42 | a marker matches at a position exactly when a match of `Week\s*(\d+)` there is directly followed by ":" or "-", and the marker ends just after that character |
| CalendarParser.Split | backend/services/calendar_generator.py:42 | the split gives one more piece than there are markers |
| CalendarParser.NumberAt | backend/services/calendar_generator.py:43 | a match of `Week\s*(\d+)` starts with "Week" in any case, and its capture is a non-empty span after those four letters |
| CalendarParser.NumberAtExactly | backend/services/calendar_generator.py:43 | `Week\s*(\d+)` matches at a position exactly when "Week" is there and a digit follows it after nothing but whitespace |
| CalendarParser.NumberParts | backend/services/calendar_generator.py:43 | the capture is all digits, preceded only by whitespace, and takes every digit there (greedy `\d+`) |
| CalendarParser.AllNumbersFound | backend/services/calendar_generator.py:43 | the `findall` scan from any position finds every match that starts at or after it |
| CalendarParser.WeekNumbers | backend/services/calendar_generator.py:43-45 | one week number per match of `Week\s*(\d+)` |
| CalendarParser.WeeksNumberedByMatches | backend/services/calendar_generator.py:43-45 | `findall` meets exactly the positions where `Week\s*(\d+)` matches, in strictly increasing order, and week `i` carries `int` of the `i`-th capture |
| CalendarParser.ParseCalendarOutput | backend/services/calendar_generator.py:40-56 | the nested loops (weeks, then non-blank lines with the day counter) return exactly the weeks `Parse` describes |
| CalendarParser.CollectPosts | backend/services/calendar_generator.py:46-53 | the inner loop over the stripped block's lines yields the posts of its non-blank lines, numbered from 1 |
| CalendarParser.GenerateCalendar | backend/services/calendar_generator.py:58-81 | `generate_calendar` returns the parser's result for the generated text unchanged |
| CalendarParser.NoMarkerNoWeeks | backend/services/calendar_generator.py:42-44 | the result is empty exactly when the text holds no marker; there is no placeholder week |
| CalendarParser.BlockBetweenMarkers | backend/services/calendar_generator.py:42-46 | week `i`'s posts come from the text between the end of marker `i` and the start of marker `i + 1` (or the end), so text before the first marker gives no post |
| CalendarParser.MarkersNotMoreThanNumbers | backend/services/calendar_generator.py:42-45 | there are never fewer number matches than markers, so `week_numbers[i]` is always in range |
| CalendarParser.FirstWeekNumber | backend/services/calendar_generator.py:43-45 | the first week's number is the value of the first `Week<ws*><digits>` in the text, even when that one has no colon or dash |
| CalendarParser.WeekNumbersFromOwnMarkers | backend/services/calendar_generator.py:42-45 | when every number match is also a marker, each week carries the number written in its own marker |
| CalendarParser.NumberedPosts | backend/services/calendar_generator.py:48-53 | post `k` of a week is on "Day k+1", has type "Post", and its theme and caption are line `k` |
| CalendarParser.BlockPostsShape | backend/services/calendar_generator.py:47-53 | every post has day "Day n" numbered from 1 without gap, type "Post", empty hashtags, and theme equal to caption; the caption is non-empty, stripped and on one line |
| CalendarParser.BlockPostsEmpty | backend/services/calendar_generator.py:46-47 | a block gives no post exactly when it is all whitespace |
| CalendarParser.NonBlankLinesKeepsAll | backend/services/calendar_generator.py:46-47 | every line that is non-blank after stripping gives a post |
| CalendarParser.NonBlankLinesFromInput | backend/services/calendar_generator.py:46-47 | every post's line is the stripped form of a line of the block |
| CalendarParser.NonBlankLinesCorrespond | backend/services/calendar_generator.py:46-47 | the kept lines match the non-blank input lines one to one and in order: kept line `m` is the stripped input line at the `m`-th position, those positions increase, and they are exactly the lines that are not blank after stripping |
| CalendarParser.NonBlankLinesCount | backend/services/calendar_generator.py:46-47 | a block keeps exactly as many lines as it has lines that are not blank after stripping |
| CalendarRouter.FieldsProvidedExactly | backend/routers/calendar_generator.py:26 | `all([...])` fails exactly when one of the four strings is empty or the frequency is 0 |
| CalendarRouter.GenerateCalendarEndpoint | backend/routers/calendar_generator.py:21-37 | rejects with 400 "All fields must be provided." exactly when a string field is empty or the frequency is 0 (negative frequencies pass); otherwise, given that the model call and the database steps succeed, returns the parsed calendar |
| CalendarRouter.CalendarToText | backend/routers/calendar_generator.py:44-53 | the nested loops build exactly `CalendarText`: the lines of every week in order, joined with "\n" |
| CalendarRouter.CalendarLinesCount | backend/routers/calendar_generator.py:46-52 | the text has `2 + 3·len(posts)` lines per week |
| CalendarRouter.EmptyCalendarText | backend/routers/calendar_generator.py:45-53 | an empty calendar gives the empty string |
| CalendarRouter.NonEmptyCalendarEndsWithNewline | backend/routers/calendar_generator.py:52-53 | a non-empty calendar's text ends with "\n" |
| CalendarRouter.LinesOfWeek | backend/routers/calendar_generator.py:46-52 | week `i`'s lines appear, in order, starting right after the lines of the weeks before it |
| CalendarRouter.WeekLinesEnds | backend/routers/calendar_generator.py:47-52 | a week starts with its "Week {week}" header and ends with an empty line |
| CalendarRouter.WeekLinesPost | backend/routers/calendar_generator.py:48-51 | after the header come three lines per post, in order: "  day - post_type - theme", "    Caption: caption", "    Hashtags: " plus the tags joined by single spaces (an empty tail without hashtags) |
| CalendarRouter.TextLines | backend/routers/calendar_generator.py:53 | when no field holds a newline, splitting the text at "\n" gives back exactly the lines that were joined |
| CompetitorScraper.ExtractPosts | backend/services/competitor_scraper.py:24-62 | the candidate loop appends one record per candidate, the title words and the dates that parse, in order |
| CompetitorScraper.OneRecordPerCandidate | backend/services/competitor_scraper.py:53-64 | `total_posts` is the number of candidates; a missing title becomes "", a missing or empty link becomes the page URL, an empty date becomes None |
| CompetitorScraper.AvgTitleLengthTruncates | backend/services/competitor_scraper.py:65 | the average title length is 0 without posts and otherwise the integer part of total words over posts |
| CompetitorScraper.SortDates | backend/services/competitor_scraper.py:69 | `dates.sort()` leaves the dates sorted and a permutation of the input |
| CompetitorScraper.EstimateFrequency | backend/services/competitor_scraper.py:67-77 | sorting and then reading the first and last dates gives the estimate `EstimatedFrequency` computes from the earliest and latest dates |
| CompetitorScraper.SortedEnds | backend/services/competitor_scraper.py:69-70 | after sorting, the first date is the earliest and the last the latest |
| CompetitorScraper.FrequencyRules | backend/services/competitor_scraper.py:67-77 | "Unknown" exactly when fewer than two dates parsed; otherwise the span in whole days is at least 1 (the `or 1`), and the rate is per day exactly when posts >= days |
| CompetitorScraper.KeywordsExactly | backend/services/competitor_scraper.py:79-80 | the keywords are the title words outside the stop-word set and longer than 2 characters |
| CompetitorScraper.KeywordsCounted | backend/services/competitor_scraper.py:80 | each keyword keeps its number of occurrences; every other word is dropped |
| CompetitorScraper.MostCommonRanking | backend/services/competitor_scraper.py:81 | `most_common(n)` lists `min(n, distinct words)` distinct words of the list, by non-increasing count with ties in first-occurrence order, each before every word left out |
| CompetitorScraper.TopKeywordsAreKeywords | backend/services/competitor_scraper.py:79-81 | at most 5 top keywords, each a lowercased title word, not a stop word, and longer than 2 characters |
| CompetitorScraper.ScrapeCompetitor | backend/services/competitor_scraper.py:8-88 | the whole function from the candidates on: the error dictionary when the page cannot be fetched, otherwise the report `Scrape` describes |
| TrendAnalyzer.MockTrendData | backend/services/trend_analyzer.py:86-123 | the loop builds the sample report: the literal topic and trend lists, 30 clamped points, empty Reddit lists, and the note |
| TrendAnalyzer.MockListsMentionKeyword | backend/services/trend_analyzer.py:89-99 | 9 sample topics and 8 sample trends, each containing the keyword |
| TrendAnalyzer.MockInterestShape | backend/services/trend_analyzer.py:103-113 | 30 points on consecutive days starting 30 days before today, every score in [10, 100] whatever the variation |
| TrendAnalyzer.MockScore | backend/services/trend_analyzer.py:106-108 | the clamped score lies in [10, 100] |
| TrendAnalyzer.ClampInactive | backend/services/trend_analyzer.py:106-108 | for a variation in [-10, 10], as `randint(-10, 10)` draws, the clamp leaves `30 + (i % 7) * 5 + v` unchanged, within [20, 70] |
| TrendAnalyzer.TopicTruncation | backend/services/trend_analyzer.py:45 | a title longer than 100 characters becomes its first 100 plus "..."; a shorter one is unchanged |
| TrendAnalyzer.TrendLineTruncation | backend/services/trend_analyzer.py:49 | a trend line is "r/{name}: " followed by the title's first 80 characters |
| TrendAnalyzer.GetRedditTrends | backend/services/trend_analyzer.py:13-84 | the nested loops with the early exit, the broad search when nothing was found, and the empty result when the client fails, all equal `RedditTrends` |
| TrendAnalyzer.SubredditCount | backend/services/trend_analyzer.py:44-52 | one subreddit's loop stops at 5 topics but only checks after appending, so a subreddit entered with 5 or more topics still adds one |
| TrendAnalyzer.RedditCounts | backend/services/trend_analyzer.py:36-70 | topics and trends always have the same length, never more than 8, and exactly 8 when every searched subreddit yields 3 posts (5 is not a hard cap) |
| TrendAnalyzer.OnlyFirstFiveSearched | backend/services/trend_analyzer.py:36 | the results of subreddits after the fifth make no difference |
| TrendAnalyzer.ReadInterest | backend/services/trend_analyzer.py:165-178 | the interest loop keeps, in order, the rows whose value converts to an integer |
| TrendAnalyzer.InterestEmpty | backend/services/trend_analyzer.py:165-178 | the interest list is empty exactly when no row converts |
| TrendAnalyzer.TryGoogleTrends | backend/services/trend_analyzer.py:125-197 | returns the data of the first attempt, among `max_retries`, that got at least one non-empty list (at most 5 topics and 5 trends), and None exactly when no attempt did |
| TrendAnalyzer.AnalyzeTrends | backend/services/trend_analyzer.py:199-234 | related topics and rising trends are never empty; with Google data each empty list is replaced on its own by its sample list and the interest is kept as is, without a note; without it the sample data is used; the Reddit lists are always the fetched ones |
| Text.Strip | backend/services/calendar_generator.py:46-47 | `strip()` never lengthens a string, and what it leaves starts and ends with a character that is not whitespace |
| Text.StripBounds | backend/services/calendar_generator.py:46-47 | `strip()` removes a blank prefix and a blank suffix and keeps the part between them |
| Text.StripEmpty | backend/services/calendar_generator.py:47 | `line.strip()` is empty exactly when the line is all whitespace |
| Text.SplitLines | backend/services/calendar_generator.py:46 | `splitlines()` gives no line for the empty string only, and no line holds a line boundary |
| Text.SplitLinesCons | backend/services/calendar_generator.py:46 | a first line ending at "\r\n" or at one boundary character is cut off, boundary removed, and the rest is split on its own |
| Text.SplitLinesLast | backend/services/calendar_generator.py:46 | a last line without a boundary, or with a final "\n", is one line: no trailing empty line |
| Text.Lower | backend/services/competitor_scraper.py:52 | `lower()` keeps the length, leaves no ASCII capital, and keeps every character a word character exactly when it was one |
| Text.WordRuns | backend/services/competitor_scraper.py:52 | every word `findall(r'\w+')` returns is a non-empty run of word characters |
| Text.RunsCons | backend/services/competitor_scraper.py:52 | a run of class characters that no class character follows is one item, and scanning resumes after it (maximal munch) |
| Text.RunsSkip | backend/services/competitor_scraper.py:52 | a character outside the class is skipped |
| Text.Fields | backend/services/competitor_scraper.py:65 | `split()` returns non-empty fields without whitespace, and nothing for a blank title |
| Text.JoinAppend | backend/routers/calendar_generator.py:53 | joining one more part appends the separator and then that part |
| Text.SplitOnJoin | backend/routers/calendar_generator.py:53 | joining parts that hold no separator and splitting again gives the parts back |
| Text.NatToString | backend/services/calendar_generator.py:49 | `str(n)` gives canonical decimal digits (no leading zero) whose value is `n` |

## Left out

- Network and storage:
  - the language-model HTTP call (its output is a parameter);
  - the brand lookup and insert in the database;
  - the SMTP sending of `email_calendar`;
  - the `requests` download and the BeautifulSoup search for post elements in `scrape_competitor`, lines 10-50. The model starts from the list of `(title?, link?, date?)` candidates those lines collect. A failed download is `None`.
- `datetime.fromisoformat` is the parameter `parseDate`, which maps the first 19 characters of a date to seconds or to failure. Time zones are outside the model.
- Frequency text: the frequency estimate is the pair (posts, days), tagged per day or per week. The `.1f` formatting of `posts/days` and `7·posts/days` is not modelled.
- CompetitorScraper.AvgTitleLengthTruncates: the source divides in floating point and then truncates. The model uses exact integer division, which can differ only for totals beyond 2^53.
- The Reddit and Google Trends clients, `time.sleep`, `random.randint` and `datetime.now`:
  - a subreddit's search is the list of titles it yielded, with an error part-way giving a shorter list;
  - the `limit=3` and `limit=5` of the searches are modelled by taking at most 3 or 5 results;
  - the Reddit client failing outright is `client == false`;
  - each Google attempt is `Raised`, or `Answered` with what the queries returned;
  - the variation of day `i` is `variation(i)`;
  - today's date is a day number. The `%Y-%m-%d` formatting of dates is not modelled.
- Logging with `print` is not modelled.
- Unicode:
  - whitespace is exactly the set `str.isspace` accepts, and line boundaries are exactly those of `str.splitlines`;
  - `\d` is ASCII 0-9, `\w` is ASCII letters, digits and `_`, and `lower()` maps ASCII letters only;
  - the case-insensitive "week" also accepts the Kelvin sign for `k`, as Python does;
  - Python also accepts non-ASCII digits and letters in these places, and the model does not.
- Dictionary look-ups that raise `KeyError` in `calendar_to_text` (a post without `day`, say) are not modelled. The calendar is typed, and only `hashtags` may be absent.
- Failures of the language-model call and of the database steps in `generate_calendar` are not modelled: a missing `OPENROUTER_API_KEY` (a `ValueError`), an HTTP error status (`raise_for_status`) or a failing brand query, insert or commit escape the endpoint as an exception, which the framework answers with status 500. The model assumes both steps succeed.
- The HTTP layer of the endpoints (FastAPI, request parsing, the exception wrapper of `email_calendar`) is not modelled.
