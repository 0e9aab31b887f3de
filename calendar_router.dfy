/**
 * The calendar API: the field check of the generate endpoint and the plain
 * text that the e-mail endpoint builds from a calendar.
 */
module CalendarRouter {
  import opened Wrappers
  import opened Text
  import opened Calendar
  import CalendarParser

  // ---------------------------------------------------------------------------
  // The generate endpoint.

  /** The body of a generate request. */
  datatype CalendarRequest = CalendarRequest(brandName: string, niche: string, platform: string,
                                             postingFrequency: int, tone: string)

  /** The two kinds of request field, as Python values. */
  datatype Field = Str(s: string) | Int(i: int)

  /** Python truthiness: a string is true when non-empty, an integer when non-zero. */
  predicate Truthy(v: Field) {
    match v
    case Str(s) => s != ""
    case Int(i) => i != 0
  }

  /** Python's `all(values)`: true when no value is false. */
  function All(values: seq<Field>): (b: bool)
    ensures b <==> forall k :: 0 <= k < |values| ==> Truthy(values[k])
    decreases |values|
  {
    if values == [] then true
    else
      assert forall k :: 1 <= k < |values| ==> values[k] == values[1..][k - 1];
      Truthy(values[0]) && All(values[1..])
  }

  /** Every one of the five request fields is truthy: a non-empty string, or a frequency other than 0. */
  predicate FieldsProvided(request: CalendarRequest) {
    All(RequestFields(request))
  }

  function RequestFields(request: CalendarRequest): seq<Field> {
    [Str(request.brandName), Str(request.niche), Str(request.platform),
     Int(request.postingFrequency), Str(request.tone)]
  }

  /** The check fails exactly when a string field is empty or the frequency is zero. */
  lemma FieldsProvidedExactly(request: CalendarRequest)
    ensures FieldsProvided(request) <==>
      request.brandName != "" && request.niche != "" && request.platform != "" &&
      request.postingFrequency != 0 && request.tone != ""
  {
    var fields := RequestFields(request);
    assert Truthy(fields[0]) <==> request.brandName != "";
    assert Truthy(fields[1]) <==> request.niche != "";
    assert Truthy(fields[2]) <==> request.platform != "";
    assert Truthy(fields[3]) <==> request.postingFrequency != 0;
    assert Truthy(fields[4]) <==> request.tone != "";
  }

  /** What the generate endpoint answers: an HTTP error or the generated calendar. */
  datatype Response = Rejected(status: int, detail: string) | Generated(calendar: seq<Week>)

  /**
   * `generate_calendar_endpoint`, with the model's text for this request as a
   * parameter. A request is refused with status 400 exactly when one of the
   * four strings is empty or the posting frequency is zero; a negative
   * frequency is accepted.
   */
  method GenerateCalendarEndpoint(request: CalendarRequest, generatedText: string) returns (response: Response)
    ensures response.Rejected? <==>
      request.brandName == "" || request.niche == "" || request.platform == "" ||
      request.postingFrequency == 0 || request.tone == ""
    ensures response.Rejected? ==> response.status == 400 && response.detail == "All fields must be provided."
    ensures response.Generated? ==> response.calendar == CalendarParser.Parse(generatedText)
  {
    FieldsProvidedExactly(request);
    if !FieldsProvided(request) {
      return Rejected(400, "All fields must be provided.");
    }
    var calendar := CalendarParser.GenerateCalendar(request.brandName, request.niche, request.platform,
                                                    request.postingFrequency, request.tone, generatedText);
    return Generated(calendar);
  }

  // ---------------------------------------------------------------------------
  // The e-mail text.

  function DayLine(post: Post): string {
    "  " + post.day + " - " + post.postType + " - " + post.theme
  }

  function CaptionLine(post: Post): string {
    "    Caption: " + post.caption
  }

  /** `post.get('hashtags', [])` joined by single spaces: a post without hashtags gets an empty tail. */
  function HashtagsLine(post: Post): string {
    "    Hashtags: " + Join(post.hashtags.GetOr([]), " ")
  }

  /** The three lines of one post. */
  function PostLines(post: Post): (lines: seq<string>)
    ensures |lines| == 3
  {
    [DayLine(post), CaptionLine(post), HashtagsLine(post)]
  }

  /** The lines of a sequence of posts, in order. */
  function PostsLines(posts: seq<Post>): (lines: seq<string>)
    ensures |lines| == 3 * |posts|
    decreases |posts|
  {
    if posts == [] then []
    else PostsLines(posts[..|posts| - 1]) + PostLines(posts[|posts| - 1])
  }

  function WeekHeader(week: Week): string {
    "Week " + IntToString(week.week)
  }

  /** The lines of one week: its header, its posts, and an empty line. */
  function WeekLines(week: Week): (lines: seq<string>)
    ensures |lines| == 2 + 3 * |week.posts|
  {
    [WeekHeader(week)] + PostsLines(week.posts) + [""]
  }

  /** The lines of a calendar, week after week. */
  function CalendarLines(calendar: seq<Week>): seq<string>
    decreases |calendar|
  {
    if calendar == [] then []
    else CalendarLines(calendar[..|calendar| - 1]) + WeekLines(calendar[|calendar| - 1])
  }

  /** The text of a calendar: its lines joined with newlines. */
  function CalendarText(calendar: seq<Week>): string {
    Join(CalendarLines(calendar), "\n")
  }

  /** `calendar_to_text`: the nested loops appending lines, then the join. */
  method CalendarToText(calendar: seq<Week>) returns (text: string)
    ensures text == CalendarText(calendar)
  {
    var lines: seq<string> := [];
    for i := 0 to |calendar|
      invariant lines == CalendarLines(calendar[..i])
    {
      var week := calendar[i];
      lines := lines + [WeekHeader(week)];
      ghost var head := lines;
      for j := 0 to |week.posts|
        invariant lines == head + PostsLines(week.posts[..j])
      {
        var post := week.posts[j];
        ghost var before := lines;
        lines := lines + [DayLine(post)];
        lines := lines + [CaptionLine(post)];
        lines := lines + [HashtagsLine(post)];
        AppendThree(before, DayLine(post), CaptionLine(post), HashtagsLine(post));
        PostsLinesStep(week.posts, j);
        ConcatAssoc(head, PostsLines(week.posts[..j]), PostLines(post));
      }
      assert week.posts[..|week.posts|] == week.posts;
      ghost var body := lines;
      lines := lines + [""];
      CalendarLinesStep(calendar, i);
      assert WeekLines(week) == [WeekHeader(week)] + PostsLines(week.posts) + [""];
      ConcatAssoc(CalendarLines(calendar[..i]), [WeekHeader(week)], PostsLines(week.posts));
      ConcatAssoc(CalendarLines(calendar[..i]), [WeekHeader(week)] + PostsLines(week.posts), [""]);
    }
    assert calendar[..|calendar|] == calendar;
    text := Join(lines, "\n");
  }

  lemma PostsLinesStep(posts: seq<Post>, j: nat)
    requires j < |posts|
    ensures PostsLines(posts[..j + 1]) == PostsLines(posts[..j]) + PostLines(posts[j])
  {
    assert posts[..j + 1][..j] == posts[..j];
  }

  lemma CalendarLinesStep(calendar: seq<Week>, i: nat)
    requires i < |calendar|
    ensures CalendarLines(calendar[..i + 1]) == CalendarLines(calendar[..i]) + WeekLines(calendar[i])
  {
    assert calendar[..i + 1][..i] == calendar[..i];
  }

  // ---------------------------------------------------------------------------
  // Properties of the e-mail text.

  /** Number of lines of a calendar: two per week plus three per post. */
  function LineCount(calendar: seq<Week>): nat
    decreases |calendar|
  {
    if calendar == [] then 0
    else LineCount(calendar[..|calendar| - 1]) + 2 + 3 * |calendar[|calendar| - 1].posts|
  }

  lemma {:induction false} CalendarLinesCount(calendar: seq<Week>)
    ensures |CalendarLines(calendar)| == LineCount(calendar)
    decreases |calendar|
  {
    if calendar != [] {
      CalendarLinesCount(calendar[..|calendar| - 1]);
    }
  }

  /** An empty calendar gives the empty text. */
  lemma EmptyCalendarText()
    ensures CalendarText([]) == ""
  {
  }

  /** A non-empty calendar's text ends in a newline: the last week ends with an empty line. */
  lemma NonEmptyCalendarEndsWithNewline(calendar: seq<Week>)
    requires calendar != []
    ensures |CalendarText(calendar)| > 0 && CalendarText(calendar)[|CalendarText(calendar)| - 1] == '\n'
  {
    var n := |calendar| - 1;
    var head := [WeekHeader(calendar[n])] + PostsLines(calendar[n].posts);
    assert WeekLines(calendar[n]) == head + [""];
    ConcatAssoc(CalendarLines(calendar[..n]), head, [""]);
    JoinAppend(CalendarLines(calendar[..n]) + head, "", "\n");
  }

  /** Where week `i` starts among the lines of the calendar. */
  function WeekOffset(calendar: seq<Week>, i: nat): nat
    requires i <= |calendar|
  {
    |CalendarLines(calendar[..i])|
  }

  /** The lines of two calendars one after the other are the lines of each, one after the other. */
  lemma {:induction false} CalendarLinesConcat(a: seq<Week>, b: seq<Week>)
    ensures CalendarLines(a + b) == CalendarLines(a) + CalendarLines(b)
    decreases |b|
  {
    if b == [] {
      assert a + b == a;
    } else {
      var n := |b| - 1;
      assert (a + b)[..|a + b| - 1] == a + b[..n];
      assert (a + b)[|a + b| - 1] == b[n];
      CalendarLinesConcat(a, b[..n]);
      ConcatAssoc(CalendarLines(a), CalendarLines(b[..n]), WeekLines(b[n]));
    }
  }

  /** The lines of post `j` are lines `3 j` to `3 j + 2` of the posts' lines. */
  lemma {:induction false} PostsLinesAt(posts: seq<Post>, j: nat)
    requires j < |posts|
    ensures PostsLines(posts)[3 * j] == DayLine(posts[j])
    ensures PostsLines(posts)[3 * j + 1] == CaptionLine(posts[j])
    ensures PostsLines(posts)[3 * j + 2] == HashtagsLine(posts[j])
    decreases |posts|
  {
    var n := |posts| - 1;
    var init := PostsLines(posts[..n]);
    assert PostsLines(posts) == init + PostLines(posts[n]);
    if j < n {
      PostsLinesAt(posts[..n], j);
      assert posts[..n][j] == posts[j];
    }
  }

  /** The lines of a calendar are those before week `i`, week `i`'s own, and those after. */
  lemma CalendarLinesAround(calendar: seq<Week>, i: nat)
    requires i < |calendar|
    ensures CalendarLines(calendar) == CalendarLines(calendar[..i]) + WeekLines(calendar[i]) + CalendarLines(calendar[i + 1..])
  {
    var before, week, after := calendar[..i], [calendar[i]], calendar[i + 1..];
    SplitAround(calendar, i);
    CalendarLinesConcat(before + week, after);
    CalendarLinesConcat(before, week);
    OneWeekLines(calendar[i]);
  }

  lemma OneWeekLines(week: Week)
    ensures CalendarLines([week]) == WeekLines(week)
  {
    assert [week][..0] == [];
  }

  /**
   * The lines of week `i` appear, in order, in the lines of the whole
   * calendar, starting at the week's offset.
   */
  lemma LinesOfWeek(calendar: seq<Week>, i: nat)
    requires i < |calendar|
    ensures WeekOffset(calendar, i) + |WeekLines(calendar[i])| <= |CalendarLines(calendar)|
    ensures CalendarLines(calendar)[WeekOffset(calendar, i)..WeekOffset(calendar, i) + |WeekLines(calendar[i])|]
      == WeekLines(calendar[i])
  {
    CalendarLinesAround(calendar, i);
    SliceMiddle(CalendarLines(calendar), CalendarLines(calendar[..i]), WeekLines(calendar[i]), CalendarLines(calendar[i + 1..]));
  }

  /** A week's lines start with its header and end with an empty line. */
  lemma WeekLinesEnds(week: Week)
    ensures WeekLines(week)[0] == "Week " + IntToString(week.week)
    ensures WeekLines(week)[|WeekLines(week)| - 1] == ""
  {
    var head := [WeekHeader(week)] + PostsLines(week.posts);
    assert WeekLines(week) == head + [""];
    IndexLast(head, "");
  }

  /**
   * Between them, three lines for each post in order: line `1 + 3 j + t` of
   * a week is line `t` of its post `j`.
   */
  lemma WeekLinesPost(week: Week, j: nat, t: nat)
    requires j < |week.posts| && t < 3
    ensures 1 + 3 * j + t < |WeekLines(week)|
    ensures WeekLines(week)[1 + 3 * j + t] == PostLines(week.posts[j])[t]
  {
    var pl := PostsLines(week.posts);
    assert WeekLines(week) == [WeekHeader(week)] + pl + [""];
    PostsLinesAt(week.posts, j);
    IndexMiddle(WeekLines(week), [WeekHeader(week)], pl, [""], 3 * j + t);
  }

  // ---------------------------------------------------------------------------
  // Reading the lines back.

  /** No field of the post holds a newline. */
  predicate SingleLinePost(post: Post) {
    '\n' !in post.day && '\n' !in post.postType && '\n' !in post.theme && '\n' !in post.caption &&
    forall tag <- post.hashtags.GetOr([]) :: '\n' !in tag
  }

  predicate SingleLineCalendar(calendar: seq<Week>) {
    forall week <- calendar :: forall post <- week.posts :: SingleLinePost(post)
  }

  predicate NoNewline(lines: seq<string>) {
    forall k :: 0 <= k < |lines| ==> '\n' !in lines[k]
  }

  lemma {:induction false} JoinNoNewline(parts: seq<string>, sep: string)
    requires '\n' !in sep && forall part <- parts :: '\n' !in part
    ensures '\n' !in Join(parts, sep)
    decreases |parts|
  {
    if |parts| > 1 {
      assert forall part <- parts[1..] :: part in parts;
      JoinNoNewline(parts[1..], sep);
    }
  }

  lemma NoNewlineConcat(a: seq<string>, b: seq<string>)
    requires NoNewline(a) && NoNewline(b)
    ensures NoNewline(a + b)
  {
    forall k | |a| <= k < |a + b| ensures '\n' !in (a + b)[k] {
      assert (a + b)[k] == b[k - |a|];
    }
  }

  lemma PostLinesNoNewline(post: Post)
    requires SingleLinePost(post)
    ensures NoNewline(PostLines(post))
  {
    JoinNoNewline(post.hashtags.GetOr([]), " ");
  }

  lemma {:induction false} PostsLinesNoNewline(posts: seq<Post>)
    requires forall post <- posts :: SingleLinePost(post)
    ensures NoNewline(PostsLines(posts))
    decreases |posts|
  {
    if posts != [] {
      var init := posts[..|posts| - 1];
      assert forall post <- init :: post in posts;
      PostsLinesNoNewline(init);
      PostLinesNoNewline(posts[|posts| - 1]);
      NoNewlineConcat(PostsLines(init), PostLines(posts[|posts| - 1]));
    }
  }

  lemma {:induction false} CalendarLinesNoNewline(calendar: seq<Week>)
    requires SingleLineCalendar(calendar)
    ensures NoNewline(CalendarLines(calendar))
    decreases |calendar|
  {
    if calendar != [] {
      var init, week := calendar[..|calendar| - 1], calendar[|calendar| - 1];
      assert forall w <- init :: w in calendar;
      CalendarLinesNoNewline(init);
      PostsLinesNoNewline(week.posts);
      NoNewlineConcat([WeekHeader(week)], PostsLines(week.posts));
      NoNewlineConcat([WeekHeader(week)] + PostsLines(week.posts), [""]);
      NoNewlineConcat(CalendarLines(init), WeekLines(week));
    }
  }

  /**
   * When no field holds a newline, splitting the text at its newlines gives
   * back the lines that were joined (an empty calendar reads back as one
   * empty line).
   */
  lemma TextLines(calendar: seq<Week>)
    requires SingleLineCalendar(calendar)
    ensures SplitOn(CalendarText(calendar), '\n') == if calendar == [] then [""] else CalendarLines(calendar)
  {
    if calendar != [] {
      CalendarLinesNoNewline(calendar);
      SplitOnJoin(CalendarLines(calendar), '\n');
    }
  }
}
