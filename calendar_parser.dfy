/**
 * The calendar generator service: the generated free text is cut into weeks
 * at the markers `Week<ws*><digits>:` / `Week<ws*><digits>-` (any case), each
 * non-blank line of a week's block becomes one post, and the week numbers
 * are read from a separate search for `Week<ws*><digits>` that does not
 * require the colon or dash.
 */
module CalendarParser {
  import opened Wrappers
  import opened Text
  import opened Calendar

  // ---------------------------------------------------------------------------
  // The two regular expressions, as deterministic scanners over positions.
  // Under IGNORECASE, `k` also matches U+212A KELVIN SIGN.

  predicate IsW(c: char) { c == 'w' || c == 'W' }
  predicate IsE(c: char) { c == 'e' || c == 'E' }
  predicate IsK(c: char) { c == 'k' || c == 'K' || c == '\U{212A}' }

  /** The word "Week", in any case, at position `p`. */
  predicate WeekWordAt(s: string, p: nat) {
    p + 4 <= |s| && IsW(s[p]) && IsE(s[p + 1]) && IsE(s[p + 2]) && IsK(s[p + 3])
  }

  /** End of the run of whitespace starting at `i`. */
  function SpacesEnd(s: string, i: nat): (k: nat)
    requires i <= |s|
    ensures i <= k <= |s|
    ensures k < |s| ==> !IsSpace(s[k])
    decreases |s| - i
  {
    if i == |s| || !IsSpace(s[i]) then i else SpacesEnd(s, i + 1)
  }

  /** End of the run of decimal digits starting at `i`. */
  function DigitsEnd(s: string, i: nat): (k: nat)
    requires i <= |s|
    ensures i <= k <= |s|
    ensures k < |s| ==> !IsDigit(s[k])
    decreases |s| - i
  {
    if i == |s| || !IsDigit(s[i]) then i else DigitsEnd(s, i + 1)
  }

  lemma {:induction false} SpacesEndSpaces(s: string, i: nat)
    requires i <= |s|
    ensures forall j :: i <= j < SpacesEnd(s, i) ==> IsSpace(s[j])
    decreases |s| - i
  {
    if i < |s| && IsSpace(s[i]) {
      SpacesEndSpaces(s, i + 1);
    }
  }

  lemma {:induction false} DigitsEndDigits(s: string, i: nat)
    requires i <= |s|
    ensures forall j :: i <= j < DigitsEnd(s, i) ==> IsDigit(s[j])
    decreases |s| - i
  {
    if i < |s| && IsDigit(s[i]) {
      DigitsEndDigits(s, i + 1);
    }
  }

  /**
   * A match of `Week\s*(\d+)` at `p`, as the span of its digits. The greedy
   * `\s*` and `\d+` cannot give way to another match here, because spaces and
   * digits are disjoint classes.
   */
  function NumberAt(s: string, p: nat): (m: Option<(nat, nat)>)
    ensures m.Some? ==> WeekWordAt(s, p) && p + 4 <= m.value.0 < m.value.1 <= |s|
  {
    if !WeekWordAt(s, p) then None
    else
      var q := SpacesEnd(s, p + 4);
      var r := DigitsEnd(s, q);
      if q < r then Some((q, r)) else None
  }

  /**
   * The captured digits of a match are decimal digits, preceded by
   * whitespace only, and the capture takes every digit there (`\d+` is greedy).
   */
  lemma NumberParts(s: string, p: nat)
    requires NumberAt(s, p).Some?
    ensures forall j :: p + 4 <= j < NumberAt(s, p).value.0 ==> IsSpace(s[j])
    ensures forall j :: NumberAt(s, p).value.0 <= j < NumberAt(s, p).value.1 ==> IsDigit(s[j])
    ensures NumberAt(s, p).value.1 < |s| ==> !IsDigit(s[NumberAt(s, p).value.1])
  {
    SpacesEndSpaces(s, p + 4);
    DigitsEndDigits(s, SpacesEnd(s, p + 4));
  }

  /**
   * `Week\s*(\d+)` matches at `p` exactly when "Week" is there and a digit
   * follows it after nothing but whitespace.
   */
  lemma NumberAtExactly(s: string, p: nat)
    ensures NumberAt(s, p).Some? <==>
      WeekWordAt(s, p) && exists j :: p + 4 <= j < |s| && IsDigit(s[j]) && forall i :: p + 4 <= i < j ==> IsSpace(s[i])
  {
    if NumberAt(s, p).Some? {
      NumberParts(s, p);
      var j := NumberAt(s, p).value.0;
      assert IsDigit(s[j]);
    } else if WeekWordAt(s, p) {
      SpacesEndSpaces(s, p + 4);
      var k := SpacesEnd(s, p + 4);
      forall j | p + 4 <= j < |s| && forall i :: p + 4 <= i < j ==> IsSpace(s[i])
        ensures !IsDigit(s[j])
      {
      }
    }
  }

  /**
   * A marker at `p`: a week-number match followed directly by a colon or a
   * dash. The value is the position just after that character.
   */
  function MarkerAt(s: string, p: nat): (m: Option<nat>)
    ensures m.Some? <==>
      NumberAt(s, p).Some? && NumberAt(s, p).value.1 < |s| &&
      (s[NumberAt(s, p).value.1] == ':' || s[NumberAt(s, p).value.1] == '-')
    ensures m.Some? ==> m.value == NumberAt(s, p).value.1 + 1 <= |s|
    ensures m.Some? ==> s[m.value - 1] == ':' || s[m.value - 1] == '-'
  {
    match NumberAt(s, p)
    case None => None
    case Some(span) =>
      if span.1 < |s| && (s[span.1] == ':' || s[span.1] == '-') then Some(span.1 + 1) else None
  }

  /** The start positions of the markers found scanning from `p`, as `re.split` finds them. */
  function MarkersFrom(s: string, p: nat): (ms: seq<nat>)
    requires p <= |s|
    decreases |s| - p
  {
    if p == |s| then []
    else
      match MarkerAt(s, p)
      case Some(e) => [p] + MarkersFrom(s, e)
      case None => MarkersFrom(s, p + 1)
  }

  function Markers(s: string): seq<nat> {
    MarkersFrom(s, 0)
  }

  /** The start positions of the matches of `Week\s*(\d+)` scanning from `p`, as `re.findall` finds them. */
  function NumbersFrom(s: string, p: nat): (ns: seq<nat>)
    requires p <= |s|
    decreases |s| - p
  {
    if p == |s| then []
    else
      match NumberAt(s, p)
      case Some(span) => [p] + NumbersFrom(s, span.1)
      case None => NumbersFrom(s, p + 1)
  }

  /** Each marker found is a match, and they come in order without overlapping. */
  lemma {:induction false} MarkersWellFormed(s: string, p: nat)
    requires p <= |s|
    ensures forall k :: 0 <= k < |MarkersFrom(s, p)| ==> p <= MarkersFrom(s, p)[k] && MarkerAt(s, MarkersFrom(s, p)[k]).Some?
    ensures forall k :: 0 <= k < |MarkersFrom(s, p)| - 1 ==>
      MarkerAt(s, MarkersFrom(s, p)[k]).Some? && MarkerAt(s, MarkersFrom(s, p)[k]).value <= MarkersFrom(s, p)[k + 1]
    decreases |s| - p
  {
    if p < |s| {
      match MarkerAt(s, p)
      case Some(e) =>
        var rest := MarkersFrom(s, e);
        assert MarkersFrom(s, p) == [p] + rest;
        MarkersWellFormed(s, e);
      case None =>
        assert MarkersFrom(s, p) == MarkersFrom(s, p + 1);
        MarkersWellFormed(s, p + 1);
    }
  }

  /** Each number found is a match of `Week\s*(\d+)`. */
  lemma {:induction false} NumbersWellFormed(s: string, p: nat)
    requires p <= |s|
    ensures forall k :: 0 <= k < |NumbersFrom(s, p)| ==> p <= NumbersFrom(s, p)[k] && NumberAt(s, NumbersFrom(s, p)[k]).Some?
    decreases |s| - p
  {
    if p < |s| {
      match NumberAt(s, p)
      case Some(span) => NumbersWellFormed(s, span.1);
      case None => NumbersWellFormed(s, p + 1);
    }
  }

  /** The digits captured by the match of `Week\s*(\d+)` at `p`. */
  function DigitsAt(s: string, p: nat): (d: string)
    requires NumberAt(s, p).Some?
    ensures AllDigits(d)
  {
    NumberParts(s, p);
    s[NumberAt(s, p).value.0..NumberAt(s, p).value.1]
  }

  /** The decimal value of the digits captured by each week-number match, in the order of the matches. */
  function WeekNumbers(s: string): (r: seq<nat>)
    ensures |r| == |NumbersFrom(s, 0)|
  {
    var ns := NumbersFrom(s, 0);
    NumbersWellFormed(s, 0);
    seq(|ns|, i requires 0 <= i < |ns| => DigitsValue(DigitsAt(s, ns[i])))
  }

  /** Where piece `k` of the split starts: after marker `k - 1`, or at 0. */
  function PieceStart(s: string, ms: seq<nat>, k: nat): nat
    requires k <= |ms|
    requires k > 0 ==> MarkerAt(s, ms[k - 1]).Some?
  {
    if k == 0 then 0 else MarkerAt(s, ms[k - 1]).value
  }

  /** Where piece `k` of the split ends: at the start of marker `k`, or at the end of the text. */
  function PieceEnd(s: string, ms: seq<nat>, k: nat): nat
    requires k <= |ms|
  {
    if k == |ms| then |s| else ms[k]
  }

  /** The text cut at every marker, markers removed: the part before the first marker, then one part after each. */
  function Split(s: string): (pieces: seq<string>)
    ensures |pieces| == |Markers(s)| + 1
  {
    var ms := Markers(s);
    MarkersWellFormed(s, 0);
    seq(|ms| + 1, k requires 0 <= k <= |ms| => s[PieceStart(s, ms, k)..PieceEnd(s, ms, k)])
  }

  // ---------------------------------------------------------------------------
  // Posts of one block.

  /** The stripped lines of `lines` that are not blank, in order, mirroring `if line.strip()`. */
  function NonBlankLines(lines: seq<string>): seq<string>
    decreases |lines|
  {
    if lines == [] then []
    else
      var last := Strip(lines[|lines| - 1]);
      NonBlankLines(lines[..|lines| - 1]) + (if last != "" then [last] else [])
  }

  function DayLabel(n: nat): string {
    "Day " + NatToString(n)
  }

  /** The post made of the `n`-th non-blank line of a block. */
  function LinePost(n: nat, line: string): Post {
    Post(DayLabel(n), "Post", line, line, Some([]))
  }

  /** One post per item, the `k`-th (from 1) on "Day k". */
  function NumberedPosts(items: seq<string>): (posts: seq<Post>)
    ensures |posts| == |items|
    ensures forall k :: 0 <= k < |items| ==> posts[k] == LinePost(k + 1, items[k])
    decreases |items|
  {
    if items == [] then []
    else NumberedPosts(items[..|items| - 1]) + [LinePost(|items|, items[|items| - 1])]
  }

  function BlockPosts(block: string): seq<Post> {
    NumberedPosts(NonBlankLines(SplitLines(Strip(block))))
  }

  /**
   * What `parse_calendar_output` returns: one week per block after the first,
   * numbered by the i-th `Week<digits>` mention in the whole text.
   */
  function Parse(s: string): (weeks: seq<Week>)
    ensures |weeks| == |Markers(s)|
  {
    seq(|Markers(s)|, i requires 0 <= i < |Markers(s)| => ParsedWeek(s, i))
  }

  /** The `i`-th week of `Parse(s)`: block `i + 1` numbered by the `i`-th number. */
  function ParsedWeek(s: string, i: nat): Week
    requires i < |Markers(s)|
  {
    MarkersNotMoreThanNumbers(s, 0);
    Week(WeekNumbers(s)[i], BlockPosts(Split(s)[i + 1]))
  }

  // ---------------------------------------------------------------------------
  // The service.

  /** `parse_calendar_output`: the nested loops over blocks and lines. */
  method ParseCalendarOutput(outputText: string) returns (weeks: seq<Week>)
    ensures weeks == Parse(outputText)
  {
    var blocks := Split(outputText);
    var numbers := WeekNumbers(outputText);
    MarkersNotMoreThanNumbers(outputText, 0);
    ghost var expected := Parse(outputText);
    weeks := [];
    var i := 0;
    while i < |blocks| - 1
      invariant 0 <= i <= |blocks| - 1
      invariant weeks == expected[..i]
    {
      var posts := CollectPosts(blocks[i + 1]);
      WeekOfBlock(outputText, i);
      var week := Week(numbers[i], posts);
      assert week == expected[i];
      PrefixStep(expected, i);
      weeks := weeks + [week];
      i := i + 1;
    }
  }

  /** The inner loop of `parse_calendar_output`: one post per non-blank line of the stripped block. */
  method CollectPosts(block: string) returns (posts: seq<Post>)
    ensures posts == BlockPosts(block)
  {
    posts := [];
    var lines := SplitLines(Strip(block));
    ghost var items: seq<string> := [];
    for j := 0 to |lines|
      invariant items == NonBlankLines(lines[..j])
      invariant posts == NumberedPosts(items)
    {
      var line := Strip(lines[j]);
      NonBlankLinesStep(lines, j);
      if line != "" {
        NumberedPostsAppend(items, line);
        posts := posts + [LinePost(|posts| + 1, line)];
        items := items + [line];
      }
    }
    assert lines[..|lines|] == lines;
  }

  lemma PrefixStep<T>(xs: seq<T>, i: nat)
    requires i < |xs|
    ensures xs[..i + 1] == xs[..i] + [xs[i]]
  {
  }

  lemma WeekOfBlock(s: string, i: nat)
    requires i < |Markers(s)|
    ensures i < |WeekNumbers(s)| && i + 1 < |Split(s)|
    ensures ParsedWeek(s, i) == Week(WeekNumbers(s)[i], BlockPosts(Split(s)[i + 1]))
  {
    MarkersNotMoreThanNumbers(s, 0);
  }

  lemma NonBlankLinesStep(lines: seq<string>, j: nat)
    requires j < |lines|
    ensures NonBlankLines(lines[..j + 1])
      == NonBlankLines(lines[..j]) + (if Strip(lines[j]) != "" then [Strip(lines[j])] else [])
  {
    assert lines[..j + 1][..j] == lines[..j];
  }

  lemma NumberedPostsAppend(items: seq<string>, x: string)
    ensures NumberedPosts(items + [x]) == NumberedPosts(items) + [LinePost(|items| + 1, x)]
  {
    assert (items + [x])[..|items|] == items;
  }

  /**
   * `generate_calendar` once the model's text is in hand: the prompt and the
   * brand bookkeeping do not touch the parsed calendar, which is returned as is.
   */
  method GenerateCalendar(brandName: string, niche: string, platform: string, postingFrequency: int,
                          tone: string, generatedText: string)
    returns (calendar: seq<Week>)
    ensures calendar == Parse(generatedText)
  {
    calendar := ParseCalendarOutput(generatedText);
  }

  // ---------------------------------------------------------------------------
  // Properties of the scanners.

  /** A position that cannot start "Week" starts no match of either expression. */
  lemma ScanStep(s: string, a: nat)
    requires a < |s| && !IsW(s[a])
    ensures MarkersFrom(s, a) == MarkersFrom(s, a + 1)
    ensures NumbersFrom(s, a) == NumbersFrom(s, a + 1)
  {
  }

  /** Inside a match of `Week\s*(\d+)` no character after the first is a `w`. */
  lemma NoWInsideNumber(s: string, p: nat)
    requires NumberAt(s, p).Some?
    ensures forall q :: p < q < NumberAt(s, p).value.1 ==> !IsW(s[q])
  {
    NumberParts(s, p);
  }

  /** One step of each scan at a position where a match of `Week\s*(\d+)` starts. */
  lemma NumberStep(s: string, p: nat)
    requires p < |s| && NumberAt(s, p).Some?
    ensures NumbersFrom(s, p) == [p] + NumbersFrom(s, NumberAt(s, p).value.1)
    ensures MarkerAt(s, p).Some? ==> MarkersFrom(s, p) == [p] + MarkersFrom(s, NumberAt(s, p).value.1 + 1)
    ensures MarkerAt(s, p).None? ==> MarkersFrom(s, p) == MarkersFrom(s, p + 1)
  {
    var m := MarkerAt(s, p);
    match m
    case Some(e) =>
      assert e == NumberAt(s, p).value.1 + 1;
      assert MarkersFrom(s, p) == [p] + MarkersFrom(s, e);
    case None =>
      assert MarkersFrom(s, p) == MarkersFrom(s, p + 1);
  }

  /** After the digits of a marker comes its colon or dash, which starts no match. */
  lemma MarkerTail(s: string, p: nat)
    requires MarkerAt(s, p).Some?
    ensures var r := NumberAt(s, p).value.1;
      r < |s| && NumbersFrom(s, r) == NumbersFrom(s, r + 1) && MarkersFrom(s, r) == MarkersFrom(s, r + 1)
  {
    var r := NumberAt(s, p).value.1;
    ScanStep(s, r);
  }

  /**
   * Every marker is also a week-number match, so the list of week numbers is
   * at least as long as the list of markers and `week_numbers[i]` never fails.
   */
  lemma MarkersNotMoreThanNumbers(s: string, p: nat)
    requires p <= |s|
    ensures |MarkersFrom(s, p)| <= |NumbersFrom(s, p)|
  {
    ScansCompared(s, p, p);
  }

  /**
   * The marker scan from `a` finds at most as many matches as the number
   * scan from `p`, when no character in between can start "Week".
   */
  lemma {:induction false} ScansCompared(s: string, a: nat, p: nat)
    requires a <= p <= |s|
    requires forall q :: a <= q < p ==> !IsW(s[q])
    ensures |MarkersFrom(s, a)| <= |NumbersFrom(s, p)|
    decreases |s| - a, 2
  {
    if a < p {
      ScanStep(s, a);
      ScansCompared(s, a + 1, p);
      var m, m' := MarkersFrom(s, a), MarkersFrom(s, a + 1);
      assert m == m';
    } else {
      assert a == p;
      ScansComparedAt(s, a);
    }
  }

  lemma {:induction false} ScansComparedAt(s: string, p: nat)
    requires p <= |s|
    ensures |MarkersFrom(s, p)| <= |NumbersFrom(s, p)|
    decreases |s| - p, 1
  {
    if p < |s| {
      if NumberAt(s, p).None? {
        assert MarkerAt(s, p).None?;
        ScansCompared(s, p + 1, p + 1);
      } else {
        ScansComparedMatch(s, p);
      }
    }
  }

  lemma {:induction false} ScansComparedMatch(s: string, p: nat)
    requires p < |s| && NumberAt(s, p).Some?
    ensures |MarkersFrom(s, p)| <= |NumbersFrom(s, p)|
    decreases |s| - p, 0
  {
    var r := NumberAt(s, p).value.1;
    NumberStep(s, p);
    if MarkerAt(s, p).Some? {
      MarkerTail(s, p);
      ScansCompared(s, r + 1, r + 1);
      MatchCounts(|MarkersFrom(s, p)|, |MarkersFrom(s, r + 1)| + 1, |NumbersFrom(s, p)|, |NumbersFrom(s, r + 1)| + 1);
    } else {
      NoWInsideNumber(s, p);
      ScansCompared(s, p + 1, r);
      MatchCounts(|MarkersFrom(s, p)|, |MarkersFrom(s, p + 1)|, |NumbersFrom(s, p)|, |NumbersFrom(s, r)| + 1);
    }
  }

  lemma MatchCounts(m: nat, m': nat, n: nat, n': nat)
    requires m == m' && n == n' && m' <= n'
    ensures m <= n
  {
  }

  /** Scanning for markers from `p` finds none exactly when no marker starts at or after `p`. */
  lemma {:induction false} MarkersFromEmpty(s: string, p: nat)
    requires p <= |s|
    ensures MarkersFrom(s, p) == [] <==> forall q :: p <= q < |s| ==> MarkerAt(s, q).None?
    decreases |s| - p
  {
    if p < |s| && MarkerAt(s, p).None? {
      MarkersFromEmpty(s, p + 1);
    }
  }

  /** The text yields no week at all exactly when it holds no `Week<digits>:` / `Week<digits>-` marker. */
  lemma NoMarkerNoWeeks(s: string)
    ensures Parse(s) == [] <==> forall q :: 0 <= q < |s| ==> MarkerAt(s, q).None?
  {
    MarkersFromEmpty(s, 0);
  }

  /**
   * When every `Week<digits>` mention in the text is a marker, the scans for
   * markers and for numbers meet the same positions, in the same order.
   */
  lemma {:induction false} AlignedScans(s: string, p: nat)
    requires p <= |s|
    requires forall q :: p <= q < |s| && NumberAt(s, q).Some? ==> MarkerAt(s, q).Some?
    ensures MarkersFrom(s, p) == NumbersFrom(s, p)
    decreases |s| - p
  {
    if p < |s| {
      if NumberAt(s, p).None? {
        assert MarkerAt(s, p).None?;
        AlignedScans(s, p + 1);
      } else {
        var r := NumberAt(s, p).value.1;
        NumberStep(s, p);
        MarkerTail(s, p);
        AlignedScans(s, r + 1);
      }
    }
  }

  /**
   * When the text mentions `Week<digits>` only in its markers, each week is
   * numbered by the digits of its own marker.
   */
  lemma WeekNumbersFromOwnMarkers(s: string)
    requires forall q :: 0 <= q < |s| && NumberAt(s, q).Some? ==> MarkerAt(s, q).Some?
    ensures forall i :: 0 <= i < |Parse(s)| ==>
      NumberAt(s, Markers(s)[i]).Some? && Parse(s)[i].week == DigitsValue(DigitsAt(s, Markers(s)[i]))
  {
    AlignedScans(s, 0);
    MarkersWellFormed(s, 0);
    forall i | 0 <= i < |Parse(s)|
      ensures NumberAt(s, Markers(s)[i]).Some? && Parse(s)[i].week == DigitsValue(DigitsAt(s, Markers(s)[i]))
    {
      WeekOfBlock(s, i);
    }
  }

  /** Each week's posts come from the text between the end of its marker and the start of the next one. */
  lemma BlockBetweenMarkers(s: string, i: nat)
    requires i < |Parse(s)|
    ensures MarkerAt(s, Markers(s)[i]).Some?
    ensures MarkerAt(s, Markers(s)[i]).value <= PieceEnd(s, Markers(s), i + 1) <= |s|
    ensures Parse(s)[i].posts == BlockPosts(s[MarkerAt(s, Markers(s)[i]).value..PieceEnd(s, Markers(s), i + 1)])
  {
    MarkersWellFormed(s, 0);
    WeekOfBlock(s, i);
  }

  /** The scan for week numbers from `p` starts with the first match at or after `p`. */
  lemma {:induction false} FirstNumber(s: string, p: nat)
    requires p <= |s|
    ensures NumbersFrom(s, p) != [] ==>
      p <= NumbersFrom(s, p)[0] && NumberAt(s, NumbersFrom(s, p)[0]).Some? &&
      forall q :: p <= q < NumbersFrom(s, p)[0] ==> NumberAt(s, q).None?
    decreases |s| - p
  {
    if p < |s| && NumberAt(s, p).None? {
      FirstNumber(s, p + 1);
    }
  }

  /**
   * The first week is numbered by the first `Week<digits>` mention anywhere
   * in the text, whether or not that mention is a marker: a passing mention
   * such as "Week 2" ahead of the marker "Week 1:" numbers that week 2.
   */
  lemma FirstWeekNumber(s: string)
    requires Parse(s) != []
    ensures NumbersFrom(s, 0) != [] && NumberAt(s, NumbersFrom(s, 0)[0]).Some?
    ensures forall q :: 0 <= q < NumbersFrom(s, 0)[0] ==> NumberAt(s, q).None?
    ensures Parse(s)[0].week == DigitsValue(DigitsAt(s, NumbersFrom(s, 0)[0]))
  {
    MarkersNotMoreThanNumbers(s, 0);
    FirstNumber(s, 0);
    WeekOfBlock(s, 0);
  }

  /** A marker at or after `p` is never stepped over: the scan from `p` finds it. */
  lemma {:induction false} AllMarkersFound(s: string, p: nat)
    requires p <= |s|
    ensures forall q :: p <= q < |s| && MarkerAt(s, q).Some? ==> q in MarkersFrom(s, p)
    decreases |s| - p
  {
    if p < |s| {
      match MarkerAt(s, p)
      case Some(e) =>
        AllMarkersFound(s, e);
        NoWInsideNumber(s, p);
        assert MarkersFrom(s, p) == [p] + MarkersFrom(s, e);
        forall q | p < q < e ensures MarkerAt(s, q).None? {
          assert !IsW(s[q]);
        }
      case None =>
        AllMarkersFound(s, p + 1);
        assert MarkersFrom(s, p) == MarkersFrom(s, p + 1);
    }
  }

  /** The markers are found at strictly increasing positions. */
  lemma {:induction false} MarkersIncreasing(s: string, p: nat)
    requires p <= |s|
    ensures forall j, k :: 0 <= j < k < |MarkersFrom(s, p)| ==> MarkersFrom(s, p)[j] < MarkersFrom(s, p)[k]
    decreases |s| - p
  {
    if p < |s| {
      match MarkerAt(s, p)
      case Some(e) =>
        MarkersIncreasing(s, e);
        MarkersWellFormed(s, e);
        var ms, rest := MarkersFrom(s, p), MarkersFrom(s, e);
        assert ms == [p] + rest;
        forall j, k | 0 <= j < k < |ms| ensures ms[j] < ms[k] {
          assert ms[k] == rest[k - 1];
          if j > 0 {
            assert ms[j] == rest[j - 1];
          }
        }
      case None =>
        MarkersIncreasing(s, p + 1);
        assert MarkersFrom(s, p) == MarkersFrom(s, p + 1);
    }
  }

  /**
   * The split cuts at exactly the positions where a marker matches, in
   * increasing order: no marker is skipped and none is invented.
   */
  lemma MarkersExactly(s: string)
    ensures forall q :: q in Markers(s) <==> 0 <= q < |s| && MarkerAt(s, q).Some?
    ensures forall j, k :: 0 <= j < k < |Markers(s)| ==> Markers(s)[j] < Markers(s)[k]
  {
    var ms := Markers(s);
    AllMarkersFound(s, 0);
    MarkersWellFormed(s, 0);
    MarkersIncreasing(s, 0);
    forall q | q in ms ensures q < |s| && MarkerAt(s, q).Some? {
      var k :| 0 <= k < |ms| && ms[k] == q;
    }
  }

  /** The positions of the text where a marker matches. */
  function MarkerPositions(s: string): set<nat> {
    set q: nat | q < |s| && MarkerAt(s, q).Some?
  }

  /** There is one week per position of the text where a marker matches. */
  lemma NumberOfWeeks(s: string)
    ensures |Parse(s)| == |MarkerPositions(s)|
  {
    var ms := Markers(s);
    MarkersExactly(s);
    assert MarkerPositions(s) == Elements(ms);
    IncreasingCard(ms);
  }

  /** A match of `Week\s*(\d+)` at or after `p` is never stepped over: the scan from `p` finds it. */
  lemma {:induction false} AllNumbersFound(s: string, p: nat)
    requires p <= |s|
    ensures forall q :: p <= q < |s| && NumberAt(s, q).Some? ==> q in NumbersFrom(s, p)
    decreases |s| - p
  {
    if p < |s| {
      match NumberAt(s, p)
      case Some(span) =>
        AllNumbersFound(s, span.1);
        NoWInsideNumber(s, p);
        assert NumbersFrom(s, p) == [p] + NumbersFrom(s, span.1);
        forall q | p < q < span.1 ensures NumberAt(s, q).None? {
          assert !IsW(s[q]);
        }
      case None =>
        AllNumbersFound(s, p + 1);
        assert NumbersFrom(s, p) == NumbersFrom(s, p + 1);
    }
  }

  /** The number matches are found at strictly increasing positions. */
  lemma {:induction false} NumbersIncreasing(s: string, p: nat)
    requires p <= |s|
    ensures forall j, k :: 0 <= j < k < |NumbersFrom(s, p)| ==> NumbersFrom(s, p)[j] < NumbersFrom(s, p)[k]
    decreases |s| - p
  {
    if p < |s| {
      match NumberAt(s, p)
      case Some(span) =>
        NumbersIncreasing(s, span.1);
        NumbersWellFormed(s, span.1);
        var ns, rest := NumbersFrom(s, p), NumbersFrom(s, span.1);
        assert ns == [p] + rest;
        forall j, k | 0 <= j < k < |ns| ensures ns[j] < ns[k] {
          assert ns[k] == rest[k - 1];
          if j > 0 {
            assert ns[j] == rest[j - 1];
          }
        }
      case None =>
        NumbersIncreasing(s, p + 1);
        assert NumbersFrom(s, p) == NumbersFrom(s, p + 1);
    }
  }

  /**
   * `re.findall` meets exactly the positions where `Week\s*(\d+)` matches,
   * in increasing order, and week `i` carries the value of the `i`-th of them.
   */
  lemma WeeksNumberedByMatches(s: string)
    ensures forall q :: q in NumbersFrom(s, 0) <==> 0 <= q < |s| && NumberAt(s, q).Some?
    ensures forall j, k :: 0 <= j < k < |NumbersFrom(s, 0)| ==> NumbersFrom(s, 0)[j] < NumbersFrom(s, 0)[k]
    ensures |Parse(s)| <= |NumbersFrom(s, 0)|
    ensures forall i :: 0 <= i < |Parse(s)| ==>
      NumberAt(s, NumbersFrom(s, 0)[i]).Some? && Parse(s)[i].week == DigitsValue(DigitsAt(s, NumbersFrom(s, 0)[i]))
  {
    var ns := NumbersFrom(s, 0);
    AllNumbersFound(s, 0);
    NumbersWellFormed(s, 0);
    NumbersIncreasing(s, 0);
    MarkersNotMoreThanNumbers(s, 0);
    forall q | q in ns ensures q < |s| && NumberAt(s, q).Some? {
      var k :| 0 <= k < |ns| && ns[k] == q;
    }
    forall i | 0 <= i < |Parse(s)|
      ensures NumberAt(s, ns[i]).Some? && Parse(s)[i].week == DigitsValue(DigitsAt(s, ns[i]))
    {
      WeekOfBlock(s, i);
    }
  }

  /** Whitespace-free ends, no line boundary inside: what `line.strip()` leaves of a line. */
  predicate CleanLine(x: string) {
    x != [] && !IsSpace(x[0]) && !IsSpace(x[|x| - 1]) && NoLineBreak(x)
  }

  lemma StripKeepsNoLineBreak(line: string)
    requires NoLineBreak(line)
    ensures NoLineBreak(Strip(line))
  {
    var r := Strip(line);
    StripIsSubstring(line);
    var a :| 0 <= a <= |line| && OccursAt(line, r, a);
    forall i | 0 <= i < |r| ensures !IsLineBreak(r[i]) {
      assert r[i] == line[a..a + |r|][i] == line[a + i];
    }
  }

  /** Unfolding `NonBlankLines` at its last line. */
  lemma NonBlankLinesLast(lines: seq<string>)
    requires lines != []
    ensures NonBlankLines(lines) == NonBlankLines(lines[..|lines| - 1])
      + (if Strip(lines[|lines| - 1]) != "" then [Strip(lines[|lines| - 1])] else [])
  {
  }

  /** Each kept line is clean. */
  lemma {:induction false} NonBlankLinesClean(lines: seq<string>)
    requires forall k :: 0 <= k < |lines| ==> NoLineBreak(lines[k])
    ensures forall i :: 0 <= i < |NonBlankLines(lines)| ==> CleanLine(NonBlankLines(lines)[i])
    decreases |lines|
  {
    if lines != [] {
      var n := |lines| - 1;
      NonBlankLinesClean(lines[..n]);
      StripKeepsNoLineBreak(lines[n]);
      NonBlankLinesLast(lines);
    }
  }

  /** The positions of the lines that are not blank after stripping, in order. */
  function NonBlankIndices(lines: seq<string>): (idx: seq<nat>)
    ensures forall m :: 0 <= m < |idx| ==> idx[m] < |lines|
    ensures forall j, m :: 0 <= j < m < |idx| ==> idx[j] < idx[m]
    decreases |lines|
  {
    if lines == [] then []
    else
      var n := |lines| - 1;
      NonBlankIndices(lines[..n]) + (if Strip(lines[n]) != "" then [n] else [])
  }

  /**
   * The kept lines correspond one to one, in order, to the input lines that
   * are not blank: kept line `m` is the stripped form of input line
   * `NonBlankIndices(lines)[m]`, those positions increase, and they are
   * exactly the positions of the non-blank lines.
   */
  lemma {:induction false} NonBlankLinesCorrespond(lines: seq<string>)
    ensures |NonBlankIndices(lines)| == |NonBlankLines(lines)|
    ensures forall m :: 0 <= m < |NonBlankIndices(lines)| ==>
      NonBlankLines(lines)[m] == Strip(lines[NonBlankIndices(lines)[m]])
    ensures forall k :: 0 <= k < |lines| ==> (k in NonBlankIndices(lines) <==> Strip(lines[k]) != "")
    decreases |lines|
  {
    if lines != [] {
      var n := |lines| - 1;
      var init := lines[..n];
      NonBlankLinesCorrespond(init);
      NonBlankLinesLast(lines);
      var idx0, kept0 := NonBlankIndices(init), NonBlankLines(init);
      forall m | 0 <= m < |idx0| ensures kept0[m] == Strip(lines[idx0[m]]) {
        assert init[idx0[m]] == lines[idx0[m]];
      }
      forall k | 0 <= k < n ensures k in idx0 <==> Strip(lines[k]) != "" {
        assert init[k] == lines[k];
      }
      NonBlankStep(lines, idx0, kept0);
    }
  }

  /** One more line extends the kept lines and their positions alike. */
  lemma NonBlankStep(lines: seq<string>, idx0: seq<nat>, kept0: seq<string>)
    requires lines != []
    requires |idx0| == |kept0|
    requires forall m :: 0 <= m < |idx0| ==> idx0[m] < |lines| - 1 && kept0[m] == Strip(lines[idx0[m]])
    requires forall k :: 0 <= k < |lines| - 1 ==> (k in idx0 <==> Strip(lines[k]) != "")
    ensures var n := |lines| - 1;
      var idx := idx0 + (if Strip(lines[n]) != "" then [n] else []);
      var kept := kept0 + (if Strip(lines[n]) != "" then [Strip(lines[n])] else []);
      |idx| == |kept| &&
      (forall m :: 0 <= m < |idx| ==> kept[m] == Strip(lines[idx[m]])) &&
      (forall k :: 0 <= k < |lines| ==> (k in idx <==> Strip(lines[k]) != ""))
  {
  }

  /** The positions of the lines that are not blank after stripping. */
  function NonBlankPositions(lines: seq<string>): set<nat> {
    set k: nat | k < |lines| && Strip(lines[k]) != ""
  }

  /** A block keeps as many lines as it has lines that are not blank. */
  lemma NonBlankLinesCount(lines: seq<string>)
    ensures |NonBlankLines(lines)| == |NonBlankPositions(lines)|
  {
    var idx := NonBlankIndices(lines);
    NonBlankLinesCorrespond(lines);
    assert NonBlankPositions(lines) == Elements(idx);
    IncreasingCard(idx);
  }

  /** Each kept line is the stripped form of some input line. */
  lemma NonBlankLinesFromInput(lines: seq<string>)
    ensures forall x :: x in NonBlankLines(lines) ==> exists k :: 0 <= k < |lines| && x == Strip(lines[k])
  {
    NonBlankLinesCorrespond(lines);
    var idx := NonBlankIndices(lines);
    forall x | x in NonBlankLines(lines) ensures exists k :: 0 <= k < |lines| && x == Strip(lines[k]) {
      var m :| 0 <= m < |NonBlankLines(lines)| && NonBlankLines(lines)[m] == x;
      assert x == Strip(lines[idx[m]]);
    }
  }

  /** Every input line that is not blank is kept, stripped. */
  lemma NonBlankLinesKeepsAll(lines: seq<string>)
    ensures forall k :: 0 <= k < |lines| && Strip(lines[k]) != "" ==> Strip(lines[k]) in NonBlankLines(lines)
  {
    NonBlankLinesCorrespond(lines);
    var idx := NonBlankIndices(lines);
    forall k | 0 <= k < |lines| && Strip(lines[k]) != "" ensures Strip(lines[k]) in NonBlankLines(lines) {
      var m :| 0 <= m < |idx| && idx[m] == k;
      assert NonBlankLines(lines)[m] == Strip(lines[k]);
    }
  }

  /**
   * Every post of a block sits on "Day k" for its position k (from 1), has
   * type "Post", the same clean line as theme and caption, and no hashtags.
   */
  lemma BlockPostsShape(block: string)
    ensures forall k :: 0 <= k < |BlockPosts(block)| ==>
      BlockPosts(block)[k].day == "Day " + NatToString(k + 1) &&
      BlockPosts(block)[k].postType == "Post" &&
      BlockPosts(block)[k].theme == BlockPosts(block)[k].caption &&
      CleanLine(BlockPosts(block)[k].caption) &&
      BlockPosts(block)[k].hashtags == Some([])
  {
    NonBlankLinesClean(SplitLines(Strip(block)));
  }

  /** A block yields no post exactly when all of it is blank. */
  lemma BlockPostsEmpty(block: string)
    ensures BlockPosts(block) == [] <==> AllBlank(block)
  {
    var t := Strip(block);
    StripEmpty(block);
    if !AllBlank(block) {
      var lines := SplitLines(t);
      NonBlankLinesKeepsAll(lines);
      var k := LineEnd(t, 0);
      assert k > 0;
      assert lines[0] == (if k == |t| then t else t[..k]);
      assert lines[0][0] == t[0];
      StripEmpty(lines[0]);
      assert Strip(lines[0]) in NonBlankLines(lines);
    }
  }
}
