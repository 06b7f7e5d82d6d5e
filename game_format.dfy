/**
 The game formatter (`format_game_data`): one game record of the sports-data API rendered as a
 block of text whose lines depend on the game's status.
 */
module GameFormat {
  import opened Wrappers
  import opened Text

  /** One entry of a game's `Quarters` list. `Number` is required; the scores may be missing. */
  datatype Quarter = Quarter(number: int, awayScore: Option<int>, homeScore: Option<int>)

  /** A decoded game record: every field may be missing from the JSON object. */
  datatype Game = Game(
    status: Option<string>,
    awayTeam: Option<string>,
    homeTeam: Option<string>,
    awayTeamScore: Option<int>,
    homeTeamScore: Option<int>,
    dateTime: Option<string>,
    channel: Option<string>,
    lastPlay: Option<string>,
    quarters: Option<seq<Quarter>>)

  /**
   What the time-zone conversion gives for a timestamp: the Eastern-time text
   ("YYYY-MM-DD hh:mm AM/PM EST") or the parse failure. The conversion itself (calendar
   parsing and the time-zone database) is a parameter of the formatter.
   */
  datatype TimeParse = Parsed(text: string) | Unparsed

  type TimeConverter = string -> TimeParse

  const UNKNOWN := "Unknown"
  const NOT_AVAILABLE := "N/A"
  const INVALID_TIME := "Invalid Time Format"

  /** A score as rendered in the text: the number, or "N/A" when missing. */
  function ScoreText(score: Option<int>): string {
    match score
    case None => NOT_AVAILABLE
    case Some(n) => IntToDecimal(n)
  }

  /** A missing score renders "N/A"; a present one renders as an integer text that reads back as the score. */
  lemma ScoreTextReadsBack(score: Option<int>)
    ensures score.None? ==> ScoreText(score) == NOT_AVAILABLE
    ensures score.Some? ==> IsIntText(ScoreText(score)) && ParseInt(ScoreText(score)) == score.value
  {
    if score.Some? {
      IntToDecimalRoundTrip(score.value);
    }
  }

  /**
   The start time shown: "Unknown" when the timestamp is missing or is itself the text
   "Unknown", "Invalid Time Format" when the conversion cannot parse it, otherwise the
   converted text.
   */
  function StartTime(dateTime: Option<string>, convert: TimeConverter): (r: string)
    ensures dateTime.None? || dateTime == Some(UNKNOWN) ==> r == UNKNOWN
    ensures dateTime.Some? && dateTime.value != UNKNOWN && convert(dateTime.value).Unparsed? ==> r == INVALID_TIME
    ensures dateTime.Some? && dateTime.value != UNKNOWN && convert(dateTime.value).Parsed? ==> r == convert(dateTime.value).text
  {
    var startTimeUtc := dateTime.GetOr(UNKNOWN);
    if startTimeUtc != UNKNOWN then
      match convert(startTimeUtc)
      case Parsed(text) => text
      case Unparsed => INVALID_TIME
    else
      UNKNOWN
  }

  /** One quarter as "Q<n>: <away>-<home>". */
  function QuarterText(q: Quarter): string {
    "Q" + IntToDecimal(q.number) + ": " + ScoreText(q.awayScore) + "-" + ScoreText(q.homeScore)
  }

  function QuarterTexts(qs: seq<Quarter>): (r: seq<string>)
    ensures |r| == |qs|
  {
    seq(|qs|, k requires 0 <= k < |qs| => QuarterText(qs[k]))
  }

  /** The quarter-score breakdown: the quarters in order, separated by ", ". */
  function QuarterScores(qs: seq<Quarter>): string {
    Join(QuarterTexts(qs), ", ")
  }

  /** The values the templates fill in, each already replaced by its default when missing. */
  datatype View = View(
    status: string,
    awayTeam: string,
    homeTeam: string,
    finalScore: string,
    startTime: string,
    channel: string,
    lastPlay: string,
    quarterScores: string)

  function Resolve(g: Game, convert: TimeConverter): View {
    View(
      g.status.GetOr(UNKNOWN),
      g.awayTeam.GetOr(UNKNOWN),
      g.homeTeam.GetOr(UNKNOWN),
      ScoreText(g.awayTeamScore) + "-" + ScoreText(g.homeTeamScore),
      StartTime(g.dateTime, convert),
      g.channel.GetOr(UNKNOWN),
      g.lastPlay.GetOr(NOT_AVAILABLE),
      QuarterScores(g.quarters.GetOr([])))
  }

  /** The two lines every block starts with: the status, then the teams. */
  function HeaderLines(v: View): seq<string> {
    ["Game Status: " + v.status, v.awayTeam + " vs " + v.homeTeam]
  }

  /** The lines of the block, chosen by the status. */
  function Template(v: View): (ls: seq<string>)
    ensures |ls| >= 3 && ls[..2] == HeaderLines(v)
  {
    if v.status == "Final" then
      ["Game Status: " + v.status,
       v.awayTeam + " vs " + v.homeTeam,
       "Final Score: " + v.finalScore,
       "Start Time (EST): " + v.startTime,
       "Channel: " + v.channel,
       "Quarter Scores: " + v.quarterScores]
    else if v.status == "InProgress" then
      ["Game Status: " + v.status,
       v.awayTeam + " vs " + v.homeTeam,
       "Current Score: " + v.finalScore,
       "Last Play: " + v.lastPlay,
       "Channel: " + v.channel]
    else if v.status == "Scheduled" then
      ["Game Status: " + v.status,
       v.awayTeam + " vs " + v.homeTeam,
       "Start Time (EST): " + v.startTime,
       "Channel: " + v.channel]
    else
      ["Game Status: " + v.status,
       v.awayTeam + " vs " + v.homeTeam,
       "Details are unavailable at the moment."]
  }

  /**
   `format_game_data`: the text block for one game, each template line followed by a line
   break. Every block opens with the status line and the teams line and ends with a line break.
   */
  function FormatGame(g: Game, convert: TimeConverter): (r: string)
    ensures Unlines(HeaderLines(Resolve(g, convert))) <= r
    ensures |r| > 0 && r[|r| - 1] == '\n'
  {
    var ls := Template(Resolve(g, convert));
    assert ls == ls[..2] + ls[2..];
    UnlinesAppend(ls[..2], ls[2..]);
    Unlines(ls)
  }

  // ----- Properties of the formatter -----

  /** No filled-in value contains a line break, so every template line is one line of text. */
  predicate OneLine(v: View) {
    && Avoids(v.status, '\n') && Avoids(v.awayTeam, '\n') && Avoids(v.homeTeam, '\n')
    && Avoids(v.finalScore, '\n') && Avoids(v.startTime, '\n') && Avoids(v.channel, '\n')
    && Avoids(v.lastPlay, '\n') && Avoids(v.quarterScores, '\n')
  }

  /** A template filled with values free of line breaks has no line break inside a line. */
  lemma TemplateOneLine(v: View)
    requires OneLine(v)
    ensures AllAvoid(Template(v), '\n')
  {
    var ls := Template(v);
    forall k | 0 <= k < |ls| ensures Avoids(ls[k], '\n') {
      LabelsAvoidLineBreak();
    }
  }

  /** None of the fixed texts of the templates holds a line break. */
  lemma LabelsAvoidLineBreak()
    ensures Avoids("Game Status: ", '\n') && Avoids(" vs ", '\n') && Avoids("Channel: ", '\n')
    ensures Avoids("Final Score: ", '\n') && Avoids("Start Time (EST): ", '\n') && Avoids("Quarter Scores: ", '\n')
    ensures Avoids("Current Score: ", '\n') && Avoids("Last Play: ", '\n')
    ensures Avoids("Details are unavailable at the moment.", '\n')
  {
    HeaderLabels();
    FinalLabels();
    InProgressLabels();
    OtherStatusLabel();
  }

  lemma HeaderLabels()
    ensures Avoids("Game Status: ", '\n') && Avoids(" vs ", '\n') && Avoids("Channel: ", '\n')
  {
  }

  lemma FinalLabels()
    ensures Avoids("Final Score: ", '\n') && Avoids("Start Time (EST): ", '\n') && Avoids("Quarter Scores: ", '\n')
  {
  }

  lemma InProgressLabels()
    ensures Avoids("Current Score: ", '\n') && Avoids("Last Play: ", '\n')
  {
  }

  lemma OtherStatusLabel()
    ensures Avoids("Details are unavailable at the moment.", '\n')
  {
  }

  /**
   The lines of a block, and so their number, are fixed by the status: six for "Final", five for
   "InProgress", four for "Scheduled" and three for any other status, always opening with the
   status line and the teams line.
   */
  lemma FormatLines(g: Game, convert: TimeConverter)
    requires AllAvoid(Template(Resolve(g, convert)), '\n')
    ensures var v := Resolve(g, convert); var ls := Lines(FormatGame(g, convert));
      && ls == Template(v)
      && ls[0] == "Game Status: " + v.status
      && ls[1] == v.awayTeam + " vs " + v.homeTeam
      && |ls| == (if v.status == "Final" then 6 else if v.status == "InProgress" then 5
                  else if v.status == "Scheduled" then 4 else 3)
  {
    LinesUnlines(Template(Resolve(g, convert)));
  }

  /** No quarter entry contains a ',', which is what makes the ", " join reversible. */
  lemma QuarterTextsAvoidComma(qs: seq<Quarter>)
    ensures AllAvoid(QuarterTexts(qs), ',')
  {
    forall k | 0 <= k < |qs| ensures Avoids(QuarterTexts(qs)[k], ',') {
      QuarterTextAvoidsComma(qs[k]);
    }
  }

  lemma QuarterTextAvoidsComma(q: Quarter)
    ensures Avoids(QuarterText(q), ',')
  {
    var n, a, h := IntToDecimal(q.number), ScoreText(q.awayScore), ScoreText(q.homeScore);
    IntToDecimalIsIntText(q.number);
    IntTextAvoids(n, ',');
    ScoreTextAvoidsComma(q.awayScore);
    ScoreTextAvoidsComma(q.homeScore);
    assert Avoids("Q", ',') && Avoids(": ", ',') && Avoids("-", ',');
    assert QuarterText(q) == "Q" + n + ": " + a + "-" + h;
  }

  lemma ScoreTextAvoidsComma(score: Option<int>)
    ensures Avoids(ScoreText(score), ',')
  {
    match score
    case None =>
      assert Avoids(NOT_AVAILABLE, ',');
    case Some(n) =>
      IntToDecimalIsIntText(n);
      IntTextAvoids(IntToDecimal(n), ',');
  }

  /** Without quarters the quarter-score text is empty. */
  lemma NoQuartersNoScores()
    ensures QuarterScores([]) == ""
  {
  }

  /** The quarter-score text splits at ", " back into the entries, in quarter order. */
  lemma QuarterScoresSplit(qs: seq<Quarter>)
    requires qs != []
    ensures Split(QuarterScores(qs), ", ") == QuarterTexts(qs)
  {
    QuarterTextsAvoidComma(qs);
    SplitJoin(QuarterTexts(qs), ", ");
  }

  /** The quarter-score text has exactly one separator fewer than there are quarters. */
  lemma QuarterScoresSeparators(qs: seq<Quarter>)
    requires qs != []
    ensures Count(QuarterScores(qs), ',') == |qs| - 1
  {
    QuarterTextsAvoidComma(qs);
    var texts := QuarterTexts(qs);
    var perSeparator := Count(", ", ',');
    assert perSeparator == 1 by {
      assert ", "[1..] == " " && " "[1..] == "";
    }
    JoinCount(texts, ", ", ',');
    assert Count(Join(texts, ", "), ',') == (|texts| - 1) * perSeparator;
  }

  lemma QuarterTextsAt(qs: seq<Quarter>, k: nat)
    requires k < |qs|
    ensures QuarterTexts(qs)[k] == QuarterText(qs[k])
  {
  }

  /** The quarter-score text begins with the first quarter's entry: no separator in front. */
  lemma QuarterScoresStart(qs: seq<Quarter>)
    requires qs != []
    ensures QuarterText(qs[0]) <= QuarterScores(qs)
  {
    QuarterTextsAt(qs, 0);
    assert QuarterScores(qs) == Join(QuarterTexts(qs), ", ");
    JoinStartsWith(QuarterTexts(qs), ", ", QuarterText(qs[0]));
  }

  /** The quarter-score text ends with the last quarter's entry: no separator behind. */
  lemma QuarterScoresEnd(qs: seq<Quarter>)
    requires qs != []
    ensures EndsWith(QuarterScores(qs), QuarterText(qs[|qs| - 1]))
  {
    var last := |qs| - 1;
    QuarterTextsAt(qs, last);
    assert QuarterScores(qs) == Join(QuarterTexts(qs), ", ");
    JoinEndsWith(QuarterTexts(qs), ", ", QuarterText(qs[last]));
  }

  /** Two quarters render as "Q1: 10-12, Q2: 20-18". */
  lemma TwoQuarters()
    ensures QuarterScores([Quarter(1, Some(10), Some(12)), Quarter(2, Some(20), Some(18))])
            == "Q1: 10-12, Q2: 20-18"
  {
    var qs := [Quarter(1, Some(10), Some(12)), Quarter(2, Some(20), Some(18))];
    FirstExampleQuarter();
    SecondExampleQuarter();
    assert QuarterTexts(qs) == ["Q1: 10-12", "Q2: 20-18"];
    ExampleJoin();
  }

  lemma FirstExampleQuarter()
    ensures QuarterText(Quarter(1, Some(10), Some(12))) == "Q1: 10-12"
  {
    assert IntToDecimal(1) == "1" && IntToDecimal(10) == "10" && IntToDecimal(12) == "12";
  }

  lemma SecondExampleQuarter()
    ensures QuarterText(Quarter(2, Some(20), Some(18))) == "Q2: 20-18"
  {
    assert IntToDecimal(2) == "2" && IntToDecimal(20) == "20" && IntToDecimal(18) == "18";
  }

  lemma ExampleJoin()
    ensures Join(["Q1: 10-12", "Q2: 20-18"], ", ") == "Q1: 10-12, Q2: 20-18"
  {
  }

  /** A record with every field missing renders the placeholders and the "details unavailable" notice. */
  lemma EmptyRecord(convert: TimeConverter)
    ensures Lines(FormatGame(Game(None, None, None, None, None, None, None, None, None), convert))
            == ["Game Status: " + UNKNOWN, UNKNOWN + " vs " + UNKNOWN, "Details are unavailable at the moment."]
  {
    var g := Game(None, None, None, None, None, None, None, None, None);
    assert Resolve(g, convert) == View(UNKNOWN, UNKNOWN, UNKNOWN, NOT_AVAILABLE + "-" + NOT_AVAILABLE, UNKNOWN, UNKNOWN, NOT_AVAILABLE, "");
    TemplateOneLine(Resolve(g, convert));
    FormatLines(g, convert);
  }

  /** A "Final" record with nothing else renders every placeholder and an empty quarter list. */
  lemma BareFinalRecord(convert: TimeConverter)
    ensures Lines(FormatGame(Game(Some("Final"), None, None, None, None, None, None, None, None), convert))
            == BARE_FINAL_LINES
  {
    var g := Game(Some("Final"), None, None, None, None, None, None, None, None);
    var v := BARE_FINAL_VIEW;
    assert QuarterScores([]) == "";
    assert Resolve(g, convert) == v;
    assert OneLine(v);
    TemplateOneLine(v);
    FormatLines(g, convert);
    BareFinalTemplate();
  }

  const BARE_FINAL_LINES := ["Game Status: Final", "Unknown vs Unknown", "Final Score: N/A-N/A",
                             "Start Time (EST): Unknown", "Channel: Unknown", "Quarter Scores: "]

  /** The values of a "Final" record with no other field: every default. */
  const BARE_FINAL_VIEW := View("Final", UNKNOWN, UNKNOWN, NOT_AVAILABLE + "-" + NOT_AVAILABLE, UNKNOWN, UNKNOWN, NOT_AVAILABLE, "")

  /** The "Final" template filled with the defaults is the six placeholder lines. */
  lemma BareFinalTemplate()
    ensures Template(BARE_FINAL_VIEW) == BARE_FINAL_LINES
  {
    var ls := Template(BARE_FINAL_VIEW);
    assert ls[0] == "Game Status: Final";
    assert ls[1] == "Unknown vs Unknown";
    assert ls[2] == "Final Score: N/A-N/A";
    assert ls[3] == "Start Time (EST): Unknown";
    assert ls[4] == "Channel: Unknown";
    assert ls[5] == "Quarter Scores: ";
  }

  /** A missing field is rendered exactly as if it held its default text. */
  lemma MissingIsDefault(g: Game, convert: TimeConverter)
    ensures FormatGame(g.(status := None), convert) == FormatGame(g.(status := Some(UNKNOWN)), convert)
    ensures FormatGame(g.(awayTeam := None), convert) == FormatGame(g.(awayTeam := Some(UNKNOWN)), convert)
    ensures FormatGame(g.(homeTeam := None), convert) == FormatGame(g.(homeTeam := Some(UNKNOWN)), convert)
    ensures FormatGame(g.(channel := None), convert) == FormatGame(g.(channel := Some(UNKNOWN)), convert)
    ensures FormatGame(g.(lastPlay := None), convert) == FormatGame(g.(lastPlay := Some(NOT_AVAILABLE)), convert)
    ensures FormatGame(g.(quarters := None), convert) == FormatGame(g.(quarters := Some([])), convert)
  {
  }

  /** A timestamp that is the text "Unknown" is treated as a missing one. */
  lemma UnknownDateTimeIsMissing(g: Game, convert: TimeConverter)
    ensures FormatGame(g.(dateTime := Some(UNKNOWN)), convert) == FormatGame(g.(dateTime := None), convert)
  {
  }

  /**
   The time-zone conversion is consulted only for a present timestamp other than "Unknown", and
   only the "Final" and "Scheduled" blocks show its result.
   */
  lemma ConversionUsedOnlyWhenShown(g: Game, c1: TimeConverter, c2: TimeConverter)
    requires var status := g.status.GetOr(UNKNOWN);
      || (status != "Final" && status != "Scheduled")
      || g.dateTime.None? || g.dateTime == Some(UNKNOWN)
    ensures FormatGame(g, c1) == FormatGame(g, c2)
  {
  }
}
