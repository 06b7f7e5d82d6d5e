# NBA game notifications: a verified model

The system is a scheduled AWS Lambda function. It fetches the previous day's NBA games (the
day is taken in US Eastern time) from the SportsData.io scores API. It renders each game as a
short text block and publishes the joined blocks to an SNS topic. This project models the two
pieces of logic in `src/lambda_function.py`:

- `format_game_data`, the formatter (module `GameFormat`, file `game_format.dfy`). A game
  record is a datatype whose fields are all optional. Each missing field is replaced by its
  default (`Resolve`). The status then picks one of four templates (`Template`), and the block
  is those lines, each followed by a line break (`FormatGame`).
- `lambda_handler`, the entry point (module `Handler`, file `handler.dfy`). It is a method
  over inputs that stand for the outside world:
  - the two environment variables;
  - the previous Eastern calendar day;
  - what the HTTP request produced;
  - what the SNS publish call produced.

  The method returns the `{statusCode, body}` result and the list of outside effects it
  performs: the fetch and the publication. The message it publishes is `ComposeMessage`: the
  formatted blocks joined with `"\n---\n"`.

`text.dfy` (module `Text`) holds what the formatter and the handler use from Python: `str.join`
(`Join`), `str(int)` (`IntToDecimal`) and multi-line f-strings (`Unlines`). Each has an inverse
that is used only to state properties: `Split`, `ParseInt` and `Lines`. A round-trip lemma ties
each pair together. `wrappers.dfy` holds `Option`, whose `GetOr` is `dict.get(key, default)`.

The time-zone conversion (`strptime`, then `astimezone` to America/New_York, then `strftime`)
is a parameter `convert: string -> TimeParse`. It returns `Parsed(text)` or `Unparsed`, where
`Unparsed` stands for the `ValueError` the code catches. The model covers the fallback rules
around it, not the calendar itself.

The model follows the code as written. Four of its behaviours are easy to miss:

- Any status other than 200 ends the run, not only non-2xx statuses.
- There is no separate timeout error. A connection timeout reaches the code as a `URLError`
  (500). A read timeout is not caught at all (see "Left out").
- A `DateTime` holding the text `"Unknown"` is treated as a missing one, because the code
  compares against the default text.
- Malformed fields are not all tolerated. A quarter without `Number` raises an error, so in
  the model a quarter's number is a required field.

## Model

| member | source | states |
|---|---|---|
| GameFormat.ScoreTextReadsBack | src/lambda_function.py:12 | a missing score renders "N/A"; a present one renders an integer text (digits, after an optional minus sign) that reads back as the score |
| GameFormat.StartTime | src/lambda_function.py:13-26 | a missing timestamp, or the text "Unknown", gives "Unknown"; an unparseable one gives "Invalid Time Format"; otherwise the converted text |
| GameFormat.Template | src/lambda_function.py:32-62 | every status's template has at least three lines and opens with "Game Status: <status>" and "<away> vs <home>" |
| GameFormat.FormatGame | src/lambda_function.py:8-62 | every block begins with the status line and the teams line, each followed by a line break, and the block ends with a line break |
| GameFormat.TemplateOneLine | src/lambda_function.py:32-62 | when no filled-in value contains a line break, no line of the chosen template contains one |
| GameFormat.FormatLines | src/lambda_function.py:32-62 | when no line of the chosen template contains a line break (values the template does not show may hold any text), splitting the block into lines gives back exactly its template's lines: 6 for "Final", 5 for "InProgress", 4 for "Scheduled", 3 for any other status |
| GameFormat.QuarterTextsAvoidComma | src/lambda_function.py:30 | no "Q<n>: <away>-<home>" entry contains a ',' |
| GameFormat.NoQuartersNoScores | src/lambda_function.py:29-30 | an empty quarter list gives an empty quarter-score text |
| GameFormat.QuarterScoresSplit | src/lambda_function.py:30 | for one quarter or more, splitting the quarter-score text at ", " gives back the entries in quarter order |
| GameFormat.QuarterScoresSeparators | src/lambda_function.py:30 | for one quarter or more, the quarter-score text holds exactly |qs| - 1 commas, one per separator |
| GameFormat.QuarterScoresStart | src/lambda_function.py:30 | the quarter-score text starts with the first quarter's entry, so no separator stands in front |
| GameFormat.QuarterScoresEnd | src/lambda_function.py:30 | the quarter-score text ends with the last quarter's entry, so no separator stands behind |
| GameFormat.TwoQuarters | src/lambda_function.py:30 | quarters (1, 10, 12) and (2, 20, 18) render as "Q1: 10-12, Q2: 20-18" |
| GameFormat.EmptyRecord | src/lambda_function.py:9-62 | a record with no fields renders as the lines "Game Status: Unknown", "Unknown vs Unknown", "Details are unavailable at the moment." |
| GameFormat.BareFinalRecord | src/lambda_function.py:9-40 | a "Final" record with no other field renders "N/A-N/A" as the score, "Unknown" as the start time and channel, and an empty quarter list |
| GameFormat.BareFinalTemplate | src/lambda_function.py:32-40 | the "Final" template filled with the defaults is the six placeholder lines |
| GameFormat.MissingIsDefault | src/lambda_function.py:9-42 | a missing Status, AwayTeam, HomeTeam, Channel or LastPlay renders as if it held "Unknown" (or "N/A" for LastPlay); missing Quarters render as an empty list |
| GameFormat.UnknownDateTimeIsMissing | src/lambda_function.py:13-26 | a DateTime of "Unknown" renders the same block as a missing DateTime |
| GameFormat.ConversionUsedOnlyWhenShown | src/lambda_function.py:17-62 | the block does not depend on the time conversion when the status is neither "Final" nor "Scheduled", or when DateTime is missing or "Unknown" |
| Handler.Handle | src/lambda_function.py:64-118 | a missing or empty key gives 400 with no fetch and no publish; a status other than 200 gives that status; an HTTPError gives its code; a URLError or invalid JSON gives 500; non-list or empty data gives 200 "No games available for today."; none of these publish. Publishing happens exactly when the data is a non-empty list, with subject "NBA Game Updates" and the joined message; then a failure gives 500 and success gives 200 "Data processed and sent to SNS" |
| Handler.NoGamesMessage | src/lambda_function.py:104-105 | no games give the message "No games available for today." |
| Handler.MessageStart | src/lambda_function.py:104-105 | with games, the message starts with the first game's block |
| Handler.MessageEnd | src/lambda_function.py:104-105 | with games, the message ends with the last game's block |
| Handler.SeparatorLines | src/lambda_function.py:105 | the separator "\n---\n" is a blank line followed by a "---" line |
| Handler.MessageLines | src/lambda_function.py:104-105 | the message's lines are the blocks' lines in game order, with a blank line and a "---" line between neighbours |
| Handler.TemplateHasNoRule | src/lambda_function.py:32-62 | no template line is "---" |
| Handler.MessageSeparators | src/lambda_function.py:104-105 | for one game or more, when no line of any game's template contains a line break, n games give exactly n - 1 "---" lines in the message |
| Text.FindAfter | src/lambda_function.py:30 | the first separator in x + sep + rest starts right after x when x does not contain sep's first character |
| Text.SplitJoin | src/lambda_function.py:30 | splitting a join at its separator gives back the elements, when no element contains the separator's first character |
| Text.JoinEnds | src/lambda_function.py:105 | a join starts with its first element and ends with its last |
| Text.JoinCount | src/lambda_function.py:105 | a value absent from every element occurs in the join only in the separators: (n - 1) times its count in the separator |
| Text.LinesUnlines | src/lambda_function.py:33-40 | the lines of newline-terminated lines that contain no line break are those lines |
| Text.LinesOfJoin | src/lambda_function.py:105 | joining newline-terminated texts with a newline-terminated separator joins their lines with the separator's lines |
| Text.UnlinesAppend | src/lambda_function.py:33-40 | the text of two runs of lines is the text of the first followed by the text of the second |
| Text.NatToDecimal | src/lambda_function.py:12 | a natural number renders as a non-empty run of decimal digits with no leading zero |
| Text.IntToDecimalIsIntText | src/lambda_function.py:12 | the rendering of an integer is digits, after a minus sign exactly when the integer is negative |
| Text.IntToDecimalRoundTrip | src/lambda_function.py:12 | reading back the rendering of any integer gives that integer, as Python's str(int) does |

## Left out

- The HTTP request (`urllib.request.urlopen` with its 5-second timeout, and reading the
  response) is network I/O. The handler receives what it produced as a `FetchOutcome`.
- A read timeout, or an undecodable body (`UnicodeDecodeError`), raises an exception that the
  code does not catch. The invocation then fails outside the returned result, so the model has
  no outcome for it.
- JSON decoding is a library call. The handler receives the decoded document as a `Payload`
  (a list of game records or some other value), or `InvalidJson`.
- SNS publishing through `boto3` is a foreign service. The handler records the `Publish`
  effect it would perform and receives the service's answer as a `PublishOutcome`.
- Environment reads (`os.getenv`) and all `print` logging are ambient state and side effects.
  The key and topic arrive as a `Config`, and nothing is logged.
- The clock and the "yesterday in America/New_York" computation depend on the time-zone
  database. The date is the `yesterday` parameter. The request URL that carries it is left out
  because it only feeds I/O; the `Fetch` effect records the date and the key.
- StartTime: the conversion to "YYYY-MM-DD hh:mm AM/PM EST" is the parameter `convert`. The
  model does not define which timestamps parse, nor the converted text.
- Python crash cases the code does not handle are not modelled:
  - a quarter without `Number` (`KeyError`);
  - a record that is not a JSON object;
  - a JSON `null` field, which renders as "None";
  - a non-string `DateTime`, which raises `TypeError`, not `ValueError`.
- Scores and quarter numbers are modelled as integers. A JSON float or string score would be
  rendered by `str` differently.
