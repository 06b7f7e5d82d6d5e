/**
 The entry point (`lambda_handler`): resolve the API key, fetch yesterday's games, format each
 one, join the blocks and publish the message, returning a status code and a body at the first
 failure. The environment, the clock, the HTTP request, JSON decoding and the notification
 service are inputs: the method is given what each of them produced, and it returns the
 effects it would have performed in order.
 */
module Handler {
  import opened Wrappers
  import opened Text
  import opened GameFormat

  /** The two environment variables: the API key and the notification topic. */
  datatype Config = Config(apiKey: Option<string>, topicArn: Option<string>)

  /** A decoded JSON document: a list of game records, or some other JSON value. */
  datatype Payload = Games(games: seq<Game>) | NotAList

  /** The response body: a JSON document, or text that does not decode as JSON. */
  datatype Body = Decoded(payload: Payload) | InvalidJson

  /**
   What the request for the day's games produced: a response with its HTTP status (the body is
   read only when the status is 200), an `HTTPError` with its code and reason, or a `URLError`
   (no connection, connection timeout) with its reason.
   */
  datatype FetchOutcome =
    | Response(status: int, body: Body)
    | HttpError(code: int, reason: string)
    | UrlError(reason: string)

  /** What publishing the message produced. */
  datatype PublishOutcome = Published | PublishFailed(error: string)

  /** The outside actions the handler takes, in order. */
  datatype Effect =
    | Fetch(date: string, apiKey: string)
    | Publish(topicArn: Option<string>, subject: string, message: string)

  /** The value returned to the invoker. */
  datatype Result = Result(statusCode: int, body: string)

  const SEPARATOR := "\n---\n"
  const NO_GAMES := "No games available for today."
  const SUBJECT := "NBA Game Updates"

  /** `if not api_key`: a missing key and an empty one are both refused. */
  predicate HasApiKey(config: Config) {
    config.apiKey.Some? && config.apiKey.value != ""
  }

  /** The fetch gave a non-empty list of games, the only case in which the message is published. */
  predicate HasGames(fetch: FetchOutcome) {
    fetch.Response? && fetch.status == 200 && fetch.body.Decoded?
    && fetch.body.payload.Games? && fetch.body.payload.games != []
  }

  /** One text block per game, in the order of the list. */
  function Messages(games: seq<Game>, convert: TimeConverter): (r: seq<string>)
    ensures |r| == |games|
  {
    seq(|games|, k requires 0 <= k < |games| => FormatGame(games[k], convert))
  }

  /** The message body: the game blocks joined by "\n---\n", or the "no games" text for none. */
  function ComposeMessage(games: seq<Game>, convert: TimeConverter): string {
    var messages := Messages(games, convert);
    if messages != [] then Join(messages, SEPARATOR) else NO_GAMES
  }

  /**
   `lambda_handler`. `yesterday` is the previous calendar day in US Eastern time, `fetch` and
   `publish` are what the network and the notification service produced, `convert` is the
   time-zone conversion. `effects` lists the request and the publication the handler performs.
   */
  method Handle(config: Config, yesterday: string, fetch: FetchOutcome, publish: PublishOutcome,
                convert: TimeConverter)
    returns (result: Result, effects: seq<Effect>)
    ensures !HasApiKey(config) ==> result == Result(400, "Error: Missing NBA_API_KEY") && effects == []
    ensures HasApiKey(config) ==> 1 <= |effects| <= 2 && effects[0] == Fetch(yesterday, config.apiKey.value)
    ensures HasApiKey(config) && fetch.Response? && fetch.status != 200 ==>
      result == Result(fetch.status, "API Error: HTTP " + IntToDecimal(fetch.status)) && |effects| == 1
    ensures HasApiKey(config) && fetch.HttpError? ==>
      result == Result(fetch.code, "HTTP Error: " + fetch.reason) && |effects| == 1
    ensures HasApiKey(config) && fetch.UrlError? ==>
      result == Result(500, "Network Error: " + fetch.reason) && |effects| == 1
    ensures HasApiKey(config) && fetch == Response(200, InvalidJson) ==>
      result == Result(500, "Error: Invalid JSON response from API") && |effects| == 1
    ensures HasApiKey(config) && fetch.Response? && fetch.status == 200 && fetch.body.Decoded? && !HasGames(fetch) ==>
      result == Result(200, NO_GAMES) && |effects| == 1
    ensures (|effects| == 2) == (HasApiKey(config) && HasGames(fetch))
    ensures HasApiKey(config) && HasGames(fetch) ==>
      && effects[1] == Publish(config.topicArn, SUBJECT, ComposeMessage(fetch.body.payload.games, convert))
      && result == (if publish.Published? then Result(200, "Data processed and sent to SNS")
                    else Result(500, "Error publishing to SNS: " + publish.error))
  {
    effects := [];
    if !HasApiKey(config) {
      return Result(400, "Error: Missing NBA_API_KEY"), effects;
    }
    effects := effects + [Fetch(yesterday, config.apiKey.value)];

    var data: Payload;
    match fetch {
      case Response(status, body) =>
        if status != 200 {
          return Result(status, "API Error: HTTP " + IntToDecimal(status)), effects;
        }
        match body {
          case InvalidJson =>
            return Result(500, "Error: Invalid JSON response from API"), effects;
          case Decoded(payload) =>
            data := payload;
        }
      case HttpError(code, reason) =>
        return Result(code, "HTTP Error: " + reason), effects;
      case UrlError(reason) =>
        return Result(500, "Network Error: " + reason), effects;
    }

    if !data.Games? || data.games == [] {
      return Result(200, NO_GAMES), effects;
    }

    var finalMessage := ComposeMessage(data.games, convert);
    effects := effects + [Publish(config.topicArn, SUBJECT, finalMessage)];
    if publish.PublishFailed? {
      return Result(500, "Error publishing to SNS: " + publish.error), effects;
    }
    result := Result(200, "Data processed and sent to SNS");
  }

  // ----- Properties of the message -----

  /** Without games the message is the "no games" text. */
  lemma NoGamesMessage(convert: TimeConverter)
    ensures ComposeMessage([], convert) == NO_GAMES
  {
  }

  lemma MessagesAt(games: seq<Game>, convert: TimeConverter, k: nat)
    requires k < |games|
    ensures Messages(games, convert)[k] == FormatGame(games[k], convert)
  {
  }

  lemma MessagesLast(games: seq<Game>, convert: TimeConverter)
    requires games != []
    ensures var ms := Messages(games, convert); |ms| > 0 && ms[|ms| - 1] == FormatGame(games[|games| - 1], convert)
  {
    var ms, k := Messages(games, convert), |games| - 1;
    assert |ms| - 1 == k;
    MessagesAt(games, convert, k);
  }

  lemma ComposeIsJoin(games: seq<Game>, convert: TimeConverter)
    requires games != []
    ensures ComposeMessage(games, convert) == Join(Messages(games, convert), SEPARATOR)
  {
  }

  /** With games, the message starts with the first game's block. */
  lemma MessageStart(games: seq<Game>, convert: TimeConverter)
    requires games != []
    ensures FormatGame(games[0], convert) <= ComposeMessage(games, convert)
  {
    MessagesAt(games, convert, 0);
    ComposeIsJoin(games, convert);
    JoinStartsWith(Messages(games, convert), SEPARATOR, FormatGame(games[0], convert));
  }

  /** With games, the message ends with the last game's block. */
  lemma MessageEnd(games: seq<Game>, convert: TimeConverter)
    requires games != []
    ensures EndsWith(ComposeMessage(games, convert), FormatGame(games[|games| - 1], convert))
  {
    MessagesLast(games, convert);
    ComposeIsJoin(games, convert);
    JoinEndsWith(Messages(games, convert), SEPARATOR, FormatGame(games[|games| - 1], convert));
  }

  /** The separator is a blank line followed by a "---" line. */
  lemma SeparatorLines()
    ensures Lines(SEPARATOR) == ["", "---"]
  {
    var ls := ["", "---"];
    assert Unlines(ls[1..]) == "---\n";
    assert SEPARATOR == Unlines(ls);
    assert AllAvoid(ls, '\n') by {
      assert Avoids("", '\n') && Avoids("---", '\n');
    }
    LinesUnlines(ls);
  }

  /**
   The lines of the message are the lines of the blocks in order, with a blank line and a "---"
   line between neighbours (each block already ends with a line break).
   */
  lemma MessageLines(games: seq<Game>, convert: TimeConverter)
    requires games != []
    ensures Lines(ComposeMessage(games, convert)) == Join(LinesOfEach(Messages(games, convert)), ["", "---"])
  {
    SeparatorLines();
    LinesOfJoin(Messages(games, convert), SEPARATOR);
  }

  /** No template line is a "---" line: every one is longer than three characters. */
  lemma TemplateHasNoRule(v: View)
    ensures "---" !in Template(v)
  {
  }

  /** When no line of any game's template holds a line break, the message has exactly one "---" line fewer than there are games. */
  lemma MessageSeparators(games: seq<Game>, convert: TimeConverter)
    requires games != []
    requires forall k :: 0 <= k < |games| ==> AllAvoid(Template(Resolve(games[k], convert)), '\n')
    ensures Count(Lines(ComposeMessage(games, convert)), "---") == |games| - 1
  {
    var blocks := LinesOfEach(Messages(games, convert));
    forall k | 0 <= k < |blocks| ensures Avoids(blocks[k], "---") {
      FormatLines(games[k], convert);
      TemplateHasNoRule(Resolve(games[k], convert));
    }
    MessageLines(games, convert);
    var perSeparator := Count(["", "---"], "---");
    assert perSeparator == 1 by {
      assert ["", "---"][1..] == ["---"] && ["---"][1..] == [];
    }
    JoinCount(blocks, ["", "---"], "---");
    assert Count(Join(blocks, ["", "---"]), "---") == (|blocks| - 1) * perSeparator;
  }
}
