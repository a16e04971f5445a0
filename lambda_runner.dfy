/**
 * The storage-triggered handler (src/lambda/lambda_runner.py): for each
 * record of the event it fetches the stored object, cleans and parses its
 * content, normalises every tweet and loads the documents into the search
 * index. A fetch, parse or load failure skips to the next record; a
 * normalisation failure is not caught and ends the whole invocation.
 */
module LambdaRunner {
  import opened Python
  import opened TweetUtils
  import EsUtils

  /** The stored object's body as `obj['Body'].read().decode('utf-8')` sees it. */
  datatype Body = Utf8(text: string) | NotUtf8

  /**
   * The collaborators the handler calls, each as a function of its
   * arguments: `s3.get_object` (None when it raises), `json.loads` of the
   * wrapped content (None when it raises; a JSON text that starts with `[`
   * and ends with `]` decodes to a list), the text polarity scorer, and
   * `load_to_es` on the processed documents.
   */
  datatype Env = Env(
    getObject: (Value, Value) -> Option<Body>,
    jsonLoads: string -> Option<seq<Value>>,
    polarity: string -> real,
    loadToEs: seq<Value> -> Outcome)

  /** The separator the stream writer puts after every tweet. */
  const SEPARATOR: string := ",\n"

  predicate EndsWith(s: string, suffix: string) {
    |s| >= |suffix| && s[|s| - |suffix|..] == suffix
  }

  /** Drops one trailing `",\n"`, if there is one. */
  function CleanContent(content: string): (cleaned: string)
    ensures EndsWith(content, SEPARATOR) ==> cleaned + SEPARATOR == content
    ensures !EndsWith(content, SEPARATOR) ==> cleaned == content
  {
    if EndsWith(content, SEPARATOR) then content[..|content| - 2] else content
  }

  /** The string handed to `json.loads`. */
  function ParserInput(content: string): string {
    "[" + CleanContent(content) + "]"
  }

  /**
   * The cleanup is an `if`, not a loop: of two trailing separators only the
   * last is dropped, and a single one disappears from the parser input.
   */
  lemma CleanStripsOneSeparator(body: string)
    ensures CleanContent(body + SEPARATOR + SEPARATOR) == body + SEPARATOR
    ensures ParserInput(body + SEPARATOR) == "[" + body + "]"
  {
    var twice := body + SEPARATOR + SEPARATOR;
    assert twice[|twice| - 2..] == SEPARATOR;
    assert twice[..|twice| - 2] == body + SEPARATOR;
    var once := body + SEPARATOR;
    assert once[|once| - 2..] == SEPARATOR;
    assert once[..|once| - 2] == body;
  }

  /** `record['s3']['bucket']['name']` and `record['s3']['object']['key']`. */
  function Location(record: Value): Result<(Value, Value)> {
    var s3 :- Subscript(record, "s3");
    var bucketInfo :- Subscript(s3, "bucket");
    var bucket :- Subscript(bucketInfo, "name");
    var objectInfo :- Subscript(s3, "object");
    var key :- Subscript(objectInfo, "key");
    Ok((bucket, key))
  }

  /** `process_tweet` with the scorer fixed. */
  function Processor(polarity: string -> real): Value -> Result<Document> {
    tweet => ProcessTweet(tweet, polarity)
  }

  /** `[process_tweet(tweet) for tweet in tweets]`. */
  function ProcessAll(tweets: seq<Value>, polarity: string -> real): Result<seq<Document>> {
    Traverse(tweets, Processor(polarity))
  }

  /**
   * The processed list has one document per tweet, in order, and exists
   * exactly when every tweet is well formed; otherwise the first tweet that
   * is not decides the exception.
   */
  lemma ProcessAllSpec(tweets: seq<Value>, polarity: string -> real)
    ensures ProcessAll(tweets, polarity).Ok? <==> forall i :: 0 <= i < |tweets| ==> WellFormedTweet(tweets[i])
    ensures ProcessAll(tweets, polarity).Ok? ==>
              |ProcessAll(tweets, polarity).value| == |tweets| &&
              forall i :: 0 <= i < |tweets| ==>
                ProcessTweet(tweets[i], polarity) == Ok(ProcessAll(tweets, polarity).value[i])
    ensures ProcessAll(tweets, polarity).Err? ==>
              exists i :: 0 <= i < |tweets| &&
                ProcessTweet(tweets[i], polarity) == Err(ProcessAll(tweets, polarity).error) &&
                forall j :: 0 <= j < i ==> WellFormedTweet(tweets[j])
  {
    TraverseSpec(tweets, Processor(polarity));
    forall i | 0 <= i < |tweets|
      ensures ProcessTweet(tweets[i], polarity).Ok? <==> WellFormedTweet(tweets[i])
    {
      ProcessTweetSpec(tweets[i], polarity);
    }
  }

  /** The processed documents as the dicts `load_to_es` receives. */
  function Dicts(docs: seq<Document>): (dicts: seq<Value>)
    ensures |dicts| == |docs|
  {
    seq(|docs|, i requires 0 <= i < |docs| => docs[i].ToDict())
  }

  /** What happened to one record that did not end the invocation. */
  datatype Status = FetchFailed | ParseFailed | LoadFailed(error: Error) | Loaded

  /** One record either lets the loop go on or raises out of the handler. */
  datatype Step = Continue(status: Status) | Abort(error: Error)

  /** The statuses of the records handled, and the exception that escaped, if any. */
  datatype Report = Report(log: seq<Status>, escaped: Option<Error>)

  /** The body of the loop for one record. */
  function HandleRecord(record: Value, env: Env): Step {
    match Location(record)
    case Err(e) => Abort(e)
    case Ok((bucket, key)) =>
      match env.getObject(bucket, key)
      case None => Continue(FetchFailed)
      case Some(NotUtf8) => Continue(ParseFailed)
      case Some(Utf8(content)) =>
        match env.jsonLoads(ParserInput(content))
        case None => Continue(ParseFailed)
        case Some(tweets) =>
          match ProcessAll(tweets, env.polarity)
          case Err(e) => Abort(e)
          case Ok(docs) =>
            match env.loadToEs(Dicts(docs))
            case Fail(e) => Continue(LoadFailed(e))
            case Pass => Continue(Loaded)
  }

  /** The records handled in order until one raises. */
  function Handle(records: seq<Value>, env: Env): Report {
    if records == [] then Report([], None)
    else
      match HandleRecord(records[0], env)
      case Abort(e) => Report([], Some(e))
      case Continue(status) =>
        var rest := Handle(records[1..], env);
        Report([status] + rest.log, rest.escaped)
  }

  /**
   * The loop visits the records once each, in event order: record `i` gets
   * status `log[i]`. A record whose fetch, parse or load fails still lets the
   * loop go on, so when nothing escapes every record has a status; an
   * exception that escapes comes from the record right after the last one
   * logged, and no later record is handled.
   */
  lemma {:induction false} HandleSpec(records: seq<Value>, env: Env)
    ensures |Handle(records, env).log| <= |records|
    ensures forall i :: 0 <= i < |Handle(records, env).log| ==>
              HandleRecord(records[i], env) == Continue(Handle(records, env).log[i])
    ensures Handle(records, env).escaped.None? <==>
              forall i :: 0 <= i < |records| ==> HandleRecord(records[i], env).Continue?
    ensures Handle(records, env).escaped.None? ==> |Handle(records, env).log| == |records|
    ensures Handle(records, env).escaped.Some? ==>
              |Handle(records, env).log| < |records| &&
              HandleRecord(records[|Handle(records, env).log|], env) == Abort(Handle(records, env).escaped.value)
  {
    if records != [] {
      var rest := records[1..];
      HandleSpec(rest, env);
      assert forall i :: 0 < i < |records| ==> records[i] == rest[i - 1];
    }
  }

  /** Joins the statuses logged so far to the report for the remaining records. */
  function After(log: seq<Status>, rest: Report): Report {
    Report(log + rest.log, rest.escaped)
  }

  /** One iteration of the loop: the report for `records[i..]` in terms of record `i`. */
  lemma HandleUnfold(records: seq<Value>, i: nat, env: Env)
    requires i < |records|
    ensures Handle(records[i..], env) ==
              match HandleRecord(records[i], env)
              case Abort(e) => Report([], Some(e))
              case Continue(status) => After([status], Handle(records[i + 1..], env))
  {
    assert records[i..][1..] == records[i + 1..];
  }

  /** Logging one more status keeps the invariant of the handler's loop. */
  lemma AfterLogged(log: seq<Status>, status: Status, rest: Report)
    ensures After(log, After([status], rest)) == After(log + [status], rest)
  {
    assert log + ([status] + rest.log) == log + [status] + rest.log;
  }

  /**
   * `lambda_handler`'s loop over the event's records. The collaborators'
   * answers come from `env`; the statuses stand for what the handler prints.
   */
  method LambdaHandler(records: seq<Value>, env: Env) returns (log: seq<Status>, escaped: Option<Error>)
    ensures Report(log, escaped) == Handle(records, env)
  {
    log, escaped := [], None;
    for i := 0 to |records|
      invariant Handle(records, env) == After(log, Handle(records[i..], env))
    {
      HandleUnfold(records, i, env);
      var record := records[i];
      var location := Location(record);
      if location.Err? {
        escaped := Some(location.error);
        assert HandleRecord(record, env) == Abort(location.error);
        assert log + [] == log;
        return;
      }
      var (bucket, key) := location.value;

      var obj := env.getObject(bucket, key);
      if obj.None? {
        assert HandleRecord(record, env) == Continue(FetchFailed);
        AfterLogged(log, FetchFailed, Handle(records[i + 1..], env));
        log := log + [FetchFailed];
        continue;
      }

      if obj.value.NotUtf8? {
        assert HandleRecord(record, env) == Continue(ParseFailed);
        AfterLogged(log, ParseFailed, Handle(records[i + 1..], env));
        log := log + [ParseFailed];
        continue;
      }
      var content := obj.value.text;
      if EndsWith(content, SEPARATOR) {
        content := content[..|content| - 2];
      }
      var tweetsStr := "[" + content + "]";
      assert tweetsStr == ParserInput(obj.value.text);
      var tweets := env.jsonLoads(tweetsStr);
      if tweets.None? {
        assert HandleRecord(record, env) == Continue(ParseFailed);
        AfterLogged(log, ParseFailed, Handle(records[i + 1..], env));
        log := log + [ParseFailed];
        continue;
      }

      var processedTweets := ProcessAll(tweets.value, env.polarity);
      if processedTweets.Err? {
        escaped := Some(processedTweets.error);
        assert HandleRecord(record, env) == Abort(processedTweets.error);
        assert log + [] == log;
        return;
      }

      var loaded := env.loadToEs(Dicts(processedTweets.value));
      if loaded.Fail? {
        assert HandleRecord(record, env) == Continue(LoadFailed(loaded.error));
        AfterLogged(log, LoadFailed(loaded.error), Handle(records[i + 1..], env));
        log := log + [LoadFailed(loaded.error)];
        continue;
      }
      assert HandleRecord(record, env) == Continue(Loaded);
      AfterLogged(log, Loaded, Handle(records[i + 1..], env));
      log := log + [Loaded];
    }
    assert records[|records|..] == [];
    assert log + [] == log;
  }

  /**
   * A load is attempted for a record only after its object was fetched and
   * decoded, its cleaned content parsed and all its tweets normalised; the
   * record is logged as loaded exactly when that load returns.
   */
  lemma LoadAttemptedOnlyAfterFetchAndParse(record: Value, env: Env)
    requires HandleRecord(record, env).Continue?
    requires HandleRecord(record, env).status.LoadFailed? || HandleRecord(record, env).status.Loaded?
    ensures Location(record).Ok?
    ensures var (bucket, key) := Location(record).value;
            var obj := env.getObject(bucket, key);
            && obj.Some? && obj.value.Utf8?
            && env.jsonLoads(ParserInput(obj.value.text)).Some?
            && var docs := ProcessAll(env.jsonLoads(ParserInput(obj.value.text)).value, env.polarity);
               && docs.Ok?
               && (HandleRecord(record, env) == Continue(Loaded) <==> env.loadToEs(Dicts(docs.value)) == Pass)
  {
  }

  /**
   * A failing fetch or parse only skips the record: it is logged and the
   * loop goes on.
   */
  lemma FetchOrParseFailureSkips(record: Value, env: Env, bucket: Value, key: Value)
    requires Location(record) == Ok((bucket, key))
    ensures env.getObject(bucket, key).None? ==> HandleRecord(record, env) == Continue(FetchFailed)
    ensures env.getObject(bucket, key) == Some(NotUtf8) ==> HandleRecord(record, env) == Continue(ParseFailed)
    ensures env.getObject(bucket, key).Some? && env.getObject(bucket, key).value.Utf8? &&
            env.jsonLoads(ParserInput(env.getObject(bucket, key).value.text)).None? ==>
              HandleRecord(record, env) == Continue(ParseFailed)
  {
  }

  /**
   * A tweet that cannot be normalised is not caught: the handler raises its
   * exception, whatever the later records hold.
   */
  lemma NormalisationFailureEscapes(records: seq<Value>, env: Env, i: nat, content: string, tweets: seq<Value>, e: Error)
    requires i < |records|
    requires forall j :: 0 <= j < i ==> HandleRecord(records[j], env).Continue?
    requires Location(records[i]).Ok?
    requires env.getObject(Location(records[i]).value.0, Location(records[i]).value.1) == Some(Utf8(content))
    requires env.jsonLoads(ParserInput(content)) == Some(tweets)
    requires ProcessAll(tweets, env.polarity) == Err(e)
    ensures Handle(records, env) == Report(Handle(records, env).log, Some(e))
    ensures |Handle(records, env).log| == i
  {
    assert HandleRecord(records[i], env) == Abort(e);
    HandleSpec(records, env);
    var h := Handle(records, env);
    assert h.escaped.Some?;
    var n := |h.log|;
    assert HandleRecord(records[n], env).Abort?;
    assert n == i;
  }

  /**
   * With `load_to_es` as written, which raises TypeError for every
   * non-empty list of documents, a record whose content holds at least one
   * tweet is never loaded.
   */
  lemma DeployedLoadNeverIndexes(record: Value, env: Env, indexExists: bool, content: string, tweets: seq<Value>)
    requires forall docs :: env.loadToEs(docs) == EsUtils.Load(docs, indexExists, EsUtils.OverChunks).outcome
    requires Location(record).Ok?
    requires env.getObject(Location(record).value.0, Location(record).value.1) == Some(Utf8(content))
    requires env.jsonLoads(ParserInput(content)) == Some(tweets)
    requires tweets != [] && ProcessAll(tweets, env.polarity).Ok?
    ensures HandleRecord(record, env) == Continue(LoadFailed(TypeError))
  {
    ProcessAllSpec(tweets, env.polarity);
    var docs := Dicts(ProcessAll(tweets, env.polarity).value);
    assert docs != [];
    EsUtils.AsWrittenLoad(docs, indexExists);
  }

  /**
   * A load that raises only skips the record: it is logged as a load
   * failure with that exception and the loop goes on with the next record.
   */
  lemma LoadFailureSkips(record: Value, rest: seq<Value>, env: Env, content: string, tweets: seq<Value>, e: Error)
    requires Location(record).Ok?
    requires env.getObject(Location(record).value.0, Location(record).value.1) == Some(Utf8(content))
    requires env.jsonLoads(ParserInput(content)) == Some(tweets)
    requires ProcessAll(tweets, env.polarity).Ok?
    requires env.loadToEs(Dicts(ProcessAll(tweets, env.polarity).value)) == Fail(e)
    ensures HandleRecord(record, env) == Continue(LoadFailed(e))
    ensures Handle([record] + rest, env) == After([LoadFailed(e)], Handle(rest, env))
  {
    var records := [record] + rest;
    assert records[1..] == rest;
  }

  /**
   * Every normalised document carries an `id`, so the load with the inner
   * loop walking each chunk passes on the handler's documents and sends
   * each of them exactly once.
   */
  lemma NormalisedDocumentsLoad(docs: seq<Document>, indexExists: bool)
    ensures EsUtils.Load(Dicts(docs), indexExists, EsUtils.OverChunk).outcome == Pass
    ensures EsUtils.BulkActions(Dicts(docs)).Ok?
    ensures forall i :: 0 <= i < |docs| ==>
              EsUtils.BulkActions(Dicts(docs)).value[i] ==
                EsUtils.BulkAction(EsUtils.INDEX_NAME, docs[i].id, docs[i].ToDict())
  {
    var dicts := Dicts(docs);
    assert forall i :: 0 <= i < |dicts| ==> HasKey(dicts[i], "id");
    EsUtils.IntendedLoadSendsEveryDocumentOnce(dicts, indexExists);
    EsUtils.BulkActionsSpec(dicts);
  }
}
