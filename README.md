# Tweet sentiment pipeline: storage-triggered handler, in Dafny

This project models the batch path of a tweet sentiment pipeline. A stream
listener forwards each post that has a `text` field, followed by `",\n"`, to a
delivery stream, which buffers them into object storage. A handler
runs for every new stored object. It reads the object, strips one trailing
separator and wraps the content in `[`…`]`. It parses the JSON list and turns
each raw tweet into a flat document. Each document gets a sentiment label, its
hashtags and its `@`-mentions. The documents are then handed to `load_to_es`,
which sets up the `tweets` search index and is meant to bulk-load them in
chunks of 1000. As written, it raises before the first `bulk` call (see
"## Findings").

Modules, one per source file plus one for the Python semantics they rely on:

- `Python` (python.dfy): decoded JSON values (`Value`), the exceptions the code
  can raise (`KeyError`, `TypeError`, `ClientError`), Python subscripting, and
  list comprehensions that stop at the first exception (`Traverse`).
- `EsUtils` (es_utils.dfy): `divide_into_chunks`, the bulk entry for each
  document, and the chunk loop of `load_to_es`, both as written and as
  evidently intended.
- `TweetUtils` (tweet_utils.dfy): sentiment bucketing, the `@\w*` mention scan,
  the hashtag projection and `process_tweet`.
- `LambdaRunner` (lambda_runner.dfy): content cleanup, the handling of one
  record, and `lambda_handler`'s loop, with its skip-on-failure and
  abort-on-normalisation behaviour.

Collaborators are parameters: the object store, the JSON decoder, the polarity
scorer, the search cluster's index-exists answer, and `load_to_es` as the
handler sees it. Three behaviours of the code that a reader might not expect;
the model follows the code:

- Mentions: the code's pattern is `@\w*`, so a lone `@` is a mention. It is
  not "`@` followed by one or more word characters".
- Failed fetch: the code `continue`s with the next record of the same event.
  It does not abandon the event.
- Normalisation failure: it is not caught, so it ends the whole invocation.

## Model

| member | source | states |
|---|---|---|
| `EsUtils.DivideFlattens` | src/lambda/es_utils.py:52-56 | joining the chunks gives back the input list exactly: nothing dropped, duplicated or reordered |
| `EsUtils.ChunkSizes` | src/lambda/es_utils.py:56 | every chunk holds between 1 and n elements; every chunk but the last holds exactly n |
| `EsUtils.ChunkCountIsCeiling` | src/lambda/es_utils.py:56 | the number of chunks c satisfies c·n ≥ len and (c−1)·n < len (the ceiling of len/n); the empty list gives no chunk, and only it does |
| `EsUtils.ChunksOf2500` | src/lambda/es_utils.py:85 | 2500 documents in chunks of 1000 give exactly three chunks: elements 0–999, 1000–1999 and 2000–2499 |
| `EsUtils.BulkActionsSpec` | src/lambda/es_utils.py:89-97 | entries are built exactly when every walked document is a dict with an `id`; entry i is `{_index: "tweets", _id: doc_i['id'], _source: doc_i}`, same length and order; otherwise the first document without an id raises KeyError (a dict) or TypeError (any other value) |
| `EsUtils.BuildBulkActions` | src/lambda/es_utils.py:89-97 | the inner loop computes the round's entry list: the entries of the walked documents in order, or the exception of the first walked document whose `doc['id']` raises |
| `Python.TraverseSpec` | src/lambda/lambda_runner.py:41 | a list comprehension succeeds exactly when every element does, and then holds element i's result at position i; when it raises, the exception is that of the first element that raised |
| `EsUtils.RoundsSpec` | src/lambda/es_utils.py:87-99 | round k makes one `bulk` helper call with the entries built from what it walked, in round order; the rounds pass exactly when every round's entries can be built; a failure stops at the first round that cannot build its entries, and the earlier calls stay made |
| `EsUtils.RoundsOutcome` | src/lambda/es_utils.py:87-99 | the rounds over a list of chunks fail exactly when building the entries of all their documents fails, with the same exception |
| `EsUtils.LoadToEsWith` | src/lambda/es_utils.py:75-99 | the index set-up (exists, then create or put-mapping), then the chunk loop with its nested entry-building loop; the calls made and the outcome are those of the rounds over chunks of 1000 |
| `EsUtils.AsWrittenLoad` | src/lambda/es_utils.py:91-94 | as written, the inner loop walks `chunks`, so a non-empty input raises TypeError at `doc['id']` after the index set-up and before any `bulk` call; an empty input makes no `bulk` call and returns |
| `EsUtils.LoadToEs` | src/lambda/es_utils.py:59-99 | `load_to_es` as written makes only the index set-up calls and raises TypeError exactly when the document list is non-empty |
| `EsUtils.IntendedLoad` | src/lambda/es_utils.py:85-99 | with the inner loop walking `chunk`: the load raises exactly when some document has no id, with that document's exception; `bulk` call k holds chunk k's entries; on success the calls are the entry list cut into chunks of 1000; on failure the calls made are those of the chunks before the failing chunk, and building that chunk's entries raises the load's exception |
| `EsUtils.LoadToEsIntended` | src/lambda/es_utils.py:85-99 | the corrected load: it raises exactly when, and as, building the entries fails; each `bulk` call holds the entries of one chunk, in chunk order; on success one call per chunk of the entry list; on failure the calls are those of the chunks before the first chunk whose entries cannot be built, and that chunk raises the load's exception |
| `EsUtils.IntendedLoadSendsEveryDocumentOnce` | src/lambda/es_utils.py:85-99 | when every document has an id, the corrected load succeeds, and joining the entries of the `bulk` calls it makes gives the entry list, one entry per document in order |
| `TweetUtils.Classify` | src/lambda/tweet_utils.py:11-16 | negative exactly when polarity < 0; neutral exactly when 0 ≤ polarity ≤ 0.2 (0.2 included); positive exactly when polarity > 0.2 |
| `TweetUtils.ClassifyMonotone` | src/lambda/tweet_utils.py:11-16 | a higher polarity never gives a lower label on the scale negative < neutral < positive |
| `TweetUtils.ClassifySamples` | src/lambda/tweet_utils.py:11-16 | −0.5 is negative, 0.0 and 0.2 are neutral, 0.2000001 is positive |
| `TweetUtils.GetSentiment` | src/lambda/tweet_utils.py:5-18 | succeeds exactly when the text is a str, and then gives the bucket of the scorer's polarity for that text |
| `TweetUtils.RunEnd` | src/lambda/tweet_utils.py:36 | the end of the longest run of word characters from i: every character before it is a word character, and the one at it (if any) is not |
| `TweetUtils.AtSignsAreAtSigns` | src/lambda/tweet_utils.py:36 | every position in the reference list of `@` positions holds an `@` |
| `TweetUtils.AtSignsIncrease` | src/lambda/tweet_utils.py:36 | the reference list of `@` positions is strictly increasing |
| `TweetUtils.AtSignsComplete` | src/lambda/tweet_utils.py:36 | every `@` position is in the reference list, which has one entry per `@` in the text |
| `TweetUtils.MentionsFromAtSigns` | src/lambda/tweet_utils.py:36 | the left-to-right scan from i gives one match per `@` at or after i, in order; the match for the `@` at p is `s[p..RunEnd(s, p+1)]` |
| `TweetUtils.FindMentionsSpec` | src/lambda/tweet_utils.py:36 | `findall('@\w*')` gives as many matches as the text has `@` characters, in position order, duplicates kept; each match starts with `@`, continues with word characters only, and is not followed by a word character |
| `TweetUtils.LoneAtSign` | src/lambda/tweet_utils.py:36 | a lone `@` is a match: "a @ b" gives ["@"] |
| `TweetUtils.RepeatedMentions` | src/lambda/tweet_utils.py:36 | "@bob @bob, @x!" gives ["@bob", "@bob", "@x"]: order and duplicates kept, punctuation ends a match |
| `TweetUtils.HashtagTextsSpec` | src/lambda/tweet_utils.py:35 | the hashtag comprehension succeeds exactly on a list of dicts with `text`, an empty dict or an empty str; for a list it gives each element's `text`, same length and order |
| `TweetUtils.Document.ToDict` | src/lambda/tweet_utils.py:25-36 | the document's dict has an `id` key holding the copied `id_field` |
| `TweetUtils.ProcessTweetSpec` | src/lambda/tweet_utils.py:21-39 | `process_tweet` returns a document exactly for a tweet with every field it reads; the document copies `id_field`, `text`, `timestamp_ms`, `user.id`, `user.name` and `coordinates` unchanged; its sentiment is the bucket of the text's polarity; its hashtags are the projection; its mentions are the scan of the text |
| `TweetUtils.MissingTextFails` | src/lambda/tweet_utils.py:26-27 | a dict with `id_field` but no `text` raises KeyError('text'), with no partial document |
| `TweetUtils.MissingKeyFails` | src/lambda/tweet_utils.py:26-36 | a dict missing any of `id_field`, `text`, `timestamp_ms`, `user`, `coordinates`, `entities` raises instead of returning a document |
| `LambdaRunner.CleanContent` | src/lambda/lambda_runner.py:31-32 | content ending in `",\n"` loses exactly those two characters; any other content is unchanged |
| `LambdaRunner.CleanStripsOneSeparator` | src/lambda/lambda_runner.py:31-33 | of two trailing separators only the last is dropped; for content ending in one separator, the parser receives `"[" + content-without-it + "]"` |
| `LambdaRunner.ProcessAllSpec` | src/lambda/lambda_runner.py:41 | `processed_tweets` has one document per parsed tweet, same order, element i being `process_tweet(tweets[i])`; it exists exactly when every tweet is well formed; otherwise the first malformed tweet's exception is raised |
| `LambdaRunner.HandleSpec` | src/lambda/lambda_runner.py:13-50 | records are handled once each, in event order; nothing escapes exactly when every record lets the loop go on, and then every record is logged; an escaping exception comes from the record right after the last one logged, and no later record is handled |
| `LambdaRunner.LambdaHandler` | src/lambda/lambda_runner.py:9-52 | the handler's loop, with `continue` on fetch, parse and load failures and an uncaught normalisation failure, computes exactly the report characterised by `HandleSpec` |
| `LambdaRunner.LoadAttemptedOnlyAfterFetchAndParse` | src/lambda/lambda_runner.py:19-46 | a record reaches `load_to_es` only if its object was fetched and decoded, its cleaned content parsed and every tweet normalised; it is logged as loaded exactly when the load returns |
| `LambdaRunner.FetchOrParseFailureSkips` | src/lambda/lambda_runner.py:19-38 | a failed fetch, an undecodable body or unparsable content logs the record as skipped and the loop continues |
| `LambdaRunner.NormalisationFailureEscapes` | src/lambda/lambda_runner.py:41 | if record i's tweets fail to normalise and the earlier records let the loop go on, the handler raises that exception after logging exactly the i earlier records |
| `LambdaRunner.LoadFailureSkips` | src/lambda/lambda_runner.py:45-50 | when fetch, parse and normalisation succeed and `load_to_es` raises, the record is logged as a load failure with that exception and the loop goes on with the next record |
| `LambdaRunner.DeployedLoadNeverIndexes` | src/lambda/lambda_runner.py:45-50 | with the handler's load being the model of `load_to_es` as written (`EsUtils.Load` walking `chunks`), a record whose content holds at least one tweet is logged as a load failure with TypeError |
| `LambdaRunner.NormalisedDocumentsLoad` | src/lambda/es_utils.py:85-97 | every normalised document's dict has an `id`, so the corrected load succeeds on the handler's documents, with entry i keyed by document i's id |

## Findings

| source | as written | input that shows it | evidently intended | confidence | as-written member | corrected member |
|---|---|---|---|---|---|---|
| src/lambda/es_utils.py:91 | the inner loop is `for doc in chunks`. It walks the list of chunks, so `doc` is a list and `doc['id']` raises TypeError. No `bulk` call is ever made, and the handler logs as a load error every batch whose tweets all normalise into at least one document. | any non-empty list of processed tweets, e.g. a single document | `for doc in chunk`: the entries of the current chunk, then one `bulk` call per chunk | high; not executed | `EsUtils.LoadToEs` (with `EsUtils.AsWrittenLoad`, `LambdaRunner.DeployedLoadNeverIndexes`) | `EsUtils.LoadToEsIntended` (with `EsUtils.IntendedLoadSendsEveryDocumentOnce`, `LambdaRunner.NormalisedDocumentsLoad`) |

The two loads share one method, `EsUtils.LoadToEsWith`. Its `InnerLoop` argument
names what the inner loop walks, the only place where the two differ. The
handler takes `load_to_es` as a collaborator. `DeployedLoadNeverIndexes` fixes
that collaborator to the outcome of the as-written load model. `NormalisedDocumentsLoad` shows
that the corrected load succeeds on every batch the handler produces.

## Left out

- Search cluster: the cluster's answers and errors are not modelled. `es.indices.exists` is the `indexExists` argument. Connection errors and the bulk helper's per-document failures only reach the handler, through its `loadToEs` collaborator. Upsert by id inside the index belongs to the search engine and is not modelled.
- `bulk` helper: a `Bulk(actions)` call stands for one call of the search client library's `bulk` helper, with all of that chunk's entries. The library is not part of this model, so how the helper itself splits entries into network requests is not modelled.
- `INDEX_MAPPING` (src/lambda/es_utils.py:8-49) is static data. Create and put-mapping requests are recorded without their body.
- Client set-up: credentials, request signing and construction of the search and storage clients are left out (I/O set-up).
- Progress output: the `print` calls are left out. The per-record statuses stand for the error messages.
- Polarity scoring: the TextBlob polarity (src/lambda/tweet_utils.py:9-10) is the `polarity` parameter. Polarity is an exact real, and the threshold is the exact decimal 0.2, not the binary double nearest to it.
- TweetUtils.IsWordChar: covers ASCII letters, digits and underscore only. Python's `\w` on str also matches non-ASCII letters and digits, so mentions containing them are cut short in the model.
- Decoding: UTF-8 decoding and `json.loads` are collaborators. A body is either decodable text or not, and a parse gives a list or fails.
- Event envelope: `event['Records']` and its `len` (src/lambda/lambda_runner.py:11) are left out. `LambdaRunner.LambdaHandler` takes the list of records directly.
- Dict key order of Python dicts is not modelled; maps are unordered.
- Provisioning, the stream listener and the stream helper (src/create_aws_resources.py, src/tweets_listener.py, src/get_or_create_stream.py) are not part of this model. They are cloud set-up and network glue.
