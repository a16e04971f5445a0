/**
 * Bulk loading of normalised tweets into the search index (src/lambda/es_utils.py):
 * cutting the document list into chunks, building one bulk operation per
 * document, and, as evidently intended, making one `bulk` helper call per
 * chunk after the index set-up. As written, the loop raises before the
 * first `bulk` call.
 */
module EsUtils {
  import opened Python

  /** The index every document is written to. */
  const INDEX_NAME: string := "tweets"

  /** The chunk size `load_to_es` passes to `divide_into_chunks`. */
  const BULK_CHUNK_SIZE: nat := 1000

  function Min(a: int, b: int): int { if a <= b then a else b }

  /** The length of `range(0, len, n)`: the number of chunks. */
  function ChunkCount(len: nat, n: nat): nat
    requires n > 0
  {
    (len + n - 1) / n
  }

  /** Chunk `k` starts inside the list; the chunks together reach its end. */
  lemma ChunkBounds(len: nat, n: nat, k: nat)
    requires n > 0
    ensures k < ChunkCount(len, n) <==> k * n < len
  {
    var c := ChunkCount(len, n);
    assert c * n <= len + n - 1 < c * n + n;
    if k < c {
      assert k * n <= (c - 1) * n;
    } else {
      assert k * n >= c * n;
    }
  }

  /** `[l[i:i+n] for i in range(0, len(l), n)]`, chunk `k` starting at `i = k * n`. */
  function DivideIntoChunks<T>(l: seq<T>, n: nat): seq<seq<T>>
    requires n > 0
  {
    seq(ChunkCount(|l|, n), k requires 0 <= k < ChunkCount(|l|, n) =>
      ChunkBounds(|l|, n, k);
      l[k * n .. Min(k * n + n, |l|)])
  }

  /** Concatenation of a list of lists, `[x for c in ss for x in c]`. */
  function Flatten<T>(ss: seq<seq<T>>): seq<T> {
    if ss == [] then [] else Flatten(ss[..|ss| - 1]) + ss[|ss| - 1]
  }

  /**
   * Chunk `m - 1` starts where the first `m - 1` chunks end and ends where
   * the first `m` chunks end.
   */
  lemma LastChunk<T>(l: seq<T>, n: nat, m: nat)
    requires n > 0 && 0 < m <= ChunkCount(|l|, n)
    ensures 0 <= (m - 1) * n == Min((m - 1) * n, |l|) <= Min(m * n, |l|)
    ensures DivideIntoChunks(l, n)[m - 1] == l[(m - 1) * n .. Min(m * n, |l|)]
  {
    ChunkBounds(|l|, n, m - 1);
    assert (m - 1) * n + n == m * n;
  }

  /** The first `m` chunks cover exactly the first `m * n` elements (or all of them). */
  lemma {:induction false} FlattenChunksPrefix<T>(l: seq<T>, n: nat, m: nat)
    requires n > 0 && m <= ChunkCount(|l|, n)
    ensures Flatten(DivideIntoChunks(l, n)[..m]) == l[..Min(m * n, |l|)]
  {
    var chunks := DivideIntoChunks(l, n);
    if m > 0 {
      LastChunk(l, n, m);
      FlattenChunksPrefix(l, n, m - 1);
      FlattenExtends(l, chunks, m, (m - 1) * n, Min(m * n, |l|));
    }
  }

  /** Joining one more slice that starts where the joined prefix ends extends the prefix. */
  lemma FlattenExtends<T>(l: seq<T>, ss: seq<seq<T>>, m: nat, start: nat, end: nat)
    requires 0 < m <= |ss| && start <= end <= |l|
    requires Flatten(ss[..m - 1]) == l[..start]
    requires ss[m - 1] == l[start..end]
    ensures Flatten(ss[..m]) == l[..end]
  {
    assert ss[..m][..m - 1] == ss[..m - 1];
    assert l[..end] == l[..start] + l[start..end];
  }

  /** Joining the chunks gives back the list: nothing dropped, duplicated or reordered. */
  lemma DivideFlattens<T>(l: seq<T>, n: nat)
    requires n > 0
    ensures Flatten(DivideIntoChunks(l, n)) == l
  {
    var chunks := DivideIntoChunks(l, n);
    var c := |chunks|;
    FlattenChunksPrefix(l, n, c);
    assert chunks[..c] == chunks;
    ChunkBounds(|l|, n, c);
  }

  /**
   * Every chunk holds between 1 and `n` elements, and every chunk but the
   * last holds exactly `n`.
   */
  lemma ChunkSizes<T>(l: seq<T>, n: nat)
    requires n > 0
    ensures forall k :: 0 <= k < |DivideIntoChunks(l, n)| ==>
              1 <= |DivideIntoChunks(l, n)[k]| <= n
    ensures forall k :: 0 <= k < |DivideIntoChunks(l, n)| - 1 ==>
              |DivideIntoChunks(l, n)[k]| == n
  {
    var chunks := DivideIntoChunks(l, n);
    forall k | 0 <= k < |chunks|
      ensures 1 <= |chunks[k]| <= n
      ensures k < |chunks| - 1 ==> |chunks[k]| == n
    {
      ChunkBounds(|l|, n, k);
      ChunkBounds(|l|, n, k + 1);
      assert (k + 1) * n == k * n + n;
    }
  }

  /**
   * The number of chunks is the ceiling of `|l| / n`: the chunks have room
   * for every element, and one chunk fewer would not; the empty list has no
   * chunk at all.
   */
  lemma ChunkCountIsCeiling<T>(l: seq<T>, n: nat)
    requires n > 0
    ensures |DivideIntoChunks(l, n)| * n >= |l|
    ensures |DivideIntoChunks(l, n)| == 0 || (|DivideIntoChunks(l, n)| - 1) * n < |l|
    ensures DivideIntoChunks(l, n) == [] <==> l == []
  {
    var c := |DivideIntoChunks(l, n)|;
    ChunkBounds(|l|, n, c);
    if c > 0 {
      ChunkBounds(|l|, n, c - 1);
    }
    if l != [] {
      ChunkBounds(|l|, n, 0);
    }
  }

  /** 2500 documents in chunks of 1000 give three chunks of 1000, 1000 and 500 documents. */
  lemma ChunksOf2500<T>(l: seq<T>)
    requires |l| == 2500
    ensures |DivideIntoChunks(l, BULK_CHUNK_SIZE)| == 3
    ensures DivideIntoChunks(l, BULK_CHUNK_SIZE) == [l[..1000], l[1000..2000], l[2000..]]
  {
    var chunks := DivideIntoChunks(l, BULK_CHUNK_SIZE);
    assert chunks[0] == l[..1000];
    assert chunks[1] == l[1000..2000];
    assert chunks[2] == l[2000..];
  }

  /** One entry of a `bulk` call: `{'_index': INDEX_NAME, '_id': doc['id'], '_source': doc}`. */
  datatype BulkAction = BulkAction(index: string, id: Value, source: Value)

  /** Builds the bulk entry for one walked document; `doc['id']` may raise. */
  function ToAction(doc: Value): Result<BulkAction> {
    var id :- Subscript(doc, "id");
    Ok(BulkAction(INDEX_NAME, id, doc))
  }

  /** The `es_docs` list the inner loop builds from the documents it walks. */
  function BulkActions(docs: seq<Value>): Result<seq<BulkAction>> {
    Traverse(docs, ToAction)
  }

  /**
   * The entries are built exactly when every walked document is a dict with
   * an `id`; then entry `i` targets the index, is keyed by document `i`'s id
   * and carries document `i`. Otherwise the first document without an id
   * decides the error: KeyError for a dict, TypeError for anything else.
   */
  lemma BulkActionsSpec(docs: seq<Value>)
    ensures BulkActions(docs).Ok? <==> forall i :: 0 <= i < |docs| ==> HasKey(docs[i], "id")
    ensures BulkActions(docs).Ok? ==>
              |BulkActions(docs).value| == |docs| &&
              forall i :: 0 <= i < |docs| ==>
                BulkActions(docs).value[i] == BulkAction(INDEX_NAME, docs[i].entries["id"], docs[i])
    ensures BulkActions(docs).Err? ==>
              exists i :: 0 <= i < |docs| && !HasKey(docs[i], "id") &&
                BulkActions(docs).error == (if docs[i].PyDict? then KeyError("id") else TypeError) &&
                forall j :: 0 <= j < i ==> HasKey(docs[j], "id")
  {
    TraverseSpec(docs, ToAction);
  }

  /** A call the handler makes on the search client: an index request or one `bulk` helper call. */
  datatype EsCall =
    | IndicesExists(index: string)
    | IndicesCreate(index: string)  // with the fixed field mapping
    | PutMapping(index: string)     // re-applies the fixed field mapping
    | Bulk(actions: seq<BulkAction>)

  /** Create the index if the cluster does not have it, else update its mapping. */
  function IndexSetup(indexExists: bool): seq<EsCall> {
    [IndicesExists(INDEX_NAME), if indexExists then PutMapping(INDEX_NAME) else IndicesCreate(INDEX_NAME)]
  }

  /** One `bulk` call per list of entries, in order. */
  function BulkRequests(batches: seq<seq<BulkAction>>): (calls: seq<EsCall>)
    ensures |calls| == |batches|
    ensures forall k :: 0 <= k < |batches| ==> calls[k] == Bulk(batches[k])
  {
    seq(|batches|, k requires 0 <= k < |batches| => Bulk(batches[k]))
  }

  /** The calls `load_to_es` makes and whether it returns or raises. */
  datatype LoadResult = LoadResult(calls: seq<EsCall>, outcome: Outcome)

  /**
   * The per-chunk rounds when round `k` walks `walks[k]`: each round builds
   * its entries and makes one `bulk` call; the first round whose entries
   * cannot be built raises, and no later round runs.
   */
  function Rounds(walks: seq<seq<Value>>): LoadResult {
    if walks == [] then LoadResult([], Pass)
    else
      var done := Rounds(walks[..|walks| - 1]);
      if done.outcome.Fail? then done
      else
        match BulkActions(walks[|walks| - 1])
        case Err(e) => LoadResult(done.calls, Fail(e))
        case Ok(actions) => LoadResult(done.calls + [Bulk(actions)], Pass)
  }

  /**
   * Round `k` sends the entries built from `walks[k]`; the rounds pass exactly
   * when every round's entries can be built; a failing load stops at the
   * first round whose entries cannot be built, leaving the earlier calls
   * made.
   */
  lemma {:induction false} RoundsSpec(walks: seq<seq<Value>>)
    ensures |Rounds(walks).calls| <= |walks|
    ensures forall k :: 0 <= k < |Rounds(walks).calls| ==>
              Rounds(walks).calls[k].Bulk? && BulkActions(walks[k]) == Ok(Rounds(walks).calls[k].actions)
    ensures Rounds(walks).outcome.Pass? <==> forall k :: 0 <= k < |walks| ==> BulkActions(walks[k]).Ok?
    ensures Rounds(walks).outcome.Pass? ==> |Rounds(walks).calls| == |walks|
    ensures Rounds(walks).outcome.Fail? ==>
              |Rounds(walks).calls| < |walks| &&
              BulkActions(walks[|Rounds(walks).calls|]) == Err(Rounds(walks).outcome.error)
  {
    if walks != [] {
      var init := walks[..|walks| - 1];
      RoundsSpec(init);
      assert forall k :: 0 <= k < |init| ==> init[k] == walks[k];
    }
  }

  /**
   * The rounds over a list of chunks fail exactly when building the entries
   * for all their documents at once fails, and with the same error.
   */
  lemma {:induction false} RoundsOutcome(walks: seq<seq<Value>>)
    ensures Rounds(walks).outcome ==
              match BulkActions(Flatten(walks))
              case Ok(_) => Pass
              case Err(e) => Fail(e)
  {
    if walks != [] {
      var init := walks[..|walks| - 1];
      RoundsOutcome(init);
      TraverseAppend(Flatten(init), walks[|walks| - 1], ToAction);
    }
  }

  /** What the inner `for doc in ...` loop of `load_to_es` walks. */
  datatype InnerLoop =
    | OverChunks  // as written: `for doc in chunks`, every chunk as one list
    | OverChunk   // evidently intended: `for doc in chunk`, the chunk's documents

  /** The chunks as the Python lists that `for doc in chunks` yields. */
  function AsLists(chunks: seq<seq<Value>>): seq<Value> {
    seq(|chunks|, j requires 0 <= j < |chunks| => PyList(chunks[j]))
  }

  /** The documents round `round` walks. */
  function Walked(chunks: seq<seq<Value>>, round: nat, inner: InnerLoop): seq<Value>
    requires round < |chunks|
  {
    match inner
    case OverChunks => AsLists(chunks)
    case OverChunk => chunks[round]
  }

  /** The walks of all rounds over the chunks of 1000 documents. */
  function Walks(tweets: seq<Value>, inner: InnerLoop): seq<seq<Value>> {
    var chunks := DivideIntoChunks(tweets, BULK_CHUNK_SIZE);
    seq(|chunks|, k requires 0 <= k < |chunks| => Walked(chunks, k, inner))
  }

  /** Everything `load_to_es` sends, and how it ends. */
  function Load(tweets: seq<Value>, indexExists: bool, inner: InnerLoop): LoadResult {
    var rounds := Rounds(Walks(tweets, inner));
    LoadResult(IndexSetup(indexExists) + rounds.calls, rounds.outcome)
  }

  /**
   * The index set-up and the chunk loop of `load_to_es`; `inner` says what
   * the inner loop walks, which is where the code as written and the
   * evidently intended code differ. The search cluster's answers are not
   * modelled: `indexExists` stands for `es.indices.exists`.
   */
  method LoadToEsWith(tweets: seq<Value>, indexExists: bool, inner: InnerLoop)
    returns (calls: seq<EsCall>, outcome: Outcome)
    ensures LoadResult(calls, outcome) == Load(tweets, indexExists, inner)
  {
    var setup := IndexSetup(indexExists);
    var chunks := DivideIntoChunks(tweets, BULK_CHUNK_SIZE);
    ghost var walks := Walks(tweets, inner);
    var sent := [];
    var ctr := 0;
    while ctr < |chunks|
      invariant ctr <= |chunks| == |walks|
      invariant Rounds(walks[..ctr]) == LoadResult(sent, Pass)
    {
      var walked := Walked(chunks, ctr, inner);
      assert walks[ctr] == walked;
      var esDocs := BuildBulkActions(walked);
      if esDocs.Err? {
        RoundFails(walks, ctr, esDocs.error);
        return setup + sent, Fail(esDocs.error);
      }
      RoundPasses(walks, ctr);
      sent := sent + [Bulk(esDocs.value)];
      ctr := ctr + 1;
    }
    assert walks[..ctr] == walks;
    return setup + sent, Pass;
  }

  /**
   * The inner loop of one round: it appends the entry of each walked
   * document in turn, and `doc['id']` on a document without an id raises
   * out of the loop.
   */
  method BuildBulkActions(walked: seq<Value>) returns (r: Result<seq<BulkAction>>)
    ensures r == BulkActions(walked)
  {
    var esDocs := [];
    var j := 0;
    while j < |walked|
      invariant j <= |walked|
      invariant BulkActions(walked[..j]) == Ok(esDocs)
    {
      var doc := walked[j];
      var id := Subscript(doc, "id");
      if id.Err? {
        TraverseStopsAt(walked, ToAction, j);
        return Err(id.error);
      }
      assert walked[..j + 1][..j] == walked[..j];
      esDocs := esDocs + [BulkAction(INDEX_NAME, id.value, doc)];
      j := j + 1;
    }
    assert walked[..j] == walked;
    return Ok(esDocs);
  }

  /** A round whose entries can be built sends them and lets the next round run. */
  lemma RoundPasses(walks: seq<seq<Value>>, ctr: nat)
    requires ctr < |walks|
    requires Rounds(walks[..ctr]).outcome == Pass
    requires BulkActions(walks[ctr]).Ok?
    ensures Rounds(walks[..ctr + 1]) ==
              LoadResult(Rounds(walks[..ctr]).calls + [Bulk(BulkActions(walks[ctr]).value)], Pass)
  {
    assert walks[..ctr + 1][..ctr] == walks[..ctr];
  }

  /**
   * A round whose entries cannot be built ends the load with that error:
   * the calls of the earlier rounds stay made and no later round runs.
   */
  lemma {:induction false} RoundFails(walks: seq<seq<Value>>, ctr: nat, e: Error)
    requires ctr < |walks|
    requires Rounds(walks[..ctr]).outcome == Pass
    requires BulkActions(walks[ctr]) == Err(e)
    ensures Rounds(walks) == LoadResult(Rounds(walks[..ctr]).calls, Fail(e))
    decreases |walks|
  {
    var init := walks[..|walks| - 1];
    if ctr == |walks| - 1 {
      assert init == walks[..ctr];
    } else {
      assert init[..ctr] == walks[..ctr];
      assert init[ctr] == walks[ctr];
      RoundFails(init, ctr, e);
    }
  }

  /**
   * As written, the first round walks the list of chunks, so its first
   * walked "document" is a list and `doc['id']` raises TypeError: any
   * non-empty input fails after the index set-up and before any `bulk` call;
   * an empty input has no round and succeeds.
   */
  lemma AsWrittenLoad(tweets: seq<Value>, indexExists: bool)
    ensures Load(tweets, indexExists, OverChunks) ==
              LoadResult(IndexSetup(indexExists), if tweets == [] then Pass else Fail(TypeError))
  {
    var walks: seq<seq<Value>> := Walks(tweets, OverChunks);
    ChunkCountIsCeiling(tweets, BULK_CHUNK_SIZE);
    if tweets == [] {
      assert walks == [];
    } else {
      assert walks[..0] == [];
      assert walks[0][..0] == [];
      assert walks[0][0].PyList?;
      TraverseStopsAt(walks[0], ToAction, 0);
      RoundFails(walks, 0, TypeError);
    }
    assert IndexSetup(indexExists) + [] == IndexSetup(indexExists);
  }

  /**
   * `load_to_es` as written: it sets up the index and, for any non-empty
   * list of documents, raises TypeError without making a single `bulk`
   * call.
   */
  method LoadToEs(tweets: seq<Value>, indexExists: bool) returns (calls: seq<EsCall>, outcome: Outcome)
    ensures calls == IndexSetup(indexExists)
    ensures outcome == if tweets == [] then Pass else Fail(TypeError)
  {
    calls, outcome := LoadToEsWith(tweets, indexExists, OverChunks);
    AsWrittenLoad(tweets, indexExists);
  }

  /** The outcome of building the entries of all documents at once. */
  function OutcomeOf(r: Result<seq<BulkAction>>): Outcome {
    match r
    case Ok(_) => Pass
    case Err(e) => Fail(e)
  }

  /**
   * With the inner loop walking the chunk, the load passes exactly when every
   * document has an id, and then sends the entries of all documents, in
   * order, in `bulk` calls of 1000; otherwise it raises the error of the
   * first document without an id, after the calls of the chunks before that
   * document's chunk.
   */
  lemma IntendedLoad(tweets: seq<Value>, indexExists: bool)
    ensures Load(tweets, indexExists, OverChunk).outcome == OutcomeOf(BulkActions(tweets))
    ensures Load(tweets, indexExists, OverChunk).calls[..2] == IndexSetup(indexExists)
    ensures |Load(tweets, indexExists, OverChunk).calls| <= 2 + |DivideIntoChunks(tweets, BULK_CHUNK_SIZE)|
    ensures forall k :: 2 <= k < |Load(tweets, indexExists, OverChunk).calls| ==>
              Load(tweets, indexExists, OverChunk).calls[k].Bulk? &&
              BulkActions(DivideIntoChunks(tweets, BULK_CHUNK_SIZE)[k - 2]) ==
                Ok(Load(tweets, indexExists, OverChunk).calls[k].actions)
    ensures Load(tweets, indexExists, OverChunk).outcome.Pass? ==>
              Load(tweets, indexExists, OverChunk).calls ==
                IndexSetup(indexExists) +
                BulkRequests(DivideIntoChunks(BulkActions(tweets).value, BULK_CHUNK_SIZE))
    ensures Load(tweets, indexExists, OverChunk).outcome.Fail? ==>
              |Load(tweets, indexExists, OverChunk).calls| < 2 + |DivideIntoChunks(tweets, BULK_CHUNK_SIZE)|
    ensures Load(tweets, indexExists, OverChunk).outcome.Fail? ==>
              2 <= |Load(tweets, indexExists, OverChunk).calls| &&
              BulkActions(DivideIntoChunks(tweets, BULK_CHUNK_SIZE)[|Load(tweets, indexExists, OverChunk).calls| - 2]) ==
                Err(Load(tweets, indexExists, OverChunk).outcome.error)
  {
    var chunks := DivideIntoChunks(tweets, BULK_CHUNK_SIZE);
    assert Walks(tweets, OverChunk) == chunks;
    RoundsSpec(chunks);
    RoundsOutcome(chunks);
    DivideFlattens(tweets, BULK_CHUNK_SIZE);
    if Rounds(chunks).outcome.Pass? {
      PassingRoundsSendChunkedActions(tweets);
    }
  }

  /** When every chunk's entries can be built, the `bulk` calls are the entry list cut into chunks. */
  lemma PassingRoundsSendChunkedActions(tweets: seq<Value>)
    requires Rounds(DivideIntoChunks(tweets, BULK_CHUNK_SIZE)).outcome.Pass?
    ensures BulkActions(tweets).Ok?
    ensures Rounds(DivideIntoChunks(tweets, BULK_CHUNK_SIZE)).calls ==
              BulkRequests(DivideIntoChunks(BulkActions(tweets).value, BULK_CHUNK_SIZE))
  {
    var chunks := DivideIntoChunks(tweets, BULK_CHUNK_SIZE);
    RoundsSpec(chunks);
    RoundsOutcome(chunks);
    DivideFlattens(tweets, BULK_CHUNK_SIZE);
    var ops := BulkActions(tweets).value;
    var opChunks := DivideIntoChunks(ops, BULK_CHUNK_SIZE);
    var calls := Rounds(chunks).calls;
    assert |opChunks| == |chunks|;
    forall k | 0 <= k < |chunks|
      ensures calls[k] == Bulk(opChunks[k])
    {
      ChunkActions(tweets, k);
    }
  }

  /** The entries built from chunk `k` are chunk `k` of the entry list. */
  lemma ChunkActions(tweets: seq<Value>, k: nat)
    requires BulkActions(tweets).Ok?
    requires k < |DivideIntoChunks(tweets, BULK_CHUNK_SIZE)|
    ensures |DivideIntoChunks(BulkActions(tweets).value, BULK_CHUNK_SIZE)| ==
            |DivideIntoChunks(tweets, BULK_CHUNK_SIZE)|
    ensures BulkActions(DivideIntoChunks(tweets, BULK_CHUNK_SIZE)[k]) ==
              Ok(DivideIntoChunks(BulkActions(tweets).value, BULK_CHUNK_SIZE)[k])
  {
    var ops := BulkActions(tweets).value;
    ChunkBounds(|tweets|, BULK_CHUNK_SIZE, k);
    var lo, hi := k * BULK_CHUNK_SIZE, Min(k * BULK_CHUNK_SIZE + BULK_CHUNK_SIZE, |tweets|);
    TraverseSlice(tweets, ToAction, lo, hi);
    assert DivideIntoChunks(tweets, BULK_CHUNK_SIZE)[k] == tweets[lo..hi];
    assert DivideIntoChunks(ops, BULK_CHUNK_SIZE)[k] == ops[lo..hi];
  }

  /**
   * `load_to_es` with the inner loop walking `chunk` as evidently intended:
   * it fails exactly when some document has no id, with that document's
   * error; each `bulk` call it makes holds the entries of one chunk, in
   * chunk order; when it passes it has sent every document's entry once, in
   * order, in calls of at most 1000 entries; when it fails, the calls made
   * are those of the chunks before the first chunk holding a document
   * without an id, and that chunk raises the error.
   */
  method LoadToEsIntended(tweets: seq<Value>, indexExists: bool) returns (calls: seq<EsCall>, outcome: Outcome)
    ensures outcome == OutcomeOf(BulkActions(tweets))
    ensures |calls| >= 2 && calls[..2] == IndexSetup(indexExists)
    ensures |calls| <= 2 + |DivideIntoChunks(tweets, BULK_CHUNK_SIZE)|
    ensures forall k :: 2 <= k < |calls| ==>
              calls[k].Bulk? && BulkActions(DivideIntoChunks(tweets, BULK_CHUNK_SIZE)[k - 2]) == Ok(calls[k].actions)
    ensures outcome.Pass? ==>
              calls == IndexSetup(indexExists) + BulkRequests(DivideIntoChunks(BulkActions(tweets).value, BULK_CHUNK_SIZE))
    ensures outcome.Fail? ==> |calls| < 2 + |DivideIntoChunks(tweets, BULK_CHUNK_SIZE)|
    ensures outcome.Fail? ==>
              BulkActions(DivideIntoChunks(tweets, BULK_CHUNK_SIZE)[|calls| - 2]) == Err(outcome.error)
  {
    calls, outcome := LoadToEsWith(tweets, indexExists, OverChunk);
    IntendedLoad(tweets, indexExists);
  }

  /** All entries of the `bulk` calls among `calls`, joined in call order. */
  function Joined(calls: seq<EsCall>): seq<BulkAction> {
    if calls == [] then []
    else
      Joined(calls[..|calls| - 1]) +
      match calls[|calls| - 1]
      case Bulk(actions) => actions
      case _ => []
  }

  /** Joining the entries of one `bulk` call per batch joins the batches. */
  lemma {:induction false} JoinedBulkRequests(batches: seq<seq<BulkAction>>)
    ensures Joined(BulkRequests(batches)) == Flatten(batches)
  {
    if batches != [] {
      var init := batches[..|batches| - 1];
      JoinedBulkRequests(init);
      var calls := BulkRequests(batches);
      assert calls[..|calls| - 1] == BulkRequests(init);
      assert calls[|calls| - 1] == Bulk(batches[|batches| - 1]);
    }
  }

  /**
   * When every document has an id, the intended load passes, and joining
   * the entries of the `bulk` calls it makes gives one entry per document,
   * in document order: every document is sent exactly once.
   */
  lemma IntendedLoadSendsEveryDocumentOnce(tweets: seq<Value>, indexExists: bool)
    requires forall i :: 0 <= i < |tweets| ==> HasKey(tweets[i], "id")
    ensures Load(tweets, indexExists, OverChunk).outcome == Pass
    ensures BulkActions(tweets).Ok?
    ensures |Load(tweets, indexExists, OverChunk).calls| >= 2
    ensures Joined(Load(tweets, indexExists, OverChunk).calls[2..]) == BulkActions(tweets).value
  {
    BulkActionsSpec(tweets);
    IntendedLoad(tweets, indexExists);
    var ops := BulkActions(tweets).value;
    var calls := Load(tweets, indexExists, OverChunk).calls;
    var batches := DivideIntoChunks(ops, BULK_CHUNK_SIZE);
    assert calls[2..] == BulkRequests(batches);
    JoinedBulkRequests(batches);
    DivideFlattens(ops, BULK_CHUNK_SIZE);
  }
}
