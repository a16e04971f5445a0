/**
 * Normalisation of one raw tweet into the document that is indexed
 * (src/lambda/tweet_utils.py): sentiment bucketing of the text's polarity,
 * field copying, hashtag projection and the `@\w*` mention scan.
 */
module TweetUtils {
  import opened Python

  datatype Sentiment = Negative | Neutral | Positive {
    /** The label stored in the document. */
    function Label(): string {
      match this
      case Negative => "negative"
      case Neutral => "neutral"
      case Positive => "positive"
    }

    /** Position on the scale negative < neutral < positive. */
    function Rank(): nat {
      match this
      case Negative => 0
      case Neutral => 1
      case Positive => 2
    }
  }

  /** The upper end, inclusive, of the neutral band. */
  const NEUTRAL_CEILING: real := 0.2

  /**
   * The bucketing in `get_sentiment`: negative below 0, neutral from 0 up to
   * and including 0.2, positive above 0.2.
   */
  function Classify(polarity: real): (s: Sentiment)
    ensures s == Negative <==> polarity < 0.0
    ensures s == Neutral <==> 0.0 <= polarity <= NEUTRAL_CEILING
    ensures s == Positive <==> NEUTRAL_CEILING < polarity
  {
    if polarity < 0.0 then Negative
    else if polarity <= NEUTRAL_CEILING then Neutral
    else Positive
  }

  /** A higher polarity never gives a lower sentiment. */
  lemma ClassifyMonotone(p: real, q: real)
    requires p <= q
    ensures Classify(p).Rank() <= Classify(q).Rank()
  {
  }

  /** The sample polarities: -0.5, 0.0, 0.2 and just above 0.2. */
  lemma ClassifySamples()
    ensures Classify(-0.5) == Negative
    ensures Classify(0.0) == Neutral
    ensures Classify(0.2) == Neutral
    ensures Classify(0.2000001) == Positive
  {
  }

  /**
   * `get_sentiment(text)`: the polarity scorer is a parameter; it only
   * accepts a str, and any other value raises TypeError.
   */
  function GetSentiment(text: Value, polarity: string -> real): (r: Result<Sentiment>)
    ensures r.Ok? <==> text.PyStr?
    ensures text.PyStr? ==> r.value == Classify(polarity(text.s))
  {
    match text
    case PyStr(s) => Ok(Classify(polarity(s)))
    case _ => Err(TypeError)
  }

  // ---------------------------------------------------------------------
  // Mentions: `re.findall(r'@\w*', text)`

  /** ASCII part of the characters `\w` matches: letters, digits and underscore. */
  predicate IsWordChar(c: char) {
    ('a' <= c <= 'z') || ('A' <= c <= 'Z') || ('0' <= c <= '9') || c == '_'
  }

  /** The end of the longest run of word characters starting at `i`. */
  function RunEnd(s: string, i: nat): (j: nat)
    requires i <= |s|
    ensures i <= j <= |s|
    ensures forall k :: i <= k < j ==> IsWordChar(s[k])
    ensures j == |s| || !IsWordChar(s[j])
    decreases |s| - i
  {
    if i < |s| && IsWordChar(s[i]) then RunEnd(s, i + 1) else i
  }

  /**
   * The left-to-right scan of `findall` from position `i`: an `@` starts a
   * match that takes the longest run of word characters after it (possibly
   * none) and the scan resumes after the match; any other character is
   * skipped.
   */
  function MentionsFrom(s: string, i: nat): seq<string>
    requires i <= |s|
    decreases |s| - i
  {
    if i == |s| then []
    else if s[i] == '@' then
      var j := RunEnd(s, i + 1);
      [s[i..j]] + MentionsFrom(s, j)
    else MentionsFrom(s, i + 1)
  }

  function FindMentions(s: string): seq<string> {
    MentionsFrom(s, 0)
  }

  /** The positions of the `@` characters at or after `i`, in increasing order. */
  function AtSignsFrom(s: string, i: nat): (ps: seq<nat>)
    requires i <= |s|
    ensures forall k :: 0 <= k < |ps| ==> i <= ps[k] < |s|
    decreases |s| - i
  {
    if i == |s| then []
    else (if s[i] == '@' then [i] else []) + AtSignsFrom(s, i + 1)
  }

  /** Every listed position holds an `@`. */
  lemma {:induction false} AtSignsAreAtSigns(s: string, i: nat)
    requires i <= |s|
    ensures forall k :: 0 <= k < |AtSignsFrom(s, i)| ==> s[AtSignsFrom(s, i)[k]] == '@'
    decreases |s| - i
  {
    if i < |s| {
      AtSignsAreAtSigns(s, i + 1);
    }
  }

  /** The positions are listed in increasing order. */
  lemma {:induction false} AtSignsIncrease(s: string, i: nat)
    requires i <= |s|
    ensures forall k :: 0 < k < |AtSignsFrom(s, i)| ==> AtSignsFrom(s, i)[k - 1] < AtSignsFrom(s, i)[k]
    decreases |s| - i
  {
    if i < |s| {
      AtSignsIncrease(s, i + 1);
    }
  }

  /** Every `@` at or after `i` is listed, so the list has one entry per `@`. */
  lemma {:induction false} AtSignsComplete(s: string, i: nat)
    requires i <= |s|
    ensures forall p :: i <= p < |s| && s[p] == '@' ==> p in AtSignsFrom(s, i)
    ensures |AtSignsFrom(s, i)| == multiset(s[i..])['@']
    decreases |s| - i
  {
    if i < |s| {
      AtSignsComplete(s, i + 1);
      assert s[i..] == [s[i]] + s[i + 1..];
    }
  }

  /** The match that starts at an `@` at position `p`: the `@` and the word run after it. */
  function MatchAt(s: string, p: nat): string
    requires p < |s|
  {
    s[p..RunEnd(s, p + 1)]
  }

  /** No `@` lies inside a run of word characters, because `@` is not one. */
  lemma {:induction false} SkipWordRun(s: string, a: nat, b: nat)
    requires a <= b <= |s|
    requires forall k :: a <= k < b ==> IsWordChar(s[k])
    ensures AtSignsFrom(s, a) == AtSignsFrom(s, b)
    decreases b - a
  {
    if a < b {
      assert !IsWordChar('@');
      SkipWordRun(s, a + 1, b);
    }
  }

  /** One step of the scan at an `@`: its match, then the scan after the match. */
  lemma ScanAtSign(s: string, i: nat)
    requires i < |s| && s[i] == '@'
    ensures MentionsFrom(s, i) == [MatchAt(s, i)] + MentionsFrom(s, RunEnd(s, i + 1))
    ensures AtSignsFrom(s, i) == [i] + AtSignsFrom(s, RunEnd(s, i + 1))
  {
    SkipWordRun(s, i + 1, RunEnd(s, i + 1));
  }

  /** The scan from `i` yields one match per `@` at or after `i`, in order. */
  lemma {:induction false} MentionsFromAtSigns(s: string, i: nat)
    requires i <= |s|
    ensures |MentionsFrom(s, i)| == |AtSignsFrom(s, i)|
    ensures forall k :: 0 <= k < |MentionsFrom(s, i)| ==>
              MentionsFrom(s, i)[k] == MatchAt(s, AtSignsFrom(s, i)[k])
    decreases |s| - i
  {
    if i < |s| {
      if s[i] == '@' {
        var j := RunEnd(s, i + 1);
        ScanAtSign(s, i);
        MentionsFromAtSigns(s, j);
        var ms, ps := MentionsFrom(s, j), AtSignsFrom(s, j);
        var msi, psi := MentionsFrom(s, i), AtSignsFrom(s, i);
        assert msi == [MatchAt(s, i)] + ms;
        assert psi == [i] + ps;
        forall k | 0 <= k < |msi|
          ensures msi[k] == MatchAt(s, psi[k])
        {
          if k > 0 {
            assert msi[k] == ms[k - 1];
            assert psi[k] == ps[k - 1];
          }
        }
      } else {
        MentionsFromAtSigns(s, i + 1);
        assert MentionsFrom(s, i) == MentionsFrom(s, i + 1);
        assert AtSignsFrom(s, i) == AtSignsFrom(s, i + 1);
      }
    }
  }

  /**
   * `m` is what `findall` reports for the `@` at position `p`: it is read
   * from `p`, starts with that `@`, the rest are word characters, and the
   * character after it (if any) is not a word character.
   */
  predicate IsMentionAt(s: string, p: nat, m: string) {
    p + |m| <= |s| && m == s[p..p + |m|] &&
    |m| >= 1 && m[0] == '@' &&
    (forall c :: 1 <= c < |m| ==> IsWordChar(m[c])) &&
    (p + |m| == |s| || !IsWordChar(s[p + |m|]))
  }

  /** The match built at an `@` has the shape `findall` reports. */
  lemma MatchShape(s: string, p: nat)
    requires p < |s| && s[p] == '@'
    ensures IsMentionAt(s, p, MatchAt(s, p))
  {
    var e := RunEnd(s, p + 1);
    var m := MatchAt(s, p);
    assert m == s[p..e];
    assert |m| == e - p;
    assert forall c :: 0 <= c < |m| ==> m[c] == s[p + c];
  }

  /**
   * `re.findall(r'@\w*', s)` returns one match per `@` in `s`, in order of
   * position and with duplicates kept; the match for the `@` at position `p`
   * is that `@` followed by the longest run of word characters after it.
   */
  lemma FindMentionsSpec(s: string)
    ensures |FindMentions(s)| == |AtSignsFrom(s, 0)| == multiset(s)['@']
    ensures forall k :: 0 <= k < |FindMentions(s)| ==>
              s[AtSignsFrom(s, 0)[k]] == '@' &&
              FindMentions(s)[k] == MatchAt(s, AtSignsFrom(s, 0)[k]) &&
              IsMentionAt(s, AtSignsFrom(s, 0)[k], FindMentions(s)[k])
  {
    MentionsFromAtSigns(s, 0);
    AtSignsAreAtSigns(s, 0);
    assert |AtSignsFrom(s, 0)| == multiset(s)['@'] by {
      AtSignsComplete(s, 0);
      assert s[0..] == s;
    }
    var ms, ps := FindMentions(s), AtSignsFrom(s, 0);
    forall k | 0 <= k < |ms|
      ensures s[ps[k]] == '@' && ms[k] == MatchAt(s, ps[k]) && IsMentionAt(s, ps[k], ms[k])
    {
      MatchShape(s, ps[k]);
    }
  }

  /** A lone `@` is a match of its own: `\w*` allows an empty run. */
  lemma LoneAtSign()
    ensures FindMentions("a @ b") == ["@"]
  {
    var s := "a @ b";
    assert !IsWordChar(s[3]);
    assert MentionsFrom(s, 5) == [] && MentionsFrom(s, 4) == [] && MentionsFrom(s, 3) == [];
    assert MentionsFrom(s, 2) == [s[2..3]];
    assert s[2..3] == "@";
  }

  /** Matches keep their order and their duplicates. */
  lemma RepeatedMentions()
    ensures FindMentions("@bob @bob, @x!") == ["@bob", "@bob", "@x"]
  {
    var s := "@bob @bob, @x!";
    assert RunEnd(s, 13) == 13 && RunEnd(s, 12) == 13;
    assert RunEnd(s, 9) == 9 && RunEnd(s, 8) == 9 && RunEnd(s, 7) == 9 && RunEnd(s, 6) == 9;
    assert RunEnd(s, 4) == 4 && RunEnd(s, 3) == 4 && RunEnd(s, 2) == 4 && RunEnd(s, 1) == 4;
    assert MentionsFrom(s, 14) == [] && MentionsFrom(s, 13) == [];
    assert MentionsFrom(s, 11) == [s[11..13]];
    assert MentionsFrom(s, 10) == MentionsFrom(s, 11) && MentionsFrom(s, 9) == MentionsFrom(s, 11);
    assert MentionsFrom(s, 5) == [s[5..9]] + MentionsFrom(s, 9);
    assert MentionsFrom(s, 4) == MentionsFrom(s, 5);
    assert MentionsFrom(s, 0) == [s[0..4]] + MentionsFrom(s, 4);
    assert s[0..4] == "@bob" && s[5..9] == "@bob" && s[11..13] == "@x";
  }

  // ---------------------------------------------------------------------
  // Hashtags: `[x['text'] for x in tweet['entities']['hashtags']]`

  /** `x['text']` for one element of the hashtag list. */
  function TextOf(x: Value): Result<Value> {
    Subscript(x, "text")
  }

  /**
   * The hashtag comprehension: a list gives the `text` of each element;
   * iterating a dict or a str yields str items, on which `x['text']` raises
   * TypeError, so only an empty one gives `[]`; other values are not
   * iterable and raise TypeError.
   */
  function HashtagTexts(hashtags: Value): Result<seq<Value>> {
    match hashtags
    case PyList(items) => Traverse(items, TextOf)
    case PyDict(entries) => if |entries| == 0 then Ok([]) else Err(TypeError)
    case PyStr(s) => if s == [] then Ok([]) else Err(TypeError)
    case _ => Err(TypeError)
  }

  /** The hashtag values the comprehension can run over without raising. */
  predicate HashtagsIterable(hashtags: Value) {
    match hashtags
    case PyList(items) => forall i :: 0 <= i < |items| ==> HasKey(items[i], "text")
    case PyDict(entries) => |entries| == 0
    case PyStr(s) => s == []
    case _ => false
  }

  /**
   * The projection succeeds exactly on the values above; for a list it keeps
   * one `text` per element, in order.
   */
  lemma HashtagTextsSpec(hashtags: Value)
    ensures HashtagTexts(hashtags).Ok? <==> HashtagsIterable(hashtags)
    ensures HashtagTexts(hashtags).Ok? && hashtags.PyList? ==>
              |HashtagTexts(hashtags).value| == |hashtags.items| &&
              forall i :: 0 <= i < |hashtags.items| ==>
                HasKey(hashtags.items[i], "text") &&
                HashtagTexts(hashtags).value[i] == hashtags.items[i].entries["text"]
    ensures HashtagTexts(hashtags).Ok? && !hashtags.PyList? ==> HashtagTexts(hashtags).value == []
  {
    if hashtags.PyList? {
      TraverseSpec(hashtags.items, TextOf);
    }
  }

  // ---------------------------------------------------------------------
  // The normalised document: `process_tweet`

  datatype User = User(id: Value, name: Value)

  /** The dict `process_tweet` builds, one field per key. */
  datatype Document = Document(
    id: Value,
    tweet: Value,
    timestamp: Value,
    user: User,
    sentiment: Sentiment,
    coordinates: Value,
    hashtags: seq<Value>,
    mentions: seq<string>)
  {
    /** The document as the Python dict that is handed to the bulk loader. */
    function ToDict(): (d: Value)
      ensures HasKey(d, "id") && d.entries["id"] == id
    {
      PyDict(map[
        "id" := id,
        "tweet" := tweet,
        "timestamp" := timestamp,
        "user" := PyDict(map["id" := user.id, "name" := user.name]),
        "sentiment" := PyStr(sentiment.Label()),
        "coordinates" := coordinates,
        "hashtags" := PyList(hashtags),
        "mentions" := PyList(seq(|mentions|, i requires 0 <= i < |mentions| => PyStr(mentions[i])))])
    }
  }

  /**
   * `process_tweet(tweet)`: the fields are read in the order the dict literal
   * lists them, and the first read that raises ends the call.
   */
  function ProcessTweet(tweet: Value, polarity: string -> real): Result<Document> {
    var id :- Subscript(tweet, "id_field");
    var text :- Subscript(tweet, "text");
    var timestamp :- Subscript(tweet, "timestamp_ms");
    var user :- Subscript(tweet, "user");
    var userId :- Subscript(user, "id");
    var userName :- Subscript(user, "name");
    var sentiment :- GetSentiment(text, polarity);
    var coordinates :- Subscript(tweet, "coordinates");
    var entities :- Subscript(tweet, "entities");
    var hashtagList :- Subscript(entities, "hashtags");
    var hashtags :- HashtagTexts(hashtagList);
    Ok(Document(id, text, timestamp, User(userId, userName), sentiment, coordinates,
                hashtags, FindMentions(text.s)))
  }

  /** The raw tweets `process_tweet` accepts: every field it reads is there. */
  predicate WellFormedTweet(t: Value) {
    && HasKey(t, "id_field")
    && HasKey(t, "text") && t.entries["text"].PyStr?
    && HasKey(t, "timestamp_ms")
    && HasKey(t, "user") && HasKey(t.entries["user"], "id") && HasKey(t.entries["user"], "name")
    && HasKey(t, "coordinates")
    && HasKey(t, "entities") && HasKey(t.entries["entities"], "hashtags")
    && HashtagsIterable(t.entries["entities"].entries["hashtags"])
  }

  /**
   * `process_tweet` returns a document exactly for well-formed tweets, and
   * that document copies `id_field`, `text`, `timestamp_ms`, the user's id and
   * name and `coordinates` unchanged, buckets the text's polarity, projects
   * the hashtags and scans the text for mentions.
   */
  lemma ProcessTweetSpec(tweet: Value, polarity: string -> real)
    ensures ProcessTweet(tweet, polarity).Ok? <==> WellFormedTweet(tweet)
    ensures ProcessTweet(tweet, polarity).Ok? ==>
              var d := ProcessTweet(tweet, polarity).value;
              var fields := tweet.entries;
              && d.id == fields["id_field"]
              && d.tweet == fields["text"]
              && d.timestamp == fields["timestamp_ms"]
              && d.user == User(fields["user"].entries["id"], fields["user"].entries["name"])
              && d.sentiment == Classify(polarity(fields["text"].s))
              && d.coordinates == fields["coordinates"]
              && HashtagTexts(fields["entities"].entries["hashtags"]) == Ok(d.hashtags)
              && d.mentions == FindMentions(fields["text"].s)
  {
    if HasKey(tweet, "entities") && HasKey(tweet.entries["entities"], "hashtags") {
      HashtagTextsSpec(tweet.entries["entities"].entries["hashtags"]);
    }
  }

  /** A tweet without `text` fails with KeyError('text') and yields no document. */
  lemma MissingTextFails(tweet: Value, polarity: string -> real)
    requires tweet.PyDict? && "id_field" in tweet.entries && "text" !in tweet.entries
    ensures ProcessTweet(tweet, polarity) == Err(KeyError("text"))
  {
  }

  /** The keys of the raw tweet that `process_tweet` reads. */
  const REQUIRED_KEYS: set<string> := {"id_field", "text", "timestamp_ms", "user", "coordinates", "entities"}

  /** A tweet missing any field that is read fails rather than giving a partial document. */
  lemma MissingKeyFails(tweet: Value, polarity: string -> real, key: string)
    requires tweet.PyDict? && key in REQUIRED_KEYS && key !in tweet.entries
    ensures ProcessTweet(tweet, polarity).Err?
  {
    ProcessTweetSpec(tweet, polarity);
  }
}
