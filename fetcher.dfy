/** The news cycle (lib/news-fetcher.ts): every source's feed is read and
    normalised, each article not yet stored is enriched, stored and turned
    into a message, and the new messages are delivered. The feed parser,
    the hosted models, the durable backend, the chat and the clock are
    inputs. */
module Fetcher {
  import opened Base
  import opened Sources
  import opened Enrichment
  import opened KvStore
  import opened Delivery

  /** A parsed feed item; every field may be missing. */
  datatype FeedItem = FeedItem(
    title: Option<string>, link: Option<string>, content: Option<string>,
    description: Option<string>, pubDate: Option<string>)

  /** The parser's answer for a feed url: a thrown error, or the feed with
      its possibly missing `items`. */
  datatype FeedReply = FeedFailed(reason: string) | Feed(items: Option<seq<FeedItem>>)

  type FeedParser = string -> FeedReply

  datatype ParsedArticle = ParsedArticle(
    title: string, link: Option<string>, content: string, source: string, pubDate: Option<string>)

  const MaxItemsPerFeed := 5
  const ContentLength := 1024
  const NoTitle := "No title"

  /** `feed.items || []`; nothing when the fetch or parse fails. */
  function ItemsOf(reply: FeedReply): (items: seq<FeedItem>)
    ensures reply.FeedFailed? ==> items == []
  {
    match reply
    case FeedFailed(_) => []
    case Feed(items) => if items.Some? then items.value else []
  }

  /** `item.content || item.description || item.title || ""`. */
  function ContentSource(item: FeedItem): (text: string)
    ensures Truthy(item.content) ==> text == item.content.value
    ensures !Truthy(item.content) && Truthy(item.description) ==> text == item.description.value
    ensures !Truthy(item.content) && !Truthy(item.description) && Truthy(item.title) ==> text == item.title.value
    ensures !Truthy(item.content) && !Truthy(item.description) && !Truthy(item.title) ==> text == ""
  {
    OrElse(item.content, OrElse(item.description, OrElse(item.title, "")))
  }

  /** One feed item as an article of the named source: a falsy title becomes
      "No title", and the content is the first truthy text (the raw title
      last) cut at 1024 characters. */
  function NormalizeItem(item: FeedItem, sourceName: string): (a: ParsedArticle)
    ensures a.title != ""
    ensures Truthy(item.title) ==> a.title == item.title.value
    ensures !Truthy(item.title) ==> a.title == NoTitle
    ensures |a.content| == Min(|ContentSource(item)|, ContentLength)
    ensures a.content == ContentSource(item)[..|a.content|]
    ensures a.source == sourceName && a.link == item.link && a.pubDate == item.pubDate
  {
    ParsedArticle(OrElse(item.title, NoTitle), item.link, Prefix(ContentSource(item), ContentLength), sourceName, item.pubDate)
  }

  /** `fetchFromRSSFeed`: the first five items of the feed, normalised, in
      feed order; none when the fetch or parse fails (the error is logged,
      never thrown). */
  function FetchFromRssFeed(url: string, sourceName: string, parse: FeedParser): (articles: seq<ParsedArticle>)
    ensures |articles| == Min(|ItemsOf(parse(url))|, MaxItemsPerFeed)
    ensures forall i :: 0 <= i < |articles| ==> articles[i] == NormalizeItem(ItemsOf(parse(url))[i], sourceName)
    ensures parse(url).FeedFailed? ==> articles == []
  {
    var items := ItemsOf(parse(url));
    var kept := if |items| <= MaxItemsPerFeed then items else items[..MaxItemsPerFeed];
    seq(|kept|, i requires 0 <= i < |kept| => NormalizeItem(kept[i], sourceName))
  }

  /** Every article fetched from a feed belongs to its source, has a title
      and at most 1024 characters of content. */
  lemma FetchedArticlesWellFormed(url: string, sourceName: string, parse: FeedParser)
    ensures forall a :: a in FetchFromRssFeed(url, sourceName, parse) ==>
              a.source == sourceName && a.title != "" && |a.content| <= ContentLength
  {
    var articles := FetchFromRssFeed(url, sourceName, parse);
    forall a | a in articles
      ensures a.source == sourceName && a.title != "" && |a.content| <= ContentLength
    {
      var i :| 0 <= i < |articles| && articles[i] == a;
      assert a == NormalizeItem(ItemsOf(parse(url))[i], sourceName);
    }
  }

  /** The articles of all sources, each source's list in feed order, the
      lists in source order (`allArticles.push(...result.value)`). */
  function FetchedFrom(sources: seq<NewsSource>, parse: FeedParser): (articles: seq<ParsedArticle>)
    ensures |articles| <= MaxItemsPerFeed * |sources|
    ensures forall a :: a in articles ==> exists s :: s in sources && a.source == s.name
  {
    if |sources| == 0 then []
    else
      var last := sources[|sources| - 1];
      var earlier := FetchedFrom(sources[..|sources| - 1], parse);
      var fetched := FetchFromRssFeed(last.url, last.name, parse);
      assert forall s :: s in sources[..|sources| - 1] ==> s in sources;
      FetchedArticlesWellFormed(last.url, last.name, parse);
      earlier + fetched
  }

  /** Fetching a list of sources is fetching its parts one after another. */
  lemma {:induction false} FetchedFromAppend(s1: seq<NewsSource>, s2: seq<NewsSource>, parse: FeedParser)
    ensures FetchedFrom(s1 + s2, parse) == FetchedFrom(s1, parse) + FetchedFrom(s2, parse)
  {
    if |s2| > 0 {
      var last := s2[|s2| - 1];
      assert (s1 + s2)[..|s1 + s2| - 1] == s1 + s2[..|s2| - 1];
      FetchedFromAppend(s1, s2[..|s2| - 1], parse);
    } else {
      assert s1 + s2 == s1;
    }
  }

  /** One cycle fetches at most five articles from each of the 14 sources. */
  lemma AtMostSeventyArticles(parse: FeedParser)
    ensures |FetchedFrom(NewsSources, parse)| <= 70
  {
    SourceTable();
  }

  /** Two articles of one cycle join to the same identity string exactly when
      they have the same title and source, since no source name has a colon. */
  lemma FetchedIdentitiesInjective(parse: FeedParser, a: ParsedArticle, b: ParsedArticle)
    requires a in FetchedFrom(NewsSources, parse) && b in FetchedFrom(NewsSources, parse)
    ensures IdentityString(a.title, a.source) == IdentityString(b.title, b.source) <==> a.title == b.title && a.source == b.source
  {
    SourceNamesColonFree();
    IdentityStringInjective(a.title, a.source, b.title, b.source);
  }

  /** The per-source fetches, settled and flattened in source order. */
  method CollectArticles(sources: seq<NewsSource>, parse: FeedParser) returns (all: seq<ParsedArticle>)
    ensures all == FetchedFrom(sources, parse)
  {
    all := [];
    for k := 0 to |sources|
      invariant all == FetchedFrom(sources[..k], parse)
    {
      assert sources[..k + 1][..k] == sources[..k];
      all := all + FetchFromRssFeed(sources[k].url, sources[k].name, parse);
    }
    assert sources[..|sources|] == sources;
  }

  /** The key the pipeline stores an article under, as written: the joined
      title and source, not their digest. */
  function StoredIdAsWritten(article: ParsedArticle): (id: string)
    ensures id == IdentityString(article.title, article.source)
  {
    article.title + ":" + article.source
  }

  /** With a hexadecimal digest, which holds no ':', an article stored under
      the key as written is not found by `articleExists` afterwards unless it
      was found before: the joined string always holds the ':' it was joined
      with. For "Hello" from "TechCrunch" the key is "Hello:TechCrunch". */
  lemma AsWrittenStoreMissesDedup(md5: string -> string, memory: map<string, StoredArticle>, article: ParsedArticle, record: StoredArticle)
    requires forall x :: ':' !in md5(x)
    ensures GenerateArticleId(md5, article.title, article.source) in memory[StoredIdAsWritten(article) := record] <==>
            GenerateArticleId(md5, article.title, article.source) in memory
  {
    var joined := StoredIdAsWritten(article);
    assert joined[|article.title|] == ':';
    assert ':' !in GenerateArticleId(md5, article.title, article.source);
  }

  /** The same for a concrete article in an empty store: it is stored, yet
      the next cycle does not see it. */
  lemma AsWrittenDedupNeverFires(md5: string -> string, record: StoredArticle)
    requires forall x :: ':' !in md5(x)
    ensures var article := ParsedArticle("Hello", None, "", "TechCrunch", None);
            StoredIdAsWritten(article) in map[StoredIdAsWritten(article) := record] &&
            GenerateArticleId(md5, article.title, article.source) !in map[StoredIdAsWritten(article) := record]
  {
    var article := ParsedArticle("Hello", None, "", "TechCrunch", None);
    AsWrittenStoreMissesDedup(md5, map[], article, record);
  }

  /** The key the model stores an article under: the article id the
      existence check looks up. */
  function StoredId(md5: string -> string, article: ParsedArticle): (id: string)
    ensures id == GenerateArticleId(md5, article.title, article.source)
    ensures forall other: ParsedArticle :: other.title == article.title && other.source == article.source ==>
              id == GenerateArticleId(md5, other.title, other.source)
  {
    GenerateArticleId(md5, article.title, article.source)
  }

  /** Storing under that key makes the article found, whatever was stored
      before. */
  lemma StoredIdFound(md5: string -> string, memory: map<string, StoredArticle>, article: ParsedArticle, record: StoredArticle)
    ensures GenerateArticleId(md5, article.title, article.source) in memory[StoredId(md5, article) := record]
  {
  }

  /** The key a record is stored under: `AsWritten` is the joined title and
      source that the cycle writes; `Corrected` is the article id that the
      existence check looks up. */
  datatype IdScheme = AsWritten | Corrected

  /** The record stored for an enriched article: the link defaults to "",
      the publication date to the current time, the sentiment is its
      lowercase name, and the processing time is now. */
  function StoredRecord(scheme: IdScheme, md5: string -> string, article: ParsedArticle, enriched: SummarizedArticle, now: string)
    : (r: StoredArticle)
    ensures r.id == if scheme.AsWritten? then StoredIdAsWritten(article) else StoredId(md5, article)
    ensures r.title == article.title && r.source == article.source
    ensures r.link == OrElse(article.link, "") && r.pubDate == OrElse(article.pubDate, now) && r.processedAt == now
    ensures r.summary == enriched.summary && r.sentiment == enriched.sentiment.Name() && r.topic == enriched.topic
  {
    var id := if scheme.AsWritten? then StoredIdAsWritten(article) else StoredId(md5, article);
    StoredArticle(id, article.title, OrElse(article.link, ""), article.source,
                  OrElse(article.pubDate, now), enriched.summary, enriched.sentiment.Name(), enriched.topic, now)
  }

  /** The message emitted for an enriched article. */
  function MessageOf(article: ParsedArticle, enriched: SummarizedArticle): (m: NewsMessage)
    ensures m.title == article.title && m.link == article.link && m.source == article.source && m.pubDate == article.pubDate
    ensures m.summary == enriched.summary && m.sentiment == enriched.sentiment && m.topic == enriched.topic
  {
    NewsMessage(article.title, article.link, enriched.summary, enriched.sentiment, enriched.topic, article.source, article.pubDate)
  }

  /** The article id a message is stored under. */
  function MessageId(md5: string -> string, m: NewsMessage): string
  {
    GenerateArticleId(md5, m.title, m.source)
  }

  /** One `processArticleWithNLP` on a given Map and key order: the message,
      if any, and the Map and order afterwards. An article already stored, or
      whose enrichment fails, yields nothing and changes nothing. Stored
      unconfigured under the corrected key, the article is found afterwards;
      under the key as written it is found afterwards only if its digest
      happens to equal the joined string. */
  function ProcessStep(config: Option<KvConfig>, md5: string -> string, memory: map<string, StoredArticle>, order: seq<string>,
                       article: ParsedArticle, inference: Inference, backend: KvBackend, now: string, scheme: IdScheme)
    : (r: (Option<NewsMessage>, map<string, StoredArticle>, seq<string>))
    ensures r.0.Some? <==> !Found(config, md5, memory, article.title, article.source, backend) &&
                           ProcessArticle(article.title, article.content, inference).Success?
    ensures r.0.Some? ==> r.0.value == MessageOf(article, ProcessArticle(article.title, article.content, inference).value)
    ensures r.0.None? ==> r.1 == memory && r.2 == order
    ensures memory.Keys <= r.1.Keys
    ensures r.0.Some? ==>
              var rec := StoredRecord(scheme, md5, article, ProcessArticle(article.title, article.content, inference).value, now);
              (FallsBackToMemory(config, rec, backend) ==>
                 r.1 == memory[rec.id := rec] && r.2 == (if rec.id in memory then order else order + [rec.id])) &&
              (!FallsBackToMemory(config, rec, backend) ==> r.1 == memory && r.2 == order)
    ensures config.None? && r.0.Some? && scheme.Corrected? ==> Found(config, md5, r.1, article.title, article.source, backend)
    ensures config.None? && r.0.Some? && scheme.AsWritten? ==>
              (Found(config, md5, r.1, article.title, article.source, backend) <==>
               GenerateArticleId(md5, article.title, article.source) == StoredIdAsWritten(article))
  {
    if Found(config, md5, memory, article.title, article.source, backend) then (None, memory, order)
    else
      match ProcessArticle(article.title, article.content, inference)
      case Failure(_) => (None, memory, order)
      case Success(enriched) =>
        var after := MapAfterStore(config, memory, order, StoredRecord(scheme, md5, article, enriched, now), backend);
        (Some(MessageOf(article, enriched)), after.0, after.1)
  }

  /** `processArticleWithNLP`, run on the store: exactly `ProcessStep` on
      the Map and key order it finds. */
  method ProcessArticleWithNlp(article: ParsedArticle, store: ArticleStore, inference: Inference, backend: KvBackend,
                               now: string, scheme: IdScheme)
    returns (message: Option<NewsMessage>)
    requires store.Valid()
    modifies store
    ensures store.Valid()
    ensures (message, store.memory, store.order) ==
            ProcessStep(store.config, store.md5, old(store.memory), old(store.order), article, inference, backend, now, scheme)
    ensures message.Some? <==> !old(store.ArticleExists(article.title, article.source, backend)) &&
                               ProcessArticle(article.title, article.content, inference).Success?
    ensures store.config.None? && message.Some? && scheme.Corrected? ==> store.ArticleExists(article.title, article.source, backend)
    ensures store.config.None? && message.Some? && scheme.AsWritten? ==>
              (store.ArticleExists(article.title, article.source, backend) <==>
               GenerateArticleId(store.md5, article.title, article.source) == StoredIdAsWritten(article))
  {
    var found := store.ArticleExists(article.title, article.source, backend);
    if found {
      return None;
    }
    var processed := ProcessArticle(article.title, article.content, inference);
    if processed.Failure? {
      return None;
    }
    var enriched := processed.value;
    var record := StoredRecord(scheme, store.md5, article, enriched, now);
    store.StoreArticle(record, backend);
    return Some(MessageOf(article, enriched));
  }

  /** The settled per-article results of one batch, the non-null ones kept
      in order, with the Map and key order threaded from one article to the
      next. */
  function ProcessedFrom(config: Option<KvConfig>, md5: string -> string, memory: map<string, StoredArticle>, order: seq<string>,
                         articles: seq<ParsedArticle>, inference: Inference, backend: KvBackend, now: string, scheme: IdScheme)
    : (r: (seq<NewsMessage>, map<string, StoredArticle>, seq<string>))
    ensures |r.0| <= |articles|
    ensures memory.Keys <= r.1.Keys
    ensures forall m :: m in r.0 ==> exists a :: a in articles && ProcessArticle(a.title, a.content, inference).Success? &&
                                                 m == MessageOf(a, ProcessArticle(a.title, a.content, inference).value)
    ensures config.None? ==> forall m :: m in r.0 ==> MessageId(md5, m) !in memory
  {
    if |articles| == 0 then ([], memory, order)
    else
      var last := articles[|articles| - 1];
      var earlier := ProcessedFrom(config, md5, memory, order, articles[..|articles| - 1], inference, backend, now, scheme);
      var step := ProcessStep(config, md5, earlier.1, earlier.2, last, inference, backend, now, scheme);
      assert forall a :: a in articles[..|articles| - 1] ==> a in articles;
      (earlier.0 + (if step.0.Some? then [step.0.value] else []), step.1, step.2)
  }

  /** One more article: `ProcessedFrom` steps from the state it reached. */
  lemma ProcessedFromSnoc(config: Option<KvConfig>, md5: string -> string, memory: map<string, StoredArticle>, order: seq<string>,
                          articles: seq<ParsedArticle>, i: nat, inference: Inference, backend: KvBackend, now: string, scheme: IdScheme,
                          earlier: (seq<NewsMessage>, map<string, StoredArticle>, seq<string>),
                          step: (Option<NewsMessage>, map<string, StoredArticle>, seq<string>))
    requires i < |articles|
    requires earlier == ProcessedFrom(config, md5, memory, order, articles[..i], inference, backend, now, scheme)
    requires step == ProcessStep(config, md5, earlier.1, earlier.2, articles[i], inference, backend, now, scheme)
    ensures ProcessedFrom(config, md5, memory, order, articles[..i + 1], inference, backend, now, scheme) ==
            (if step.0.Some? then earlier.0 + [step.0.value] else earlier.0, step.1, step.2)
  {
    assert articles[..i + 1][..i] == articles[..i];
    if step.0.None? {
      assert earlier.0 + [] == earlier.0;
    }
  }

  /** The messages of the articles that `isNew` accepts and whose enrichment
      succeeds, in article order. */
  function NewMessages(articles: seq<ParsedArticle>, isNew: ParsedArticle -> bool, inference: Inference): (news: seq<NewsMessage>)
    ensures |news| <= |articles|
  {
    if |articles| == 0 then []
    else
      var last := articles[|articles| - 1];
      var processed := ProcessArticle(last.title, last.content, inference);
      NewMessages(articles[..|articles| - 1], isNew, inference) +
        (if isNew(last) && processed.Success? then [MessageOf(last, processed.value)] else [])
  }

  /** Accepts every article. */
  const AlwaysNew: ParsedArticle -> bool := a => true

  /** Configured, the existence check never reads the Map, so a batch yields
      the messages of the articles the backend does not hold and whose
      enrichment succeeds, in article order. */
  lemma {:induction false} ConfiguredProcessingFilters(config: Option<KvConfig>, md5: string -> string, memory: map<string, StoredArticle>,
                                                       order: seq<string>, articles: seq<ParsedArticle>, inference: Inference,
                                                       backend: KvBackend, now: string, scheme: IdScheme, isNew: ParsedArticle -> bool)
    requires config.Some?
    requires forall a :: isNew(a) == !Found(config, md5, map[], a.title, a.source, backend)
    ensures ProcessedFrom(config, md5, memory, order, articles, inference, backend, now, scheme).0 == NewMessages(articles, isNew, inference)
  {
    if |articles| > 0 {
      ConfiguredProcessingFilters(config, md5, memory, order, articles[..|articles| - 1], inference, backend, now, scheme, isNew);
    }
  }

  /** As written and unconfigured, with hexadecimal digests, storing never
      makes an article found: starting from a Map whose keys all hold a ':'
      (the empty Map of a fresh process, say), every article whose enrichment
      succeeds yields a message, duplicates within the batch included, and
      the Map afterwards again holds only such keys, so the next cycle sends
      them all again. */
  lemma {:induction false} AsWrittenNeverDeduplicates(md5: string -> string, memory: map<string, StoredArticle>, order: seq<string>,
                                                      articles: seq<ParsedArticle>, inference: Inference, backend: KvBackend, now: string)
    requires forall x :: ':' !in md5(x)
    requires forall k :: k in memory ==> ':' in k
    ensures var r := ProcessedFrom(None, md5, memory, order, articles, inference, backend, now, AsWritten);
            r.0 == NewMessages(articles, AlwaysNew, inference) && forall k :: k in r.1 ==> ':' in k
  {
    if |articles| > 0 {
      var last := articles[|articles| - 1];
      AsWrittenNeverDeduplicates(md5, memory, order, articles[..|articles| - 1], inference, backend, now);
      var earlier := ProcessedFrom(None, md5, memory, order, articles[..|articles| - 1], inference, backend, now, AsWritten);
      assert ':' !in GenerateArticleId(md5, last.title, last.source);
      assert !Found(None, md5, earlier.1, last.title, last.source, backend);
      assert StoredIdAsWritten(last)[|last.title|] == ':';
    }
  }

  /** Under the corrected key and unconfigured, every message's article is
      stored after the batch (and, by `ProcessedFrom`, was not before). */
  lemma {:induction false} CorrectedProcessingStores(md5: string -> string, memory: map<string, StoredArticle>, order: seq<string>,
                                                     articles: seq<ParsedArticle>, inference: Inference, backend: KvBackend, now: string)
    ensures var r := ProcessedFrom(None, md5, memory, order, articles, inference, backend, now, Corrected);
            forall m :: m in r.0 ==> MessageId(md5, m) in r.1
  {
    if |articles| > 0 {
      var last := articles[|articles| - 1];
      CorrectedProcessingStores(md5, memory, order, articles[..|articles| - 1], inference, backend, now);
      var earlier := ProcessedFrom(None, md5, memory, order, articles[..|articles| - 1], inference, backend, now, Corrected);
      var step := ProcessStep(None, md5, earlier.1, earlier.2, last, inference, backend, now, Corrected);
      var r := ProcessedFrom(None, md5, memory, order, articles, inference, backend, now, Corrected);
      assert r == (earlier.0 + (if step.0.Some? then [step.0.value] else []), step.1, step.2);
      if step.0.Some? {
        assert MessageId(md5, step.0.value) == GenerateArticleId(md5, last.title, last.source);
      }
      StoredAfterStep(md5, earlier.0, earlier.1, step.1, step.0);
    }
  }

  /** Messages whose ids are stored stay stored as the Map grows, and so does
      a new message whose id the grown Map holds. */
  lemma StoredAfterStep(md5: string -> string, news: seq<NewsMessage>, stored: map<string, StoredArticle>,
                        grown: map<string, StoredArticle>, message: Option<NewsMessage>)
    requires forall n :: n in news ==> MessageId(md5, n) in stored
    requires stored.Keys <= grown.Keys
    requires message.Some? ==> MessageId(md5, message.value) in grown
    ensures forall n :: n in news + (if message.Some? then [message.value] else []) ==> MessageId(md5, n) in grown
  {
  }

  /** Under the corrected key and unconfigured, no two messages of a batch
      share an article id. */
  lemma {:induction false} CorrectedProcessingDeduplicates(md5: string -> string, memory: map<string, StoredArticle>, order: seq<string>,
                                                           articles: seq<ParsedArticle>, inference: Inference, backend: KvBackend, now: string)
    ensures var r := ProcessedFrom(None, md5, memory, order, articles, inference, backend, now, Corrected);
            forall i, j :: 0 <= i < j < |r.0| ==> MessageId(md5, r.0[i]) != MessageId(md5, r.0[j])
  {
    if |articles| > 0 {
      var last := articles[|articles| - 1];
      CorrectedProcessingDeduplicates(md5, memory, order, articles[..|articles| - 1], inference, backend, now);
      CorrectedProcessingStores(md5, memory, order, articles[..|articles| - 1], inference, backend, now);
      var earlier := ProcessedFrom(None, md5, memory, order, articles[..|articles| - 1], inference, backend, now, Corrected);
      var step := ProcessStep(None, md5, earlier.1, earlier.2, last, inference, backend, now, Corrected);
      var r := ProcessedFrom(None, md5, memory, order, articles, inference, backend, now, Corrected);
      assert r.0 == earlier.0 + (if step.0.Some? then [step.0.value] else []);
      if step.0.Some? {
        assert MessageId(md5, step.0.value) == GenerateArticleId(md5, last.title, last.source);
        DistinctAfterAppend(md5, earlier.0, earlier.1, step.0.value);
      }
    }
  }

  /** A message whose id is not yet stored keeps the ids of messages that
      are stored pairwise distinct. */
  lemma DistinctAfterAppend(md5: string -> string, news: seq<NewsMessage>, stored: map<string, StoredArticle>, m: NewsMessage)
    requires forall i, j :: 0 <= i < j < |news| ==> MessageId(md5, news[i]) != MessageId(md5, news[j])
    requires forall n :: n in news ==> MessageId(md5, n) in stored
    requires MessageId(md5, m) !in stored
    ensures forall i, j :: 0 <= i < j < |news + [m]| ==> MessageId(md5, (news + [m])[i]) != MessageId(md5, (news + [m])[j])
  {
    forall i | 0 <= i < |news| ensures MessageId(md5, (news + [m])[i]) != MessageId(md5, m) {
      assert (news + [m])[i] == news[i] && news[i] in news;
    }
  }

  /** The settled per-article results, run on the store: exactly
      `ProcessedFrom` on the Map and key order it finds. */
  method ProcessAll(articles: seq<ParsedArticle>, store: ArticleStore, inference: Inference, backend: KvBackend, now: string,
                    scheme: IdScheme)
    returns (news: seq<NewsMessage>)
    requires store.Valid()
    modifies store
    ensures store.Valid()
    ensures (news, store.memory, store.order) ==
            ProcessedFrom(store.config, store.md5, old(store.memory), old(store.order), articles, inference, backend, now, scheme)
  {
    news := [];
    for i := 0 to |articles|
      invariant store.Valid()
      invariant (news, store.memory, store.order) ==
                ProcessedFrom(store.config, store.md5, old(store.memory), old(store.order), articles[..i], inference, backend, now, scheme)
    {
      ghost var memory, order := store.memory, store.order;
      var message := ProcessArticleWithNlp(articles[i], store, inference, backend, now, scheme);
      ProcessedFromSnoc(store.config, store.md5, old(store.memory), old(store.order), articles, i, inference, backend, now, scheme,
                        (news, memory, order), (message, store.memory, store.order));
      if message.Some? {
        news := news + [message.value];
      }
    }
    assert articles[..|articles|] == articles;
  }

  /** What one cycle reports. */
  datatype CycleReport = CycleReport(success: bool, articlesFetched: nat, articlesProcessed: nat, message: string)

  const NothingFetched := "No articles fetched"
  const CycleCompleted := "News cycle completed"

  /** `fetchAndSendNews`: fetch every source; with nothing fetched, report
      so and stop; otherwise process every article, deliver the new messages,
      if any, and report the counts. A delivery failure is rethrown; every
      report that is returned says success. The user id only appears in a log
      line. */
  method FetchAndSendNews(userId: string, chatId: Option<string>, store: ArticleStore, parse: FeedParser,
                          inference: Inference, backend: KvBackend, send: Sender, now: string, date: string, scheme: IdScheme)
    returns (result: Result<CycleReport, string>, news: seq<NewsMessage>, delivery: SendReport)
    requires store.Valid()
    modifies store
    ensures store.Valid()
    ensures var fetched := FetchedFrom(NewsSources, parse);
            |fetched| == 0 ==> result == Success(CycleReport(true, 0, 0, NothingFetched)) && news == [] &&
                               delivery == SendReport(Pass, []) && unchanged(store)
    ensures var fetched := FetchedFrom(NewsSources, parse);
            |fetched| > 0 ==> (news, store.memory, store.order) ==
                              ProcessedFrom(store.config, store.md5, old(store.memory), old(store.order), fetched, inference, backend, now, scheme)
    ensures |news| == 0 ==> delivery == SendReport(Pass, [])
    ensures |news| > 0 ==> delivery == NewsDelivery(chatId, news, date, send)
    ensures result.Failure? <==> delivery.outcome.Fail?
    ensures result.Failure? ==> delivery.outcome == Fail(result.error)
    ensures var fetched := FetchedFrom(NewsSources, parse);
            |fetched| > 0 && result.Success? ==> result.value == CycleReport(true, |fetched|, |news|, CycleCompleted)
  {
    var all := CollectArticles(NewsSources, parse);
    if |all| == 0 {
      return Success(CycleReport(true, 0, 0, NothingFetched)), [], SendReport(Pass, []);
    }
    news := ProcessAll(all, store, inference, backend, now, scheme);
    if |news| > 0 {
      delivery := SendNewsToTelegram(chatId, news, date, send);
      if delivery.outcome.Fail? {
        return Failure(delivery.outcome.error), news, delivery;
      }
    } else {
      delivery := SendReport(Pass, []);
    }
    result := Success(CycleReport(true, |all|, |news|, CycleCompleted));
  }
}
