# AINews pipeline core in Dafny

This project models the deterministic core of a batch tech-news bot. In each cycle the bot:

- reads fourteen RSS feeds and keeps the first five items of each, normalised;
- skips articles it has stored before;
- enriches each new article with a summary, a sentiment and a topic from hosted models;
- stores the article in a key-value store, which is either a durable HTTP backend or an in-memory Map;
- sends the new articles to a Telegram chat as a header, one message per article and a footer with sentiment tallies.

A separate language service maps classifier labels and Unicode script blocks to sixteen supported language codes. It also formats the language list shown to users.

Everything outside the program is an input to the model:

- the feed parser;
- the three hosted models;
- the language classifier;
- the durable backend's replies;
- Telegram's send call;
- the MD5 digest, taken as an uninterpreted function;
- the clock, given as the `now` and `date` strings.

Each input is a function of the request it answers. Thrown errors become `Result`/`Outcome` values.

Modules:

- `Base`: option and result wrappers, JavaScript truthiness and `||`, `substring`, `includes`, template concatenation, number formatting.
- `Languages` (lib/language-service.ts): the language table, label mapping, script cascade and language list.
- `LanguageSamples`: the script cascade applied to the sample sentences of test-indian-lang.mjs.
- `Sources` (lib/news-sources.ts): the feed table.
- `Enrichment` (lib/huggingface-client.ts): summary, sentiment and topic, with their fallbacks.
- `KvStore` (lib/vercel-kv.ts): article identity, and the class `ArticleStore` holding the in-memory Map and its key order.
- `Delivery` (lib/telegram-service.ts): the message plan and the sequential sender.
- `Fetcher` (lib/news-fetcher.ts): normalisation, per-article processing and the cycle.

The model follows the code as written, including where it differs from what its comments and tests lead one to expect. For the two defects listed under "## Findings", every affected operation takes a parameter. That parameter selects the code as written or a corrected variant, so both can be proved about:

- `Fetcher.IdScheme`: `AsWritten` stores a record under the joined title and source, as lib/news-fetcher.ts:70 does; `Corrected` stores it under the article id.
- The range table of `Languages.LanguageFromReply`: `SourceScriptRanges` is the cascade as written; `ScriptRanges` is the corrected one. `Languages.DetectLanguage` uses the cascade as written.

Other places where the model keeps behaviour that a reader might not expect:

- **Existence check:** in configured mode, `articleExists` never consults the in-memory Map. An article whose durable write failed lands in the Map but is still reported absent.
- **Failed enrichment:** a failed summarization drops the article. No extractive summary replaces it.
- **No language filter:** delivery takes no language argument. The second argument passed at lib/news-fetcher.ts:158 is ignored.

## Model

| member | source | states |
|---|---|---|
| Languages.SupportedCodesInOrder | lib/language-service.ts:6-26 | the table's keys are the sixteen codes hi … pa, en … ja in declaration order, each once |
| Languages.IsValidLanguage | lib/language-service.ts:116-118 | a code is valid exactly when some table entry has it as its key |
| Languages.GetLanguageInfo | lib/language-service.ts:123-125 | a valid code gets its own table entry; any other code gets English's entry |
| Languages.SupportedNamesDistinct | lib/language-service.ts:6-26 | the sixteen language names, in order, are pairwise distinct |
| Languages.LanguageNameRoundTrip | lib/language-service.ts:6-26 | the name shown for a valid code leads back to that code |
| Languages.FirstHit | lib/language-service.ts:92-111 | the cascade answers "en" or the code of one of its ranges |
| Languages.FirstHitIsFirstMatchingRange | lib/language-service.ts:92-111 | the first range, in cascade order, that contains a character of the text decides the answer |
| Languages.DetectByCharactersAsWritten | lib/language-service.ts:92-111 | `detectLanguageByCharacters` as written answers only codes its tests name: hi, bn, te, ta, or, gu, kn, ml, pa, zh, ja or en |
| Languages.DetectByCharacters | lib/language-service.ts:92-111 | the corrected cascade answers from the same twelve codes |
| Languages.FirstHitWithoutMatch | lib/language-service.ts:109-110 | text with no character in any range gets "en" |
| Languages.HeuristicCodes | lib/language-service.ts:94-110 | the corrected cascade always answers a supported code, never mr, es, fr or de |
| Languages.HeuristicCodesAsWritten | lib/language-service.ts:94-110 | the cascade as written always answers a supported code, never mr, es, fr or de |
| Languages.DevanagariForcesHindi | lib/language-service.ts:94 | a Devanagari character anywhere forces "hi", whatever other scripts occur |
| Languages.HitIgnoresChar | lib/language-service.ts:92-111 | inserting a character outside a range does not change whether the text hits that range |
| Languages.FirstHitSameHits | lib/language-service.ts:92-111 | texts that hit the same ranges get the same answer |
| Languages.DandaIsNeutral | lib/language-service.ts:94 | inserting a danda or double danda anywhere never changes the corrected cascade's answer |
| Languages.DandaDecidesAsWritten | lib/language-service.ts:94-95 | as written, one Bengali letter alone gives "bn", and followed by a danda gives "hi" |
| Languages.NoScriptMeansEnglish | lib/language-service.ts:104-110 | text with no character of a tested block is "en" under both variants |
| Languages.FirstLabelCodeIsEarliestKey | lib/language-service.ts:72-77 | the label maps to the code of the earliest `languageMap` key it contains, and to none exactly when it contains no key |
| Languages.CascadeCodesSupported | lib/language-service.ts:94-110 | every code in the cascade as written, and in the corrected one, is a supported code |
| Languages.LanguageFromReply | lib/language-service.ts:34-86 | detection on a text of ten or more characters answers "en", a code `languageMap` maps to, or a code of the fallback cascade it is given |
| Languages.LanguageFromReplyIsSupported | lib/language-service.ts:34-86 | with either cascade (any cascade of supported codes), detection always yields one of the sixteen supported codes |
| Languages.LabelCodesSupported | lib/language-service.ts:51-70 | every code that `languageMap` maps to is a supported one |
| Languages.LanguageFromReplyCases | lib/language-service.ts:47-85 | for the cascade it is given (as written in `DetectLanguage`): a failed call gives "en"; a non-array, empty, unlabelled or unmatched reply falls back to that cascade; a top label that contains a `languageMap` key gives the code of the first such key |
| Languages.DetectLanguage | lib/language-service.ts:34-86 | as written: text shorter than ten characters is "en" without a classifier call; otherwise the answer is the one the reply to the first 512 characters gives, with the cascade as written as the fallback; the result is always supported |
| Languages.DandaDecidesDetectionAsWritten | lib/language-service.ts:47-81 | five Bengali letters, each followed by a danda, are long enough to reach the classifier; with a non-array reply, detection as written answers "hi" |
| Languages.DandaProbeCorrected | lib/language-service.ts:47-81 | the same text and reply give "bn" with the corrected cascade |
| Languages.GroupsPartition | lib/language-service.ts:135-142 | splitting the table into the two groups loses and duplicates no entry |
| Languages.IndianGroupIsPrefix | lib/language-service.ts:135-142 | when the Indian entries come first, the Indian group is exactly that prefix |
| Languages.InternationalGroupIsSuffix | lib/language-service.ts:135-142 | when the Indian entries come first, the international group is exactly the rest |
| Languages.SupportedIndianFirst | lib/language-service.ts:6-26 | the first ten entries are Indian codes and the other six are not |
| Languages.IndianGroupCodes | lib/language-service.ts:137-138 | the Indian group lists hi, bn, te, ta, mr, gu, kn, ml, or, pa in declaration order |
| Languages.InternationalGroupCodes | lib/language-service.ts:139-141 | the international group lists en, es, fr, de, zh, ja in declaration order |
| Languages.GroupsCoverTable | lib/language-service.ts:131-150 | together the two groups list every table entry exactly once |
| Languages.FormatLanguageList | lib/language-service.ts:131-150 | the list is the Indian heading and lines, then the international heading and lines, each group in table order |
| LanguageSamples.HindiSampleDetection | test-indian-lang.mjs:8-12 | the Hindi sample is "hi" under both variants |
| LanguageSamples.BengaliSampleDetection | test-indian-lang.mjs:13-17 | the corrected cascade gives the expected "bn" for the Bengali sample |
| LanguageSamples.BengaliSampleAsWritten | test-indian-lang.mjs:13-17 | the cascade as written gives "hi" for the Bengali sample, because of its dandas |
| LanguageSamples.TamilSampleDetection | test-indian-lang.mjs:18-22 | the corrected cascade gives "ta" for the Tamil sample |
| LanguageSamples.TamilSampleAsWritten | test-indian-lang.mjs:18-22 | the cascade as written also gives "ta" |
| LanguageSamples.TeluguSampleDetection | test-indian-lang.mjs:23-27 | the corrected cascade gives "te" for the Telugu sample |
| LanguageSamples.TeluguSampleAsWritten | test-indian-lang.mjs:23-27 | the cascade as written also gives "te" |
| LanguageSamples.MarathiSampleDetection | test-indian-lang.mjs:28-32 | the Marathi sample is "hi", not the expected "mr", under both variants |
| LanguageSamples.GujaratiSampleDetection | test-indian-lang.mjs:33-37 | the corrected cascade gives "gu" for the Gujarati sample |
| LanguageSamples.GujaratiSampleAsWritten | test-indian-lang.mjs:33-37 | the cascade as written gives "hi" for the Gujarati sample, because of its closing danda |
| LanguageSamples.KannadaSampleDetection | test-indian-lang.mjs:38-42 | the corrected cascade gives "kn" for the Kannada sample |
| LanguageSamples.KannadaSampleAsWritten | test-indian-lang.mjs:38-42 | the cascade as written also gives "kn" |
| LanguageSamples.MalayalamSampleDetection | test-indian-lang.mjs:43-47 | the corrected cascade gives "ml" for the Malayalam sample |
| LanguageSamples.MalayalamSampleAsWritten | test-indian-lang.mjs:43-47 | the cascade as written also gives "ml" |
| LanguageSamples.PunjabiSampleDetection | test-indian-lang.mjs:48-52 | the corrected cascade gives "pa" for the Punjabi sample |
| LanguageSamples.PunjabiSampleAsWritten | test-indian-lang.mjs:48-52 | the cascade as written gives "hi" for the Punjabi sample, because of its closing danda |
| LanguageSamples.EnglishSampleDetection | test-indian-lang.mjs:53-57 | the English sample is "en" under both variants |
| Sources.GetSourceUrl | lib/news-sources.ts:83-85 | a url is present exactly for an index in range, and it is that entry's url |
| Sources.GetSourceName | lib/news-sources.ts:87-89 | an index in range gives the entry's name; any other index gives "Unknown" |
| Sources.SourceTable | lib/news-sources.ts:7-81 | the list has fourteen entries, with these names in this order |
| Sources.SourceNamesDistinct | lib/news-sources.ts:7-81 | no two sources share a name |
| Sources.SourceNamesColonFree | lib/news-sources.ts:7-81 | no source name contains a colon |
| Sources.LookupsExact | lib/news-sources.ts:83-89 | "Unknown" means exactly out of range, and every url found is non-empty |
| Enrichment.TextToProcess | lib/huggingface-client.ts:89 | the shared input is the longest prefix of at most 1024 characters of title, ". ", content |
| Enrichment.SummarizeText | lib/huggingface-client.ts:11-28 | a failed call raises "Failed to summarize article"; otherwise the first result's text if truthy, else "Failed to generate summary", so never empty |
| Enrichment.SentimentLabels | lib/huggingface-client.ts:40-46 | exactly POSITIVE, NEGATIVE and NEUTRAL map, each to its lowercase name |
| Enrichment.AnalyzeSentiment | lib/huggingface-client.ts:30-51 | the top label's sentiment when it maps; neutral for any other label, an empty reply or a failed call; the classifier sees at most 512 characters |
| Enrichment.ClassifyTopic | lib/huggingface-client.ts:53-83 | the first label if truthy, else "Technology", also on failure; never empty; asked against the eleven candidate topics |
| Enrichment.ProcessArticle | lib/huggingface-client.ts:85-102 | fails exactly when summarization fails; otherwise yields the three results on the same truncated text |
| Enrichment.EnrichmentSeesOnlyPrefixes | lib/huggingface-client.ts:36-71 | texts that agree on their first 512 characters get the same sentiment, and on their first 1024 the same topic |
| Enrichment.TopicSeesWholeArticleInput | lib/huggingface-client.ts:71-89 | the topic classifier sees the whole shared input, uncut |
| KvStore.GetKVConfig | lib/vercel-kv.ts:12-21 | configured exactly when both the url and the token are truthy |
| KvStore.IdentityString | lib/vercel-kv.ts:41 | the digested string is the title, a colon, the source |
| KvStore.GenerateArticleId | lib/vercel-kv.ts:35-43 | the id is the digest of the joined string; the "unique" id its doc comment promises holds when the digest is injective and the sources are colon-free: then no other colon-free pair gets the same id |
| KvStore.IdentityCollision | lib/vercel-kv.ts:38-43 | ("a:b", "c") and ("a", "b:c") get the same id, whatever the digest |
| KvStore.IdentityStringInjective | lib/vercel-kv.ts:38-43 | for colon-free sources, equal joined strings mean equal titles and sources |
| KvStore.KeysOf | lib/vercel-kv.ts:210 | a failed KEYS request, or a reply without a result (`|| []`), gives no keys; a present result is passed through as it is |
| KvStore.GetAllFromKeys | lib/vercel-kv.ts:210-220 | configured, collects at most one article per key, each one the backend's non-null answer for a listed key |
| KvStore.DeletesIssuedPrefix | lib/vercel-kv.ts:250-266 | the deletes sent are a prefix of the keys; every one before the last succeeded; all keys are sent when none fails; a short run ends with a failed delete |
| KvStore.ArticleStore.Values | lib/vercel-kv.ts:198 | the Map's values in insertion order, the i-th being the value of the i-th key inserted, and nothing else |
| KvStore.ArticleStore.constructor | lib/vercel-kv.ts:10 | the Map starts empty |
| KvStore.ArticleStore.ArticleExists | lib/vercel-kv.ts:48-79 | unconfigured, whether the id is a Map key; configured, whether the backend's result is not null, so a reply without a `result` field counts as present, any error counting as absent, the Map never consulted |
| KvStore.ArticleStore.GetArticle | lib/vercel-kv.ts:125-154 | unconfigured, the Map's entry for the id; configured, the backend's value; null on absence or any error, and nothing (JavaScript `undefined`) for a reply without a `result` field |
| KvStore.ArticleStore.Put | lib/vercel-kv.ts:91 | `Map.set`: sets the id to the article, keeps every other key, and appends a new key at the end |
| KvStore.ArticleStore.StoreArticle | lib/vercel-kv.ts:84-120 | unconfigured, or configured with a failed write (TTL 604800 seconds), the Map gets the article under its id, a new id goes to the end of the key order, and nothing else changes; a successful write leaves the Map and order alone; never raises |
| KvStore.ArticleStore.DeleteArticle | lib/vercel-kv.ts:159-186 | unconfigured, removes exactly the id from the Map and from the key order, keeping the other keys' order; configured, sends a delete for the id and leaves the Map alone |
| KvStore.ArticleStore.GetAllArticles | lib/vercel-kv.ts:191-225 | unconfigured, exactly the Map's values in insertion order; configured, the per-key lookups over the listed keys |
| KvStore.ArticleStore.ClearAllArticles | lib/vercel-kv.ts:230-267 | unconfigured, the Map ends empty; configured, the Map is untouched and the deletes stop at the first failure |
| Base.NatToStringValue | lib/telegram-service.ts:35 | the decimal text `${n}` puts in a message denotes n |
| Base.NatToStringInjective | lib/telegram-service.ts:71-73 | different counts are rendered as different texts, so each tally shown is the tally counted |
| Delivery.Emoji | lib/telegram-service.ts:15-19 | one emoji per sentiment |
| Delivery.EmojiDistinct | lib/telegram-service.ts:15-19 | different sentiments get different emoji |
| Delivery.Header | lib/telegram-service.ts:33-35 | the header reports the date and the number of articles |
| Delivery.LinkPart | lib/telegram-service.ts:49 | the "Read Full Article" link is present exactly when the link is truthy |
| Delivery.ArticleText | lib/telegram-service.ts:42-50 | an article's message is its body, extended by the link part exactly when the link is truthy |
| Delivery.CountOf | lib/telegram-service.ts:61-67 | a tally never exceeds the number of articles |
| Delivery.Footer | lib/telegram-service.ts:61-73 | the footer opens with its title and ends with the neutral tally |
| Delivery.Plan | lib/telegram-service.ts:33-77 | n articles give n + 2 messages: the header first, one per article in order, the footer last |
| Delivery.SendAll | lib/telegram-service.ts:31-77 | sending tries no more messages than the plan holds, and always tries the first one |
| Delivery.SendAllStopsAtFirstFailure | lib/telegram-service.ts:31-83 | the messages tried are a prefix of the plan; the run passes exactly when all were tried and delivered; a failure is the last message tried, every earlier one delivered |
| Delivery.NewsDelivery | lib/telegram-service.ts:21-84 | a missing chat id fails before anything is sent; an empty list sends nothing; otherwise the plan is sent |
| Delivery.SendNewsToTelegram | lib/telegram-service.ts:21-84 | sending the header, the articles and the footer one at a time, stopping at the first failure, is exactly `NewsDelivery` |
| Delivery.CountsSum | lib/telegram-service.ts:61-73 | the positive, negative and neutral tallies sum to the number of articles |
| Delivery.ArticleTextMentions | lib/telegram-service.ts:44-49 | an article's message contains its title, source, topic, sentiment emoji and summary |
| Delivery.ArticleLink | lib/telegram-service.ts:44-49 | with a truthy link the message ends with that link; without one it is the body alone |
| Delivery.FooterMentionsCounts | lib/telegram-service.ts:69-73 | the footer shows each tally after its label |
| Delivery.AlertText | lib/telegram-service.ts:95 | the alert ends with the error message |
| Delivery.SendErrorAlert | lib/telegram-service.ts:86-103 | no chat id sends nothing; otherwise the alert is tried once; no failure escapes |
| Fetcher.ItemsOf | lib/news-fetcher.ts:38 | a failed fetch or parse gives no items |
| Fetcher.ContentSource | lib/news-fetcher.ts:43 | the first truthy text among content, description and the raw title, else empty |
| Fetcher.NormalizeItem | lib/news-fetcher.ts:40-46 | a falsy title becomes "No title"; the content is that text cut to at most 1024 characters; source, link and date pass through |
| Fetcher.FetchFromRssFeed | lib/news-fetcher.ts:30-54 | the first min(n, 5) items, normalised, in feed order; nothing on failure |
| Fetcher.FetchedArticlesWellFormed | lib/news-fetcher.ts:38-46 | every fetched article belongs to its source, has a title and at most 1024 characters of content |
| Fetcher.FetchedFrom | lib/news-fetcher.ts:114-124 | at most five articles per source, each belonging to one of the sources |
| Fetcher.FetchedFromAppend | lib/news-fetcher.ts:120-124 | flattening keeps source order: fetching two lists of sources is fetching one, then the other |
| Fetcher.AtMostSeventyArticles | lib/news-fetcher.ts:114-126 | one cycle fetches at most 70 articles |
| Fetcher.CollectArticles | lib/news-fetcher.ts:114-124 | the loop collects exactly the flattened per-source lists |
| Fetcher.FetchedIdentitiesInjective | lib/news-fetcher.ts:114-124 | two fetched articles have the same joined title and source exactly when their titles and sources are equal |
| Fetcher.StoredIdAsWritten | lib/news-fetcher.ts:70 | the stored id as written is the joined title and source, not its digest |
| Fetcher.AsWrittenStoreMissesDedup | lib/news-fetcher.ts:60-81 | with a digest that holds no ':' (as a hex digest does), storing any article under the as-written id does not change whether it is found |
| Fetcher.AsWrittenDedupNeverFires | lib/news-fetcher.ts:60-81 | "Hello" from "TechCrunch", stored as written into an empty Map, is not found by its id |
| Fetcher.StoredId | lib/vercel-kv.ts:38-58 | the corrected stored id is the id the existence check looks up |
| Fetcher.StoredIdFound | lib/vercel-kv.ts:56-58 | an article stored under the corrected id is found afterwards |
| Fetcher.StoredRecord | lib/news-fetcher.ts:69-79 | the id is the joined title and source as written (`AsWritten`) or the article id (`Corrected`); the link defaults to "", the date to now, the sentiment is its lowercase name, and processedAt is now |
| Fetcher.MessageOf | lib/news-fetcher.ts:83-92 | the message carries the article's title, link, source and date, and the enrichment results |
| Fetcher.ProcessStep | lib/news-fetcher.ts:56-97 | a message exactly when the article is not found and enrichment succeeds, carrying the article and its enrichment; otherwise the Map and order are unchanged; keys are only added; a successful step stores exactly the `StoredRecord` of the article and its enrichment (the scheme's id, link defaulting to "", date defaulting to now): into the Map under its id, a new id appended to the key order, whenever the store falls back to memory, and otherwise the Map and order are left alone; unconfigured, the article is found afterwards under `Corrected`, and under `AsWritten` only if its digest equals the joined string |
| Fetcher.ProcessArticleWithNlp | lib/news-fetcher.ts:56-97 | for either scheme (the caller picks; lib/news-fetcher.ts:70 is `AsWritten`), the message, the Map and the key order afterwards are exactly `ProcessStep` on the Map and order it finds; a message exactly when the existence check said absent and enrichment succeeded; unconfigured with a message, `articleExists` afterwards says present under `Corrected`, and under `AsWritten` exactly when the digest equals the joined string |
| Fetcher.ProcessedFrom | lib/news-fetcher.ts:138-149 | per batch: at most one message per article, each from an article whose enrichment succeeded; keys are only added; unconfigured, no message's id was stored before |
| Fetcher.ProcessedFromSnoc | lib/news-fetcher.ts:138-149 | one more article advances the batch by one `ProcessStep` from the state it had reached |
| Fetcher.NewMessages | lib/news-fetcher.ts:144-149 | the filter that keeps the messages of the accepted articles whose enrichment succeeds, in order, at most one per article |
| Fetcher.ConfiguredProcessingFilters | lib/news-fetcher.ts:56-97 | configured, under either scheme, a batch yields exactly the messages of the articles the backend does not hold and whose enrichment succeeds, in article order |
| Fetcher.AsWrittenNeverDeduplicates | lib/news-fetcher.ts:56-97 | as written and unconfigured, with digests that hold no ':' and only keys holding a ':' stored (an empty Map, say), every article whose enrichment succeeds yields a message, duplicates included, and the Map again holds only keys with a ':' |
| Fetcher.CorrectedProcessingStores | lib/news-fetcher.ts:56-97 | corrected and unconfigured, every message's article id is stored after the batch |
| Fetcher.CorrectedProcessingDeduplicates | lib/news-fetcher.ts:56-97 | corrected and unconfigured, with the batch processed one article after another, no two messages of a batch share an article id; the source's concurrent batch does not have this property (see "Left out") |
| Fetcher.ProcessAll | lib/news-fetcher.ts:138-149 | for either scheme, the messages, Map and key order after the batch are exactly `ProcessedFrom` on the Map and order it finds, so every property proved of `ProcessedFrom` holds of it |
| Fetcher.FetchAndSendNews | lib/news-fetcher.ts:103-173 | nothing fetched gives (true, 0, 0, "No articles fetched") with no delivery and the store unchanged; otherwise the messages and the store afterwards are `ProcessedFrom` over the fetched articles, the report counts the fetched and new articles, delivery happens only for new articles, and its failure is rethrown |

## Left out

- Network I/O, wire formats, HTTP headers and the MD5 algorithm are not modelled. The digest is an uninterpreted function of the joined string.
- Concurrency is reduced to order:
  - `Promise.all` and `Promise.allSettled` become sequential, in declaration order;
  - neither `fetchFromRSSFeed` nor `processArticleWithNLP` can reject.
- Fetcher.ProcessAll: articles are processed one after another, so each existence check sees the stores made before it. The source starts every check before any store completes, so a duplicate within one batch can be sent twice there.
- Fetcher.CorrectedProcessingDeduplicates: holds only for the model's one-after-another batch. In the source, lib/news-fetcher.ts:138-141 starts every `processArticleWithNLP` up to its first `await`. Unconfigured, `articleExists` answers from `inMemoryStore.has` at once (lib/vercel-kv.ts:56-58), so every check sees the Map as it was before the batch. Even with the corrected id, two items of one batch with the same title and source both yield messages. The promise that holds across cycles is `Fetcher.CorrectedProcessingStores`: after a batch every message's id is stored, so the next cycle skips it.
- Time:
  - the 500 ms delay between messages and the 10 s parser timeout are not modelled;
  - the current time (`new Date()`) and its date formatting are the `now` and `date` parameters;
  - key expiry is not modelled, only the TTL sent with the write.
- The durable backend's replies are fixed functions of each request. A successful write therefore does not change a later `get`, and configured-mode deduplication depends only on `backend.get`.
- KvStore.ArticleStore.GetAllArticles: the configured loop is modelled as written, re-hashing each listed key with `getArticle(key, "")`. Which keys match a pattern is left to the backend.
- `getUserLanguage` is imported by lib/news-fetcher.ts but not defined in lib/vercel-kv.ts. Type checking rejects the import. Built without type checking and loaded as an ES module, the file fails to load. Compiled to CommonJS, the import is `undefined`, so the call at lib/news-fetcher.ts:154 throws after every article has been processed and stored and before any delivery; the handler at lib/news-fetcher.ts:169-172 rethrows it, and nothing is sent. The model assumes the call returns; the user id is an unused parameter of `Fetcher.FetchAndSendNews`.
- Languages.IsValidLanguage: `isValidLanguage` uses JavaScript `in`, which also accepts inherited keys such as "toString". The model accepts the sixteen declared keys only.
- Languages.GetLanguageInfo: `SUPPORTED_LANGUAGES[code] || SUPPORTED_LANGUAGES.en` returns an inherited member of the object for a code such as "constructor" or "toString", not English's entry. A typed caller cannot pass such a code; the model gives English's entry to every code outside the table.
- Enrichment.SentimentOfLabel: `sentimentMap[label]` also finds inherited members of a plain object. A top label like "constructor" yields a function there, not "neutral". The model maps every label other than the three keys to neutral.
- Languages.TopLabel: the model lowercases ASCII letters only. JavaScript `toLowerCase` folds all of Unicode; for example, the Kelvin sign U+212A becomes "k". A label whose language name is spelt with such characters matches in the source but not in the model.
- String lengths count Dafny characters (Unicode scalar values), not UTF-16 units. Every sample sentence is in the Basic Multilingual Plane, where the two agree.
- Logging, the bot token, api/webhook.ts, api/fetch-news.ts and the runner scripts are not part of this model.

## Findings

| source | as written | input that shows it | evidently intended | confidence | as-written member | corrected member |
|---|---|---|---|---|---|---|
| lib/language-service.ts:94 | The Devanagari test covers all of U+0900–U+097F. That includes the danda U+0964 and double danda U+0965, sentence marks also used in Bengali, Gujarati and Gurmukhi text. | "ক।" (Bengali KA, then a danda) answers "hi". So do the Bengali, Gujarati and Punjabi samples of test-indian-lang.mjs, whose expected codes are "bn", "gu" and "pa". | The dandas are neutral punctuation, and the script of the letters decides. | not executed | Languages.DetectByCharactersAsWritten | Languages.DetectByCharacters |
| lib/news-fetcher.ts:70 | The stored record's id is `title + ":" + source`. `articleExists` looks up the MD5 hex digest of that string (lib/vercel-kv.ts:54-58), so the lookup never finds what was stored. | The article "Hello" from "TechCrunch" is stored under "Hello:TechCrunch" but looked up under its hex digest, which holds no ':'. It is reprocessed and re-sent every cycle. | The record is stored under `generateArticleId(title, source)`. | not executed | Fetcher.StoredIdAsWritten | Fetcher.StoredId |

The danda discrepancy is shown by `Languages.DandaDecidesAsWritten` and by `LanguageSamples.BengaliSampleAsWritten`, `LanguageSamples.GujaratiSampleAsWritten` and `LanguageSamples.PunjabiSampleAsWritten`. In detection itself, `Languages.DandaDecidesDetectionAsWritten` shows the effect. The correction is proved by `Languages.DandaIsNeutral`, `Languages.DandaProbeCorrected` and the `…SampleDetection` lemmas. `Languages.DetectLanguage` runs the cascade as written; `Languages.LanguageFromReply` with `ScriptRanges` is the corrected detection.

The id discrepancy is shown by `Fetcher.AsWrittenStoreMissesDedup` and `Fetcher.AsWrittenDedupNeverFires`. Over a whole batch, `Fetcher.AsWrittenNeverDeduplicates` shows it for the pipeline as written: every enriched article is sent, and nothing stored ever makes a later one found. The correction is proved by `Fetcher.StoredIdFound` and `Fetcher.CorrectedProcessingStores`: every message's id is stored after its batch, so the next cycle does not send it again. `Fetcher.CorrectedProcessingDeduplicates` adds that no batch sends one article twice, but only for the model's one-after-another batch; the source's concurrent batch can still send a within-batch duplicate twice (see "Left out"). The pipeline methods take the scheme as a parameter; lib/news-fetcher.ts:70 corresponds to `AsWritten`.
