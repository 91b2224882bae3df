/** The enrichment step (lib/huggingface-client.ts): a summary, a sentiment
    and a topic for an article, each from a hosted model whose reply is an
    input here, with the fallbacks the client applies when a reply is
    missing, unusable or an error. */
module Enrichment {
  import opened Base

  datatype Sentiment = Positive | Negative | Neutral
  {
    /** The lowercase string the client returns. */
    function Name(): string
    {
      match this
      case Positive => "positive"
      case Negative => "negative"
      case Neutral => "neutral"
    }

    /** The classifier label that maps to this sentiment. */
    function Label(): string
    {
      match this
      case Positive => "POSITIVE"
      case Negative => "NEGATIVE"
      case Neutral => "NEUTRAL"
    }
  }

  datatype SummarizedArticle = SummarizedArticle(summary: string, sentiment: Sentiment, topic: string)

  /** The summarization model's reply: a thrown error or the list of results,
      each with a possibly missing `summary_text`. */
  datatype SummaryReply = SummaryFailed(reason: string) | Summaries(texts: seq<Option<string>>)

  /** The sentiment classifier's reply: a thrown error or the ranked labels. */
  datatype SentimentReply = SentimentFailed(reason: string) | Labels(labels: seq<string>)

  /** The zero-shot classifier's reply: a thrown error or its ranked labels
      (a missing `labels` field is an empty ranking). */
  datatype TopicReply = TopicFailed(reason: string) | Ranking(labels: seq<Option<string>>)

  /** The three hosted models, as functions of the input they are sent. */
  datatype Inference = Inference(
    summarize: string -> SummaryReply,
    classifySentiment: string -> SentimentReply,
    classifyZeroShot: (string, seq<string>) -> TopicReply)

  const SummaryFallback := "Failed to generate summary"
  const SummaryError := "Failed to summarize article"
  const TopicFallback := "Technology"
  const ArticleInputLength := 1024
  const SentimentInputLength := 512
  const TopicInputLength := 1024

  /** The candidate labels of the zero-shot topic classifier, in order. */
  const TechTopics: seq<string> := [
    "Artificial Intelligence", "Machine Learning", "Cybersecurity", "Web Development",
    "Mobile Development", "Cloud Computing", "DevOps", "Blockchain", "APIs", "Databases",
    "Infrastructure"
  ]

  /** The text all three models see: title, ". ", content, cut at 1024 characters. */
  function TextToProcess(title: string, content: string): (text: string)
    ensures |text| == Min(|title + ". " + content|, ArticleInputLength)
    ensures text == (title + ". " + content)[..|text|]
    ensures |title + ". " + content| <= ArticleInputLength ==> text == title + ". " + content
  {
    Prefix(title + ". " + content, ArticleInputLength)
  }

  /** `summarizeText`: the first result's text if non-empty, the fallback
      sentence otherwise, and an error when the call fails. */
  function SummarizeText(text: string, inference: Inference): (r: Result<string, string>)
    ensures r.Failure? <==> inference.summarize(text).SummaryFailed?
    ensures r.Failure? ==> r.error == SummaryError
    ensures r.Success? ==> r.value != ""
    ensures match inference.summarize(text)
            case Summaries(texts) =>
              (|texts| > 0 && Truthy(texts[0]) ==> r == Success(texts[0].value)) &&
              (!(|texts| > 0 && Truthy(texts[0])) ==> r == Success(SummaryFallback))
            case SummaryFailed(_) => true
  {
    match inference.summarize(text)
    case SummaryFailed(_) => Failure(SummaryError)
    case Summaries(texts) =>
      Success(OrElse((if |texts| == 0 then None else texts[0]), SummaryFallback))
  }

  /** `sentimentMap[label]` for the three declared labels. */
  function SentimentOfLabel(lbl: string): (s: Option<Sentiment>)
  {
    if lbl == "POSITIVE" then Some(Positive)
    else if lbl == "NEGATIVE" then Some(Negative)
    else if lbl == "NEUTRAL" then Some(Neutral)
    else None
  }

  /** Exactly the three declared labels map, each to the sentiment whose
      lowercase name it spells. */
  lemma SentimentLabels(lbl: string, s: Sentiment)
    ensures SentimentOfLabel(lbl) == Some(s) <==> lbl == s.Label()
    ensures ToLowerAscii(s.Label()) == s.Name()
  {
    var lower := ToLowerAscii(s.Label());
    assert |lower| == |s.Name()|;
    assert forall i :: 0 <= i < |lower| ==> lower[i] == s.Name()[i];
  }

  /** `analyzeSentiment`: the top label's sentiment; "neutral" for any other
      label, for an empty reply (reading `label` of `undefined` throws) and
      for a failed call. The classifier sees at most 512 characters. */
  function AnalyzeSentiment(text: string, inference: Inference): (s: Sentiment)
    ensures match inference.classifySentiment(Prefix(text, SentimentInputLength))
            case Labels(labels) => |labels| > 0 && SentimentOfLabel(labels[0]).Some? ==> s == SentimentOfLabel(labels[0]).value
            case SentimentFailed(_) => s == Neutral
    ensures s != Neutral ==> exists labels :: inference.classifySentiment(Prefix(text, SentimentInputLength)) == Labels(labels) &&
                                            |labels| > 0 && labels[0] == s.Label()
  {
    match inference.classifySentiment(Prefix(text, SentimentInputLength))
    case SentimentFailed(_) => Neutral
    case Labels(labels) =>
      if |labels| == 0 then Neutral
      else
        match SentimentOfLabel(labels[0])
        case Some(s) => s
        case None => Neutral
  }

  /** `classifyTopic`: the first ranked label if non-empty, "Technology"
      otherwise and on a failed call. The classifier sees at most 1024
      characters and the eleven candidate topics. */
  function ClassifyTopic(text: string, inference: Inference): (topic: string)
    ensures topic != ""
    ensures topic == TopicFallback ||
            exists labels :: inference.classifyZeroShot(Prefix(text, TopicInputLength), TechTopics) == Ranking(labels) &&
                             |labels| > 0 && labels[0] == Some(topic)
    ensures inference.classifyZeroShot(Prefix(text, TopicInputLength), TechTopics).TopicFailed? ==> topic == TopicFallback
    ensures match inference.classifyZeroShot(Prefix(text, TopicInputLength), TechTopics)
            case Ranking(labels) => |labels| > 0 && Truthy(labels[0]) ==> topic == labels[0].value
            case TopicFailed(_) => true
  {
    match inference.classifyZeroShot(Prefix(text, TopicInputLength), TechTopics)
    case TopicFailed(_) => TopicFallback
    case Ranking(labels) => OrElse((if |labels| == 0 then None else labels[0]), TopicFallback)
  }

  /** `processArticle`: the three results for one article, failing only when
      summarization fails (the other two never throw). */
  function ProcessArticle(title: string, content: string, inference: Inference): (r: Result<SummarizedArticle, string>)
    ensures r.Failure? <==> inference.summarize(TextToProcess(title, content)).SummaryFailed?
    ensures r.Failure? ==> r.error == SummaryError
    ensures r.Success? ==> r.value.summary != "" && r.value.topic != ""
    ensures r.Success? ==> var text := TextToProcess(title, content);
              r.value == SummarizedArticle(SummarizeText(text, inference).value, AnalyzeSentiment(text, inference),
                                           ClassifyTopic(text, inference))
  {
    var text := TextToProcess(title, content);
    match SummarizeText(text, inference)
    case Failure(e) => Failure(e)
    case Success(summary) =>
      Success(SummarizedArticle(summary, AnalyzeSentiment(text, inference), ClassifyTopic(text, inference)))
  }

  /** Each model sees only the part of the text it is sent: texts that agree
      on their first 512 characters get the same sentiment, on their first
      1024 the same topic. */
  lemma EnrichmentSeesOnlyPrefixes(a: string, b: string, inference: Inference)
    ensures Prefix(a, SentimentInputLength) == Prefix(b, SentimentInputLength) ==>
            AnalyzeSentiment(a, inference) == AnalyzeSentiment(b, inference)
    ensures Prefix(a, TopicInputLength) == Prefix(b, TopicInputLength) ==>
            ClassifyTopic(a, inference) == ClassifyTopic(b, inference)
  {
  }

  /** Sending the article input does not shrink it further for the topic
      classifier, which therefore sees the whole of it. */
  lemma TopicSeesWholeArticleInput(title: string, content: string)
    ensures Prefix(TextToProcess(title, content), TopicInputLength) == TextToProcess(title, content)
  {
  }
}
