/** Delivery (lib/telegram-service.ts): the messages a news report is sent
    as, and the sequential sending of them to one chat, where the first
    failed send ends the report. The sender is an input. */
module Delivery {
  import opened Base
  import opened Enrichment

  datatype NewsMessage = NewsMessage(
    title: string, link: Option<string>, summary: string, sentiment: Sentiment,
    topic: string, source: string, pubDate: Option<string>)

  /** The chat's send call: the outcome of sending a text to a chat id. */
  type Sender = (string, string) -> Outcome<string>

  const ChatIdMissing := "TELEGRAM_CHAT_ID not set"
  const ReadMoreLabel := "[Read Full Article]("

  /** `sentimentEmoji`: green, red and yellow circles. */
  function Emoji(s: Sentiment): (e: string)
    ensures |e| == 1
  {
    match s
    case Positive => "\U{1F7E2}"
    case Negative => "\U{1F534}"
    case Neutral => "\U{1F7E1}"
  }

  lemma EmojiDistinct(s: Sentiment, t: Sentiment)
    ensures Emoji(s) == Emoji(t) <==> s == t
  {
  }

  const HeaderOpen := "\U{1F4F0} *Tech News Update* ("
  const HeaderMiddle := ")\n\nFound "
  const HeaderClose := " new articles from your tech feeds.\n\n"

  /** The header, reporting the date and how many articles follow. */
  function Header(n: nat, date: string): (h: string)
    ensures Contains(h, NatToString(n)) && Contains(h, date)
  {
    ContainsSecondAndFourth(HeaderOpen, date, HeaderMiddle, NatToString(n), HeaderClose);
    HeaderOpen + date + HeaderMiddle + NatToString(n) + HeaderClose
  }

  const TitleOpen := "*"
  const TitleClose := "*\n\n_"
  const SourceClose := "_\n\U{1F4CC} "
  const TopicClose := " "
  const SummaryOpen := "\n\n*Summary:*\n"
  const SummaryClose := "\n\n"

  /** The part of an article message before the optional link: the bold
      title, the source in italics, the topic with the sentiment emoji and
      the summary. */
  function ArticleBody(a: NewsMessage): string
  {
    Concat([TitleOpen, a.title, TitleClose, a.source, SourceClose, a.topic, TopicClose, Emoji(a.sentiment),
            SummaryOpen, a.summary, SummaryClose])
  }

  /** The "Read Full Article" link, present when the link is truthy. */
  function LinkPart(link: Option<string>): (part: string)
    ensures part != "" <==> Truthy(link)
    ensures Truthy(link) ==> part == ReadMoreLabel + link.value + ")"
  {
    if Truthy(link) then ReadMoreLabel + link.value + ")" else ""
  }

  /** One article's message. */
  function ArticleText(a: NewsMessage): (t: string)
    ensures |ArticleBody(a)| <= |t| && t[..|ArticleBody(a)|] == ArticleBody(a)
    ensures t != ArticleBody(a) <==> Truthy(a.link)
  {
    ArticleBody(a) + LinkPart(a.link)
  }

  /** `news.filter((n) => n.sentiment === s).length`. */
  function CountOf(news: seq<NewsMessage>, s: Sentiment): (c: nat)
    ensures c <= |news|
  {
    if |news| == 0 then 0
    else CountOf(news[..|news| - 1], s) + (if news[|news| - 1].sentiment == s then 1 else 0)
  }

  const FooterTitle := "*Today's Sentiment Analysis:*\n"
  const PositiveLabel := "\U{1F7E2} Positive: "
  const NegativeLabel := "\n\U{1F534} Negative: "
  const NeutralLabel := "\n\U{1F7E1} Neutral: "

  /** The footer with the three sentiment tallies. */
  function Footer(news: seq<NewsMessage>): (f: string)
    ensures |FooterTitle| <= |f| && f[..|FooterTitle|] == FooterTitle
    ensures EndsWith(f, NeutralLabel + NatToString(CountOf(news, Neutral)))
  {
    OuterPieces(FooterTitle, PositiveLabel, NatToString(CountOf(news, Positive)),
                NegativeLabel, NatToString(CountOf(news, Negative)),
                NeutralLabel, NatToString(CountOf(news, Neutral)));
    FooterTitle + PositiveLabel + NatToString(CountOf(news, Positive)) +
    NegativeLabel + NatToString(CountOf(news, Negative)) +
    NeutralLabel + NatToString(CountOf(news, Neutral))
  }

  /** A seven-piece concatenation starts with its first piece and ends with
      its last two. */
  lemma OuterPieces(p0: string, a1: string, b1: string, a2: string, b2: string, a3: string, b3: string)
    ensures var t := p0 + a1 + b1 + a2 + b2 + a3 + b3;
            |p0| <= |t| && t[..|p0|] == p0 && EndsWith(t, a3 + b3)
  {
    var t := p0 + a1 + b1 + a2 + b2 + a3 + b3;
    var head := p0 + a1 + b1 + a2 + b2;
    assert t == head + (a3 + b3);
    assert t == p0 + (a1 + b1 + a2 + b2 + a3 + b3);
  }

  /** The messages of a non-empty report, in sending order: the header, one
      message per article in list order, the footer. */
  function Plan(news: seq<NewsMessage>, date: string): (plan: seq<string>)
    ensures |plan| == |news| + 2
    ensures plan[0] == Header(|news|, date) && plan[|news| + 1] == Footer(news)
    ensures forall i :: 1 <= i <= |news| ==> plan[i] == ArticleText(news[i - 1])
  {
    var texts := seq(|news|, i requires 0 <= i < |news| => ArticleText(news[i]));
    assert forall i :: 0 <= i < |news| ==> texts[i] == ArticleText(news[i]);
    Bracketed(Header(|news|, date), texts, Footer(news));
    [Header(|news|, date)] + texts + [Footer(news)]
  }

  /** Where the parts of `[first] + middle + [last]` sit. */
  lemma Bracketed<T>(first: T, middle: seq<T>, last: T)
    ensures var s := [first] + middle + [last];
            |s| == |middle| + 2 && s[0] == first && s[|middle| + 1] == last &&
            forall i :: 1 <= i <= |middle| ==> s[i] == middle[i - 1]
  {
  }

  /** What a run of sends did: its outcome and the messages it tried, the
      failed one included. */
  datatype SendReport = SendReport(outcome: Outcome<string>, attempted: seq<string>)

  /** Sends the messages one after another, each awaited; a failed send is
      rethrown, so no later message is tried. */
  function SendAll(chat: string, plan: seq<string>, send: Sender): (r: SendReport)
    ensures |r.attempted| <= |plan|
    ensures |plan| > 0 ==> |r.attempted| > 0 && r.attempted[0] == plan[0]
  {
    if |plan| == 0 then SendReport(Pass, [])
    else
      match send(chat, plan[0])
      case Fail(e) => SendReport(Fail(e), [plan[0]])
      case Pass =>
        var rest := SendAll(chat, plan[1..], send);
        SendReport(rest.outcome, [plan[0]] + rest.attempted)
  }

  /** The messages `done` were sent from the start of the plan, all
      delivered: sending the whole plan is sending `done`, then the rest. */
  ghost predicate SentSoFar(chat: string, plan: seq<string>, send: Sender, done: seq<string>)
  {
    |done| <= |plan| && done == plan[..|done|] &&
    var rest := SendAll(chat, plan[|done|..], send);
    SendAll(chat, plan, send) == SendReport(rest.outcome, done + rest.attempted)
  }

  /** Nothing sent yet. */
  lemma SentNothing(chat: string, plan: seq<string>, send: Sender)
    ensures SentSoFar(chat, plan, send, [])
  {
    assert plan[0..] == plan;
  }

  /** One more delivered message. */
  lemma SentOneMore(chat: string, plan: seq<string>, send: Sender, done: seq<string>)
    requires SentSoFar(chat, plan, send, done) && |done| < |plan| && send(chat, plan[|done|]).Pass?
    ensures SentSoFar(chat, plan, send, done + [plan[|done|]])
  {
    var k := |done|;
    var rest := SendAll(chat, plan[k + 1..], send);
    assert plan[k..][0] == plan[k] && plan[k..][1..] == plan[k + 1..];
    assert SendAll(chat, plan[k..], send) == SendReport(rest.outcome, [plan[k]] + rest.attempted);
    assert done + ([plan[k]] + rest.attempted) == (done + [plan[k]]) + rest.attempted;
    assert plan[..k + 1] == plan[..k] + [plan[k]];
  }

  /** The next message fails: the run ends there with that failure. */
  lemma SentThenFailed(chat: string, plan: seq<string>, send: Sender, done: seq<string>)
    requires SentSoFar(chat, plan, send, done) && |done| < |plan| && send(chat, plan[|done|]).Fail?
    ensures SendAll(chat, plan, send) == SendReport(send(chat, plan[|done|]), done + [plan[|done|]])
  {
    assert plan[|done|..][0] == plan[|done|];
  }

  /** The whole plan sent. */
  lemma SentAll(chat: string, plan: seq<string>, send: Sender, done: seq<string>)
    requires SentSoFar(chat, plan, send, done) && |done| == |plan|
    ensures SendAll(chat, plan, send) == SendReport(Pass, plan)
  {
    assert plan[|done|..] == [];
    assert done == plan;
  }

  /** The messages tried are a prefix of the plan; every one before the last
      was delivered; the run passes exactly when it tried the whole plan and
      the last send passed, and a failure is the last message's failure. */
  lemma {:induction false} SendAllStopsAtFirstFailure(chat: string, plan: seq<string>, send: Sender)
    ensures var r := SendAll(chat, plan, send);
            r.attempted == plan[..|r.attempted|] &&
            (forall i :: 0 <= i < |r.attempted| - 1 ==> send(chat, r.attempted[i]).Pass?) &&
            (r.outcome.Pass? <==> r.attempted == plan && forall i :: 0 <= i < |plan| ==> send(chat, plan[i]).Pass?) &&
            (r.outcome.Fail? ==> |r.attempted| > 0 && send(chat, r.attempted[|r.attempted| - 1]) == r.outcome)
  {
    if |plan| > 0 && send(chat, plan[0]).Pass? {
      SendAllStopsAtFirstFailure(chat, plan[1..], send);
      var rest := SendAll(chat, plan[1..], send);
      assert SendAll(chat, plan, send).attempted == [plan[0]] + rest.attempted;
      if rest.outcome.Pass? {
        assert forall i :: 1 <= i < |plan| ==> send(chat, plan[i]).Pass? by {
          forall i | 1 <= i < |plan| ensures send(chat, plan[i]).Pass? {
            assert plan[i] == plan[1..][i - 1];
          }
        }
      } else if rest.attempted == plan[1..] {
        assert !send(chat, plan[1..][|plan| - 2]).Pass?;
      }
    }
  }

  /** What `sendNewsToTelegram` does: without a chat id it throws before
      sending; an empty list sends nothing; otherwise the plan is sent. */
  function NewsDelivery(chatId: Option<string>, news: seq<NewsMessage>, date: string, send: Sender): (r: SendReport)
    ensures !Truthy(chatId) ==> r == SendReport(Fail(ChatIdMissing), [])
    ensures Truthy(chatId) && |news| == 0 ==> r == SendReport(Pass, [])
    ensures Truthy(chatId) && |news| > 0 ==> r == SendAll(chatId.value, Plan(news, date), send)
  {
    if !Truthy(chatId) then SendReport(Fail(ChatIdMissing), [])
    else if |news| == 0 then SendReport(Pass, [])
    else SendAll(chatId.value, Plan(news, date), send)
  }

  /** `sendNewsToTelegram`: the header, then each article's message, then the
      footer, each awaited before the next. */
  method SendNewsToTelegram(chatId: Option<string>, news: seq<NewsMessage>, date: string, send: Sender)
    returns (report: SendReport)
    ensures report == NewsDelivery(chatId, news, date, send)
  {
    if !Truthy(chatId) {
      return SendReport(Fail(ChatIdMissing), []);
    }
    if |news| == 0 {
      return SendReport(Pass, []);
    }
    var chat := chatId.value;
    ghost var plan := Plan(news, date);
    SentNothing(chat, plan, send);
    var header := Header(|news|, date);
    var sent := send(chat, header);
    if sent.Fail? {
      SentThenFailed(chat, plan, send, []);
      return SendReport(sent, [header]);
    }
    SentOneMore(chat, plan, send, []);
    var attempted := [header];
    var i := 0;
    while i < |news|
      invariant 0 <= i <= |news|
      invariant |attempted| == i + 1 && SentSoFar(chat, plan, send, attempted)
    {
      var message := ArticleText(news[i]);
      assert message == plan[|attempted|];
      sent := send(chat, message);
      if sent.Fail? {
        SentThenFailed(chat, plan, send, attempted);
        return SendReport(sent, attempted + [message]);
      }
      SentOneMore(chat, plan, send, attempted);
      attempted := attempted + [message];
      i := i + 1;
    }
    var footer := Footer(news);
    sent := send(chat, footer);
    if sent.Fail? {
      SentThenFailed(chat, plan, send, attempted);
      return SendReport(sent, attempted + [footer]);
    }
    SentOneMore(chat, plan, send, attempted);
    SentAll(chat, plan, send, attempted + [footer]);
    report := SendReport(Pass, attempted + [footer]);
  }

  /** The three tallies count every article once. */
  lemma {:induction false} CountsSum(news: seq<NewsMessage>)
    ensures CountOf(news, Positive) + CountOf(news, Negative) + CountOf(news, Neutral) == |news|
  {
    if |news| > 0 {
      CountsSum(news[..|news| - 1]);
    }
  }

  /** An article's message names its title, source, topic, sentiment emoji
      and summary. */
  lemma ArticleTextMentions(a: NewsMessage)
    ensures Contains(ArticleText(a), a.title) && Contains(ArticleText(a), a.source)
    ensures Contains(ArticleText(a), a.topic) && Contains(ArticleText(a), Emoji(a.sentiment))
    ensures Contains(ArticleText(a), a.summary)
  {
    var pieces := [TitleOpen, a.title, TitleClose, a.source, SourceClose, a.topic, TopicClose, Emoji(a.sentiment),
                   SummaryOpen, a.summary, SummaryClose];
    var tail := LinkPart(a.link);
    ConcatContains(pieces, 1);
    ContainsExtended(Concat(pieces), a.title, tail);
    ConcatContains(pieces, 3);
    ContainsExtended(Concat(pieces), a.source, tail);
    ConcatContains(pieces, 5);
    ContainsExtended(Concat(pieces), a.topic, tail);
    ConcatContains(pieces, 7);
    ContainsExtended(Concat(pieces), Emoji(a.sentiment), tail);
    ConcatContains(pieces, 9);
    ContainsExtended(Concat(pieces), a.summary, tail);
  }

  /** The message ends with the link part: with a truthy link it ends with
      that link, otherwise it is the body alone. */
  lemma ArticleLink(a: NewsMessage)
    ensures Truthy(a.link) ==> EndsWith(ArticleText(a), ReadMoreLabel + a.link.value + ")")
    ensures !Truthy(a.link) ==> ArticleText(a) == ArticleBody(a)
  {
  }

  /** The footer reports each tally after its label. */
  lemma FooterMentionsCounts(news: seq<NewsMessage>)
    ensures Contains(Footer(news), PositiveLabel + NatToString(CountOf(news, Positive)))
    ensures Contains(Footer(news), NegativeLabel + NatToString(CountOf(news, Negative)))
    ensures Contains(Footer(news), NeutralLabel + NatToString(CountOf(news, Neutral)))
  {
    MentionsPairs(FooterTitle, PositiveLabel, NatToString(CountOf(news, Positive)),
                  NegativeLabel, NatToString(CountOf(news, Negative)),
                  NeutralLabel, NatToString(CountOf(news, Neutral)));
  }

  /** Each labelled value of a seven-piece concatenation occurs in it. */
  lemma MentionsPairs(p0: string, a1: string, b1: string, a2: string, b2: string, a3: string, b3: string)
    ensures var t := p0 + a1 + b1 + a2 + b2 + a3 + b3;
            Contains(t, a1 + b1) && Contains(t, a2 + b2) && Contains(t, a3 + b3)
  {
    var t := p0 + a1 + b1 + a2 + b2 + a3 + b3;
    assert t == p0 + (a1 + b1) + (a2 + b2 + a3 + b3);
    ContainsMiddle(p0, a1 + b1, a2 + b2 + a3 + b3);
    assert t == (p0 + a1 + b1) + (a2 + b2) + (a3 + b3);
    ContainsMiddle(p0 + a1 + b1, a2 + b2, a3 + b3);
    assert t == (p0 + a1 + b1 + a2 + b2) + (a3 + b3) + "";
    ContainsMiddle(p0 + a1 + b1 + a2 + b2, a3 + b3, "");
  }

  const AlertTitle := "\U{26A0}\U{FE0F} *News Bot Error*\n\n"

  /** The alert text for an error message. */
  function AlertText(errorMessage: string): (text: string)
    ensures EndsWith(text, errorMessage)
  {
    AlertTitle + errorMessage
  }

  /** `sendErrorAlert`: the messages it tries. Without a chat id it tries
      none; otherwise it tries the alert once. It has no failure outcome:
      a failed send is logged and swallowed. */
  function SendErrorAlert(chatId: Option<string>, errorMessage: string, send: Sender): (attempted: seq<string>)
    ensures attempted == [] <==> !Truthy(chatId)
    ensures attempted != [] ==> attempted == [AlertText(errorMessage)]
  {
    if !Truthy(chatId) then []
    else
      var _ := send(chatId.value, AlertText(errorMessage));
      [AlertText(errorMessage)]
  }
}
