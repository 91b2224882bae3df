/** The fixed list of feeds the pipeline reads (lib/news-sources.ts) and its
    two bounds-checked lookups. */
module Sources {
  import opened Base

  datatype NewsSource = NewsSource(name: string, url: string, category: Option<string>)

  /** `newsSources`, in declaration order. */
  const NewsSources: seq<NewsSource> := [
    NewsSource("TechCrunch", "https://techcrunch.com/feed/", Some("Tech News")),
    NewsSource("Hacker News", "https://news.ycombinator.com/rss", Some("Tech News")),
    NewsSource("Dev.to", "https://dev.to/feed", Some("Developer News")),
    NewsSource("Medium - Technology", "https://medium.com/feed/tag/technology", Some("Developer News")),
    NewsSource("CSS-Tricks", "https://css-tricks.com/feed/", Some("Web Development")),
    NewsSource("A List Apart", "https://alistapart.com/feed/", Some("Web Development")),
    NewsSource("David Walsh Blog", "https://davidwalsh.name/feed", Some("Developer News")),
    NewsSource("Smashing Magazine", "https://www.smashingmagazine.com/feed/", Some("Web Development")),
    NewsSource("ThoughtWorks Technology Radar", "https://www.thoughtworks.com/insights", Some("Tech News")),
    NewsSource("OpenAI Blog", "https://openai.com/blog/rss/", Some("AI")),
    NewsSource("Cloudflare Blog", "https://blog.cloudflare.com/rss/", Some("Cloud Computing")),
    NewsSource("GitHub Blog", "https://github.blog/feed/", Some("Developer Tools")),
    NewsSource("VentureBeat - AI", "https://venturebeat.com/feed/?category=ai", Some("AI")),
    NewsSource("Speculative Execution", "https://blog.mozilla.org/feed/", Some("Browser/Security"))
  ]

  const SourceNames: seq<string> := [
    "TechCrunch", "Hacker News", "Dev.to", "Medium - Technology", "CSS-Tricks", "A List Apart",
    "David Walsh Blog", "Smashing Magazine", "ThoughtWorks Technology Radar", "OpenAI Blog",
    "Cloudflare Blog", "GitHub Blog", "VentureBeat - AI", "Speculative Execution"
  ]

  /** `getSourceUrl(index)`: `newsSources[index]?.url`, absent outside the list. */
  function GetSourceUrl(index: int): (url: Option<string>)
    ensures url.Some? <==> 0 <= index < |NewsSources|
    ensures url.Some? ==> url.value == NewsSources[index].url
  {
    if 0 <= index < |NewsSources| then Some(NewsSources[index].url) else None
  }

  /** `getSourceName(index)`: `newsSources[index]?.name || "Unknown"`. */
  function GetSourceName(index: int): (name: string)
    ensures 0 <= index < |NewsSources| && NewsSources[index].name != "" ==> name == NewsSources[index].name
    ensures !(0 <= index < |NewsSources|) ==> name == "Unknown"
  {
    OrElse((if 0 <= index < |NewsSources| then Some(NewsSources[index].name) else None), "Unknown")
  }

  /** The list has the fourteen entries the bot advertises, with these names
      in this order. */
  lemma SourceTable()
    ensures |NewsSources| == 14
    ensures forall i :: 0 <= i < |NewsSources| ==> NewsSources[i].name == SourceNames[i]
  {
  }

  /** No two sources share a name: already their first letters and lengths differ. */
  lemma SourceNamesDistinct()
    ensures NoDuplicates(SourceNames)
  {
    var keys := seq(|SourceNames|, i requires 0 <= i < |SourceNames| => (SourceNames[i][0], |SourceNames[i]|));
    assert keys == [('T', 10), ('H', 11), ('D', 6), ('M', 19), ('C', 10), ('A', 12), ('D', 16),
                    ('S', 17), ('T', 29), ('O', 11), ('C', 15), ('G', 11), ('V', 16), ('S', 21)];
    assert NoDuplicates(keys);
  }

  /** No source name contains a colon, so the joined `title:source` string
      that article ids digest determines the source. */
  lemma SourceNamesColonFree()
    ensures forall s :: s in NewsSources ==> ':' !in s.name
  {
    SourceTable();
    FirstNamesColonFree();
    MiddleNamesColonFree();
    LastNamesColonFree();
    assert forall i :: 0 <= i < |SourceNames| ==> ':' !in SourceNames[i];
  }

  /** The names, checked a few at a time, contain no colon. */
  lemma FirstNamesColonFree()
    ensures ':' !in "TechCrunch" && ':' !in "Hacker News" && ':' !in "Dev.to" &&
            ':' !in "Medium - Technology" && ':' !in "CSS-Tricks"
  {
  }

  lemma MiddleNamesColonFree()
    ensures ':' !in "A List Apart" && ':' !in "David Walsh Blog" && ':' !in "Smashing Magazine" &&
            ':' !in "ThoughtWorks Technology Radar"
  {
  }

  lemma LastNamesColonFree()
    ensures ':' !in "OpenAI Blog" && ':' !in "Cloudflare Blog" && ':' !in "GitHub Blog" &&
            ':' !in "VentureBeat - AI" && ':' !in "Speculative Execution"
  {
  }

  /** No entry has an empty name or url, so every in-range lookup yields the
      entry's own name and url, and "Unknown" means exactly out of range. */
  lemma LookupsExact(index: int)
    ensures GetSourceName(index) == "Unknown" <==> !(0 <= index < |NewsSources|)
    ensures 0 <= index < |NewsSources| ==> GetSourceName(index) == NewsSources[index].name
    ensures GetSourceUrl(index).Some? ==> GetSourceUrl(index).value != ""
  {
    SourceTable();
    assert forall i :: 0 <= i < |NewsSources| ==> NewsSources[i].name != "Unknown" && NewsSources[i].name != "";
    assert forall i :: 0 <= i < |NewsSources| ==> NewsSources[i].url != "";
  }

}
