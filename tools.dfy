/** The research assistant's tool functions: a canned article search, topic
    statistics and citation formatting. All three are pure: the article
    catalogue and the venue list are fixed, and the only inputs are the
    arguments (plus, for the statistics, the random draws, passed in here). */
module Tools {

  import opened Wrappers
  import opened Text

  datatype Article = Article(title: string, summary: string, source: string, year: int)

  /** The dictionary `search_articles` returns, without its `search_date`. */
  datatype SearchResult = SearchResult(topic: string, articles: seq<Article>, totalFound: nat)

  /** The dictionary `get_topic_stats` returns, without its floating-point
      `growth_rate_percent`. */
  datatype TopicStats = TopicStats(
    topic: string,
    totalPublications: int,
    publicationsLastYear: int,
    topVenues: seq<string>,
    trendingSubtopics: seq<string>)

  function Min(a: int, b: int): int { if a <= b then a else b }
  function Max(a: int, b: int): int { if a <= b then b else a }

  /** The topic occurs in both the title and the summary of an article. */
  predicate MentionsTopic(a: Article, topic: string) {
    Contains(a.title, topic) && Contains(a.summary, topic)
  }

  // ---------------------------------------------------------------------
  // search_articles
  // ---------------------------------------------------------------------

  /** An article whose title and summary are fixed texts wrapped around the topic. */
  function TopicArticle(
    topic: string,
    titleBefore: string, titleAfter: string,
    summaryBefore: string, summaryAfter: string,
    source: string, year: int): (a: Article)
    ensures a.title == titleBefore + topic + titleAfter
    ensures a.summary == summaryBefore + topic + summaryAfter
    ensures a.source == source && a.year == year
    ensures MentionsTopic(a, topic)
  {
    ContainsInfix(titleBefore, topic, titleAfter);
    ContainsInfix(summaryBefore, topic, summaryAfter);
    Article(titleBefore + topic + titleAfter, summaryBefore + topic + summaryAfter, source, year)
  }

  // The fixed texts before and after the topic in the catalogue's titles and summaries.
  const AdvancesTitle: string := "Advances in "
  const AdvancesTitleEnd: string := ": A 2024 Review"
  const AdvancesSummary: string := "This paper reviews recent developments in "
  const AdvancesSummaryEnd: string := ", highlighting key breakthroughs and future directions."
  const ChallengesTitle: string := "Understanding "
  const ChallengesTitleEnd: string := ": Challenges and Opportunities"
  const ChallengesSummary: string := "An analysis of current challenges in "
  const ChallengesSummaryEnd: string := " and emerging opportunities for researchers."
  const ApplicationsTitle: string := "Practical Applications of "
  const ApplicationsSummary: string := "A survey of real-world applications of "
  const ApplicationsSummaryEnd: string := " across different industries."

  /** The three articles the search always finds, with the topic filled in. */
  function Catalogue(topic: string): (c: seq<Article>)
    ensures |c| == 3
    ensures forall k :: 0 <= k < |c| ==> MentionsTopic(c[k], topic)
  {
    [
      TopicArticle(topic,
        AdvancesTitle, AdvancesTitleEnd,
        AdvancesSummary,
        AdvancesSummaryEnd,
        "Journal of AI Research", 2024),
      TopicArticle(topic,
        ChallengesTitle, ChallengesTitleEnd,
        ChallengesSummary,
        ChallengesSummaryEnd,
        "Nature Reviews", 2024),
      TopicArticle(topic,
        ApplicationsTitle, "",
        ApplicationsSummary,
        ApplicationsSummaryEnd,
        "IEEE Transactions", 2023)
    ]
  }

  /** Where Python's slice `xs[:stop]` ends on a sequence of length `len`:
      a negative `stop` counts from the end, and the result is clamped to `0..len`. */
  function SliceStop(len: nat, stop: int): (n: nat)
    ensures n <= len
  {
    if stop < 0 then Max(0, len + stop) else Min(stop, len)
  }

  /** `search_articles(topic, max_results)`: the first `max_results` articles
      of the catalogue (Python slice semantics), the topic echoed back and the
      size of the whole catalogue. */
  function SearchArticles(topic: string, maxResults: int := 3): (r: SearchResult)
    ensures r.topic == topic
    ensures r.totalFound == 3
    ensures r.articles <= Catalogue(topic)
    ensures 0 <= maxResults ==> |r.articles| == Min(maxResults, 3)
    ensures maxResults < 0 ==> |r.articles| == Max(0, 3 + maxResults)
    ensures forall k :: 0 <= k < |r.articles| ==> MentionsTopic(r.articles[k], topic)
  {
    var articles := Catalogue(topic);
    SearchResult(topic, articles[..SliceStop(|articles|, maxResults)], |articles|)
  }

  /** The default `max_results = 3` returns the whole catalogue. */
  lemma SearchDefaultReturnsAll(topic: string)
    ensures SearchArticles(topic).articles == Catalogue(topic)
  {
    var r := SearchArticles(topic);
    assert |r.articles| == 3;
  }

  /** `max_results = 1` returns exactly the first catalogue article. */
  lemma SearchOneReturnsFirst(topic: string)
    ensures SearchArticles(topic, 1).articles == [Catalogue(topic)[0]]
  {
    var r := SearchArticles(topic, 1);
    assert |r.articles| == 1 && r.articles[0] == Catalogue(topic)[0];
  }

  /** Raising `max_results` only appends articles: a smaller search is a
      prefix of a larger one, and both report the same `total_found`. */
  lemma SearchMonotone(topic: string, m: int, n: int)
    requires 0 <= m <= n
    ensures SearchArticles(topic, m).articles <= SearchArticles(topic, n).articles
    ensures SearchArticles(topic, m).totalFound == SearchArticles(topic, n).totalFound
  {
    var c := Catalogue(topic);
    var a, b := SearchArticles(topic, m).articles, SearchArticles(topic, n).articles;
    assert a == c[..|a|] && b == c[..|b|] && |a| <= |b|;
  }

  /** The fixed sources and years of the three catalogue articles, in order. */
  lemma CatalogueSourcesAndYears(topic: string)
    ensures Catalogue(topic)[0].source == "Journal of AI Research" && Catalogue(topic)[0].year == 2024
    ensures Catalogue(topic)[1].source == "Nature Reviews" && Catalogue(topic)[1].year == 2024
    ensures Catalogue(topic)[2].source == "IEEE Transactions" && Catalogue(topic)[2].year == 2023
  {
  }

  // ---------------------------------------------------------------------
  // get_topic_stats
  // ---------------------------------------------------------------------

  const TopVenues: seq<string> := ["Nature", "Science", "IEEE", "ACM"]

  /** `random.randint(lo, hi)` can return `x`: both ends are included. */
  predicate RandintCanReturn(x: int, lo: int, hi: int) {
    lo <= x <= hi
  }

  /** `get_topic_stats(topic)`, with the two `random.randint` results passed in
      as `totalDraw` and `lastYearDraw`: the topic echoed back, the fixed
      venue list and three subtopics built from the topic. */
  function GetTopicStats(topic: string, totalDraw: int, lastYearDraw: int): (r: TopicStats)
    ensures r.topic == topic
    ensures r.totalPublications == totalDraw && r.publicationsLastYear == lastYearDraw
    ensures r.topVenues == TopVenues && |r.topVenues| == 4
    ensures |r.trendingSubtopics| == 3
    ensures forall k :: 0 <= k < |r.trendingSubtopics| ==> Contains(r.trendingSubtopics[k], topic)
  {
    ContainsInfix("", topic, " applications");
    assert "" + topic + " applications" == topic + " applications";
    ContainsInfix("", topic, " ethics");
    assert "" + topic + " ethics" == topic + " ethics";
    ContainsInfix("automated ", topic, "");
    assert "automated " + topic + "" == "automated " + topic;
    TopicStats(
      topic,
      totalDraw,
      lastYearDraw,
      TopVenues,
      [topic + " applications", topic + " ethics", "automated " + topic])
  }

  /** Whatever `random.randint(5000, 50000)` and `random.randint(500, 5000)`
      return, both publication counts are positive, and the recent count
      never exceeds the smallest possible total. */
  lemma TopicStatsCountsPositive(topic: string, totalDraw: int, lastYearDraw: int)
    requires RandintCanReturn(totalDraw, 5000, 50000)
    requires RandintCanReturn(lastYearDraw, 500, 5000)
    ensures GetTopicStats(topic, totalDraw, lastYearDraw).totalPublications > 0
    ensures GetTopicStats(topic, totalDraw, lastYearDraw).publicationsLastYear > 0
    ensures GetTopicStats(topic, totalDraw, lastYearDraw).publicationsLastYear
         <= GetTopicStats(topic, totalDraw, lastYearDraw).totalPublications
  {
  }

  // ---------------------------------------------------------------------
  // format_citation
  // ---------------------------------------------------------------------

  /** `format_citation(title, source, year)`: the title right after an
      opening double quote, the `." ` that closes it, the source, a comma and
      a space, the decimal year and a final full stop, at exactly these
      positions and with nothing else in between. */
  function FormatCitation(title: string, source: string, year: int): (r: string)
    ensures |r| == |title| + |source| + |Decimal(year)| + 7
    ensures r[0] == '"'
    ensures OccursAt(r, title, 1)
    ensures OccursAt(r, ".\" ", 1 + |title|)
    ensures OccursAt(r, source, 4 + |title|)
    ensures OccursAt(r, ", ", 4 + |title| + |source|)
    ensures OccursAt(r, Decimal(year), 6 + |title| + |source|)
    ensures r[|r| - 1] == '.'
  {
    var d := Decimal(year);
    var r := "\"" + title + ".\" " + source + ", " + d + ".";
    assert r[1..1 + |title|] == title;
    assert r[1 + |title|..4 + |title|] == ".\" ";
    assert r[4 + |title|..4 + |title| + |source|] == source;
    assert r[4 + |title| + |source|..6 + |title| + |source|] == ", ";
    assert r[6 + |title| + |source|..6 + |title| + |source| + |d|] == d;
    r
  }

  /** The year can be read back from a citation once the lengths of the title
      and the source are known. */
  lemma CitationYearRoundTrip(title: string, source: string, year: int)
    ensures var r := FormatCitation(title, source, year);
      ParseInt(r[6 + |title| + |source|..|r| - 1]) == Some(year)
  {
    var r := FormatCitation(title, source, year);
    assert r[6 + |title| + |source|..|r| - 1] == Decimal(year);
    DecimalRoundTrip(year);
  }

  /** The citation contains its title, its source and the decimal text of its year. */
  lemma CitationContainsFields(title: string, source: string, year: int)
    ensures Contains(FormatCitation(title, source, year), title)
    ensures Contains(FormatCitation(title, source, year), source)
    ensures Contains(FormatCitation(title, source, year), Decimal(year))
  {
    var r := FormatCitation(title, source, year);
    assert OccursAt(r, title, 1);
    assert OccursAt(r, source, 4 + |title|);
    assert OccursAt(r, Decimal(year), 6 + |title| + |source|);
  }

  /** The exact text of the first citation the tool's unit tests check. */
  lemma CitationExample()
    ensures FormatCitation("Test Paper", "Nature", 2024) == "\"Test Paper.\" Nature, 2024."
  {
    DecimalText2024();
    assert FormatCitation("Test Paper", "Nature", 2024) == "\"" + "Test Paper" + ".\" " + "Nature" + ", " + "2024" + ".";
  }

  // The decimal texts of the two years the tests use.
  lemma DecimalText2024()
    ensures Decimal(2024) == "2024"
  {
  }

  lemma DecimalText2023()
    ensures Decimal(2023) == "2023"
  {
  }

  /** The title, source and year appearing in the second citation the tool's
      unit tests check. */
  lemma CitationShowsFields()
    ensures Contains(FormatCitation("AI Survey", "IEEE", 2023), "AI Survey")
    ensures Contains(FormatCitation("AI Survey", "IEEE", 2023), "IEEE")
    ensures Contains(FormatCitation("AI Survey", "IEEE", 2023), "2023")
  {
    DecimalText2023();
    CitationContainsFields("AI Survey", "IEEE", 2023);
  }
}
