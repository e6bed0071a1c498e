/**
 * `analyze_news`: the article behind one news item is fetched, its body
 * text is picked with the selectors of the site its link names, stripped
 * and cut to 1000 characters, with the headline standing in when nothing
 * usable was found; the first 512 characters go to the sentiment
 * classifier and the whole content to the impact tagger. Any exception on
 * the way makes the item yield nothing.
 */
module Article {
  import opened Wrappers
  import opened Text
  import opened ImpactTagger
  import opened Listing

  /** The extracted body text is cut to this many characters. */
  const MaxContentLength: nat := 1000

  /** Only this many leading characters of the content reach the classifier. */
  const MaxClassifierInput: nat := 512

  /**
   * A parsed article page, reduced to the text of the first element each
   * body selector matches, or `None` where it matches nothing: `.article`
   * and `#artibody` for Sina, `.newsContent` and `#ContentBody` for
   * Eastmoney.
   */
  datatype ArticlePage = ArticlePage(
    article: Option<string>,
    artibody: Option<string>,
    newsContent: Option<string>,
    contentBody: Option<string>)

  /** The outcome of requesting and parsing the article page. */
  datatype ArticleFetch = FetchFailed | Fetched(page: ArticlePage)

  /** The classifier's top answer: its label (`category`) and its score. */
  datatype Sentiment = Sentiment(category: string, score: real)

  /** One analysed news item (the record written to the results file). */
  datatype Analysis = Analysis(
    title: string,
    source: string,
    link: string,
    sentiment: Sentiment,
    impact: Impact)

  /**
   * The body text of the article page, by the site the link names ("sina"
   * is tested first): the site's first selector when it matches, else its
   * second; nothing for a link naming neither site.
   */
  function BodyText(link: string, page: ArticlePage): (body: Option<string>)
    ensures SiteOf(link).None? ==> body.None?
    ensures SiteOf(link) == Some(Sina) ==>
      (body.Some? <==> page.article.Some? || page.artibody.Some?) &&
      (page.article.Some? ==> body == page.article) &&
      (page.article.None? ==> body == page.artibody)
    ensures SiteOf(link) == Some(Eastmoney) ==>
      (body.Some? <==> page.newsContent.Some? || page.contentBody.Some?) &&
      (page.newsContent.Some? ==> body == page.newsContent) &&
      (page.newsContent.None? ==> body == page.contentBody)
  {
    match SiteOf(link)
    case None => None
    case Some(Sina) => if page.article.Some? then page.article else page.artibody
    case Some(Eastmoney) => if page.newsContent.Some? then page.newsContent else page.contentBody
  }

  /**
   * The text analysed for an item titled `title` whose article body is
   * `body`: the stripped body cut to `MaxContentLength` characters, or the
   * title when there is no body or it is all whitespace. The content is
   * empty only for an empty title, and it exceeds `MaxContentLength`
   * characters only when it is the title.
   */
  function Content(title: string, body: Option<string>): (content: string)
    ensures content == [] ==> title == []
    ensures |content| <= MaxContentLength || content == title
    ensures body.None? || Strip(body.value) == [] ==> content == title
    ensures body.Some? && Strip(body.value) != [] ==>
      var stripped := Strip(body.value);
      && |content| == (if |stripped| <= MaxContentLength then |stripped| else MaxContentLength)
      && content == stripped[..|content|]
  {
    var extracted := if body.Some? then Take(Strip(body.value), MaxContentLength) else "";
    if extracted == [] then title else extracted
  }

  /**
   * Content taken from the body is a run of the body's own characters,
   * preceded only by whitespace and starting with a non-whitespace
   * character.
   */
  lemma ContentFromBody(title: string, body: string)
    requires Strip(body) != []
    ensures var content := Content(title, Some(body));
      && content != []
      && !IsSpace(content[0])
      && exists i :: OccursAt(body, content, i) && forall k :: 0 <= k < i ==> IsSpace(body[k])
  {
    var content := Content(title, Some(body));
    var stripped := Strip(body);
    StripShape(body);
    var i :| OccursAt(body, stripped, i) && (forall k :: 0 <= k < i ==> IsSpace(body[k]));
    assert content[0] == stripped[0];
    assert body[i..i + |content|] == stripped[..|content|] == content;
    assert OccursAt(body, content, i) && forall k :: 0 <= k < i ==> IsSpace(body[k]);
  }

  /**
   * What the classifier sees: the prefix of the content of length
   * `min(MaxClassifierInput, |content|)`, so all of it when it is short
   * enough.
   */
  function ClassifierInput(content: string): (input: string)
    ensures |input| == if |content| <= MaxClassifierInput then |content| else MaxClassifierInput
    ensures input == content[..|input|]
  {
    Take(content, MaxClassifierInput)
  }

  /** The content `analyze_news` works on for `news` when its article page is `page`. */
  function ArticleContent(news: NewsItem, page: ArticlePage): (content: string)
  {
    Content(news.title, BodyText(news.link, page))
  }

  /**
   * `analyze_news` for one item. `classify` is the sentiment classifier,
   * `None` standing for a call that raised. The result is `None` exactly
   * when the article could not be fetched or the classifier failed;
   * otherwise the analysis repeats the item's title, source and link,
   * carries the classifier's answer on the leading part of the content and
   * the impact tag of the whole content.
   */
  function AnalyzeNews(news: NewsItem, fetch: ArticleFetch, classify: string -> Option<Sentiment>)
    : (r: Option<Analysis>)
    ensures fetch.FetchFailed? ==> r.None?
    ensures fetch.Fetched? ==>
      var content := ArticleContent(news, fetch.page);
      && (r.None? <==> classify(ClassifierInput(content)).None?)
      && (r.Some? ==>
            && r.value.title == news.title
            && r.value.source == news.source
            && r.value.link == news.link
            && Some(r.value.sentiment) == classify(ClassifierInput(content))
            && r.value.impact == Tag(content))
  {
    match fetch
    case FetchFailed => None
    case Fetched(page) =>
      var content := ArticleContent(news, page);
      match classify(ClassifierInput(content))
      case None => None
      case Some(sentiment) => Some(Analysis(news.title, news.source, news.link, sentiment, Tag(content)))
  }

  /**
   * An item whose link names neither site is analysed on its title alone,
   * whatever the article page holds.
   */
  lemma UnknownSiteUsesTitle(news: NewsItem, page: ArticlePage)
    requires SiteOf(news.link).None?
    ensures ArticleContent(news, page) == news.title
  {
  }
}
