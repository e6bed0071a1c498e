/**
 * `fetch_finance_news`: for each registered source, in registry order, the
 * listing page is fetched and parsed, the first five elements its
 * site-specific list selector matches are read, and each yields a news item
 * whose link is made absolute. Fetching and parsing are not modelled: each
 * source's page is an input, already reduced to what the selector matched.
 */
module Listing {
  import opened Wrappers
  import opened Text
  import opened Seqs

  /** The two sites whose pages the analyzer knows how to read. */
  datatype Site = Sina | Eastmoney

  /** A registered source: its display name and the URL of its listing page. */
  datatype Source = Source(name: string, url: string)

  /** The source registry, in iteration order. */
  const Registry: seq<Source> := [
    Source("新浪财经", "https://finance.sina.com.cn/roll/index.d.html?cid=56589"),
    Source("东方财富", "https://finance.eastmoney.com/")
  ]

  /** Only the first this many selected elements of a listing page are read. */
  const MaxItemsPerSource: nat := 5

  /** One element matched by a site's list selector (`li` of a news list). */
  datatype ListEntry =
    | Entry(text: string, href: string)  // its first link: the link's text and its href
    | Malformed                           // no link, or a link without href: reading it raises

  /** The outcome of fetching and parsing one listing page. */
  datatype ListingPage =
    | Unreachable                    // the request or the parse raised
    | Page(entries: seq<ListEntry>)  // what the list selector matched, in document order

  /** A headline with its source name and absolute link. */
  datatype NewsItem = NewsItem(source: string, title: string, link: string)

  /** Which site's selectors a listing URL gets: the first of "sina", "eastmoney" it mentions. */
  function SiteOf(url: string): (site: Option<Site>)
  {
    if Contains(url, "sina") then Some(Sina)
    else if Contains(url, "eastmoney") then Some(Eastmoney)
    else None
  }

  /** The registry's first URL names Sina, so its page is read with Sina's selectors. */
  lemma RegistrySina()
    ensures SiteOf(Registry[0].url) == Some(Sina)
  {
    SinaUrlNamesSina();
  }

  /** "sina" occurs in the Sina listing URL. */
  lemma SinaUrlNamesSina()
    ensures Contains("https://finance.sina.com.cn/roll/index.d.html?cid=56589", "sina")
  {
    var url := "https://finance.sina.com.cn/roll/index.d.html?cid=56589";
    assert url[16..20] == "sina" by {
      assert url[16] == 's' && url[17] == 'i' && url[18] == 'n' && url[19] == 'a';
    }
    OccurrenceContained(url, "sina", 16);
  }

  /** The registry's second URL names Eastmoney and not Sina. */
  lemma RegistryEastmoney()
    ensures SiteOf(Registry[1].url) == Some(Eastmoney)
  {
    EastmoneyUrlNamesEastmoney();
    EastmoneyUrlLacksSina();
  }

  /** "eastmoney" occurs in the Eastmoney listing URL. */
  lemma EastmoneyUrlNamesEastmoney()
    ensures Contains("https://finance.eastmoney.com/", "eastmoney")
  {
    var url := "https://finance.eastmoney.com/";
    assert url[16..25] == "eastmoney" by {
      assert url[16] == 'e' && url[17] == 'a' && url[18] == 's' && url[19] == 't';
      assert url[20] == 'm' && url[21] == 'o' && url[22] == 'n' && url[23] == 'e' && url[24] == 'y';
    }
    OccurrenceContained(url, "eastmoney", 16);
  }

  /** No "sina" starts in the first half of the Eastmoney listing URL. */
  lemma EastmoneyUrlFrontLacksSina()
    ensures forall i :: 0 <= i < 15 ==> !OccursAt("https://finance.eastmoney.com/", "sina", i)
  {
    var url := "https://finance.eastmoney.com/";
    forall i | 0 <= i < 15 ensures !OccursAt(url, "sina", i) {
      assert url[i..i + 4][0] == url[i] && url[i..i + 4][1] == url[i + 1];
    }
  }

  /** No "sina" starts in the second half of the Eastmoney listing URL. */
  lemma EastmoneyUrlBackLacksSina()
    ensures forall i :: 15 <= i ==> !OccursAt("https://finance.eastmoney.com/", "sina", i)
  {
    var url := "https://finance.eastmoney.com/";
    forall i | 15 <= i && i + 4 <= |url| ensures !OccursAt(url, "sina", i) {
      assert url[i..i + 4][0] == url[i] && url[i..i + 4][1] == url[i + 1];
    }
  }

  /** "sina" does not occur in the Eastmoney listing URL: no 's' in it is followed by 'i'. */
  lemma EastmoneyUrlLacksSina()
    ensures !Contains("https://finance.eastmoney.com/", "sina")
  {
    EastmoneyUrlFrontLacksSina();
    EastmoneyUrlBackLacksSina();
    ContainsIff("https://finance.eastmoney.com/", "sina");
  }

  /** What a relative href is appended to, per site. */
  function LinkPrefix(site: Site): (prefix: string)
  {
    match site
    case Sina => "https:"
    case Eastmoney => "https://finance.eastmoney.com"
  }

  /**
   * An href that does not start with "http" gets the site's prefix; one that
   * does is kept. Either way the link starts with "http" and ends with the
   * href.
   */
  function NormalizeLink(site: Site, href: string): (link: string)
    ensures StartsWith(href, "http") ==> link == href
    ensures !StartsWith(href, "http") ==> link == LinkPrefix(site) + href
    ensures StartsWith(link, "http")
    ensures |href| <= |link| && link[|link| - |href|..] == href
  {
    if StartsWith(href, "http") then href else LinkPrefix(site) + href
  }

  /** Normalising an already normalised link changes nothing. */
  lemma NormalizeLinkIdempotent(site: Site, href: string)
    ensures NormalizeLink(site, NormalizeLink(site, href)) == NormalizeLink(site, href)
  {
  }

  /** The news item one well-formed entry yields: stripped title, absolute link. */
  function ItemOf(name: string, site: Site, text: string, href: string): (item: NewsItem)
  {
    NewsItem(name, Strip(text), NormalizeLink(site, href))
  }

  /** How the entries of a source named `name` on `site` are read. */
  function Reader(name: string, site: Site): (read: (string, string) -> NewsItem)
  {
    (text, href) => ItemOf(name, site, text, href)
  }

  /** Every entry has a link with an href. */
  predicate WellFormed(entries: seq<ListEntry>)
  {
    forall k :: 0 <= k < |entries| ==> entries[k].Entry?
  }

  /**
   * What `read` makes of `entries`, in order. A malformed entry raises,
   * which ends the source: what was read before it is kept, what follows it
   * is not read.
   */
  function Collect<T>(entries: seq<ListEntry>, read: (string, string) -> T): (items: seq<T>)
    ensures |items| <= |entries|
    decreases |entries|
  {
    if entries == [] then []
    else match entries[0]
      case Malformed => []
      case Entry(text, href) => [read(text, href)] + Collect(entries[1..], read)
  }

  /**
   * The k-th item read comes from the k-th entry, and reading stops early
   * only at a malformed entry.
   */
  lemma {:induction false} CollectInOrder<T>(entries: seq<ListEntry>, read: (string, string) -> T)
    ensures var items := Collect(entries, read);
      && (|items| < |entries| ==> entries[|items|].Malformed?)
      && (forall k :: 0 <= k < |items| ==>
            entries[k].Entry? && items[k] == read(entries[k].text, entries[k].href))
    decreases |entries|
  {
    if entries != [] && entries[0].Entry? {
      CollectInOrder(entries[1..], read);
    }
  }

  /** Reading stops only at a malformed entry, so a well-formed run reads through. */
  lemma {:induction false} CollectConcat<T>(xs: seq<ListEntry>, ys: seq<ListEntry>, read: (string, string) -> T)
    requires WellFormed(xs)
    ensures Collect(xs + ys, read) == Collect(xs, read) + Collect(ys, read)
    decreases |xs|
  {
    if xs != [] {
      assert (xs + ys)[0] == xs[0];
      assert (xs + ys)[1..] == xs[1..] + ys;
      CollectConcat(xs[1..], ys, read);
    } else {
      assert xs + ys == ys;
    }
  }

  /** Reading one more well-formed entry appends its item. */
  lemma CollectSnoc<T>(xs: seq<ListEntry>, e: ListEntry, read: (string, string) -> T)
    requires WellFormed(xs) && e.Entry?
    ensures Collect(xs + [e], read) == Collect(xs, read) + [read(e.text, e.href)]
  {
    CollectConcat(xs, [e], read);
    assert [e][1..] == [];
  }

  /** Reading stops at a malformed entry: nothing after it is read. */
  lemma CollectStops<T>(xs: seq<ListEntry>, ys: seq<ListEntry>, read: (string, string) -> T)
    requires WellFormed(xs) && (ys == [] || ys[0].Malformed?)
    ensures Collect(xs + ys, read) == Collect(xs, read)
  {
    CollectConcat(xs, ys, read);
    assert Collect(ys, read) == [];
  }

  /**
   * What one source contributes: nothing when its page could not be fetched
   * or its URL names no known site; otherwise the items read from the first
   * five selected elements.
   */
  function SourceNews(source: Source, page: ListingPage): (news: seq<NewsItem>)
    ensures |news| <= MaxItemsPerSource
    ensures page.Unreachable? || SiteOf(source.url).None? ==> news == []
  {
    match page
    case Unreachable => []
    case Page(entries) =>
      match SiteOf(source.url)
      case None => []
      case Some(site) => Collect(Take(entries, MaxItemsPerSource), Reader(source.name, site))
  }

  /**
   * A source's items carry its name and an absolute link, and come from its
   * first five selected elements in document order; all five are read when
   * none of them is malformed.
   */
  lemma SourceNewsInOrder(source: Source, entries: seq<ListEntry>, site: Site)
    requires SiteOf(source.url) == Some(site)
    ensures var news := SourceNews(source, Page(entries));
      && |news| <= |entries|
      && (forall k :: 0 <= k < |news| ==>
            entries[k].Entry? && news[k] == ItemOf(source.name, site, entries[k].text, entries[k].href))
      && (forall n <- news :: n.source == source.name && StartsWith(n.link, "http"))
      && (WellFormed(Take(entries, MaxItemsPerSource)) ==> |news| == |Take(entries, MaxItemsPerSource)|)
  {
    var items := Take(entries, MaxItemsPerSource);
    CollectInOrder(items, Reader(source.name, site));
    var news := SourceNews(source, Page(entries));
    forall k | 0 <= k < |news| ensures entries[k] == items[k] {
    }
  }

  /** What `contribute` yields for each source and its page, source after source. */
  function Gather<S, P, T>(sources: seq<S>, pages: seq<P>, contribute: (S, P) -> seq<T>): (gathered: seq<T>)
    requires |pages| == |sources|
    decreases |sources|
  {
    if sources == [] then []
    else contribute(sources[0], pages[0]) + Gather(sources[1..], pages[1..], contribute)
  }

  /** Gathering two runs of sources is gathering each, end to end. */
  lemma {:induction false} GatherConcat<S, P, T>(s1: seq<S>, p1: seq<P>, s2: seq<S>, p2: seq<P>,
                                                 contribute: (S, P) -> seq<T>)
    requires |p1| == |s1| && |p2| == |s2|
    ensures Gather(s1 + s2, p1 + p2, contribute) == Gather(s1, p1, contribute) + Gather(s2, p2, contribute)
    decreases |s1|
  {
    if s1 == [] {
      assert s1 + s2 == s2 && p1 + p2 == p2;
    } else {
      assert (s1 + s2)[1..] == s1[1..] + s2;
      assert (p1 + p2)[1..] == p1[1..] + p2;
      assert (s1 + s2)[0] == s1[0] && (p1 + p2)[0] == p1[0];
      GatherConcat(s1[1..], p1[1..], s2, p2, contribute);
    }
  }

  /** When no source contributes more than `bound` items, all of them together hold at most `bound` per source. */
  lemma {:induction false} GatherBound<S, P, T>(sources: seq<S>, pages: seq<P>, contribute: (S, P) -> seq<T>, bound: nat)
    requires |pages| == |sources|
    requires forall s, p :: |contribute(s, p)| <= bound
    ensures |Gather(sources, pages, contribute)| <= bound * |sources|
    decreases |sources|
  {
    if sources != [] {
      GatherBound(sources[1..], pages[1..], contribute, bound);
    }
  }

  /** All sources' items, source after source. */
  function AllNews(sources: seq<Source>, pages: seq<ListingPage>): (all: seq<NewsItem>)
    requires |pages| == |sources|
    ensures |all| <= MaxItemsPerSource * |sources|
  {
    GatherBound(sources, pages, SourceNews, MaxItemsPerSource);
    Gather(sources, pages, SourceNews)
  }

  /** The registry's news: Sina's items, then Eastmoney's. */
  lemma RegistryNews(pages: seq<ListingPage>)
    requires |pages| == |Registry|
    ensures AllNews(Registry, pages) == SourceNews(Registry[0], pages[0]) + SourceNews(Registry[1], pages[1])
  {
    var rest := Gather(Registry[1..], pages[1..], SourceNews);
    assert Registry[1..][0] == Registry[1] && pages[1..][0] == pages[1];
    assert Gather(Registry[1..][1..], pages[1..][1..], SourceNews) == [];
    assert rest == SourceNews(Registry[1], pages[1]) + [];
  }

  /** Sources contribute in registry order: the news of two runs of sources is theirs end to end. */
  lemma AllNewsConcat(s1: seq<Source>, p1: seq<ListingPage>, s2: seq<Source>, p2: seq<ListingPage>)
    requires |p1| == |s1| && |p2| == |s2|
    ensures AllNews(s1 + s2, p1 + p2) == AllNews(s1, p1) + AllNews(s2, p2)
  {
    GatherConcat(s1, p1, s2, p2, SourceNews);
  }

  /** One more source adds what it contributes at the end. */
  lemma GatherSnoc<S, P, T>(sources: seq<S>, pages: seq<P>, i: nat, contribute: (S, P) -> seq<T>)
    requires |pages| == |sources| && i < |sources|
    ensures Gather(sources[..i + 1], pages[..i + 1], contribute)
         == Gather(sources[..i], pages[..i], contribute) + contribute(sources[i], pages[i])
  {
    GatherConcat(sources[..i], pages[..i], [sources[i]], [pages[i]], contribute);
    assert sources[..i] + [sources[i]] == sources[..i + 1];
    assert pages[..i] + [pages[i]] == pages[..i + 1];
    assert [sources[i]][1..] == [];
    assert Gather([sources[i]], [pages[i]], contribute) == contribute(sources[i], pages[i]) + [];
  }

  /** Gathering splits at any source. */
  lemma GatherSplit<S, P, T>(sources: seq<S>, pages: seq<P>, k: nat, contribute: (S, P) -> seq<T>)
    requires |pages| == |sources| && k <= |sources|
    ensures Gather(sources, pages, contribute)
         == Gather(sources[..k], pages[..k], contribute) + Gather(sources[k..], pages[k..], contribute)
  {
    Rejoin(sources, k);
    Rejoin(pages, k);
    GatherConcat(sources[..k], pages[..k], sources[k..], pages[k..], contribute);
  }

  /** A source contributing nothing can be left out without changing what is gathered. */
  lemma GatherSkip<S, P, T>(sources: seq<S>, pages: seq<P>, i: nat, contribute: (S, P) -> seq<T>)
    requires |pages| == |sources| && i < |sources|
    requires contribute(sources[i], pages[i]) == []
    ensures Gather(sources, pages, contribute)
         == Gather(sources[..i] + sources[i + 1..], pages[..i] + pages[i + 1..], contribute)
  {
    var front := Gather(sources[..i], pages[..i], contribute);
    var back := Gather(sources[i + 1..], pages[i + 1..], contribute);
    assert Gather(sources[i..], pages[i..], contribute) == back by {
      assert sources[i..][1..] == sources[i + 1..] && pages[i..][1..] == pages[i + 1..];
      assert sources[i..][0] == sources[i] && pages[i..][0] == pages[i];
    }
    assert Gather(sources, pages, contribute) == front + back by {
      GatherSplit(sources, pages, i, contribute);
    }
    GatherConcat(sources[..i], pages[..i], sources[i + 1..], pages[i + 1..], contribute);
  }

  /** A source whose page could not be fetched contributes nothing; the others are unaffected. */
  lemma UnreachableSourceSkipped(sources: seq<Source>, pages: seq<ListingPage>, i: nat)
    requires |pages| == |sources| && i < |sources|
    requires pages[i].Unreachable?
    ensures AllNews(sources, pages) == AllNews(sources[..i] + sources[i + 1..], pages[..i] + pages[i + 1..])
  {
    GatherSkip(sources, pages, i, SourceNews);
  }

  /**
   * The inner `for item in items` loop: what `read` makes of each entry is
   * appended to `acc` in turn, until a malformed entry raises.
   */
  method AppendCollected<T>(acc: seq<T>, entries: seq<ListEntry>, read: (string, string) -> T)
    returns (extended: seq<T>)
    ensures extended == acc + Collect(entries, read)
  {
    extended := acc;
    var j := 0;
    while j < |entries|
      invariant 0 <= j <= |entries|
      invariant WellFormed(entries[..j])
      invariant extended == acc + Collect(entries[..j], read)
    {
      if entries[j].Malformed? {
        break;
      }
      assert entries[..j + 1] == entries[..j] + [entries[j]];
      CollectSnoc(entries[..j], entries[j], read);
      extended := extended + [read(entries[j].text, entries[j].href)];
      j := j + 1;
    }
    assert entries == entries[..j] + entries[j..];
    CollectStops(entries[..j], entries[j..], read);
  }

  /**
   * The body of `fetch_finance_news`'s loop for one source: the items read
   * from the first five entries of its page are appended to `allNews`. An
   * unreachable page raises before anything is appended; a malformed entry
   * raises after the items before it were appended, and the exception is
   * caught per source, so those stay.
   */
  method AppendSourceNews(allNews: seq<NewsItem>, source: Source, page: ListingPage)
    returns (extended: seq<NewsItem>)
    ensures extended == allNews + SourceNews(source, page)
  {
    var site := SiteOf(source.url);
    if page.Unreachable? || site.None? {
      extended := allNews;
    } else {
      extended := AppendCollected(allNews, Take(page.entries, MaxItemsPerSource), Reader(source.name, site.value));
    }
  }

  /**
   * `fetch_finance_news` over the registry: the items are appended source by
   * source; the result is `AllNews` of the registry, so at most ten items.
   */
  method FetchFinanceNews(pages: seq<ListingPage>) returns (allNews: seq<NewsItem>)
    requires |pages| == |Registry|
    ensures allNews == AllNews(Registry, pages)
    ensures |allNews| <= 10
  {
    allNews := [];
    var i := 0;
    while i < |Registry|
      invariant 0 <= i <= |Registry|
      invariant allNews == AllNews(Registry[..i], pages[..i])
    {
      allNews := AppendSourceNews(allNews, Registry[i], pages[i]);
      GatherSnoc(Registry, pages, i, SourceNews);
      i := i + 1;
    }
    assert Registry[..i] == Registry && pages[..i] == pages;
  }
}
