/**
 * The crawl driven by `main`: starting from a URL, scrape at most `maxPages` pages one after
 * the other, following each page's next link, stopping at the first failure or at the first
 * page without a next link, and keeping every quote gathered before a failure. The quotes are
 * written out only when there is at least one.
 *
 * `Crawl` is the crawl as a function of a page oracle (URL to page result); `CrawlQuotes`,
 * the loop itself, is proved to compute it when the oracle is the page scrape of `QuotePage`.
 */
module Crawler {
  import opened Wrappers
  import opened QuotePage

  /** The URL the crawl starts from. */
  const StartURL: string := "http://quotes.toscrape.com/"

  /** The most pages one run scrapes. */
  const MaxPages: int := 5

  /** What scraping returns for each URL. */
  type PageOracle = string -> PageResult

  /** What a crawl did: the URLs it scraped, in order, the quotes it kept, and the error that
      stopped it, if one did. */
  datatype CrawlTrace = CrawlTrace(visited: seq<string>, quotes: seq<QuoteItem>, failure: Option<ScrapeError>)

  /** The page oracle of a run: each URL is scraped from the response the web gives for it. */
  function PageScraper(web: string -> Response, resolve: Resolver): (page: PageOracle)
    ensures forall u :: page(u) == ScrapePage(u, web(u), resolve)
  {
    u => ScrapePage(u, web(u), resolve)
  }

  /** The crawl from `url` with `budget` scrapes left. */
  function Crawl(page: PageOracle, url: string, budget: int): (t: CrawlTrace)
    ensures |t.visited| <= if budget > 0 then budget else 0
    decreases budget
  {
    if budget <= 0 || url == "" then CrawlTrace([], [], None)
    else
      var r := page(url);
      if r.err.Some? then CrawlTrace([url], [], r.err)
      else
        var rest := Crawl(page, r.nextPageURL, budget - 1);
        CrawlTrace([url] + rest.visited, r.quotes + rest.quotes, rest.failure)
  }

  /** Prefixes the scrapes and quotes already done to the trace of the rest of a crawl. */
  function After(visited: seq<string>, quotes: seq<QuoteItem>, rest: CrawlTrace): CrawlTrace
  {
    CrawlTrace(visited + rest.visited, quotes + rest.quotes, rest.failure)
  }

  /** A crawl from the empty URL, or with no budget left, scrapes nothing. */
  lemma CrawlStops(page: PageOracle, url: string, budget: int, visited: seq<string>, quotes: seq<QuoteItem>)
    requires budget <= 0 || url == ""
    ensures After(visited, quotes, Crawl(page, url, budget)) == CrawlTrace(visited, quotes, None)
  {
  }

  /** One step of a crawl that succeeds: the page's URL and quotes join those before it, and
      the crawl goes on from its next link with one page less. */
  lemma CrawlStepOk(page: PageOracle, url: string, budget: int, visited: seq<string>, quotes: seq<QuoteItem>)
    requires budget > 0 && url != "" && page(url).err.None?
    ensures After(visited, quotes, Crawl(page, url, budget)) ==
      After(visited + [url], quotes + page(url).quotes, Crawl(page, page(url).nextPageURL, budget - 1))
  {
    var rest := Crawl(page, page(url).nextPageURL, budget - 1);
    assert visited + ([url] + rest.visited) == visited + [url] + rest.visited;
    assert quotes + (page(url).quotes + rest.quotes) == quotes + page(url).quotes + rest.quotes;
  }

  /** One step of a crawl that fails: the crawl ends with this page's URL and error and
      without its quotes. */
  lemma CrawlStepFails(page: PageOracle, url: string, budget: int, visited: seq<string>, quotes: seq<QuoteItem>)
    requires budget > 0 && url != "" && page(url).err.Some?
    ensures After(visited, quotes, Crawl(page, url, budget)) == CrawlTrace(visited + [url], quotes, page(url).err)
  {
  }

  /** What one scraped page adds to the output: its quotes, or nothing if it failed. */
  function Contribution(page: PageOracle, url: string): seq<QuoteItem>
  {
    if page(url).err.None? then page(url).quotes else []
  }

  /** The quotes of the successfully scraped pages among `visited`, concatenated in visit order. */
  function Gathered(page: PageOracle, visited: seq<string>): seq<QuoteItem>
  {
    if visited == [] then [] else Contribution(page, visited[0]) + Gathered(page, visited[1..])
  }

  /** The scraped URLs form a chain: the first is the start URL, none is empty, and each later
      one is the next link of the page before it, which succeeded. */
  lemma {:induction false} CrawlChain(page: PageOracle, url: string, budget: int)
    ensures var t := Crawl(page, url, budget);
      && (t.visited != [] ==> t.visited[0] == url)
      && (forall k :: 0 <= k < |t.visited| ==> t.visited[k] != "")
      && (forall k :: 0 <= k < |t.visited| - 1 ==>
            page(t.visited[k]).err.None? && t.visited[k + 1] == page(t.visited[k]).nextPageURL)
    decreases budget
  {
    if budget > 0 && url != "" && page(url).err.None? {
      var r := page(url);
      CrawlChain(page, r.nextPageURL, budget - 1);
      var rest := Crawl(page, r.nextPageURL, budget - 1);
      var vs := [url] + rest.visited;
      assert forall k :: 1 <= k < |vs| ==> vs[k] == rest.visited[k - 1];
    }
  }

  /** The quotes kept are those of the successfully scraped pages, in visit order. */
  lemma {:induction false} CrawlGathers(page: PageOracle, url: string, budget: int)
    ensures Crawl(page, url, budget).quotes == Gathered(page, Crawl(page, url, budget).visited)
    decreases budget
  {
    if budget > 0 && url != "" {
      var r := page(url);
      var t := Crawl(page, url, budget);
      if r.err.Some? {
        assert Gathered(page, t.visited) == Contribution(page, url) + Gathered(page, []);
      } else {
        CrawlGathers(page, r.nextPageURL, budget - 1);
        var rest := Crawl(page, r.nextPageURL, budget - 1);
        assert t.visited[1..] == rest.visited;
      }
    }
  }

  /** Gathering the quotes of one more page appends that page's contribution. */
  lemma {:induction false} GatheredSnoc(page: PageOracle, visited: seq<string>, url: string)
    ensures Gathered(page, visited + [url]) == Gathered(page, visited) + Contribution(page, url)
  {
    if visited == [] {
      assert [url][1..] == [];
    } else {
      assert (visited + [url])[1..] == visited[1..] + [url];
      GatheredSnoc(page, visited[1..], url);
    }
  }

  /** A crawl fails exactly when the last page it scraped failed, with that page's error. */
  lemma {:induction false} CrawlFailure(page: PageOracle, url: string, budget: int)
    ensures var t := Crawl(page, url, budget);
      t.failure == (if t.visited == [] then None else page(t.visited[|t.visited| - 1]).err)
    decreases budget
  {
    if budget > 0 && url != "" && page(url).err.None? {
      var r := page(url);
      CrawlFailure(page, r.nextPageURL, budget - 1);
      var rest := Crawl(page, r.nextPageURL, budget - 1);
      if rest.visited != [] {
        assert ([url] + rest.visited)[|rest.visited|] == rest.visited[|rest.visited| - 1];
      }
    }
  }

  /** After a failure the failed page adds no quotes and those of every page before it are kept. */
  lemma CrawlKeepsEarlierQuotes(page: PageOracle, url: string, budget: int)
    requires Crawl(page, url, budget).failure.Some?
    ensures var t := Crawl(page, url, budget);
      t.visited != [] && t.quotes == Gathered(page, t.visited[..|t.visited| - 1])
  {
    CrawlFailure(page, url, budget);
    CrawlGathers(page, url, budget);
    var vs := Crawl(page, url, budget).visited;
    var n := |vs| - 1;
    assert vs == vs[..n] + [vs[n]];
    GatheredSnoc(page, vs[..n], vs[n]);
  }

  /** A crawl only stops for a reason: it ran out of budget, reached an empty URL (the start
      URL, or a page without a next link), or hit a failed page. */
  lemma {:induction false} CrawlStopReason(page: PageOracle, url: string, budget: int)
    ensures var t := Crawl(page, url, budget);
      t.visited == [] ==> budget <= 0 || url == ""
    ensures var t := Crawl(page, url, budget);
      t.visited != [] ==>
        var last := page(t.visited[|t.visited| - 1]);
        last.err.Some? || last.nextPageURL == "" || |t.visited| == budget
    decreases budget
  {
    if budget > 0 && url != "" && page(url).err.None? {
      CrawlStopReason(page, page(url).nextPageURL, budget - 1);
    }
  }

  /** No page is scraped after one that succeeded without a next link. */
  lemma {:induction false} CrawlEndsAtLastPage(page: PageOracle, url: string, budget: int, k: int)
    requires var t := Crawl(page, url, budget);
      0 <= k < |t.visited| && page(t.visited[k]).err.None? && page(t.visited[k]).nextPageURL == ""
    ensures k == |Crawl(page, url, budget).visited| - 1
    decreases budget
  {
    var next := page(url).nextPageURL;
    var rest := Crawl(page, next, budget - 1);
    assert Crawl(page, url, budget).visited == [url] + rest.visited;
    if k > 0 {
      assert ([url] + rest.visited)[k] == rest.visited[k - 1];
      CrawlEndsAtLastPage(page, next, budget - 1, k - 1);
    }
  }

  /** Allowing more pages never loses what a smaller budget scraped or kept. */
  lemma {:induction false} CrawlMonotone(page: PageOracle, url: string, budget: int, more: int)
    requires budget <= more
    ensures Crawl(page, url, budget).visited <= Crawl(page, url, more).visited
    ensures Crawl(page, url, budget).quotes <= Crawl(page, url, more).quotes
    decreases budget
  {
    if budget > 0 && url != "" && page(url).err.None? {
      CrawlMonotone(page, page(url).nextPageURL, budget - 1, more - 1);
    }
  }

  /** A page whose next link leads back to itself is scraped once per unit of budget and no more. */
  lemma {:induction false} CrawlSelfLink(page: PageOracle, url: string, budget: int)
    requires url != "" && page(url).err.None? && page(url).nextPageURL == url
    requires budget >= 0
    ensures |Crawl(page, url, budget).visited| == budget
    ensures forall k :: 0 <= k < budget ==> Crawl(page, url, budget).visited[k] == url
    decreases budget
  {
    if budget > 0 {
      CrawlSelfLink(page, url, budget - 1);
      var rest := Crawl(page, url, budget - 1);
      assert forall k :: 1 <= k < budget ==> ([url] + rest.visited)[k] == rest.visited[k - 1];
    }
  }

  /** A start page that succeeds without a next link is the only page scraped. */
  lemma CrawlSinglePage(page: PageOracle, url: string, budget: int)
    requires url != "" && budget >= 1 && page(url).err.None? && page(url).nextPageURL == ""
    ensures Crawl(page, url, budget) == CrawlTrace([url], page(url).quotes, None)
  {
    assert Crawl(page, "", budget - 1) == CrawlTrace([], [], None);
  }

  /** In a real run each page after the first is the first next link of the page before it,
      resolved against that page's own URL. */
  lemma FollowedLinkResolvedAgainstItsPage(web: string -> Response, resolve: Resolver, url: string, budget: int, k: int)
    requires 0 <= k < |Crawl(PageScraper(web, resolve), url, budget).visited| - 1
    ensures var vs := Crawl(PageScraper(web, resolve), url, budget).visited;
      && web(vs[k]).Reply? && web(vs[k]).statusCode == StatusOK && web(vs[k]).body.Html?
      && vs[k + 1] == NextPageURL(vs[k], web(vs[k]).body.doc, resolve)
  {
    var page := PageScraper(web, resolve);
    CrawlChain(page, url, budget);
    var vs := Crawl(page, url, budget).visited;
    assert page(vs[k]) == ScrapePage(vs[k], web(vs[k]), resolve);
    ScrapePageOutcome(vs[k], web(vs[k]), resolve);
  }

  /** In a real run a page answered with any status other than 200 is the last page scraped,
      and its status is the error the crawl reports. */
  lemma NonOkStatusEndsCrawl(web: string -> Response, resolve: Resolver, url: string, budget: int, k: int)
    requires var vs := Crawl(PageScraper(web, resolve), url, budget).visited;
      0 <= k < |vs| && web(vs[k]).Reply? && web(vs[k]).statusCode != StatusOK
    ensures var t := Crawl(PageScraper(web, resolve), url, budget);
      k == |t.visited| - 1 && t.failure == Some(BadStatus(t.visited[k], web(t.visited[k]).statusCode))
  {
    var page := PageScraper(web, resolve);
    CrawlChain(page, url, budget);
    CrawlFailure(page, url, budget);
    var vs := Crawl(page, url, budget).visited;
    assert page(vs[k]) == ScrapePage(vs[k], web(vs[k]), resolve);
    ScrapePageOutcome(vs[k], web(vs[k]), resolve);
  }

  /** The crawl loop of `main`, for any start URL and page limit. Besides the quotes it returns
      the error that stopped it (the one `main` logs) and, as ghost state, the URLs it scraped. */
  method CrawlQuotes(startURL: string, maxPages: int, web: string -> Response, resolve: Resolver)
    returns (allQuotes: seq<QuoteItem>, failure: Option<ScrapeError>, ghost visited: seq<string>)
    ensures allQuotes == Crawl(PageScraper(web, resolve), startURL, maxPages).quotes
    ensures failure == Crawl(PageScraper(web, resolve), startURL, maxPages).failure
    ensures visited == Crawl(PageScraper(web, resolve), startURL, maxPages).visited
  {
    ghost var page := PageScraper(web, resolve);
    ghost var whole := Crawl(page, startURL, maxPages);
    allQuotes, failure, visited := [], None, [];
    var currentURL := startURL;
    var i := 0;
    while i < maxPages
      invariant 0 <= i
      invariant failure == None
      invariant whole == After(visited, allQuotes, Crawl(page, currentURL, maxPages - i))
    {
      if currentURL == "" {
        CrawlStops(page, currentURL, maxPages - i, visited, allQuotes);
        break;
      }
      var quotesFromPage, nextPageURL, err := ScrapeOneQuotesPage(currentURL, web(currentURL), resolve);
      assert page(currentURL) == PageResult(quotesFromPage, nextPageURL, err);
      if err.Some? {
        CrawlStepFails(page, currentURL, maxPages - i, visited, allQuotes);
        visited := visited + [currentURL];
        failure := err;
        break;
      }
      CrawlStepOk(page, currentURL, maxPages - i, visited, allQuotes);
      visited := visited + [currentURL];
      allQuotes := allQuotes + quotesFromPage;
      currentURL := nextPageURL;
      if currentURL == "" && i < maxPages - 1 {
        CrawlStops(page, currentURL, maxPages - i - 1, visited, allQuotes);
        break;
      }
      i := i + 1;
    }
    if maxPages <= i {
      CrawlStops(page, currentURL, maxPages - i, visited, allQuotes);
    }
  }

  /** The output guard: the quotes are saved only when there is at least one. */
  function OutputGuard(allQuotes: seq<QuoteItem>): (saved: Option<seq<QuoteItem>>)
    ensures saved.Some? <==> |allQuotes| > 0
    ensures saved.Some? ==> saved.value == allQuotes
  {
    if |allQuotes| > 0 then Some(allQuotes) else None
  }

  /** One run of the program: crawl from the start URL for at most five pages and hand the
      quotes to the output when there are any. */
  method ScrapeQuotesSite(web: string -> Response, resolve: Resolver) returns (saved: Option<seq<QuoteItem>>)
    ensures var t := Crawl(PageScraper(web, resolve), StartURL, MaxPages);
      saved == OutputGuard(t.quotes) && |t.visited| <= MaxPages
  {
    var allQuotes, failure, visited := CrawlQuotes(StartURL, MaxPages, web, resolve);
    saved := OutputGuard(allQuotes);
  }
}
