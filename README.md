# Quotes crawler model

A Dafny model of the crawler in `main.go` of scraper-go, which collects quotes from
quotes.toscrape.com. The program fetches a page, turns every `div.quote` block into a record
(quote text, author, tags) and follows the page's "next" link. It does this for at most five
pages and then writes the records as JSON when there is at least one.

The model has four modules:

- `Wrappers` (wrappers.dfy): the `Option` type.
- `Text` (text.dfy): Go's `strings.TrimSpace` over `unicode.IsSpace`, specified by the predicate
  `StrippedFrom`. A stripped string is a contiguous piece of the input, with only whitespace
  around it, and it does not itself start or end with whitespace.
- `QuotePage` (quote_page.dfy): `scrapeOneQuotesPage`. The HTTP response is an input
  (`Response`). The parsed page is given by what the CSS selectors pick out of it, as abstract
  sequences in document order: for each `div.quote`, the texts of its `span.text`,
  `small.author` and `div.tags a.tag` elements; for each `li.next a`, its `href` if present.
  URL resolution is a parameter `resolve`, left uninterpreted.
- `Crawler` (crawler.dfy): the loop of `main`. The function `Crawl` gives the crawl in terms of
  a page oracle (URL to page result). The method `CrawlQuotes` is the loop itself, with
  `currentURL`, the counter `i` and `allQuotes`. It is proved to compute `Crawl` when the oracle
  is the page scrape. `ScrapeQuotesSite` is `main` with its constants and its output guard.

The code rejects every status other than exactly 200, so a 204 or any other 2xx reply is
a failure too. The model follows the code.

## Model

| member | source | states |
|---|---|---|
| Text.IsSpace | main.go:44-47 | the whitespace of Go's `unicode.IsSpace`; on ASCII it is exactly TAB, LF, VT, FF, CR and SPACE |
| Text.TrimSpace | main.go:44-47 | Go's `strings.TrimSpace`: drops leading, then trailing whitespace; the result is no longer than the input and has no whitespace at either end |
| Text.TrimLeftSuffix | main.go:44-47 | dropping leading whitespace leaves a suffix of the input, preceded only by whitespace, not starting with whitespace |
| Text.TrimRightPrefix | main.go:44-47 | dropping trailing whitespace leaves a prefix of the input, followed only by whitespace, not ending with whitespace |
| Text.TrimSpaceStrips | main.go:44-47 | a trimmed value has no whitespace at either end and is an unchanged contiguous piece of the raw text, surrounded only by whitespace |
| Text.StrippedUnique | main.go:44-47 | there is only one way to strip a string |
| Text.TrimSpaceIsStripping | main.go:44-47 | a string is the stripped form of a text if and only if it is the trimmed text |
| Text.TrimSpaceKeepsTrimmed | main.go:44-47 | a text with no whitespace at its ends is left unchanged by trimming |
| Text.TrimSpaceIdempotent | main.go:44-47 | trimming a trimmed value changes nothing |
| Text.TrimSpaceEmpty | main.go:44-47 | a field is empty if and only if its raw text is all whitespace |
| QuotePage.FirstText | main.go:44-45 | `.First().Text()`: the text of the first selected element, or "" when nothing is selected |
| QuotePage.TrimAll | main.go:46-48 | the tags of a quote: one trimmed text per `a.tag`, in document order |
| QuotePage.QuoteOf | main.go:43-48 | the record of one `div.quote`: trimmed first quote text, trimmed first author, one tag per tag element |
| QuotePage.QuotesOf | main.go:42-50 | one record per `div.quote` block, in document order |
| QuotePage.QuoteOfBlock | main.go:43-48 | a record holds the trimmed text of the first `span.text` and of the first `small.author` (the empty string when there is none), and one trimmed tag per `a.tag`, in document order |
| QuotePage.QuoteFromBlock | main.go:43-49 | the per-block callback, whose loop appends one trimmed tag per tag element, builds exactly the block's record |
| QuotePage.CollectQuotes | main.go:42-50 | the loop over `div.quote` blocks yields one record per block, in document order |
| QuotePage.FirstHref | main.go:55 | `.First().Attr("href")`: present exactly when there is a `li.next a` element and the first one has an `href`, and then that value |
| QuotePage.NextPageURL | main.go:55-64 | "" when there is no next link, otherwise the link resolved against the current page's URL |
| QuotePage.ScrapePage | main.go:22-66 | the page scrape as a function of the response: on any error, no quotes and an empty next URL |
| QuotePage.ScrapePageOutcome | main.go:22-66 | a page succeeds exactly when the response arrived with status 200 and a readable body; every error carries no quotes and an empty next URL, and names the failure (transport, status with its code, or parse); on success there are as many quotes as blocks and the next URL comes from the next link |
| QuotePage.NextPageURLEmpty | main.go:55-64 | the next URL is empty exactly when the first `li.next a` is missing or has no `href`, or when its resolution against the page URL is itself empty |
| QuotePage.ScrapeOneQuotesPage | main.go:22-67 | the imperative page scrape returns exactly the quotes, next URL and error of `ScrapePage` |
| Crawler.PageScraper | main.go:85 | the page oracle of a run: each URL is scraped, by `ScrapePage`, from the response the web gives for it |
| Crawler.Crawl | main.go:72-98 | a crawl scrapes at most `maxPages` pages, and none when `maxPages` is not positive |
| Crawler.CrawlStops | main.go:78-82 | with no budget left, or with an empty current URL, the crawl scrapes nothing more and reports no error |
| Crawler.CrawlStepOk | main.go:85-92 | an iteration whose page succeeds appends that page's URL and quotes, then continues from its next URL with one page less |
| Crawler.CrawlStepFails | main.go:85-89 | an iteration whose page fails ends the crawl with that page's error, and none of its quotes |
| Crawler.CrawlChain | main.go:79-92 | the first page scraped is the start URL, no scraped URL is empty, and every later page is the next URL of the page before it, which succeeded |
| Crawler.CrawlGathers | main.go:85-91 | the final quotes are the quotes of the successfully scraped pages, concatenated in visit order |
| Crawler.CrawlFailure | main.go:85-89 | the crawl reports an error exactly when the last page scraped failed, and reports that page's error |
| Crawler.GatheredSnoc | main.go:91 | gathering one more page appends that page's quotes, or nothing if it failed |
| Crawler.CrawlKeepsEarlierQuotes | main.go:85-91 | after a failure, the quotes kept are exactly those of all the pages before the failed one |
| Crawler.CrawlStopReason | main.go:78-97 | a crawl stops only when the budget is used up, the URL is empty, the last page failed, or the last page had no next URL |
| Crawler.CrawlEndsAtLastPage | main.go:79-97 | no page is scraped after one that succeeded with an empty next URL |
| Crawler.CrawlMonotone | main.go:78-98 | a larger page limit only extends the pages scraped and the quotes kept |
| Crawler.CrawlSelfLink | main.go:74-78 | a page whose next link points back to itself is scraped exactly `maxPages` times |
| Crawler.CrawlSinglePage | main.go:79-97 | a start page that succeeds without a next link is the only page scraped, and its quotes are the result |
| Crawler.FollowedLinkResolvedAgainstItsPage | main.go:55-60 | every page after the first is the next link of the page before it, resolved against that page's own URL, not the start URL |
| Crawler.NonOkStatusEndsCrawl | main.go:33-35 | a page answered with a status other than 200 is the last page scraped, and the crawl's error is that status |
| Crawler.CrawlQuotes | main.go:72-98 | the loop of `main` scrapes exactly the pages of `Crawl`, in order, and keeps exactly its quotes and its error |
| Crawler.OutputGuard | main.go:102-115 | quotes are handed to the output if and only if there is at least one, and then all of them |
| Crawler.ScrapeQuotesSite | main.go:69-118 | one run crawls from the fixed start URL for at most five pages, and saves the crawl's quotes only when there are any |

## Left out

- HTTP fetching (`http.Get`) and closing the body: the response for each URL is an input (`web`), so the model assumes the same URL always gets the same response.
- The HTML parser and the CSS selector engine: a page is given by the texts and `href` values the selectors pick out.
- `url.Parse` and `ResolveReference`: resolution is an uninterpreted parameter. The model does not cover the ignored parse errors, where a nil reference would panic.
- JSON encoding, writing `all_quotes.json`, `log.Fatalf` and all console output: `ScrapeQuotesSite` stops at the decision to save.
- Go's nil slices, which encode as JSON `null` rather than `[]`: a quote without tags has the empty sequence.
- Invalid UTF-8: strings are sequences of Unicode scalar values.
- QuotePage.NextPageURLEmpty: claims "empty next URL exactly when there is no `href`" only when resolution gives a non-empty URL. Resolution is uninterpreted, so nothing rules out an empty result.
