/**
 * One page of quotes.toscrape.com: the status check on the HTTP response, the assembly of
 * one quote record per `div.quote` block, and the choice of the next page's URL from the
 * first `li.next a` link, resolved against the page's own URL.
 *
 * The HTTP exchange is an input (`Response`); the parsed document is given by what the CSS
 * selectors pick out of it, as sequences of texts and attribute values in document order.
 */
module QuotePage {
  import opened Wrappers
  import opened Text

  /** One record of the output: a quote, its author and its tags. */
  datatype QuoteItem = QuoteItem(text: string, author: string, tags: seq<string>)

  /** One `div.quote` element, as seen through the three selectors applied inside it: the
      texts of its `span.text` elements, of its `small.author` elements and of its
      `div.tags a.tag` elements, each in document order and untrimmed. */
  datatype QuoteBlock = QuoteBlock(texts: seq<string>, authors: seq<string>, tags: seq<string>)

  /** A parsed page: its `div.quote` blocks, and for each element matched by `li.next a`
      its `href` attribute, if it has one. */
  datatype Document = Document(quoteBlocks: seq<QuoteBlock>, nextLinkHrefs: seq<Option<string>>)

  /** The body of a response: markup that parses into a document, or a body that cannot be read. */
  datatype Body = Unreadable | Html(doc: Document)

  /** The outcome of `http.Get`: no response at all (a transport error), or a status and a body. */
  datatype Response = NoResponse | Reply(statusCode: int, body: Body)

  /** The three ways a page can fail, each carrying the page's URL. */
  datatype ScrapeError =
    | GetFailed(url: string)
    | BadStatus(url: string, statusCode: int)
    | ParseFailed(url: string)

  /** What scraping one page returns: its quotes, the URL of the next page ("" when there is
      none) and an error, if any. */
  datatype PageResult = PageResult(quotes: seq<QuoteItem>, nextPageURL: string, err: Option<ScrapeError>)

  /** Reference resolution of a link (second argument) against a base URL (first argument).
      It is left uninterpreted: the model assumes nothing about it. */
  type Resolver = (string, string) -> string

  /** The only status code accepted. */
  const StatusOK := 200

  /** The text of the first element of a selection; an empty selection has the empty text. */
  function FirstText(texts: seq<string>): (r: string)
    ensures texts != [] ==> r == texts[0]
    ensures texts == [] ==> r == ""
  {
    if texts == [] then "" else texts[0]
  }

  /** The tags of a quote: every tag text, trimmed, in document order. */
  function TrimAll(texts: seq<string>): (r: seq<string>)
    ensures |r| == |texts| && forall j :: 0 <= j < |texts| ==> r[j] == TrimSpace(texts[j])
  {
    seq(|texts|, j requires 0 <= j < |texts| => TrimSpace(texts[j]))
  }

  /** The record built from one `div.quote` block. */
  function QuoteOf(b: QuoteBlock): (q: QuoteItem)
    ensures |q.tags| == |b.tags| && IsTrimmed(q.text) && IsTrimmed(q.author)
  {
    QuoteItem(TrimSpace(FirstText(b.texts)), TrimSpace(FirstText(b.authors)), TrimAll(b.tags))
  }

  /** A record holds the first quote text and the first author name of its block, and every
      tag of the block in document order, each with only its surrounding whitespace removed. */
  lemma QuoteOfBlock(b: QuoteBlock)
    ensures StrippedFrom(QuoteOf(b).text, FirstText(b.texts))
    ensures StrippedFrom(QuoteOf(b).author, FirstText(b.authors))
    ensures |QuoteOf(b).tags| == |b.tags|
    ensures forall j :: 0 <= j < |b.tags| ==> StrippedFrom(QuoteOf(b).tags[j], b.tags[j])
  {
    TrimSpaceStrips(FirstText(b.texts));
    TrimSpaceStrips(FirstText(b.authors));
    forall j | 0 <= j < |b.tags|
      ensures StrippedFrom(QuoteOf(b).tags[j], b.tags[j])
    {
      TrimSpaceStrips(b.tags[j]);
    }
  }

  /** The records of all `div.quote` blocks, one per block, in document order. */
  function QuotesOf(blocks: seq<QuoteBlock>): (r: seq<QuoteItem>)
    ensures |r| == |blocks| && forall i :: 0 <= i < |blocks| ==> r[i] == QuoteOf(blocks[i])
  {
    seq(|blocks|, i requires 0 <= i < |blocks| => QuoteOf(blocks[i]))
  }

  /** The `href` of the first `li.next a` element; absent when there is no such element or
      when it has no `href`. */
  function FirstHref(doc: Document): (h: Option<string>)
    ensures h.Some? <==> doc.nextLinkHrefs != [] && doc.nextLinkHrefs[0].Some?
    ensures h.Some? ==> h == doc.nextLinkHrefs[0]
  {
    if doc.nextLinkHrefs == [] then None else doc.nextLinkHrefs[0]
  }

  /** The next page's URL: the first next link resolved against this page's URL, or "". */
  function NextPageURL(pageURL: string, doc: Document, resolve: Resolver): (u: string)
    ensures FirstHref(doc).None? ==> u == ""
    ensures FirstHref(doc).Some? ==> u == resolve(pageURL, FirstHref(doc).value)
  {
    match FirstHref(doc)
    case None => ""
    case Some(href) => resolve(pageURL, href)
  }

  /** The result of scraping the page at `pageURL`, given the response obtained for it. */
  function ScrapePage(pageURL: string, resp: Response, resolve: Resolver): (r: PageResult)
    ensures r.err.Some? ==> r.quotes == [] && r.nextPageURL == ""
  {
    match resp
    case NoResponse => PageResult([], "", Some(GetFailed(pageURL)))
    case Reply(status, body) =>
      if status != StatusOK then PageResult([], "", Some(BadStatus(pageURL, status)))
      else match body
        case Unreadable => PageResult([], "", Some(ParseFailed(pageURL)))
        case Html(doc) => PageResult(QuotesOf(doc.quoteBlocks), NextPageURL(pageURL, doc, resolve), None)
  }

  /** A page succeeds exactly when its response has status 200 and a readable body. Every
      failure carries no quotes and an empty next URL and names its cause; a success has one
      record per block and the next URL of the page's next link. */
  lemma ScrapePageOutcome(pageURL: string, resp: Response, resolve: Resolver)
    ensures var r := ScrapePage(pageURL, resp, resolve);
      && (r.err.None? <==> resp.Reply? && resp.statusCode == StatusOK && resp.body.Html?)
      && (r.err.Some? ==> r.quotes == [] && r.nextPageURL == "")
      && (resp.NoResponse? ==> r.err == Some(GetFailed(pageURL)))
      && (resp.Reply? && resp.statusCode != StatusOK ==> r.err == Some(BadStatus(pageURL, resp.statusCode)))
      && (resp.Reply? && resp.statusCode == StatusOK && resp.body.Unreadable? ==> r.err == Some(ParseFailed(pageURL)))
      && (r.err.None? ==>
            && |r.quotes| == |resp.body.doc.quoteBlocks|
            && (forall i :: 0 <= i < |r.quotes| ==> r.quotes[i] == QuoteOf(resp.body.doc.quoteBlocks[i]))
            && r.nextPageURL == NextPageURL(pageURL, resp.body.doc, resolve))
  {
  }

  /** The next page's URL is empty exactly when the page has no next link with an `href`,
      provided resolution does not itself produce the empty string. */
  lemma NextPageURLEmpty(pageURL: string, doc: Document, resolve: Resolver)
    ensures NextPageURL(pageURL, doc, resolve) == "" <==>
      (FirstHref(doc).None? || resolve(pageURL, FirstHref(doc).value) == "")
  {
  }

  /** Builds the record of one `div.quote` block: the body of the per-block callback. */
  method QuoteFromBlock(b: QuoteBlock) returns (q: QuoteItem)
    ensures q == QuoteOf(b)
  {
    var text := TrimSpace(FirstText(b.texts));
    var author := TrimSpace(FirstText(b.authors));
    var tags: seq<string> := [];
    var j := 0;
    while j < |b.tags|
      invariant 0 <= j <= |b.tags|
      invariant |tags| == j
      invariant forall k :: 0 <= k < j ==> tags[k] == TrimSpace(b.tags[k])
    {
      tags := tags + [TrimSpace(b.tags[j])];
      j := j + 1;
    }
    assert tags == TrimAll(b.tags);
    q := QuoteItem(text, author, tags);
  }

  /** Collects one record per `div.quote` block, in document order. */
  method CollectQuotes(blocks: seq<QuoteBlock>) returns (quotes: seq<QuoteItem>)
    ensures quotes == QuotesOf(blocks)
  {
    quotes := [];
    var i := 0;
    while i < |blocks|
      invariant 0 <= i <= |blocks|
      invariant |quotes| == i
      invariant forall k :: 0 <= k < i ==> quotes[k] == QuoteOf(blocks[k])
    {
      var currentQuote := QuoteFromBlock(blocks[i]);
      quotes := quotes + [currentQuote];
      i := i + 1;
    }
  }

  /** Scrapes one page: rejects the response unless its status is exactly 200 and its body
      parses, then collects one record per `div.quote` block and picks the next page's URL. */
  method ScrapeOneQuotesPage(pageURL: string, resp: Response, resolve: Resolver)
    returns (quotes: seq<QuoteItem>, nextPageURL: string, err: Option<ScrapeError>)
    ensures PageResult(quotes, nextPageURL, err) == ScrapePage(pageURL, resp, resolve)
  {
    if resp.NoResponse? {
      return [], "", Some(GetFailed(pageURL));
    }
    if resp.statusCode != StatusOK {
      return [], "", Some(BadStatus(pageURL, resp.statusCode));
    }
    if resp.body.Unreadable? {
      return [], "", Some(ParseFailed(pageURL));
    }
    var doc := resp.body.doc;
    quotes := CollectQuotes(doc.quoteBlocks);
    nextPageURL := "";
    if doc.nextLinkHrefs != [] && doc.nextLinkHrefs[0].Some? {
      nextPageURL := resolve(pageURL, doc.nextLinkHrefs[0].value);
    }
    err := None;
  }
}
