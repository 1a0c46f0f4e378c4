/**
 * The documentation crawler of the Plane indexer: `PlaneDocsScraper.scrape_page` and its
 * breadth-first `scrape_all`. The web is a parameter: a fetch outcome per URL, with the HTML
 * already reduced to what the scraper reads from it (the main content's text, its links made
 * absolute, the `h1` and `<title>` texts). The host comparison of `is_valid_doc_url` is a
 * parameter too.
 */
module PlaneScraper {
  import opened Wrappers
  import JsText
  import opened SeqFacts

  /** What fetching and parsing one URL yields. */
  datatype Fetched =
    | RequestFailed                               // `requests.RequestException`
    | NoMainContent                               // no article, main, .content, .documentation or body
    | Html(h1: Option<string>, titleTag: Option<string>, text: string, hrefs: seq<string>, scrapedAt: string)

  /** The web as the scraper sees it, and the host of a URL (`urlparse(url).netloc`). */
  datatype Web = Web(fetch: string -> Fetched, netloc: string -> string)

  /** The dictionary `scrape_page` returns. */
  datatype Page = Page(url: string, title: string, text: string, links: seq<string>, scrapedAt: string)

  /** `is_valid_doc_url`: the URL's host is the host of one of the roots. */
  predicate IsValidDocUrl(web: Web, roots: seq<string>, url: string) {
    exists i :: 0 <= i < |roots| && web.netloc(url) == web.netloc(roots[i])
  }

  /** The links kept for crawling: on a documentation host and without a fragment. */
  predicate Crawlable(web: Web, roots: seq<string>, url: string) {
    IsValidDocUrl(web, roots, url) && '#' !in url
  }

  /** The anchors kept, in document order. */
  function Links(web: Web, roots: seq<string>, hrefs: seq<string>): (r: seq<string>)
    ensures forall u :: u in r <==> u in hrefs && Crawlable(web, roots, u)
    ensures |r| <= |hrefs|
  {
    if hrefs == [] then []
    else (if Crawlable(web, roots, hrefs[0]) then [hrefs[0]] else []) + Links(web, roots, hrefs[1..])
  }

  /** `url.split("/")[-1]`. */
  function LastPathPart(url: string): string {
    var parts := JsText.Split(url, '/');
    parts[|parts| - 1]
  }

  /** The title: the `h1` text, else the `<title>` text, else the last part of the URL. */
  function PageTitle(url: string, h1: Option<string>, titleTag: Option<string>): string {
    if h1.Some? then h1.value else if titleTag.Some? then titleTag.value else LastPathPart(url)
  }

  /** What `scrape_page` makes of a fetched URL. */
  function PageOf(web: Web, roots: seq<string>, url: string): (r: Option<Page>)
    ensures r.Some? <==> web.fetch(url).Html?
    ensures r.Some? ==>
      r.value.url == url && r.value.text == web.fetch(url).text
      && forall u :: u in r.value.links <==> u in web.fetch(url).hrefs && Crawlable(web, roots, u)
  {
    match web.fetch(url)
    case RequestFailed => None
    case NoMainContent => None
    case Html(h1, titleTag, text, hrefs, at) => Some(Page(url, PageTitle(url, h1, titleTag), text, Links(web, roots, hrefs), at))
  }

  predicate Distinct(s: seq<string>) {
    forall i, j :: 0 <= i < j < |s| ==> s[i] != s[j]
  }

  function Urls(pages: seq<Page>): (r: seq<string>)
    ensures |r| == |pages| && forall k :: 0 <= k < |pages| ==> r[k] == pages[k].url
  {
    seq(|pages|, k requires 0 <= k < |pages| => pages[k].url)
  }

  lemma DistinctSnoc(s: seq<string>, x: string)
    requires Distinct(s) && x !in s
    ensures Distinct(s + [x])
  {
  }

  lemma DistinctLast(s: seq<string>, x: string)
    requires Distinct(s + [x])
    ensures x !in s
  {
    forall i | 0 <= i < |s| ensures s[i] != x {
      assert (s + [x])[i] == s[i] && (s + [x])[|s|] == x;
    }
  }

  class PlaneDocsScraper {
    const baseUrls: seq<string>
    const maxPages: nat
    const web: Web
    var visited: set<string>
    var pages: seq<Page>
    /** The URLs fetched so far, in order. */
    ghost var fetched: seq<string>

    /**
     * Every fetched URL was fetched once and is visited, the visited set never outgrows the
     * page budget, and every kept page is the parse of a fetched URL.
     */
    ghost predicate Valid()
      reads this
    {
      Distinct(fetched) && visited == (set u | u in fetched) && |visited| == |fetched| <= maxPages
      && Distinct(Urls(pages))
      && forall k :: 0 <= k < |pages| ==> pages[k].url in fetched && PageOf(web, baseUrls, pages[k].url) == Some(pages[k])
    }

    constructor(baseUrls: seq<string>, maxPages: nat, web: Web)
      ensures this.baseUrls == baseUrls && this.maxPages == maxPages && this.web == web
      ensures visited == {} && pages == [] && fetched == []
      ensures Valid()
    {
      this.baseUrls := baseUrls;
      this.maxPages := maxPages;
      this.web := web;
      visited := {};
      pages := [];
      fetched := [];
    }

    /**
     * `scrape_page`: nothing is fetched for a visited URL or once the budget is spent;
     * otherwise the URL is marked visited before the fetch, so a failed URL is never retried.
     */
    method ScrapePage(url: string) returns (r: Option<Page>)
      requires Valid()
      modifies this`visited, this`fetched
      ensures Valid()
      ensures url in old(visited) || |old(visited)| >= maxPages ==>
        r == None && visited == old(visited) && fetched == old(fetched)
      ensures url !in old(visited) && |old(visited)| < maxPages ==>
        visited == old(visited) + {url} && fetched == old(fetched) + [url] && r == PageOf(web, baseUrls, url)
    {
      if url in visited || |visited| >= maxPages {
        return None;
      }
      visited := visited + {url};
      fetched := fetched + [url];
      assert visited == set u | u in fetched;
      assert |visited| == |old(visited)| + 1;
      r := PageOf(web, baseUrls, url);
    }

    /**
     * `scrape_all`: a breadth-first crawl from the roots. Each URL is fetched at most once,
     * never more than `max_pages` are, every kept page is a fetched one, and no link with a
     * fragment is followed. Unless the budget ran out, the crawl is closed: every root and
     * every link of a page kept by this call has been visited.
     */
    method ScrapeAll() returns (r: seq<Page>)
      requires Valid()
      modifies this`visited, this`fetched, this`pages
      ensures Valid() && r == pages
      ensures |pages| >= |old(pages)| && pages[..|old(pages)|] == old(pages)
      ensures |fetched| <= maxPages && old(fetched) <= fetched
      ensures forall k :: |old(pages)| <= k < |pages| ==> forall u :: u in pages[k].links ==> Crawlable(web, baseUrls, u)
      ensures forall u :: u in fetched[|old(fetched)|..] ==> u in baseUrls || Crawlable(web, baseUrls, u)
      ensures |visited| < maxPages ==>
        (forall u :: u in baseUrls ==> u in visited)
        && forall k :: |old(pages)| <= k < |pages| ==> forall u :: u in pages[k].links ==> u in visited
    {
      var queue := baseUrls;
      ghost var pages0, fetched0 := pages, fetched;
      ghost var newPages: seq<Page>, newFetched: seq<string>, found: set<string> := [], [], {};
      while queue != [] && |visited| < maxPages
        invariant Valid() && Crawling(queue, pages0, fetched0, newPages, newFetched, found)
        decreases maxPages - |visited|, |queue|
      {
        queue, newPages, newFetched, found := Visit(queue, pages0, fetched0, newPages, newFetched, found);
      }
      ConcatParts(pages0, newPages);
      ConcatParts(fetched0, newFetched);
      r := pages;
    }

    /** What holds between two rounds of the crawl loop, for the pages and fetches of this crawl. */
    ghost predicate Crawling(queue: seq<string>, pages0: seq<Page>, fetched0: seq<string>,
                             newPages: seq<Page>, newFetched: seq<string>, found: set<string>)
      reads this
    {
      pages == pages0 + newPages && fetched == fetched0 + newFetched
      && (forall u :: u in queue ==> u in baseUrls || Crawlable(web, baseUrls, u))
      && (forall u :: u in newFetched ==> u in baseUrls || Crawlable(web, baseUrls, u))
      && (forall u :: u in baseUrls ==> u in visited || u in queue)
      && (forall k :: 0 <= k < |newPages| ==> forall u :: u in newPages[k].links ==> u in found)
      && (forall u :: u in found ==> Crawlable(web, baseUrls, u) && (u in visited || u in queue))
    }

    /** One round of the crawl loop: pop the head of the queue and scrape it unless visited. */
    method Visit(queue: seq<string>, ghost pages0: seq<Page>, ghost fetched0: seq<string>,
                 ghost newPages: seq<Page>, ghost newFetched: seq<string>, ghost found: set<string>)
      returns (q: seq<string>, ghost newPages': seq<Page>, ghost newFetched': seq<string>, ghost found': set<string>)
      requires queue != [] && |visited| < maxPages
      requires Valid() && Crawling(queue, pages0, fetched0, newPages, newFetched, found)
      modifies this`visited, this`fetched, this`pages
      ensures Valid() && Crawling(q, pages0, fetched0, newPages', newFetched', found')
      ensures |visited| > |old(visited)| || (|visited| == |old(visited)| && |q| < |queue|)
    {
      var url := queue[0];
      q := queue[1..];
      if url in visited {
        newPages', newFetched', found' := newPages, newFetched, found;
        return;
      }
      ghost var before := fetched;
      var pageData := ScrapePage(url);
      Associative(fetched0, newFetched, [url]);
      newFetched' := newFetched + [url];
      newPages', found' := newPages, found;
      if pageData.Some? {
        q, newPages', found' := Keep(pageData.value, q, before, pages0, fetched0, newPages, newFetched', found);
      }
    }

    /** A scraped page is kept and its unvisited links are queued. */
    method Keep(page: Page, queue: seq<string>, ghost before: seq<string>, ghost pages0: seq<Page>,
                ghost fetched0: seq<string>, ghost newPages: seq<Page>, ghost newFetched: seq<string>,
                ghost found: set<string>)
      returns (q: seq<string>, ghost newPages': seq<Page>, ghost found': set<string>)
      requires Valid() && fetched == before + [page.url] && PageOf(web, baseUrls, page.url) == Some(page)
      requires forall k :: 0 <= k < |pages| ==> pages[k].url in before
      requires pages == pages0 + newPages && fetched == fetched0 + newFetched
      requires forall u :: u in queue ==> u in baseUrls || Crawlable(web, baseUrls, u)
      requires forall u :: u in baseUrls ==> u in visited || u in queue
      requires forall k :: 0 <= k < |newPages| ==> forall u :: u in newPages[k].links ==> u in found
      requires forall u :: u in found ==> Crawlable(web, baseUrls, u) && (u in visited || u in queue)
      modifies this`pages
      ensures Valid() && pages == pages0 + newPages'
      ensures forall u :: u in q ==> u in baseUrls || Crawlable(web, baseUrls, u)
      ensures forall u :: u in baseUrls ==> u in visited || u in q
      ensures forall k :: 0 <= k < |newPages'| ==> forall u :: u in newPages'[k].links ==> u in found'
      ensures forall u :: u in found' ==> Crawlable(web, baseUrls, u) && (u in visited || u in q)
    {
      DistinctLast(before, page.url);
      assert page.url !in Urls(pages) by {
        forall k | 0 <= k < |pages| ensures Urls(pages)[k] != page.url {
          assert pages[k].url in before;
        }
      }
      AppendPage(page);
      Associative(pages0, newPages, [page]);
      newPages' := newPages + [page];
      found' := found + set u | u in page.links;
      q := Enqueue(queue, page.links);
    }

    /** `self.pages.append(page_data)` for a page just fetched. */
    method AppendPage(page: Page)
      requires Valid() && page.url in fetched && page.url !in Urls(pages)
      requires PageOf(web, baseUrls, page.url) == Some(page)
      modifies this`pages
      ensures Valid() && pages == old(pages) + [page]
    {
      ghost var urls := Urls(pages);
      pages := pages + [page];
      assert Urls(pages) == urls + [page.url];
      DistinctSnoc(urls, page.url);
    }

    /** The links of a page that are not visited yet, appended to the queue in order. */
    method Enqueue(queue: seq<string>, links: seq<string>) returns (q: seq<string>)
      ensures forall u :: u in q <==> u in queue || (u in links && u !in visited)
      ensures |q| >= |queue| && q[..|queue|] == queue
    {
      q := queue;
      for i := 0 to |links|
        invariant forall u :: u in q <==> u in queue || (u in links[..i] && u !in visited)
        invariant |q| >= |queue| && q[..|queue|] == queue
      {
        assert links[..i + 1] == links[..i] + [links[i]];
        if links[i] !in visited {
          q := q + [links[i]];
        }
      }
      assert links[..|links|] == links;
    }
  }
}
