/** The same-host depth-first crawl of `WebScrapingService.scrapePage`
    (kajix-api/src/web-scraping/web-scraping.service.ts), stated as a pair of
    reference functions over a finite model of the web. The browser is
    replaced by `Web`: for each URL it can load, what navigation, content
    extraction and link extraction yield; every other URL fails to load. */
module Crawler {
  import opened Common

  type Url = string

  /** `MAX_LINKS_PER_PAGE` (web-scraping.constants.ts). */
  const MaxLinksPerPage: nat := 1000

  /** An error thrown by the browser: its `name` and `message`. */
  datatype Failure = Failure(name: string, message: string)

  /** The outcome of a browser step that either yields a value or throws. */
  datatype Outcome<T> = Done(value: T) | Threw(failure: Failure)

  /** An anchor's `href` resolved against the page it sits on (`new URL(href, url)`):
      an absolute URL, or the error the URL parser throws. */
  datatype Link = Resolved(href: Url) | Unresolvable(message: string)

  /** What `extractContent` reads from a loaded page. */
  datatype Extracted = Extracted(title: Option<string>, description: Option<string>, text: string, html: string)

  /** How a page behaves when visited: the navigation failure, if any; the
      outcome of content extraction; the anchors of the document in order. */
  datatype PageSource = PageSource(navigation: Option<Failure>, content: Outcome<Extracted>, anchors: Outcome<seq<Link>>)

  /** The web as the crawler sees it. URLs outside `pages` fail to load with
      `unreachable`; `hostname` is what `new URL(u).hostname` gives. */
  datatype Web = Web(pages: map<Url, PageSource>, unreachable: Failure, hostname: Url -> string)

  /** An entry of `scrapedPages` (the `PageContent` type). */
  datatype PageContent = PageContent(
    url: Url, isExternal: bool, title: Option<string>, description: Option<string>,
    text: string, html: string, markdown: Option<string>)

  /** The shared state of a crawl: `visitedUrls`, `scrapedPages`, and the
      URLs the page handle was navigated to, in order. */
  datatype Crawl = Crawl(visited: set<Url>, pages: seq<PageContent>, navigated: seq<Url>)

  /** The state after a `scrapePage` call, and what it threw. */
  datatype Step = Step(state: Crawl, error: Option<Exception>)

  const Unvisited: Crawl := Crawl({}, [], [])

  /** `extractLinks`: the first `MAX_LINKS_PER_PAGE` anchors in document order. */
  function ExtractLinks(anchors: seq<Link>): (r: seq<Link>)
    ensures r <= anchors
    ensures |r| <= MaxLinksPerPage
    ensures |anchors| <= MaxLinksPerPage ==> r == anchors
    ensures |anchors| > MaxLinksPerPage ==> |r| == MaxLinksPerPage
  {
    if |anchors| <= MaxLinksPerPage then anchors else anchors[..MaxLinksPerPage]
  }

  /** The catch block of `scrapePage`: a timeout becomes RequestTimeout, a
      navigation error or any other error becomes BadRequest that keeps the
      original message at its end. */
  function Classify(url: Url, f: Failure): (e: Exception)
    ensures e.RequestTimeout? <==> f.name == "TimeoutError"
    ensures !e.RequestTimeout? ==>
      e.BadRequest? && |f.message| < |e.message| && e.message[|e.message| - |f.message|..] == f.message
  {
    if f.name == "TimeoutError" then RequestTimeout("Navigation timeout for " + url)
    else if f.name == "NavigationError" then BadRequest("Failed to navigate to " + url + ": " + f.message)
    else BadRequest("Failed to scrape " + url + ": " + f.message)
  }

  /** What visiting `url` yields: its page, or a page that fails to load. */
  function Visit(web: Web, url: Url): (p: PageSource)
    ensures url !in web.pages ==> p.navigation == Some(web.unreachable)
    ensures url in web.pages ==> p == web.pages[url]
  {
    if url in web.pages then web.pages[url]
    else PageSource(Some(web.unreachable), Threw(web.unreachable), Threw(web.unreachable))
  }

  /** The first failure among the steps taken on the page itself. */
  function OwnFailure(p: PageSource): Option<Failure> {
    if p.navigation.Some? then p.navigation
    else if p.content.Threw? then Some(p.content.failure)
    else if p.anchors.Threw? then Some(p.anchors.failure)
    else None
  }

  function Scraped(url: Url, c: Extracted): PageContent {
    PageContent(url, false, c.title, c.description, c.text, c.html, None)
  }

  /** The link loop follows a link when it resolved, is not yet visited, and
      has the hostname of the page it sits on. */
  predicate Follows(web: Web, base: Url, link: Link, visited: set<Url>) {
    link.Resolved? && link.href !in visited && web.hostname(link.href) == web.hostname(base)
  }

  lemma SubsetCardinality<T>(a: set<T>, b: set<T>)
    requires a <= b
    ensures |a| <= |b|
  {
    if a != {} {
      var x :| x in a;
      SubsetCardinality(a - {x}, b - {x});
    }
  }

  lemma VisitShrinks(u: set<Url>, visited: set<Url>, url: Url)
    requires url in u && url !in visited
    ensures |u - (visited + {url})| < |u - visited|
  {
    assert u - visited == (u - (visited + {url})) + {url};
  }

  lemma GrowthShrinks(u: set<Url>, v: set<Url>, w: set<Url>)
    requires v <= w
    ensures |u - w| <= |u - v|
  {
    SubsetCardinality(u - w, u - v);
  }

  /** `scrapePage(page, url, visitedUrls, scrapedPages)` as a function of the
      shared state. */
  function CrawlPage(web: Web, url: Url, s: Crawl): (r: Step)
    ensures s.visited <= r.state.visited && url in r.state.visited
    ensures s.pages <= r.state.pages && s.navigated <= r.state.navigated
    ensures url in s.visited ==> r == Step(s, None)
    decreases |web.pages.Keys - s.visited|, 1, 0
  {
    if url in s.visited then Step(s, None)
    else
      var s1 := Crawl(s.visited + {url}, s.pages, s.navigated + [url]);
      var src := Visit(web, url);
      if src.navigation.Some? then Step(s1, Some(Classify(url, src.navigation.value)))
      else if src.content.Threw? then Step(s1, Some(Classify(url, src.content.failure)))
      else
        var s2 := s1.(pages := s1.pages + [Scraped(url, src.content.value)]);
        if src.anchors.Threw? then Step(s2, Some(Classify(url, src.anchors.failure)))
        else
          VisitShrinks(web.pages.Keys, s.visited, url);
          Step(CrawlLinks(web, url, ExtractLinks(src.anchors.value), s2), None)
  }

  /** The `for (const link of rawLinks)` loop of `scrapePage`: a link that does
      not resolve, and any failure of the recursive call, is swallowed. */
  function CrawlLinks(web: Web, base: Url, links: seq<Link>, s: Crawl): (r: Crawl)
    ensures s.visited <= r.visited
    ensures s.pages <= r.pages && s.navigated <= r.navigated
    decreases |web.pages.Keys - s.visited| + 1, 0, |links|
  {
    if links == [] then s
    else
      var next := if Follows(web, base, links[0], s.visited) then CrawlPage(web, links[0].href, s).state else s;
      GrowthShrinks(web.pages.Keys, s.visited, next.visited);
      CrawlLinks(web, base, links[1..], next)
  }

  /** The crawl started by `scrapeLinks`: from the seed with empty state. */
  function CrawlFrom(web: Web, seed: Url): (r: Step)
    ensures r.state.navigated != [] && r.state.navigated[0] == seed
    ensures r.state.pages != [] ==> r.state.pages[0].url == seed
    ensures r.error.Some? <==> OwnFailure(Visit(web, seed)).Some?
  {
    CrawlPageSeedFirst(web, seed, Unvisited);
    CrawlPageErrors(web, seed, Unvisited);
    CrawlPage(web, seed, Unvisited)
  }

  /** A visit starts by navigating to `url`; the page it scrapes, if any,
      comes before every page reached through its links (pre-order). */
  lemma CrawlPageSeedFirst(web: Web, url: Url, s: Crawl)
    requires url !in s.visited
    ensures |CrawlPage(web, url, s).state.navigated| > |s.navigated|
    ensures CrawlPage(web, url, s).state.navigated[|s.navigated|] == url
    ensures |CrawlPage(web, url, s).state.pages| > |s.pages| ==> CrawlPage(web, url, s).state.pages[|s.pages|].url == url
  {
    var s1 := Crawl(s.visited + {url}, s.pages, s.navigated + [url]);
    var src := Visit(web, url);
    if src.navigation.None? && src.content.Done? {
      var s2 := s1.(pages := s1.pages + [Scraped(url, src.content.value)]);
      if src.anchors.Done? {
        var r := CrawlLinks(web, url, ExtractLinks(src.anchors.value), s2);
        assert r.navigated[|s.navigated|] == s2.navigated[|s.navigated|];
        assert r.pages[|s.pages|] == s2.pages[|s.pages|];
      }
    }
  }

  /** Only a failure on the page itself surfaces, classified; failures on the
      pages reached through its links never do. */
  lemma CrawlPageErrors(web: Web, url: Url, s: Crawl)
    ensures CrawlPage(web, url, s).error.Some? <==> url !in s.visited && OwnFailure(Visit(web, url)).Some?
    ensures CrawlPage(web, url, s).error.Some? ==>
      CrawlPage(web, url, s).error.value == Classify(url, OwnFailure(Visit(web, url)).value)
  {
  }

  /** The bookkeeping of a crawl agrees with itself: no URL is navigated twice,
      the visited set is exactly the navigated URLs, and every scraped page is
      a distinct visited URL. */
  ghost predicate Consistent(s: Crawl) {
    && (forall i, j | 0 <= i < j < |s.navigated| :: s.navigated[i] != s.navigated[j])
    && (forall u :: u in s.navigated <==> u in s.visited)
    && (forall i, j | 0 <= i < j < |s.pages| :: s.pages[i].url != s.pages[j].url)
    && (forall i | 0 <= i < |s.pages| :: s.pages[i].url in s.visited)
  }

  lemma EnterConsistent(s: Crawl, url: Url)
    requires Consistent(s) && url !in s.visited
    ensures Consistent(Crawl(s.visited + {url}, s.pages, s.navigated + [url]))
  {
    var n := s.navigated + [url];
    forall i, j | 0 <= i < j < |n|
      ensures n[i] != n[j]
    {
      if j == |s.navigated| {
        assert n[i] == s.navigated[i] && s.navigated[i] in s.visited;
      }
    }
  }

  lemma PushConsistent(s: Crawl, p: PageContent)
    requires Consistent(s) && p.url in s.visited
    requires forall i | 0 <= i < |s.pages| :: s.pages[i].url != p.url
    ensures Consistent(s.(pages := s.pages + [p]))
  {
  }

  lemma {:induction false} CrawlPageConsistent(web: Web, url: Url, s: Crawl)
    requires Consistent(s)
    ensures Consistent(CrawlPage(web, url, s).state)
    decreases |web.pages.Keys - s.visited|, 1, 0
  {
    if url !in s.visited {
      var s1 := Crawl(s.visited + {url}, s.pages, s.navigated + [url]);
      EnterConsistent(s, url);
      var src := Visit(web, url);
      if src.navigation.Some? || src.content.Threw? {
        assert CrawlPage(web, url, s).state == s1;
      } else {
        var s2 := s1.(pages := s1.pages + [Scraped(url, src.content.value)]);
        PushConsistent(s1, Scraped(url, src.content.value));
        if src.anchors.Threw? {
          assert CrawlPage(web, url, s).state == s2;
        } else {
          VisitShrinks(web.pages.Keys, s.visited, url);
          CrawlLinksConsistent(web, url, ExtractLinks(src.anchors.value), s2);
          assert CrawlPage(web, url, s).state == CrawlLinks(web, url, ExtractLinks(src.anchors.value), s2);
        }
      }
    }
  }

  lemma {:induction false} CrawlLinksConsistent(web: Web, base: Url, links: seq<Link>, s: Crawl)
    requires Consistent(s)
    ensures Consistent(CrawlLinks(web, base, links, s))
    decreases |web.pages.Keys - s.visited| + 1, 0, |links|
  {
    if links != [] {
      var next := if Follows(web, base, links[0], s.visited) then CrawlPage(web, links[0].href, s).state else s;
      if Follows(web, base, links[0], s.visited) {
        CrawlPageConsistent(web, links[0].href, s);
      }
      GrowthShrinks(web.pages.Keys, s.visited, next.visited);
      CrawlLinksConsistent(web, base, links[1..], next);
    }
  }

  /** Every page a crawl step adds is internal and on the host of `url`. */
  ghost predicate AddedOnHost(web: Web, host: string, before: seq<PageContent>, after: seq<PageContent>)
    requires before <= after
  {
    forall k | |before| <= k < |after| :: !after[k].isExternal && web.hostname(after[k].url) == host
  }

  lemma {:induction false} CrawlPageOnHost(web: Web, url: Url, s: Crawl)
    ensures AddedOnHost(web, web.hostname(url), s.pages, CrawlPage(web, url, s).state.pages)
    decreases |web.pages.Keys - s.visited|, 1, 0
  {
    if url !in s.visited {
      var s1 := Crawl(s.visited + {url}, s.pages, s.navigated + [url]);
      var src := Visit(web, url);
      if src.navigation.None? && src.content.Done? && src.anchors.Done? {
        var s2 := s1.(pages := s1.pages + [Scraped(url, src.content.value)]);
        VisitShrinks(web.pages.Keys, s.visited, url);
        CrawlLinksOnHost(web, url, ExtractLinks(src.anchors.value), s2);
      }
    }
  }

  lemma {:induction false} CrawlLinksOnHost(web: Web, base: Url, links: seq<Link>, s: Crawl)
    ensures AddedOnHost(web, web.hostname(base), s.pages, CrawlLinks(web, base, links, s).pages)
    decreases |web.pages.Keys - s.visited| + 1, 0, |links|
  {
    if links != [] {
      var next := if Follows(web, base, links[0], s.visited) then CrawlPage(web, links[0].href, s).state else s;
      if Follows(web, base, links[0], s.visited) {
        CrawlPageOnHost(web, links[0].href, s);
      }
      GrowthShrinks(web.pages.Keys, s.visited, next.visited);
      CrawlLinksOnHost(web, base, links[1..], next);
    }
  }

  /** What a whole crawl from a seed promises: the seed comes first, every
      scraped page is internal, on the seed's host, visited exactly once. */
  lemma CrawlFromSeed(web: Web, seed: Url)
    ensures var r := CrawlFrom(web, seed).state;
      && Consistent(r)
      && (r.pages != [] ==> r.pages[0].url == seed)
      && (forall k | 0 <= k < |r.pages| :: !r.pages[k].isExternal && web.hostname(r.pages[k].url) == web.hostname(seed))
  {
    CrawlPageConsistent(web, seed, Unvisited);
    CrawlPageOnHost(web, seed, Unvisited);
  }
}
