/** `WebScrapingService` (kajix-api/src/web-scraping/web-scraping.service.ts):
    the browser it launches lazily and tears down, the crawl that fills a
    visited set and a list of pages in place, and the loop that attaches
    Markdown to each page and stores it. */
module WebScraping {
  import opened Common
  import opened Prisma
  import opened Crawler

  /** A browser tab: the URLs it was sent to, and whether it was closed. */
  class Page {
    var history: seq<Url>
    var closed: bool

    constructor ()
      ensures history == [] && !closed
    {
      history, closed := [], false;
    }

    /** `page.goto(url)`: the tab moves to `url`; the failure, if any, is
        what loading that URL throws. */
    method Goto(web: Web, url: Url) returns (failure: Option<Failure>)
      modifies this
      ensures history == old(history) + [url] && closed == old(closed)
      ensures failure == Visit(web, url).navigation
      ensures url !in web.pages ==> failure.Some?
    {
      history := history + [url];
      failure := Visit(web, url).navigation;
    }

    method Close()
      modifies this
      ensures closed && history == old(history)
    {
      closed := true;
    }
  }

  /** A launched browser and the tabs opened in it, in order. */
  class Browser {
    var pages: seq<Page>
    var closed: bool

    constructor ()
      ensures pages == [] && !closed
    {
      pages, closed := [], false;
    }

    method NewPage() returns (p: Page)
      modifies this
      ensures fresh(p) && p.history == [] && !p.closed
      ensures pages == old(pages) + [p] && closed == old(closed)
    {
      p := new Page();
      pages := pages + [p];
    }

    method Close()
      modifies this
      ensures closed && pages == old(pages)
    {
      closed := true;
    }
  }

  /** The `visitedUrls` set and `scrapedPages` array one crawl shares. */
  class CrawlState {
    var visited: set<Url>
    var pages: seq<PageContent>

    constructor ()
      ensures visited == {} && pages == []
    {
      visited, pages := {}, [];
    }
  }

  /** The crawl state spread over the shared objects and the tab. */
  function Snapshot(st: CrawlState, page: Page): Crawl
    reads st, page
  {
    Crawl(st.visited, st.pages, page.history)
  }

  /** What `scrapeLinks` returns; `scrapedAt` is the clock reading. */
  datatype ScrapingResponse = ScrapingResponse(sourceUrl: Url, content: seq<PageContent>, scrapedAt: int)

  /** `markdown || undefined`: an empty conversion result is not stored. */
  function StoredMarkdown(converted: Option<string>): (r: Option<string>)
    ensures r.Some? <==> converted.Some? && converted.value != ""
    ensures r.Some? ==> r == converted
  {
    if converted.Some? && converted.value != "" then converted else None
  }

  /** The position of the row stored for `url`, if any. */
  function FindScrapped(rows: seq<ScrappedRow>, url: Url): (r: Option<nat>)
    ensures r.Some? ==> r.value < |rows| && rows[r.value].scrappedUrl == url
    ensures r.None? ==> forall k | 0 <= k < |rows| :: rows[k].scrappedUrl != url
  {
    if rows == [] then None
    else if rows[|rows| - 1].scrappedUrl == url then Some(|rows| - 1)
    else FindScrapped(rows[..|rows| - 1], url)
  }

  /** The table after `saveScrappedContent`: a new row when the database
      reports no `fault` and no row has that `scrappedUrl`; otherwise the
      `create` fails (on the unique constraint in the second case) and the
      table is unchanged. */
  function Store(rows: seq<ScrappedRow>, baseUrl: Url, scrappedUrl: Url, html: string,
                 convert: string -> Option<string>, now: int, fault: Option<DbError>): (r: seq<ScrappedRow>)
    ensures r != rows <==> fault.None? && FindScrapped(rows, scrappedUrl).None?
    ensures r != rows ==>
      && |r| == |rows| + 1 && r[..|rows|] == rows
      && r[|rows|].scrappedUrl == scrappedUrl && r[|rows|].baseUrl == baseUrl && r[|rows|].htmlContent == html
      && r[|rows|].markdownContent == StoredMarkdown(convert(html))
    ensures fault.None? ==> FindScrapped(r, scrappedUrl).Some?
  {
    if fault.Some? || FindScrapped(rows, scrappedUrl).Some? then rows
    else rows + [ScrappedRow(|rows|, baseUrl, scrappedUrl, now, html, StoredMarkdown(convert(html)), now, now)]
  }

  /** The table after the post-processing loop: a save for each page whose
      conversion succeeded, in page order. `saveFault(u)` is the error the
      database reports instead of storing the page at `u`. */
  function SaveAll(rows: seq<ScrappedRow>, baseUrl: Url, pages: seq<PageContent>,
                   convert: string -> Option<string>, now: int, saveFault: Url -> Option<DbError>): (r: seq<ScrappedRow>)
    ensures |rows| <= |r| <= |rows| + |pages|
    ensures r[..|rows|] == rows
    decreases |pages|
  {
    if pages == [] then rows
    else
      var next := if convert(pages[0].html).Some? then Store(rows, baseUrl, pages[0].url, pages[0].html, convert, now, saveFault(pages[0].url)) else rows;
      SaveAll(next, baseUrl, pages[1..], convert, now, saveFault)
  }

  /** A page after post-processing: `markdown` set when conversion succeeded. */
  function Annotated(p: PageContent, convert: string -> Option<string>): (r: PageContent)
    ensures r.(markdown := p.markdown) == p
    ensures convert(p.html).Some? ==> r.markdown == convert(p.html)
    ensures convert(p.html).None? ==> r.markdown == p.markdown
  {
    if convert(p.html).Some? then p.(markdown := convert(p.html)) else p
  }

  function WithMarkdown(pages: seq<PageContent>, convert: string -> Option<string>): (r: seq<PageContent>)
    ensures |r| == |pages|
    ensures forall k | 0 <= k < |r| :: r[k] == Annotated(pages[k], convert)
  {
    seq(|pages|, k requires 0 <= k < |pages| => Annotated(pages[k], convert))
  }

  /** Saving keeps the table valid: ids are positions, URLs are unique. */
  lemma {:induction false} SaveAllValid(rows: seq<ScrappedRow>, baseUrl: Url, pages: seq<PageContent>,
                                        convert: string -> Option<string>, now: int, saveFault: Url -> Option<DbError>)
    requires ScrappedValid(rows)
    ensures ScrappedValid(SaveAll(rows, baseUrl, pages, convert, now, saveFault))
    decreases |pages|
  {
    if pages != [] {
      var next := if convert(pages[0].html).Some? then Store(rows, baseUrl, pages[0].url, pages[0].html, convert, now, saveFault(pages[0].url)) else rows;
      SaveAllValid(next, baseUrl, pages[1..], convert, now, saveFault);
    }
  }

  /** After the loop every page whose conversion succeeded and whose save the
      database did not fail has a stored row, and every row it added is for
      such a page, with the seed as `baseUrl`. */
  lemma {:induction false} SaveAllStores(rows: seq<ScrappedRow>, baseUrl: Url, pages: seq<PageContent>,
                                         convert: string -> Option<string>, now: int, saveFault: Url -> Option<DbError>)
    ensures var after := SaveAll(rows, baseUrl, pages, convert, now, saveFault);
      && |rows| <= |after|
      && (forall k | 0 <= k < |pages| && convert(pages[k].html).Some? && saveFault(pages[k].url).None? ::
            FindScrapped(after, pages[k].url).Some?)
      && (forall j | |rows| <= j < |after| ::
            after[j].baseUrl == baseUrl &&
            exists k | 0 <= k < |pages| ::
              pages[k].url == after[j].scrappedUrl && convert(pages[k].html).Some? && saveFault(pages[k].url).None?)
    decreases |pages|
  {
    if pages != [] {
      var next := if convert(pages[0].html).Some? then Store(rows, baseUrl, pages[0].url, pages[0].html, convert, now, saveFault(pages[0].url)) else rows;
      SaveAllStores(next, baseUrl, pages[1..], convert, now, saveFault);
      var after := SaveAll(rows, baseUrl, pages, convert, now, saveFault);
      assert after == SaveAll(next, baseUrl, pages[1..], convert, now, saveFault);
      SaveAllPrefix(next, baseUrl, pages[1..], convert, now, saveFault);
      if convert(pages[0].html).Some? && saveFault(pages[0].url).None? {
        var i := FindScrapped(next, pages[0].url);
        assert i.Some?;
        FindScrappedKept(next, after, pages[0].url);
      }
      forall k | 0 <= k < |pages| && convert(pages[k].html).Some? && saveFault(pages[k].url).None?
        ensures FindScrapped(after, pages[k].url).Some?
      {
        if k > 0 {
          assert pages[1..][k - 1] == pages[k];
        }
      }
      forall j | |rows| <= j < |after|
        ensures after[j].baseUrl == baseUrl
        ensures exists k | 0 <= k < |pages| ::
          pages[k].url == after[j].scrappedUrl && convert(pages[k].html).Some? && saveFault(pages[k].url).None?
      {
        if j < |next| {
          assert after[j] == next[j];
          assert next[j].scrappedUrl == pages[0].url;
        } else {
          var k :| 0 <= k < |pages[1..]| && pages[1..][k].url == after[j].scrappedUrl &&
                   convert(pages[1..][k].html).Some? && saveFault(pages[1..][k].url).None?;
          assert pages[k + 1] == pages[1..][k];
        }
      }
    }
  }

  /** Saving only appends: the rows already stored stay as they are. */
  lemma {:induction false} SaveAllPrefix(rows: seq<ScrappedRow>, baseUrl: Url, pages: seq<PageContent>,
                                         convert: string -> Option<string>, now: int, saveFault: Url -> Option<DbError>)
    ensures rows <= SaveAll(rows, baseUrl, pages, convert, now, saveFault)
    decreases |pages|
  {
    if pages != [] {
      var next := if convert(pages[0].html).Some? then Store(rows, baseUrl, pages[0].url, pages[0].html, convert, now, saveFault(pages[0].url)) else rows;
      SaveAllPrefix(next, baseUrl, pages[1..], convert, now, saveFault);
    }
  }

  lemma FindScrappedKept(rows: seq<ScrappedRow>, more: seq<ScrappedRow>, url: Url)
    requires rows <= more && FindScrapped(rows, url).Some?
    ensures FindScrapped(more, url).Some?
  {
    var i := FindScrapped(rows, url).value;
    assert more[i] == rows[i];
  }

  class WebScrapingService {
    /** The browser, launched on first use; null before that and after teardown. */
    var browser: Browser?
    const db: Database

    constructor (db: Database)
      ensures this.db == db && browser == null
    {
      this.db := db;
      browser := null;
    }

    /** `getBrowser`: launch only when there is none, otherwise reuse it. */
    method GetBrowser() returns (b: Browser)
      modifies this
      ensures browser == b
      ensures old(browser) != null ==> b == old(browser)
      ensures old(browser) == null ==> fresh(b) && b.pages == [] && !b.closed
    {
      if browser == null {
        browser := new Browser();
      }
      b := browser;
    }

    /** `onModuleDestroy`: close the browser, if any, and forget it. */
    method OnModuleDestroy()
      modifies this, browser
      ensures browser == null
      ensures old(browser) != null ==> old(browser).closed && old(browser).pages == old(browser.pages)
    {
      if browser != null {
        browser.Close();
        browser := null;
      }
    }

    /** `saveScrappedContent`: convert (a failure leaves the Markdown out) and
        `create` the row. A `fault` is thrown as it is; a second row for the
        same URL violates the unique constraint on `scrappedUrl`. */
    method SaveScrappedContent(baseUrl: Url, scrappedUrl: Url, html: string,
                               convert: string -> Option<string>, now: int, fault: Option<DbError>)
      returns (r: Result<ScrappedRow>)
      requires db.Valid()
      modifies db`scrapped
      ensures db.Valid()
      ensures db.scrapped == Store(old(db.scrapped), baseUrl, scrappedUrl, html, convert, now, fault)
      ensures r.Err? <==> fault.Some? || FindScrapped(old(db.scrapped), scrappedUrl).Some?
      ensures fault.Some? ==> r == Err(Unhandled(fault.value))
      ensures fault.None? && r.Err? ==> r.error == Unhandled(KnownRequest(UniqueConstraintViolation))
      ensures r.Ok? ==>
        && r.value == db.scrapped[|db.scrapped| - 1] && r.value.scrappedUrl == scrappedUrl
        && r.value.baseUrl == baseUrl && r.value.htmlContent == html
        && r.value.markdownContent == StoredMarkdown(convert(html))
    {
      var markdown := convert(html);
      if fault.Some? {
        return Err(Unhandled(fault.value));
      }
      if FindScrapped(db.scrapped, scrappedUrl).Some? {
        return Err(Unhandled(KnownRequest(UniqueConstraintViolation)));
      }
      var saved := ScrappedRow(|db.scrapped|, baseUrl, scrappedUrl, now, html, StoredMarkdown(markdown), now, now);
      db.scrapped := db.scrapped + [saved];
      r := Ok(saved);
    }

    /** `scrapePage`: visit `url` once, collect it, and follow its same-host
        links depth first; a failure on a linked page is swallowed. */
    method ScrapePage(web: Web, page: Page, url: Url, st: CrawlState) returns (error: Option<Exception>)
      modifies page, st
      ensures Step(Snapshot(st, page), error) == CrawlPage(web, url, old(Snapshot(st, page)))
      ensures page.closed == old(page.closed)
      decreases |web.pages.Keys - st.visited|, 1
    {
      if url in st.visited {
        return None;
      }
      ghost var visited0 := st.visited;
      st.visited := st.visited + {url};
      var navigation := page.Goto(web, url);
      if navigation.Some? {
        return Some(Classify(url, navigation.value));
      }
      // What `extractContent` and `extractLinks` read from the loaded document.
      var loaded := Visit(web, url);
      if loaded.content.Threw? {
        return Some(Classify(url, loaded.content.failure));
      }
      st.pages := st.pages + [Scraped(url, loaded.content.value)];
      if loaded.anchors.Threw? {
        return Some(Classify(url, loaded.anchors.failure));
      }
      var links := ExtractLinks(loaded.anchors.value);
      ghost var final := CrawlLinks(web, url, links, Snapshot(st, page));
      VisitShrinks(web.pages.Keys, visited0, url);
      var i := 0;
      while i < |links|
        invariant 0 <= i <= |links|
        invariant visited0 + {url} <= st.visited
        invariant CrawlLinks(web, url, links[i..], Snapshot(st, page)) == final
        invariant page.closed == old(page.closed)
      {
        var link := links[i];
        assert links[i..][1..] == links[i + 1..];
        if link.Resolved? && link.href !in st.visited && web.hostname(link.href) == web.hostname(url) {
          GrowthShrinks(web.pages.Keys, visited0 + {url}, st.visited);
          var _ := ScrapePage(web, page, link.href, st);
        }
        i := i + 1;
      }
      assert links[i..] == [];
      error := None;
    }

    /** The loop of `scrapeLinks` over `scrapedPages`: each page whose
        conversion succeeds gets its Markdown and is saved; a failed
        conversion or save only skips that page. */
    method PostProcess(st: CrawlState, url: Url, convert: string -> Option<string>, now: int,
                       saveFault: Url -> Option<DbError>)
      requires db.Valid()
      modifies st`pages, db`scrapped
      ensures db.Valid()
      ensures st.pages == WithMarkdown(old(st.pages), convert)
      ensures db.scrapped == SaveAll(old(db.scrapped), url, old(st.pages), convert, now, saveFault)
    {
      ghost var crawled := st.pages;
      ghost var final := SaveAll(db.scrapped, url, crawled, convert, now, saveFault);
      var i := 0;
      while i < |st.pages|
        invariant 0 <= i <= |st.pages| == |crawled|
        invariant forall k | 0 <= k < i :: st.pages[k] == Annotated(crawled[k], convert)
        invariant forall k | i <= k < |crawled| :: st.pages[k] == crawled[k]
        invariant db.Valid()
        invariant SaveAll(db.scrapped, url, crawled[i..], convert, now, saveFault) == final
      {
        var scraped := st.pages[i];
        assert crawled[i..][1..] == crawled[i + 1..];
        var converted := convert(scraped.html);
        if converted.Some? {
          st.pages := st.pages[i := scraped.(markdown := converted)];
          var _ := SaveScrappedContent(url, scraped.url, scraped.html, convert, now, saveFault(scraped.url));
        }
        i := i + 1;
      }
      assert crawled[i..] == [];
    }

    /** `scrapeLinks`: crawl from the seed on one tab, then attach Markdown to
        each page and store it; every crawl failure is rethrown as BadRequest
        with its message, and the tab is closed on both paths. */
    method ScrapeLinks(web: Web, url: Url, convert: string -> Option<string>, now: int,
                       saveFault: Url -> Option<DbError>)
      returns (r: Result<ScrapingResponse>)
      requires db.Valid()
      modifies this, browser, db`scrapped
      ensures db.Valid()
      ensures browser != null && (old(browser) != null ==> browser == old(browser))
      ensures browser.pages != [] && browser.pages[|browser.pages| - 1].closed
      ensures old(browser) != null ==> browser.pages[..|browser.pages| - 1] == old(browser.pages)
      ensures CrawlFrom(web, url).error.Some? ==>
        r == Err(BadRequest(CrawlFrom(web, url).error.value.Message())) && db.scrapped == old(db.scrapped)
      ensures CrawlFrom(web, url).error.None? ==>
        && r == Ok(ScrapingResponse(url, WithMarkdown(CrawlFrom(web, url).state.pages, convert), now))
        && db.scrapped == SaveAll(old(db.scrapped), url, CrawlFrom(web, url).state.pages, convert, now, saveFault)
    {
      var b := GetBrowser();
      var page := b.NewPage();
      var st := new CrawlState();
      var error := ScrapePage(web, page, url, st);
      if error.Some? {
        page.Close();
        return Err(BadRequest(error.value.Message()));
      }
      PostProcess(st, url, convert, now, saveFault);
      page.Close();
      r := Ok(ScrapingResponse(url, st.pages, now));
    }
  }
}
