/** `WebScrapingController` (kajix-api/src/web-scraping/web-scraping.controller.ts):
    the protocol gate in front of the crawler, and the read side over stored
    pages: projection by content type, and clamped pagination ordered by the
    time of the last scrape. */
module ScrapingController {
  import opened Common
  import opened Prisma
  import opened Crawler
  import opened WebScraping

  /** The stored page as the read endpoints see it. */
  datatype ScrappedContentDto = ScrappedContentDto(
    id: nat, baseUrl: Url, scrappedUrl: Url, lastScrappedAt: int, htmlContent: string,
    markdownContent: Option<string>, createdAt: int, updatedAt: int)

  /** The `contentType` query value; anything unrecognised is `Unrecognised`. */
  datatype ContentType = Html | Markdown | Both | Unrecognised

  /** A projected record: the six base fields always, the two contents when
      the content type asks for them (`None` is an absent key). */
  datatype FilteredContent = FilteredContent(
    id: nat, baseUrl: Url, scrappedUrl: Url, lastScrappedAt: int, createdAt: int, updatedAt: int,
    htmlContent: Option<string>, markdownContent: Option<string>)

  /** `toDtoType`: every column as stored, except that a null or empty
      Markdown becomes absent. */
  function ToDtoType(row: ScrappedRow): (d: ScrappedContentDto)
    ensures d.id == row.id && d.baseUrl == row.baseUrl && d.scrappedUrl == row.scrappedUrl
    ensures d.lastScrappedAt == row.lastScrappedAt && d.htmlContent == row.htmlContent
    ensures d.createdAt == row.createdAt && d.updatedAt == row.updatedAt
    ensures d.markdownContent.Some? <==> row.markdownContent.Some? && row.markdownContent.value != ""
    ensures d.markdownContent.Some? ==> d.markdownContent == row.markdownContent
  {
    ScrappedContentDto(row.id, row.baseUrl, row.scrappedUrl, row.lastScrappedAt, row.htmlContent,
                       if row.markdownContent.Some? && row.markdownContent.value != "" then row.markdownContent else None,
                       row.createdAt, row.updatedAt)
  }

  /** `content.markdownContent || undefined`. */
  function PresentMarkdown(d: ScrappedContentDto): Option<string> {
    if d.markdownContent.Some? && d.markdownContent.value != "" then d.markdownContent else None
  }

  /** `filterContent`: HTML adds the HTML only; BOTH adds both; MARKDOWN and
      anything else add the Markdown only. */
  function FilterContent(d: ScrappedContentDto, contentType: ContentType): (r: FilteredContent)
    ensures r.id == d.id && r.baseUrl == d.baseUrl && r.scrappedUrl == d.scrappedUrl
    ensures r.lastScrappedAt == d.lastScrappedAt && r.createdAt == d.createdAt && r.updatedAt == d.updatedAt
    ensures r.htmlContent.Some? <==> contentType == Html || contentType == Both
    ensures r.htmlContent.Some? ==> r.htmlContent.value == d.htmlContent
    ensures contentType == Html ==> r.markdownContent.None?
    ensures contentType != Html ==> r.markdownContent == PresentMarkdown(d)
  {
    var html := if contentType == Html || contentType == Both then Some(d.htmlContent) else None;
    var markdown := if contentType == Html then None else PresentMarkdown(d);
    FilteredContent(d.id, d.baseUrl, d.scrappedUrl, d.lastScrappedAt, d.createdAt, d.updatedAt, html, markdown)
  }

  /** The record a BOTH projection describes. */
  function Restore(f: FilteredContent): ScrappedContentDto
    requires f.htmlContent.Some?
  {
    ScrappedContentDto(f.id, f.baseUrl, f.scrappedUrl, f.lastScrappedAt, f.htmlContent.value,
                       f.markdownContent, f.createdAt, f.updatedAt)
  }

  /** The BOTH projection of a converted row loses nothing. */
  lemma BothRestores(row: ScrappedRow)
    ensures Restore(FilterContent(ToDtoType(row), Both)) == ToDtoType(row)
  {
  }

  /** BOTH is the HTML projection and the MARKDOWN projection put together. */
  lemma BothIsHtmlAndMarkdown(d: ScrappedContentDto)
    ensures FilterContent(d, Both) ==
      FilterContent(d, Html).(markdownContent := FilterContent(d, Markdown).markdownContent)
    ensures FilterContent(d, Unrecognised) == FilterContent(d, Markdown)
  {
  }

  const MaxPageSize: int := 100

  /** `Math.max(1, page)`. */
  function ClampPage(page: int): (r: int)
    ensures r >= 1
    ensures page >= 1 ==> r == page
  {
    if page < 1 then 1 else page
  }

  /** `Math.min(100, Math.max(1, pageSize))`. */
  function ClampPageSize(pageSize: int): (r: int)
    ensures 1 <= r <= MaxPageSize
    ensures 1 <= pageSize <= MaxPageSize ==> r == pageSize
    ensures pageSize > MaxPageSize ==> r == MaxPageSize
  {
    if pageSize < 1 then 1 else if pageSize > MaxPageSize then MaxPageSize else pageSize
  }

  /** `(page - 1) * pageSize`, the number of rows skipped. */
  function PageOffset(page: int, size: nat): nat
    requires page >= 1
  {
    (page - 1) * size
  }

  /** `Math.ceil(total / pageSize)` in integer arithmetic. */
  function CeilDiv(total: nat, size: nat): nat
    requires size > 0
  {
    (total + size - 1) / size
  }

  /** The number of pages is the least that covers every record. */
  lemma CeilDivCovers(total: nat, size: nat)
    requires size > 0
    ensures CeilDiv(total, size) * size >= total
    ensures total > 0 ==> (CeilDiv(total, size) - 1) * size < total
    ensures CeilDiv(total, size) == 0 <==> total == 0
  {
    var q := CeilDiv(total, size);
    var m := total + size - 1;
    assert m == q * size + m % size;
    assert 0 <= m % size < size;
  }

  /** The rows the `baseUrl` filter keeps: all of them when it is absent or empty. */
  function Matching(rows: seq<ScrappedRow>, baseUrl: Option<string>): (r: seq<ScrappedRow>)
    ensures |r| <= |rows|
    ensures !Truthy(baseUrl) ==> r == rows
    ensures Truthy(baseUrl) ==> forall k | 0 <= k < |r| :: r[k].baseUrl == baseUrl.value
  {
    if !Truthy(baseUrl) || rows == [] then rows
    else
      var rest := Matching(rows[1..], baseUrl);
      assert forall k | 1 <= k < |rows| :: rows[k] == rows[1..][k - 1];
      if rows[0].baseUrl == baseUrl.value then [rows[0]] + rest else rest
  }

  /** Whether the `baseUrl` filter keeps a row. */
  predicate Keeps(baseUrl: Option<string>, x: ScrappedRow) {
    !Truthy(baseUrl) || x.baseUrl == baseUrl.value
  }

  /** The filter keeps every kept row as often as it occurs, and no other row. */
  lemma {:induction false} MatchingMultiplicity(rows: seq<ScrappedRow>, baseUrl: Option<string>)
    ensures forall x :: multiset(Matching(rows, baseUrl))[x] == if Keeps(baseUrl, x) then multiset(rows)[x] else 0
    ensures forall x :: x in Matching(rows, baseUrl) <==> x in rows && Keeps(baseUrl, x)
  {
    if Truthy(baseUrl) && rows != [] {
      MatchingMultiplicity(rows[1..], baseUrl);
      assert rows == [rows[0]] + rows[1..];
      assert multiset(rows) == multiset([rows[0]]) + multiset(rows[1..]);
    }
  }

  /** The filter keeps the order of the rows: it distributes over
      concatenation, so each part's kept rows stay in place. */
  lemma {:induction false} MatchingConcat(a: seq<ScrappedRow>, b: seq<ScrappedRow>, baseUrl: Option<string>)
    ensures Matching(a + b, baseUrl) == Matching(a, baseUrl) + Matching(b, baseUrl)
  {
    if a == [] {
      assert a + b == b;
    } else if Truthy(baseUrl) {
      MatchingConcat(a[1..], b, baseUrl);
      assert a == [a[0]] + a[1..];
      assert a + b == [a[0]] + (a[1..] + b);
      MatchingCons(a[0], a[1..], baseUrl);
      MatchingCons(a[0], a[1..] + b, baseUrl);
    }
  }

  lemma MatchingCons(x: ScrappedRow, t: seq<ScrappedRow>, baseUrl: Option<string>)
    requires Truthy(baseUrl)
    ensures Matching([x] + t, baseUrl) == (if x.baseUrl == baseUrl.value then [x] else []) + Matching(t, baseUrl)
  {
    assert ([x] + t)[0] == x && ([x] + t)[1..] == t;
  }

  /** Ordered by `lastScrappedAt`, most recent first. */
  ghost predicate NewestFirst(rows: seq<ScrappedRow>) {
    forall i, j | 0 <= i < j < |rows| :: rows[i].lastScrappedAt >= rows[j].lastScrappedAt
  }

  /** Putting a row in front of a newest-first list that is no newer keeps it newest first. */
  lemma ConsNewestFirst(y: ScrappedRow, s: seq<ScrappedRow>)
    requires NewestFirst(s)
    requires s != [] ==> y.lastScrappedAt >= s[0].lastScrappedAt
    ensures NewestFirst([y] + s)
  {
    var t := [y] + s;
    forall i, j | 0 <= i < j < |t|
      ensures t[i].lastScrappedAt >= t[j].lastScrappedAt
    {
      if i == 0 && j > 1 {
        assert t[j] == s[j - 1];
        assert s[0].lastScrappedAt >= s[j - 1].lastScrappedAt;
      }
    }
  }

  function Insert(x: ScrappedRow, rows: seq<ScrappedRow>): (r: seq<ScrappedRow>)
    ensures multiset(r) == multiset(rows) + multiset{x}
    ensures |r| == |rows| + 1
    ensures r[0] == x || (rows != [] && r[0] == rows[0])
  {
    if rows == [] || x.lastScrappedAt >= rows[0].lastScrappedAt then [x] + rows
    else
      var rest := Insert(x, rows[1..]);
      assert rows == [rows[0]] + rows[1..];
      assert multiset(rest) == multiset(rows[1..]) + multiset{x};
      assert rows[0] in multiset(rows[1..]) + multiset{x} + multiset{rows[0]};
      [rows[0]] + rest
  }

  /** Inserting into a newest-first list keeps it newest first. */
  lemma {:induction false} InsertNewestFirst(x: ScrappedRow, rows: seq<ScrappedRow>)
    requires NewestFirst(rows)
    ensures NewestFirst(Insert(x, rows))
  {
    if rows == [] || x.lastScrappedAt >= rows[0].lastScrappedAt {
      ConsNewestFirst(x, rows);
    } else {
      var tail := rows[1..];
      assert NewestFirst(tail) by {
        forall i, j | 0 <= i < j < |tail|
          ensures tail[i].lastScrappedAt >= tail[j].lastScrappedAt
        {
          assert tail[i] == rows[i + 1] && tail[j] == rows[j + 1];
        }
      }
      InsertNewestFirst(x, tail);
      var rest := Insert(x, tail);
      assert rest[0] == x || rest[0] == rows[1];
      ConsNewestFirst(rows[0], rest);
    }
  }

  /** `orderBy: { lastScrappedAt: 'desc' }`. */
  function ByRecency(rows: seq<ScrappedRow>): (r: seq<ScrappedRow>)
    ensures NewestFirst(r)
    ensures multiset(r) == multiset(rows)
  {
    if rows == [] then []
    else
      assert rows == [rows[0]] + rows[1..];
      InsertNewestFirst(rows[0], ByRecency(rows[1..]));
      Insert(rows[0], ByRecency(rows[1..]))
  }

  /** `skip`/`take`: the records from position `skip`, at most `take` of them. */
  function Window<T>(rows: seq<T>, skip: nat, take: nat): (r: seq<T>)
    ensures |r| <= take
    ensures skip < |rows| ==> |r| == if skip + take <= |rows| then take else |rows| - skip
    ensures skip >= |rows| ==> r == []
    ensures forall k | 0 <= k < |r| :: skip + k < |rows| && r[k] == rows[skip + k]
  {
    if skip >= |rows| then []
    else if skip + take <= |rows| then rows[skip..skip + take]
    else rows[skip..]
  }

  /** Page `p` (from 1) of a list is non-empty exactly when `p` is at most the
      page count reported with it. */
  lemma PageNonEmptyIffCounted(total: nat, page: int, size: int)
    requires page >= 1 && size >= 1
    ensures PageOffset(page, size) < total <==> page <= CeilDiv(total, size)
  {
    CeilDivCovers(total, size);
    var q := CeilDiv(total, size);
    if page <= q {
      assert (page - 1) * size <= (q - 1) * size;
    } else {
      assert (page - 1) * size >= q * size;
    }
  }

  function Project(rows: seq<ScrappedRow>, contentType: ContentType): (r: seq<FilteredContent>)
    ensures |r| == |rows|
    ensures forall k | 0 <= k < |rows| :: r[k] == FilterContent(ToDtoType(rows[k]), contentType)
  {
    seq(|rows|, k requires 0 <= k < |rows| => FilterContent(ToDtoType(rows[k]), contentType))
  }

  datatype Meta = Meta(total: nat, page: int, pageSize: int, totalPages: nat)
  datatype Paginated = Paginated(data: seq<FilteredContent>, meta: Meta)

  /** The URL gate of `scrapeLinks`: what does not parse is 'Invalid URL
      provided', a scheme other than http/https is rejected, and otherwise the
      URL is forwarded in its normalised form. */
  datatype ParsedUrl = ParsedUrl(protocol: string, href: Url)

  function UrlGate(parse: string -> Option<ParsedUrl>, url: string): (r: Result<Url>)
    ensures r.Ok? <==> parse(url).Some? && (parse(url).value.protocol == "http:" || parse(url).value.protocol == "https:")
    ensures r.Ok? ==> r.value == parse(url).value.href
    ensures parse(url).None? ==> r == Err(BadRequest("Invalid URL provided"))
    ensures parse(url).Some? && r.Err? ==> r == Err(BadRequest("URL must use HTTP or HTTPS protocol"))
  {
    match parse(url)
    case None => Err(BadRequest("Invalid URL provided"))
    case Some(parsed) =>
      if parsed.protocol != "http:" && parsed.protocol != "https:" then Err(BadRequest("URL must use HTTP or HTTPS protocol"))
      else Ok(parsed.href)
  }

  /** `findUnique({ where: { id } })` on stored pages. */
  function FindContent(rows: seq<ScrappedRow>, id: nat): (r: Option<ScrappedRow>)
    ensures r.Some? ==> r.value in rows && r.value.id == id
    ensures r.None? ==> forall x | x in rows :: x.id != id
  {
    if rows == [] then None
    else if rows[0].id == id then Some(rows[0])
    else FindContent(rows[1..], id)
  }

  class WebScrapingController {
    const service: WebScrapingService
    const db: Database

    constructor (service: WebScrapingService, db: Database)
      ensures this.service == service && this.db == db
    {
      this.service := service;
      this.db := db;
    }

    /** POST /web-scraping/scrape: the gate, then the service's promise is
        returned as it is, so whatever it throws reaches the caller unchanged. */
    method ScrapeLinks(web: Web, url: string, parse: string -> Option<ParsedUrl>,
                       convert: string -> Option<string>, now: int, saveFault: Url -> Option<DbError>)
      returns (r: Result<ScrapingResponse>)
      requires service.db.Valid()
      modifies service, service.browser, service.db`scrapped
      ensures service.db.Valid()
      ensures UrlGate(parse, url).Err? ==>
        r == Err(UrlGate(parse, url).error) && service.db.scrapped == old(service.db.scrapped) &&
        service.browser == old(service.browser)
      ensures UrlGate(parse, url).Ok? ==>
        var seed := UrlGate(parse, url).value;
        && (CrawlFrom(web, seed).error.Some? ==>
              r == Err(BadRequest(CrawlFrom(web, seed).error.value.Message())) &&
              service.db.scrapped == old(service.db.scrapped))
        && (CrawlFrom(web, seed).error.None? ==>
              r == Ok(ScrapingResponse(seed, WithMarkdown(CrawlFrom(web, seed).state.pages, convert), now)) &&
              service.db.scrapped == SaveAll(old(service.db.scrapped), seed, CrawlFrom(web, seed).state.pages,
                                             convert, now, saveFault))
    {
      var gate := UrlGate(parse, url);
      if gate.Err? {
        return Err(gate.error);
      }
      r := service.ScrapeLinks(web, gate.value, convert, now, saveFault);
    }

    /** GET /web-scraping/content: clamp the paging parameters, count and
        list the matching rows newest first, and project each. `fault` is the
        error the database reports for the `count` or the `findMany`; the
        handler does not catch it. */
    method GetAllContent(baseUrl: Option<string>, page: int, pageSize: int, contentType: ContentType,
                         fault: Option<DbError>)
      returns (r: Result<Paginated>)
      ensures r.Ok? <==> fault.None?
      ensures fault.Some? ==> r == Err(Unhandled(fault.value))
      ensures r.Ok? ==>
        && r.value.meta.page >= 1 && 1 <= r.value.meta.pageSize <= MaxPageSize
        && r.value.meta.page == ClampPage(page) && r.value.meta.pageSize == ClampPageSize(pageSize)
        && r.value.meta.total == |Matching(db.scrapped, baseUrl)|
        && r.value.meta.totalPages == CeilDiv(r.value.meta.total, r.value.meta.pageSize)
        && |r.value.data| <= r.value.meta.pageSize
        && r.value.data == Project(Window(ByRecency(Matching(db.scrapped, baseUrl)),
                                          PageOffset(r.value.meta.page, r.value.meta.pageSize),
                                          r.value.meta.pageSize), contentType)
    {
      if fault.Some? {
        return Err(Unhandled(fault.value));
      }
      var p := ClampPage(page);
      var size := ClampPageSize(pageSize);
      var matching := Matching(db.scrapped, baseUrl);
      var total := |matching|;
      var contents := Window(ByRecency(matching), PageOffset(p, size), size);
      r := Ok(Paginated(Project(contents, contentType), Meta(total, p, size, CeilDiv(total, size))));
    }

    /** GET /web-scraping/content/:id: a miss is a BadRequest, not a NotFound.
        `fault` is the error the database reports for the `findUnique`; the
        handler does not catch it. */
    method GetContentById(id: nat, contentType: ContentType, fault: Option<DbError>)
      returns (r: Result<FilteredContent>)
      ensures fault.Some? ==> r == Err(Unhandled(fault.value))
      ensures r.Err? <==> fault.Some? || FindContent(db.scrapped, id).None?
      ensures fault.None? && r.Err? ==> r.error == BadRequest("Content with ID " + NatToString(id) + " not found")
      ensures r.Ok? ==> exists row | row in db.scrapped && row.id == id ::
        r.value == FilterContent(ToDtoType(row), contentType)
    {
      if fault.Some? {
        return Err(Unhandled(fault.value));
      }
      var content := FindContent(db.scrapped, id);
      if content.None? {
        return Err(BadRequest("Content with ID " + NatToString(id) + " not found"));
      }
      r := Ok(FilterContent(ToDtoType(content.value), contentType));
    }
  }
}
