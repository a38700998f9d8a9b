# kajix API core in Dafny

This project models the server-side core of kajix, a NestJS API. The model covers five areas.

- **Session tokens** (`AuthService`, `AuthController`). Login stores a pair of tokens: an access token valid for 15 minutes and a refresh token valid for 7 days. Refresh redeems a refresh token once and issues a new pair. Logout revokes both tokens of a user. The controller parses the `Authorization` header and runs the input checks before it calls the service.
- **Web scraping** (`WebScrapingService`, `WebScrapingController`). The crawl is depth first and stays on the seed's host. It shares a visited set and a list of pages, and each page is visited once. After the crawl, each page gets its Markdown and is stored. The read side projects stored pages by content type and pages through them, newest first, with clamped paging parameters.
- **Users** (`UsersService`). It covers the URL-safe random token, the localised verification email, and the verification flow: store an email-confirmation token, then mail a link to it. It also covers `create`, `update` and `remove`, which map database errors to HTTP exceptions.
- **LLM catalogue** (`LLMsService`). Create, read, update and delete for LLM companies and their models, the error each Prisma code becomes, and the company check made before a model is written.
- **Standard LLM types** (`StdLlmTypeService`). Create, read, update and delete for the types, the active types, and the models of a type.

The code is modelled in the form it has.

- **The database.** It is one class, `Prisma.Database`, whose fields are the tables. Its `Valid()` predicate states the constraints the database enforces:
  - unique ids, emails, usernames, company names and scraped URLs;
  - foreign keys from models to companies and types.

  `Valid()` also holds one invariant of the model that the schema does not enforce: no two access or refresh rows of the same type carry the same token. Tokens are looked up with `findFirst`, and email-confirmation rows are exempt. The invariant is kept because every newly issued token is required not to occur in the table yet (`Unissued`). The replay lemmas rely on it.

  The services hold the database and change only the tables their `modifies` clauses name.
- **Crawl state and the browser.** The crawl's shared state and the browser tab are classes that the crawl updates in place. `ScrapePage` and `PostProcess` are loops. Each is proved equal to a reference function (`Crawler.CrawlPage`, `WebScraping.SaveAll`), and the crawl's properties are proved about those functions.
- **Pure computation.** Error mappings, projections, pagination, base 64 and header parsing are functions with contracts.

Things outside the code become parameters:

- **The database:** `fault`, the error it reports instead of carrying out a call. The crawl's saves take `saveFault`, which gives that error for each page URL.
- **JWT:** the outcome of `verify` and of `decode`.
- **bcrypt:** the password comparison, `passwordMatches`.
- **crypto:** the random bytes.
- **The HTML-to-Markdown service:** `convert`.
- **The URL parser:** `parse`.
- **The browser:** `Web`, the pages it can load, with what each one yields.
- **Mail delivery:** the failure reason, if any.
- **The environment:** `FRONTEND_URL` and `MAIL_FROM`.
- **The clock:** `now`, in milliseconds.

## Model

| member | source | states |
|---|---|---|
| Auth.IssuedPair | kajix-api/src/auth/auth.service.ts:36-79 | The two rows login stores: an access row that expires 15 minutes from now and a refresh row that expires 7 days from now. Both are for the user's email, sent by the system sender, with locale `en`, and neither flag is set. |
| Auth.Revoke | kajix-api/src/auth/auth.service.ts:171-192 | The `updateMany` of logout marks used and expired exactly the rows matching (token, type, email). Every other row is unchanged and no row is added. |
| Auth.RedeemedNeverRedeemable | kajix-api/src/auth/auth.service.ts:92-113 | Once a refresh row is marked used, no later table the service's writes can reach has an unflagged refresh row for that token. |
| Auth.ReplayRejected | kajix-api/src/auth/auth.service.ts:84-107 | A refresh token that has been redeemed once never passes the checks of `refreshToken` again, whatever user id or verification comes with it. |
| Auth.EvolvesTransitive | kajix-api/src/auth/auth.service.ts:163-197 | The allowed table changes (append rows; set flags, never clear them) compose. |
| Auth.LogoutIdempotent | kajix-api/src/auth/auth.service.ts:169-193 | Logging out twice with the same tokens leaves the same table as logging out once. |
| Auth.LogoutRevokesRefresh | kajix-api/src/auth/auth.service.ts:182-192 | After logout, the user's refresh token counts as redeemed, and the table changed only in the allowed way. |
| Auth.AuthService.ValidateUser | kajix-api/src/auth/auth.service.ts:18-34 | A user record comes back iff a user with that email exists and the password matches its hash. That record is the user found by email, without password or salt. |
| Auth.AuthService.Login | kajix-api/src/auth/auth.service.ts:36-79 | Appends exactly the issued pair, keeps the database valid, and returns both tokens with the user. |
| Auth.AuthService.StorePair | kajix-api/src/auth/auth.service.ts:126-147 | Stores the access row and then the refresh row after every existing row. The session-token uniqueness invariant is preserved because both tokens are new. |
| Auth.AuthService.Refresh | kajix-api/src/auth/auth.service.ts:81-161 | Succeeds iff the verified `sub` is the user id, the first refresh row for the token is unflagged, and the user exists. On success only that row is marked used, a new pair is appended, and the token can never be redeemed again. Every failure is Unauthorized('Invalid refresh token') and leaves the table as it was. |
| Auth.AuthService.Logout | kajix-api/src/auth/auth.service.ts:163-197 | A missing user is Unauthorized('User not found') and changes nothing. Otherwise both tokens of the user's email are revoked and the result is true. |
| AuthController.Split | kajix-api/src/auth/auth.controller.ts:54 | `split(' ')` yields at least one field, and no field contains the separator. |
| AuthController.JoinSplit | kajix-api/src/auth/auth.controller.ts:54 | Splitting loses nothing: joining the fields gives back the header. |
| AuthController.SplitJoin | kajix-api/src/auth/auth.controller.ts:54 | Splitting a join of separator-free fields gives back those fields. |
| AuthController.SecondField | kajix-api/src/auth/auth.controller.ts:54 | Field 1 of a string that contains a space is the text between its first space and the next space or the end. |
| AuthController.AccessTokenFromHeader | kajix-api/src/auth/auth.controller.ts:53-54 | There is no token iff the header is absent or has no space. Otherwise the token is the space-free second field of the header. |
| AuthController.LogoutCheck | kajix-api/src/auth/auth.controller.ts:49-62 | Rejects with Unauthorized('Missing tokens') iff the access token or the body refresh token is missing or empty. Otherwise it forwards the authenticated id and both tokens unchanged. |
| AuthController.RefreshCheck | kajix-api/src/auth/auth.controller.ts:64-84 | A token that does not decode, or whose `sub` is missing or 0, is Unauthorized('Invalid refresh token'). Otherwise the service is called with that `sub`. |
| AuthController.LoginCheck | kajix-api/src/auth/auth.controller.ts:38-47 | No validated user is Unauthorized('Invalid credentials'); a validated user is passed on unchanged. |
| AuthController.AuthController.Login | kajix-api/src/auth/auth.controller.ts:38-47 | Fails with Unauthorized('Invalid credentials') iff no user has that email and a matching password, and then changes nothing. On success the response carries the two new tokens and the user found by email, without password or salt, and exactly that pair is appended to the token table. |
| AuthController.AuthController.Logout | kajix-api/src/auth/auth.controller.ts:49-62 | Missing tokens change nothing. With both tokens but no user for the authenticated id, the result is Unauthorized('User not found') and nothing changes. With both tokens and an existing user, the result is true and both tokens are revoked. |
| AuthController.AuthController.Refresh | kajix-api/src/auth/auth.controller.ts:64-84 | Succeeds iff the token decodes to a payload with a non-zero `sub` and the service can redeem it: the verified `sub` is the user id, the first refresh row for the token is unflagged and the user exists. On success that row alone is marked used, the new pair for the user's email is appended, and the response carries the new tokens and the user without password or salt. Every failure is Unauthorized('Invalid refresh token') and changes nothing. A token that was already redeemed is always rejected. |
| Crawler.ExtractLinks | kajix-api/src/web-scraping/web-scraping.service.ts:220-235 | The anchors in document order: all of them when there are at most 1000, else the first 1000. |
| Crawler.Classify | kajix-api/src/web-scraping/web-scraping.service.ts:134-152 | A `TimeoutError` becomes RequestTimeout. Every other error becomes BadRequest, and its message ends with the original message. |
| Crawler.CrawlPage | kajix-api/src/web-scraping/web-scraping.service.ts:91-153 | A crawl step only grows the visited set, the page list and the navigation history, and the URL ends up visited. A visited URL changes nothing. |
| Crawler.CrawlLinks | kajix-api/src/web-scraping/web-scraping.service.ts:117-132 | The link loop only grows the visited set, the page list and the navigation history. |
| Crawler.CrawlPageSeedFirst | kajix-api/src/web-scraping/web-scraping.service.ts:97-114 | Visiting a new URL first navigates to it. The page it scrapes comes before every page reached through its links. |
| Crawler.CrawlPageErrors | kajix-api/src/web-scraping/web-scraping.service.ts:103-152 | A step throws iff the URL is new and loading it, reading its content or reading its links fails, and the error is that failure classified. Failures on linked pages never surface. |
| Crawler.CrawlPageConsistent | kajix-api/src/web-scraping/web-scraping.service.ts:97-132 | A crawl step keeps the bookkeeping consistent: no URL is navigated twice, the visited set is exactly the navigated URLs, and each scraped page is a distinct visited URL. |
| Crawler.CrawlLinksConsistent | kajix-api/src/web-scraping/web-scraping.service.ts:119-132 | The link loop keeps the bookkeeping consistent. |
| Crawler.CrawlPageOnHost | kajix-api/src/web-scraping/web-scraping.service.ts:118-128 | Every page a step adds is internal and on the host of the URL it started from. |
| Crawler.CrawlLinksOnHost | kajix-api/src/web-scraping/web-scraping.service.ts:119-128 | Every page the link loop adds is internal and on the host of the page whose links it follows. |
| Crawler.CrawlFrom | kajix-api/src/web-scraping/web-scraping.service.ts:161-170 | The crawl from empty state navigates to the seed first; the first scraped page, if any, is the seed; it fails iff loading the seed page itself fails. |
| Crawler.CrawlFromSeed | kajix-api/src/web-scraping/web-scraping.service.ts:161-170 | A whole crawl starts with the seed. Every page it scrapes is internal, on the seed's host and scraped once. |
| WebScraping.Page.Goto | kajix-api/src/web-scraping/web-scraping.service.ts:104-107 | The tab records the URL. It fails exactly as loading that URL fails, and it always fails for a URL the web does not have. |
| WebScraping.Browser.NewPage | kajix-api/src/web-scraping/web-scraping.service.ts:166 | Opens a fresh, unused tab and adds it to the browser. |
| WebScraping.StoredMarkdown | kajix-api/src/web-scraping/web-scraping.service.ts:59-79 | Markdown is stored iff the conversion succeeded with a non-empty text. |
| WebScraping.FindScrapped | kajix-api/src/web-scraping/web-scraping.service.ts:73-80 | Finds the stored row for a URL, or establishes that there is none. |
| WebScraping.Annotated | kajix-api/src/web-scraping/web-scraping.service.ts:176-185 | Only `markdown` changes: it is set to the converted text when the conversion succeeds, and otherwise left as it was. |
| WebScraping.WithMarkdown | kajix-api/src/web-scraping/web-scraping.service.ts:172-200 | The pages keep their order and number, and each one is annotated. |
| WebScraping.Store | kajix-api/src/web-scraping/web-scraping.service.ts:54-86 | The table changes iff the database reports no fault and the URL is not yet stored; it then gains one row at the end, for that URL and base URL, with the HTML and the stored Markdown. Without a fault the URL is stored afterwards. |
| WebScraping.SaveAll | kajix-api/src/web-scraping/web-scraping.service.ts:172-200 | The save loop keeps every existing row in place and adds at most one row per page. |
| WebScraping.SaveAllValid | kajix-api/src/web-scraping/web-scraping.service.ts:172-200 | Saving the crawled pages keeps the table valid: ids are positions and scraped URLs are unique. |
| WebScraping.SaveAllStores | kajix-api/src/web-scraping/web-scraping.service.ts:172-200 | After the loop, every page whose conversion succeeded and whose save the database did not fail has a stored row. Every row added belongs to such a page and has the seed as its base URL. |
| WebScraping.SaveAllPrefix | kajix-api/src/web-scraping/web-scraping.service.ts:172-200 | Saving only appends; rows already stored are kept as they are. |
| WebScraping.FindScrappedKept | kajix-api/src/web-scraping/web-scraping.service.ts:73-80 | A URL that is stored stays stored when rows are appended. |
| WebScraping.WebScrapingService.GetBrowser | kajix-api/src/web-scraping/web-scraping.service.ts:34-39 | Launches a browser only when there is none; otherwise the same browser is reused. |
| WebScraping.WebScrapingService.OnModuleDestroy | kajix-api/src/web-scraping/web-scraping.service.ts:44-49 | Closes the browser, if there is one, and forgets it. |
| WebScraping.WebScrapingService.SaveScrappedContent | kajix-api/src/web-scraping/web-scraping.service.ts:54-86 | Appends the page with its HTML and stored Markdown. It fails iff the database reports a fault or the URL is already stored, and then leaves the table unchanged. A fault is passed on as it is; otherwise the failure is P2002. The table stays valid. |
| WebScraping.WebScrapingService.ScrapePage | kajix-api/src/web-scraping/web-scraping.service.ts:91-153 | The in-place crawl changes the shared visited set, the page list and the tab's history exactly as the reference step `CrawlPage` does, and throws what that step throws. |
| WebScraping.WebScrapingService.PostProcess | kajix-api/src/web-scraping/web-scraping.service.ts:172-200 | The markdown loop leaves the pages annotated and the table equal to `SaveAll` of the crawled pages, under the database's per-URL save faults. |
| WebScraping.WebScrapingService.ScrapeLinks | kajix-api/src/web-scraping/web-scraping.service.ts:161-218 | A failed crawl is BadRequest carrying the crawl error's message and stores nothing. A successful crawl returns the seed, the annotated pages and the time, and the table becomes `SaveAll` of the crawled pages. The tab is closed either way, and the browser is launched once and then reused. |
| ScrapingController.ToDtoType | kajix-api/src/web-scraping/web-scraping.controller.ts:30-45 | Every column is as stored, except that a null or empty Markdown becomes absent. |
| ScrapingController.FilterContent | kajix-api/src/web-scraping/web-scraping.controller.ts:49-88 | The base fields are always kept. HTML is present iff the type is HTML or BOTH. Markdown is absent for HTML and present when non-empty otherwise. |
| ScrapingController.BothRestores | kajix-api/src/web-scraping/web-scraping.controller.ts:76-81 | The BOTH projection of a stored row loses nothing. |
| ScrapingController.BothIsHtmlAndMarkdown | kajix-api/src/web-scraping/web-scraping.controller.ts:64-87 | BOTH is the HTML projection plus the MARKDOWN projection, and an unrecognised type projects like MARKDOWN. |
| ScrapingController.ClampPage | kajix-api/src/web-scraping/web-scraping.controller.ts:165 | The page is at least 1, and a valid page is kept. |
| ScrapingController.ClampPageSize | kajix-api/src/web-scraping/web-scraping.controller.ts:166 | The page size is between 1 and 100, and a size in range is kept. |
| ScrapingController.CeilDivCovers | kajix-api/src/web-scraping/web-scraping.controller.ts:189 | `totalPages` is the least page count that covers every record, and it is 0 iff there are no records. |
| ScrapingController.Matching | kajix-api/src/web-scraping/web-scraping.controller.ts:169-177 | Never longer than the table. Without a base URL (absent or empty) every row is kept in order. With one, every kept row has that base URL. |
| ScrapingController.MatchingMultiplicity | kajix-api/src/web-scraping/web-scraping.controller.ts:169-177 | Each row occurs in the result as often as in the table when it has the filter's base URL (or there is no filter), and not at all otherwise; a row is in the result iff it is in the table and passes the filter. |
| ScrapingController.MatchingConcat | kajix-api/src/web-scraping/web-scraping.controller.ts:169-177 | Filtering a concatenation is the concatenation of the filtered parts, so the filter keeps the table's order. |
| ScrapingController.Insert | kajix-api/src/web-scraping/web-scraping.controller.ts:176 | Inserting keeps the newest-first order and adds exactly the one row. |
| ScrapingController.ByRecency | kajix-api/src/web-scraping/web-scraping.controller.ts:176 | The rows are ordered by `lastScrappedAt`, most recent first, and are a permutation of the input. |
| ScrapingController.Window | kajix-api/src/web-scraping/web-scraping.controller.ts:177-178 | `skip`/`take` yields the rows from position `skip` on, at most `take` of them, in order. |
| ScrapingController.PageNonEmptyIffCounted | kajix-api/src/web-scraping/web-scraping.controller.ts:177-190 | A page has records iff its number is at most the reported `totalPages`. |
| ScrapingController.Project | kajix-api/src/web-scraping/web-scraping.controller.ts:182-185 | Each returned record is the filtered DTO of the row at the same position. |
| ScrapingController.UrlGate | kajix-api/src/web-scraping/web-scraping.controller.ts:112-125 | A URL that does not parse is 'Invalid URL provided'. A scheme other than http or https is 'URL must use HTTP or HTTPS protocol'. Otherwise the normalised URL is forwarded. |
| ScrapingController.FindContent | kajix-api/src/web-scraping/web-scraping.controller.ts:212-214 | Finds the row with that id, or establishes that there is none. |
| ScrapingController.WebScrapingController.ScrapeLinks | kajix-api/src/web-scraping/web-scraping.controller.ts:109-126 | A rejected URL changes nothing. An accepted one gives what the crawl from the normalised URL gives, with the service's errors passed on as they are. A crawl error leaves the table unchanged; on success the table is `SaveAll` of the crawled pages. |
| ScrapingController.WebScrapingController.GetAllContent | kajix-api/src/web-scraping/web-scraping.controller.ts:158-192 | A database fault in the count or the listing is passed on unchanged. Otherwise the paging parameters are clamped, `total` counts the matching rows and `totalPages` covers them. The data is the requested window of the matching rows, newest first and projected, and has at most `pageSize` records. |
| ScrapingController.WebScrapingController.GetContentById | kajix-api/src/web-scraping/web-scraping.controller.ts:208-222 | A database fault is passed on unchanged. Otherwise a missing id is BadRequest('Content with ID … not found'), and a present one gives the projection of the row with that id. |
| Base64.UrlValue | kajix-api/src/users/users.service.ts:33-41 | Inverts the URL-safe alphabet. |
| Base64.EncodeStd | kajix-api/src/users/users.service.ts:35-36 | Standard padded base 64 has 4 characters per started group of 3 bytes. |
| Base64.Encode | kajix-api/src/users/users.service.ts:33-41 | The unpadded URL-safe encoding has the unpadded length and uses only URL-safe characters. |
| Base64.DecodeEncode | kajix-api/src/users/users.service.ts:33-41 | Decoding undoes encoding, so distinct random bytes give distinct tokens before truncation. |
| Base64.RewriteIsUrlEncoding | kajix-api/src/users/users.service.ts:35-39 | Rewriting `+` to `-` and `/` to `_`, and dropping `=`, turns the standard encoding into the unpadded URL-safe encoding of the same bytes. |
| Base64.ReplaceAll | kajix-api/src/users/users.service.ts:37-38 | A global `replace` of one character keeps the length and leaves no occurrence of the replaced character. |
| Base64.RemoveAll | kajix-api/src/users/users.service.ts:39 | A global `replace` by the empty string leaves no occurrence of the character and never lengthens the string. |
| Base64.ToUrlAlphabet | kajix-api/src/users/users.service.ts:36-39 | The three rewrites leave no `+`, `/` or `=` and never lengthen the text. |
| Base64.RemoveAllConcat | kajix-api/src/users/users.service.ts:39 | Removing a character distributes over concatenation. |
| Base64.ReplaceAllConcat | kajix-api/src/users/users.service.ts:37-38 | Replacing a character distributes over concatenation. |
| Base64.EnoughCharacters | kajix-api/src/users/users.service.ts:35-40 | `ceil(0.75 L)` random bytes encode to at least L characters, so the slice always has L. |
| Users.RandomByteCount | kajix-api/src/users/users.service.ts:35 | The byte count is `ceil(3L/4)`. |
| Users.VerificationLink | kajix-api/src/users/users.service.ts:252 | The link ends with `/verify/` followed by the token. |
| Users.ConfirmationRow | kajix-api/src/users/users.service.ts:257-266 | The stored row is an email-confirmation token (neither access nor refresh) for the recipient, from the sender, carrying the token, expiring 30 minutes after now, with neither flag set. |
| Users.GenerateRandomToken | kajix-api/src/users/users.service.ts:33-41 | The token has exactly the requested length and only URL-safe characters, and it is the prefix of the URL-safe encoding of the random bytes. |
| Users.Mailer.SendEmail | kajix-api/src/mail/mail.service.ts:49-76 | Delivers the mail, or fails with 'Failed to send email: <reason>. Please try again later.' and sends nothing. |
| Users.CreateError | kajix-api/src/users/users.service.ts:60-73 | P2002 is Conflict('Email or username already exists'); every other error is rethrown unchanged. |
| Users.UpdateError | kajix-api/src/users/users.service.ts:124-135 | P2025 is NotFound naming the id; every other error is InternalServerError('Failed to update user'). |
| Users.RemoveError | kajix-api/src/users/users.service.ts:141-150 | P2025 is NotFound naming the id; every other error is InternalServerError('Failed to delete user'). |
| Users.UserIndex | kajix-api/src/users/users.service.ts:112-151 | Finds the position of the user with that id, or establishes that there is none. |
| Users.Updated | kajix-api/src/users/users.service.ts:114-121 | Each of email, username, first and last name is the requested value when given and the old one otherwise; `updatedAt` is the update time; every other field, including the id and credentials, is kept. |
| Users.UsersService.SendVerificationEmail | kajix-api/src/users/users.service.ts:242-276 | An empty email is BadRequest and a missing sender is InternalServerError; neither writes anything. A database fault on storing the token is passed on unchanged, with nothing stored and no mail sent. Otherwise exactly one email-confirmation row is appended, valid for 30 minutes and carrying the generated 64-character token. Then an unsupported locale is BadRequest, a delivery failure is the mail error, and success sends the locale's mail with the link to that token. |
| Users.UsersService.SendTemplate | kajix-api/src/users/users.service.ts:272-275 | Builds the locale's mail and sends it. An unsupported locale sends nothing. |
| Users.UsersService.Create | kajix-api/src/users/users.service.ts:43-74 | Succeeds iff there is no fault and no user has that email or username. Then exactly one row is appended, with the hashed password, and returned without credentials. A duplicate is Conflict; a failure changes nothing. |
| Users.UsersService.Update | kajix-api/src/users/users.service.ts:112-136 | A missing id is NotFound. A clash with another user's email or username, or any other failure, is InternalServerError and changes nothing. Otherwise only that user's row changes. |
| Users.UsersService.Remove | kajix-api/src/users/users.service.ts:138-151 | A missing id is NotFound. Otherwise exactly that user's row is removed, the others keep their order, and the result carries no value. |
| VerificationMail.TemplatesSupported | kajix-api/src/users/users.service.ts:200-233 | Exactly Portuguese and English have a template, with the subjects 'Confirme seu email' and 'Confirm your email'. |
| VerificationMail.GetEmailTemplate | kajix-api/src/users/users.service.ts:200-233 | There is a template iff the locale has one. Its body is the template text with the link put in, and any other locale is BadRequest('Unsupported locale: …'). |
| VerificationMail.TemplateLinkInjective | kajix-api/src/users/users.service.ts:200-233 | The mail body determines the link: different links give different bodies. |
| Llms.View | kajix-api/src/llms/llms.service.ts:18-34 | The default model selection: the model's own fields with its company nested. |
| Llms.CreateCompanyError | kajix-api/src/llms/llms.service.ts:53-60 | P2002 is Conflict('LLM company already exists'); every other error is InternalServerError. |
| Llms.UpdateCompanyError | kajix-api/src/llms/llms.service.ts:97-110 | P2025 is NotFound and P2002 is Conflict. Any other Prisma code is InternalServerError('Database operation failed'), and a non-Prisma error is rethrown. |
| Llms.RemoveCompanyError | kajix-api/src/llms/llms.service.ts:117-126 | P2025 is NotFound; everything else is InternalServerError('Failed to delete LLM company'). |
| Llms.CreateModelError | kajix-api/src/llms/llms.service.ts:165-174 | P2003 is BadRequest('Invalid LLM company ID'); everything else is InternalServerError. |
| Llms.UpdateModelError | kajix-api/src/llms/llms.service.ts:222-235 | P2025 is NotFound and P2003 is BadRequest. Any other Prisma code is InternalServerError, and a non-Prisma error is rethrown. |
| Llms.RemoveModelError | kajix-api/src/llms/llms.service.ts:242-251 | P2025 is NotFound; everything else is InternalServerError('Failed to delete LLM model'). |
| Llms.CompanyUpdateValid | kajix-api/src/llms/llms.service.ts:91-111 | Renaming a company to a name no other company has keeps company names unique. |
| Llms.CompanyInsertValid | kajix-api/src/llms/llms.service.ts:47-61 | A company with a fresh id and an unused name keeps the table valid. |
| Llms.ModelsKeepCompanies | kajix-api/src/llms/llms.service.ts:113-127 | The model-to-company foreign key holds while every referenced company stays. |
| Llms.LlmsService.CreateCompany | kajix-api/src/llms/llms.service.ts:47-61 | Succeeds iff there is no fault and the name is unused. It inserts the company under a fresh id, with the given `isActive` or else `true`; a failure changes nothing. |
| Llms.LlmsService.FindAllCompanies | kajix-api/src/llms/llms.service.ts:63-71 | Returns exactly the stored companies, or InternalServerError on a fault. |
| Llms.LlmsService.FindOneCompany | kajix-api/src/llms/llms.service.ts:73-89 | Returns the company with that id, NotFound when there is none, and InternalServerError on a fault. |
| Llms.LlmsService.FindCompanyByName | kajix-api/src/llms/llms.service.ts:129-149 | Finds the only company with that name; NotFound when there is none. |
| Llms.LlmsService.UpdateCompany | kajix-api/src/llms/llms.service.ts:91-111 | A missing id is NotFound and a name another company has is Conflict; neither changes anything. Otherwise only that company changes. |
| Llms.LlmsService.RemoveCompany | kajix-api/src/llms/llms.service.ts:113-127 | A missing id is NotFound. A company that still has models is InternalServerError and stays. Otherwise exactly that company is removed. |
| Llms.LlmsService.CreateModel | kajix-api/src/llms/llms.service.ts:152-175 | An unknown company is BadRequest, checked before the insert. A missing type is InternalServerError, and an unknown type is the same BadRequest. On success one model is inserted under a fresh id and returned with its company. |
| Llms.LlmsService.FindAllModels | kajix-api/src/llms/llms.service.ts:177-185 | Returns exactly one view per stored model, each with its company. |
| Llms.LlmsService.FindOneModel | kajix-api/src/llms/llms.service.ts:187-203 | Returns the model with its company, or NotFound, or InternalServerError on a fault. |
| Llms.LlmsService.UpdateModel | kajix-api/src/llms/llms.service.ts:205-236 | A non-zero company id that does not exist is BadRequest, checked before the update. A missing model is NotFound, and a dangling reference is BadRequest. Otherwise only that model changes. |
| Llms.LlmsService.RemoveModel | kajix-api/src/llms/llms.service.ts:238-252 | A missing id is NotFound. Otherwise exactly that model is removed and returned with its company. |
| Llms.LlmsService.FindOne | kajix-api/src/llms/llms.service.ts:254-274 | Returns the model with all its columns and its company, or NotFound('LLM Model with ID … not found'). |
| Llms.LlmsService.Remove | kajix-api/src/llms/llms.service.ts:276-289 | A NotFound from the lookup is passed on and nothing is deleted. Any other failure is InternalServerError('Failed to delete LLM Model'). Success removes exactly that model. |
| StdLlmTypes.UpdatedType | kajix-api/src/std-llm-type/std-llm-type.service.ts:33-45 | Only the requested fields and `updatedAt` change. |
| StdLlmTypes.ModelsKeepTypes | kajix-api/src/std-llm-type/std-llm-type.service.ts:11-55 | The model-to-type foreign key holds while every referenced type stays. |
| StdLlmTypes.UnusedTypeRemovable | kajix-api/src/std-llm-type/std-llm-type.service.ts:47-55 | Removing a type no model uses keeps every model's type. |
| StdLlmTypes.StdLlmTypeService.Create | kajix-api/src/std-llm-type/std-llm-type.service.ts:11-15 | Inserts the type, active by default, under a fresh id; a fault is rethrown and changes nothing. |
| StdLlmTypes.StdLlmTypeService.FindAll | kajix-api/src/std-llm-type/std-llm-type.service.ts:17-19 | Returns exactly the stored types. |
| StdLlmTypes.StdLlmTypeService.FindOne | kajix-api/src/std-llm-type/std-llm-type.service.ts:21-31 | Returns the type with that id, or NotFound('LLM Type with ID … not found'). |
| StdLlmTypes.StdLlmTypeService.Update | kajix-api/src/std-llm-type/std-llm-type.service.ts:33-45 | Fails with NotFound iff there is a fault or the id is missing, and then changes nothing. Otherwise only that type changes. |
| StdLlmTypes.StdLlmTypeService.Remove | kajix-api/src/std-llm-type/std-llm-type.service.ts:47-55 | Fails with NotFound iff there is a fault, the id is missing or a model uses the type. Otherwise exactly that type is removed. |
| StdLlmTypes.StdLlmTypeService.FindActiveTypes | kajix-api/src/std-llm-type/std-llm-type.service.ts:57-61 | Returns exactly the active types. |
| StdLlmTypes.StdLlmTypeService.FindModelsWithType | kajix-api/src/std-llm-type/std-llm-type.service.ts:64-73 | An unknown type is NotFound, checked before the query. Otherwise the result is exactly the models of that type, each with its company. |
| Prisma.AppendOtherToken | kajix-api/src/users/users.service.ts:257-266 | Storing a token of another kind keeps access and refresh tokens unique. |
| Prisma.UsersAppend | kajix-api/src/users/users.service.ts:43-74 | A row with a fresh id and an unused email and username keeps the user table valid. |
| Prisma.FindToken | kajix-api/src/auth/auth.service.ts:92-97 | `findFirst` returns the first row with that token and type, or establishes that there is none. |

## Left out

- Concurrency: `Promise.all` writes and interleaved requests are modelled as sequential steps on one database.
- Auth.AuthService.Login: a failure of the database write is not modelled. `AuthService` takes no `fault`.
- Auth.AuthService.Refresh: the stored `expiresAt` is not consulted, as in the code. The database writes are assumed to succeed. In the code, a failure of either `tmpToken.create` (auth.service.ts:130-151) happens after the `isUsed` update (auth.service.ts:110-113), inside the same `try`. The caller then gets Unauthorized('Invalid refresh token'), yet the old refresh token is already spent and one of the new rows may already be stored. The model does not capture that partial write.
- Signing, verifying and decoding JWTs, bcrypt hashing and comparison, and `crypto.randomBytes` are library calls. Their outcomes are parameters. A fresh token is only required not to occur in the table.
- `jwt.strategy.ts`, the guard and the Redis service are not part of this model.
- WebScraping.WebScrapingService.GetBrowser: launching the browser and opening a tab are assumed to succeed.
- `new URL(url)` in the link loop of `scrapePage` is assumed to succeed, because the URL was already parsed at the gate or by the link loop.
- Crawler.CrawlPage: what a page yields is fixed per URL by `Web`, so a page whose content changes between visits is not modelled. Timeouts are failures named `TimeoutError`.
- `processContent` (web-scraping.service.ts:273-341) is never called and is not modelled.
- ScrapingController.WebScrapingController.GetAllContent: query parameters are integers. NaN or fractional pages are not modelled. Rows with equal `lastScrappedAt` are ordered by insertion, where the database leaves the order unspecified. Scraped-content ids (uuids) are naturals.
- Users.UsersService.SendVerificationEmail: a database rejection of the locale value is not modelled. Locales other than Portuguese and English are assumed to be stored.
- Users.UsersService.Create: the hash and the salt are parameters. The code's separate `genSalt` and `hashSync` calls are not modelled.
- `findAll`, `findOne`, `findByEmail` and `findByUsername` of `UsersService` are plain reads and are not modelled. The `verifyToken` flow is not present in the service source.
- Llms.LlmsService.FindAllModels and the other `findMany` reads return sets, because the code requests no order.
- Llms.LlmsService.CreateModel: the foreign key to the type is modelled. The 'Invalid LLM type ID' message that an end-to-end test expects is not produced anywhere in the service, so an unknown type gets the company message.
- Llms.LlmsService.CreateCompany: an absent `isActive` is stored as `true`. The DTO declares no default and the service passes the body on, so this is an assumed column default of the database schema, which is not part of this model.
- Deletion is assumed to be `Restrict`: a referenced company or type cannot be deleted. The schema is not part of this model.
- The controllers of users, LLMs and standard types only forward to their services and are not modelled separately.
- StdLlmTypes.StdLlmTypeService.Create: no uniqueness of the type name is assumed, since none is enforced in the code.
- WebScraping.WebScrapingService.SaveScrappedContent: saving uses `create` (web-scraping.service.ts:73), not an upsert. A second save of a URL fails on the unique constraint and is skipped by the loop. A URL without a scheme makes `new URL` throw, and the controller turns that into 'Invalid URL provided'.
- The `type` column of a standard type is `typeName` here, because `type` is a keyword in Dafny.
