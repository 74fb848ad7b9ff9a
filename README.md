# atlys scraper core in Dafny

This project models the scraping pipeline of the atlys service. The pipeline scrapes the DentalStall product listing, detects price changes against a Redis price cache, persists changed products to a JSON file and notifies an operator.

The model covers four parts.

- **The scraper** (`scraper.dfy`, module `Scraper`), modelling `DentalStallScraper`:
  - the retry structure of `fetch_page`;
  - the page count of `get_total_pages`;
  - the page range and aggregation of `scrape`;
  - the per-item extraction loop of `scrape_page`;
  - the file-name part of `download_image`.
- **The price cache** (`cache.dfy`, module `Cache`), modelling the class `RedisCache`:
  - the `_connect` retry loop with its doubling back-off;
  - `ensure_connection`;
  - `get_product_price` and `set_product_price`.
- **The JSON store** (`storage.dfy`, module `Storage`), modelling the class `JsonFileStorage` over an abstract file state: absent, undecodable, or an array of entries the Product model accepts or rejects.
- **The service** (`scraping_service.dfy`, module `ScrapingService`), modelling the class `ScrapingService`:
  - the diff loop of `process_scraped_products`;
  - the control and notification flow of `run_scraping`.

Shared modules:
- `text.dfy` (module `Text`) holds the Python string operations the code relies on: `str.strip`, `str.replace(pat, "")`, `str.endswith`, `int()` of a label and `Decimal()` of a price. `Text.IsSpace` is the complete set of characters `str.isspace()` accepts, so `Text.Strip` removes exactly what `str.strip()` removes.
- `seqs.dfy` (module `Seqs`) holds subsequence and flattening facts.
- `product.dfy` (module `Schemas`) mirrors the Product record.
- `wrappers.dfy` (module `Wrappers`) holds `Option` and `Result`.

The outside world is given as parameters.

| source behaviour | how the model sees it |
|---|---|
| HTTP | `net: string -> nat -> Response`, the answer to the n-th GET of a URL: a status and a parsed document, a timeout, or another exception |
| Image download and file write | `downloaded: string -> bool`, keyed by image URL |
| Redis | `net: nat -> Trip`, the outcome of the n-th round trip the client makes (PING, GET or SETEX), plus a key/entry map held by the cache object |
| SMTP | `mailError: Option<string>` |
| Parsed HTML | abstract records holding exactly what the code's `find` calls read |

Prices are exact `real` numbers.

State that the source changes in place is modelled as classes with `modifies` clauses:
- `Cache.RedisCache`: the client flag, the round-trip count, the server contents and the sleep log;
- `Storage.JsonFileStorage`: the file state;
- `ScrapingService.ScrapingService`: holds a store and a cache.

Each loop of the source is a method with a loop: `get_total_pages`, `_connect`, `scrape_page`, the page loop of `scrape`, `load_products` and `process_scraped_products`. Each method is proved equal to a specification function, and the properties are lemmas about those functions.

Facts of the code that the model keeps:

- **fetch_page and non-200 answers.** A non-200 answer is retried from inside the `try`. When that retry itself raises, the exception is caught again by the outer handlers, which retry once more with the same count.
  - A server that never answers 200 therefore gets A(k) = 1 + 2·A(k+1) GETs, which is 2^(R+1) − 1.
  - With the default R = 3 that is 15 GETs.
  - A server that always times out or always errors gets R + 1 GETs.
- **fetch_page and blank pages.** A 200 answer with a blank body returns `None` and is not retried.
  - `BeautifulSoup(None)` then raises.
  - For the index page the whole scrape fails.
  - For a listing page that page yields no products.
- **_connect giving up.** When every ping is refused, `_connect` gives up without raising and leaves `redis_client` set.
  - The next command's ping then fails, and `ensure_connection` clears the client.
  - An authentication or unexpected error raises at once. `ensure_connection` catches it and clears the client; the constructor lets it escape.
- **process_scraped_products and the store.**
  - `load_products` always runs first, and its exception aborts the run before any cache access.
  - `save_products` overwrites the file with only the update set. It never merges with the products already stored.
- **Error messages.** A malformed store file's error message carries the "Error loading products from JSON: " prefix twice.
- **A failing email appears twice.** The email notifier prints "Scraping failed: e" to the console and raises "Failed to send email: e". `run_scraping` reports that once more on the console and re-raises it.

## Model

| member | source | states |
|---|---|---|
| Text.StripEmptyIffBlank | app/services/scraper.py:48 | `s.strip()` is empty exactly when every character is white space |
| Text.StripKeepsChars | app/services/scraper.py:194 | stripping introduces no character |
| Text.RemoveAllSingle | app/services/scraper.py:216-217 | `replace(c, "")` leaves no occurrence of `c` |
| Text.IsSpace | app/services/scraper.py:48 | defines the characters `str.isspace()` accepts: the ASCII separators and the Unicode white space characters |
| Text.Strip | app/services/scraper.py:194 | defines `str.strip()`: leading and trailing white space removed |
| Text.RemoveAll | app/services/scraper.py:216-218 | defines `str.replace(pat, "")`: every non-overlapping occurrence of `pat`, scanned from the left, removed |
| Text.EndsWith | app/services/scraper.py:235 | defines `str.endswith(suffix)`: the text's last characters are the suffix |
| Text.ParseIntOfNatToString | app/services/scraper.py:283 | `int()` reads back the decimal text of every natural number of at most 4300 digits |
| Text.ParseDecimalOfNatToString | app/services/scraper.py:215-220 | `Decimal()` reads back the decimal text of every natural number exactly |
| Text.ParseInt | app/services/scraper.py:283 | defines `int()` of a stripped label: an optional sign and one to 4300 ASCII digits, anything else rejected |
| Text.ParseIntDigitLimit | app/services/scraper.py:283-286 | a run of digits, signed or not, is read exactly when it has at most 4300 digits; a longer one raises ValueError |
| Text.NatToString | app/services/scraper.py:158 | defines `str()` of a natural number in the f-strings: its decimal digits, with no leading zero unless it is 0 |
| Text.ParseDecimal | app/services/scraper.py:215-220 | defines `Decimal()` of a plain decimal: an optional sign, digits and an optional fraction, anything else rejected |
| Scraper.FetchPage | app/services/scraper.py:40-74 | at least one GET is made; a first answer of 200 makes exactly one; returned content is never blank |
| Scraper.FetchAnsweredOk | app/services/scraper.py:46-51 | a 200 answer ends the call after one GET with no retry; the result is None exactly when the body is blank, and otherwise that body |
| Scraper.BadStatusAttempts | app/services/scraper.py:52-60 | defines the GET count of a server that never answers 200: one GET, plus two nested retries while retries remain |
| Scraper.FetchErrorMessage | app/services/scraper.py:60 | defines the text of fetch_page's exceptions, including "Failed to fetch url after k retries" |
| Scraper.BadStatusAttemptsClosedForm | app/services/scraper.py:52-60 | the GET count of a server that never answers 200 is 2^(R−k+1) − 1 |
| Scraper.DefaultRetriesMakeFifteenGets | app/core/config.py:9 | with the default three retries that count is 15 |
| Scraper.FetchAttemptsAtMost | app/services/scraper.py:40-74 | no sequence of responses makes fetch_page issue more than 2^(R−k+1) − 1 GETs |
| Scraper.FetchAlwaysTimingOut | app/services/scraper.py:62-67 | a server that always times out is asked R − k + 1 times, then the timeout escapes |
| Scraper.FetchAlwaysErroring | app/services/scraper.py:69-74 | a connection that always fails is tried R − k + 1 times, then its error escapes |
| Scraper.FetchAlwaysBadStatus | app/services/scraper.py:52-60 | a server that never answers 200 fails with "Failed to fetch url after R retries" after 2^(R−k+1) − 1 GETs |
| Scraper.MaxPage | app/services/scraper.py:277-289 | the result is at least 1, bounds every integer label of a non-`next` anchor, and is 1 or one of those labels |
| Scraper.PageLabel | app/services/scraper.py:279-286 | defines an anchor's page number: none for a `next` anchor or a label `int()` rejects, otherwise `int()` of the stripped text |
| Scraper.LongLabelIgnored | app/services/scraper.py:283-286 | an anchor whose stripped text has more than 4300 digits gives no page number, so the page count ignores it |
| Scraper.TotalPages | app/services/scraper.py:266-289 | the page count is always at least 1 |
| Scraper.GetTotalPages | app/services/scraper.py:261-289 | the loop computes the page count: 1 without pagination or anchors, otherwise the largest label and at least 1 |
| Scraper.NumberedPagination | app/services/scraper.py:277-289 | anchors labelled up to n, among ellipses and the `next` link, give exactly n pages |
| Scraper.PagesToScrape | app/services/scraper.py:151-152 | a non-zero limit caps the page count at min(total, limit); `None` or 0 leaves it unchanged |
| Scraper.PageUrls | app/services/scraper.py:156-159 | one URL per page to scrape |
| Scraper.PageUrl | app/services/scraper.py:158 | defines a listing page's URL: the base URL, "page/", the page number and a slash |
| Scraper.PageUrlsAt | app/services/scraper.py:157-158 | the k-th URL is `BASE_URL + "page/" + (k+1) + "/"` |
| Scraper.PageUrlsSnoc | app/services/scraper.py:157-159 | the URLs are built in increasing page order |
| Scraper.PageUrlInjective | app/services/scraper.py:158 | the page number can be read back from its URL |
| Scraper.PageUrlsDistinct | app/services/scraper.py:156-159 | no page is scraped twice |
| Scraper.NormalizedPriceIsBare | app/services/scraper.py:214-220 | the text given to `Decimal()` holds no "₹" and no "," |
| Scraper.NormalizePrice | app/services/scraper.py:215-220 | defines the price normalisation: "₹", then ",", then "/-" removed, then stripped |
| Scraper.ParsePrice | app/services/scraper.py:214-220 | defines the price of a `bdi` text: `Decimal()` of its stripped, normalised text, or none where `Decimal()` raises |
| Scraper.NormalizePlainPrice | app/services/scraper.py:215-220 | "₹" + digits + "/-" normalises to the digits |
| Scraper.NormalizeGroupedPrice | app/services/scraper.py:215-220 | a thousands separator is removed and the digit groups are joined |
| Scraper.ParsePriceOfRupees | app/services/scraper.py:214-220 | "₹" + str(n) + "/-" is read as the price n |
| Scraper.ParsePriceOfGroupedDigits | app/services/scraper.py:214-220 | "₹a,b/-" is read as the number the digits ab denote |
| Scraper.ParsePriceExample | app/services/scraper.py:214-220 | "₹1,234/-" is read as 1234 |
| Scraper.KeepFilenameCharsAllowed | app/services/scraper.py:83 | the kept characters are only letters, digits, space, `-` and `_` |
| Scraper.FilenameChar | app/services/scraper.py:83 | defines the characters a file name keeps: ASCII letters and digits, space, `-` and `_` |
| Scraper.KeepFilenameChars | app/services/scraper.py:83 | defines the character filter of the file name; the result is never longer than the title |
| Scraper.SafeFilename | app/services/scraper.py:83-85 | the file name is at most 54 characters and ends in ".jpg" |
| Scraper.SafeFilenameStem | app/services/scraper.py:83-85 | the stem holds only allowed characters and has no space at either end |
| Scraper.SafeFilenameOfSafeTitle | app/services/scraper.py:83-85 | a title that already is a short, trimmed, safe name is used unchanged |
| Scraper.DownloadImage | app/services/scraper.py:77-110 | the path is non-empty exactly when the download and the write succeed |
| Scraper.JoinPath | app/services/scraper.py:88 | defines `os.path.join` of a directory and a relative file name: one separator between them, none added after a trailing one |
| Scraper.DownloadImageSavesUnderSafeName | app/services/scraper.py:85-88 | a saved image lies in the image directory under its safe file name |
| Scraper.ExtractItem | app/services/scraper.py:190-253 | a product has the stripped title and the price parsed from the preferred price node; it also implies a non-empty, non-placeholder image URL that was downloaded |
| Scraper.PriceNodeOf | app/services/scraper.py:202-205 | defines the price node: the `ins` sale price when there is one, else the amount span |
| Scraper.ImageUrl | app/services/scraper.py:230-233 | defines the image URL: the `data-lazy-src` attribute, falling back to `src` when it is missing or empty |
| Scraper.ExtractedIffComplete | app/services/scraper.py:190-253 | an item yields a product if and only if every check passes, and its image path is that download's path |
| Scraper.SalePriceWins | app/services/scraper.py:202-205 | with both an `ins` and an amount span, the sale price is taken |
| Scraper.PlaceholderIsSkipped | app/services/scraper.py:235-236 | an image URL ending in "svg+xml" skips the item |
| Scraper.ExtractAllConcat | app/services/scraper.py:190-255 | items are handled independently and in order |
| Scraper.ExtractAll | app/services/scraper.py:190-255 | defines the products of a run of items: each item's product, if any, in item order |
| Scraper.PageProducts | app/services/scraper.py:184-187 | defines what one page contributes: the products of its items, or none when its fetch failed or came back blank |
| Scraper.ExtractAllFromItems | app/services/scraper.py:190-255 | at most one product per item, and every product is what some item yields |
| Scraper.ScrapePage | app/services/scraper.py:176-259 | the loop returns the products of the listing items in order; the result is empty when the fetch fails or the page is blank |
| Scraper.Batches | app/services/scraper.py:161-167 | one product batch per page URL |
| Scraper.BatchesSnoc | app/services/scraper.py:161-167 | batches are gathered in submission order |
| Scraper.BatchesProvenance | app/services/scraper.py:161-167 | every aggregated product comes from an item of one of the fetched pages |
| Scraper.ScrapedProductsComeFromPages | app/services/scraper.py:144-167 | every scraped product comes from an item of one of the pages 1 .. N |
| Scraper.ScrapeResult | app/services/scraper.py:144-170 | defines the scrape: the index page's failure, or the concatenated batches of pages 1 .. N |
| Scraper.ScrapeErrorMessage | app/services/scraper.py:144-145 | defines the text of scrape's exceptions: fetch_page's own message, or the one BeautifulSoup raises on a None page |
| Scraper.Scrape | app/services/scraper.py:112-174 | the index fetch gives the page count; pages 1 .. N are scraped and concatenated in page order; a failed or blank index page raises |
| Cache.KeyInjective | app/cache/redis_cache.py:59 | distinct titles give distinct keys |
| Cache.Key | app/cache/redis_cache.py:59 | defines the key as "product:price:" followed by the title |
| Cache.Store | app/cache/redis_cache.py:73-78 | defines a SETEX: the key gets the price with a 3600-second expiry |
| Cache.Lookup | app/cache/redis_cache.py:59-61 | defines a GET of the title's key: the stored float, or None when the key is missing, its value empty or not a float's text |
| Cache.GetAfterSet | app/cache/redis_cache.py:73-78 | a get after a set of the same title returns the price set |
| Cache.SetLeavesOthers | app/cache/redis_cache.py:73-78 | a set leaves every other title's price unchanged |
| Cache.SetWritesTtl | app/cache/redis_cache.py:74-77 | a set writes with a 3600-second expiry and adds only its own key |
| Cache.Finished | app/cache/redis_cache.py:28-41 | defines how an attempt whose ping was not refused ends: an answered ping connects, an authentication or unexpected error raises |
| Cache.ConnectSpec | app/cache/redis_cache.py:23-41 | defines the connect loop: stop at the first ping that is not refused, pause 2^attempt after each refused ping but the last, give up after max_retries |
| Cache.Pause | app/cache/redis_cache.py:36-37 | defines the pause after a refused attempt: one sleep of 2^attempt seconds, none after the last attempt |
| Cache.ConnectSpecShape | app/cache/redis_cache.py:23-41 | at most max_retries pings; every ping before the last was refused; the last ping's outcome decides the status; pauses of 2^i fall only between attempts |
| Cache.ConnectAlwaysRefused | app/cache/redis_cache.py:25-38 | a server refusing every ping is tried max_retries times, with pauses 1, 2, 4, ..., and _connect returns without raising |
| Cache.ConnectEndsAt | app/cache/redis_cache.py:25-41 | after `refused` refusals, the first ping that is not refused ends the loop, after the matching pauses |
| Cache.DefaultConnectAlwaysRefused | app/cache/redis_cache.py:23 | with the default three retries: three pings and pauses of 1 and 2 seconds |
| Cache.ConnectFirstPong | app/cache/redis_cache.py:28-30 | the first answered ping ends the loop at once |
| Cache.ConnectReachable | app/cache/redis_cache.py:25-30 | a server answering every ping is connected to |
| Cache.ConnectAuthenticationRaises | app/cache/redis_cache.py:31-33 | an authentication failure propagates at once, with no pause and no retry |
| Cache.EnsureSpec | app/cache/redis_cache.py:43-50 | ensure_connection always makes at least one round trip |
| Cache.EnsureReachable | app/cache/redis_cache.py:43-50 | a reachable server keeps the client, without pauses |
| Cache.EnsureUnreachable | app/cache/redis_cache.py:43-50 | with a client, a refused ping clears it; without one, the full back-off runs and leaves the client set |
| Cache.EnsureClearsOnRaise | app/cache/redis_cache.py:43-50 | without a client, the client ends set exactly when _connect does not raise; with one, it stays set exactly when the ping is answered, and any other ping outcome clears it with no reconnect |
| Cache.EnsureAuthenticationFails | app/cache/redis_cache.py:43-50 | an authentication failure while reconnecting leaves no client, after one ping and no pause |
| Cache.GetStep | app/cache/redis_cache.py:52-64 | a get never changes the server's contents, and any price it returns is the stored one |
| Cache.SetStep | app/cache/redis_cache.py:66-80 | a set either writes its entry or leaves the contents unchanged |
| Cache.GetStepAnswered | app/cache/redis_cache.py:52-61 | a reachable server returns what it holds |
| Cache.GetStepRefused | app/cache/redis_cache.py:54-56 | an unreachable server reads as None, and nothing raises |
| Cache.SetStepAnswered | app/cache/redis_cache.py:66-78 | a reachable server takes the write |
| Cache.SetStepRefused | app/cache/redis_cache.py:68-70 | a write to an unreachable server is silently dropped |
| Cache.RedisCache.constructor | app/cache/redis_cache.py:10-21 | no client at first; _connect runs with three retries; its status, pings and pauses are recorded |
| Cache.RedisCache.Attempt | app/cache/redis_cache.py:27-37 | one attempt creates a client and pings it; a refused ping is followed by its pause |
| Cache.RedisCache.RoundTrip | app/cache/redis_cache.py:28 | defines one request to the server: the next answer of the network, and one more request counted |
| Cache.RedisCache.Connect | app/cache/redis_cache.py:23-41 | the loop's status, ping count and pauses are those of the connection specification; the server's contents are unchanged |
| Cache.RedisCache.EnsureConnection | app/cache/redis_cache.py:43-50 | the new client flag, round trips and pauses are those of the ensure_connection specification |
| Cache.RedisCache.GetProductPrice | app/cache/redis_cache.py:52-64 | the price and new state are those of the get step; a reachable server returns the stored price; an unreachable one returns None |
| Cache.RedisCache.SetProductPrice | app/cache/redis_cache.py:66-80 | the new state is that of the set step; a reachable server stores the price; an unreachable one changes nothing |
| Storage.StorageErrorMessage | app/services/storage.py:51-87 | defines the two messages: "Validation Error: No products to save", and a load failure's detail behind the load prefix written twice, from which the detail can be read back |
| Storage.StorageErrorMessageInjective | app/services/storage.py:51-87 | distinct storage errors give distinct messages |
| Storage.Encode | app/services/storage.py:48 | defines the dumped list: one accepted entry per product, in order |
| Storage.ValidProducts | app/services/storage.py:75-84 | defines what load keeps: the products of the accepted entries, in file order |
| Storage.LoadSpec | app/services/storage.py:58-87 | defines load: [] for a missing file, an error for malformed content, otherwise the valid products |
| Storage.ValidProductsConcat | app/services/storage.py:75-84 | entries are validated one by one, so a rejected entry costs only itself |
| Storage.ValidProductsBound | app/services/storage.py:75-84 | at most one product per entry; all entries are kept exactly when none is rejected |
| Storage.ValidProductsOfEncode | app/services/storage.py:48-84 | every dumped product is accepted again and comes back in the same order |
| Storage.LoadAfterSave | app/services/storage.py:48-84 | saving a list and then loading returns exactly that list |
| Storage.JsonFileStorage.constructor | app/services/storage.py:34-37 | an absent file is created holding `[]`; an existing one is untouched |
| Storage.JsonFileStorage.SaveProducts | app/services/storage.py:40-54 | an empty list is refused with "Validation Error: No products to save" and the file is unchanged; any other list overwrites the file with exactly those products, in order |
| Storage.JsonFileStorage.LoadProducts | app/services/storage.py:58-87 | a missing file gives []; malformed content raises; otherwise the accepted entries come back in file order, never more than there are entries |
| ScrapingService.LastPrice | app/services/scraping_service.py:41-52 | a title has a last price exactly when it occurs among the products |
| ScrapingService.PriceChanged | app/services/scraping_service.py:47 | defines the update test: no cached price, or one that differs from the product's |
| ScrapingService.DiffOnMap | app/services/scraping_service.py:40-53 | defines the diff against a reachable cache: each product is compared with the cache as earlier products left it, and is kept and written back when changed |
| ScrapingService.DiffOnMapCachesLastPrice | app/services/scraping_service.py:47-52 | after the pass, a reachable cache holds the price of each scraped title's last occurrence, and other titles' prices as before |
| ScrapingService.DiffOnMapUpdatesSubseq | app/services/scraping_service.py:41-53 | the update set is a subsequence of the scraped products, in scraped order |
| ScrapingService.DiffOnMapKeepsChanged | app/services/scraping_service.py:47-48 | each kept product had no cached price, or a different one, just before its turn |
| ScrapingService.DiffOnMapKeepsEveryChanged | app/services/scraping_service.py:47-48 | the converse: a product whose cached price at its turn is absent or different is appended at its turn and is among the updates |
| ScrapingService.DiffOnMapTurn | app/services/scraping_service.py:41-53 | a product's turn adds one update exactly when its price changed, and changes nothing otherwise |
| ScrapingService.DiffOnMapUpdatesGrow | app/services/scraping_service.py:41-53 | later products only append to the update set: what a prefix keeps stays kept |
| ScrapingService.DiffOnMapNothingNew | app/services/scraping_service.py:47 | products whose prices are all cached already yield no update and no write |
| ScrapingService.DiffOnMapIdempotent | app/services/scraping_service.py:41-57 | processing the same list again with the cache intact, when no title has two prices, updates nothing |
| ScrapingService.LastPriceIsSomeOccurrence | app/services/scraping_service.py:41-52 | the last price of a title is the price of one of its occurrences |
| ScrapingService.DiffSpec | app/services/scraping_service.py:41-53 | no more updates than products, and the round-trip count never goes down |
| ScrapingService.DiffStep | app/services/scraping_service.py:43-53 | one product is kept or not, and at least one round trip is made |
| ScrapingService.DiffSpecUpdatesSubseq | app/services/scraping_service.py:41-53 | whatever the server does, the update set is a subsequence of the scraped products |
| ScrapingService.DiffSpecAnswered | app/services/scraping_service.py:41-53 | against a server answering every round trip, the pass equals the diff against the server's map |
| ScrapingService.DiffSpecRefused | app/services/scraping_service.py:41-53 | against an unreachable server every product is updated, and the contents are unchanged |
| ScrapingService.ProcessSpec | app/services/scraping_service.py:28-59 | defines processing: a load error first, otherwise the total and the number the diff keeps |
| ScrapingService.ProcessCounts | app/services/scraping_service.py:33-53 | `total` is the number of scraped products, and `updated` is at most that |
| ScrapingService.ProcessRefusedUpdatesAll | app/services/scraping_service.py:41-53 | an unreachable cache gives `updated == total` |
| ScrapingService.Report | app/services/scraping_service.py:73-84 | the run raises exactly when scraping, processing or the email failed; a raise is reported on the console last; a success is summarised on the console first |
| ScrapingService.FailureNotice | app/services/scraping_service.py:82 | defines the console notice of a failed run: "Scraping failed: " followed by the exception's text |
| ScrapingService.SummaryMessage | app/services/scraping_service.py:73-77 | defines the console summary with the total and updated counts |
| ScrapingService.ReportOnSuccess | app/services/scraping_service.py:73-79 | a successful run sends the summary to the console, then the fixed text by email |
| ScrapingService.ReportOnFailureSkipsEmail | app/services/scraping_service.py:81-84 | a failed run sends only console notices |
| ScrapingService.SummaryMessageInjective | app/services/scraping_service.py:73-77 | the summary carries both counts: distinct counts give distinct messages |
| ScrapingService.RunOutcome | app/services/scraping_service.py:67-71 | defines what the run reports: the scrape's exception, the store's exception, or the counts |
| ScrapingService.ScrapingService.constructor | app/services/scraping_service.py:14-26 | the service keeps the scraper's site, the store and the cache it is given |
| ScrapingService.ScrapingService.ProcessScrapedProducts | app/services/scraping_service.py:28-59 | a load error aborts processing with the cache and file untouched; otherwise the counts, the cache state and the file are those of the diff, and the update set is saved only when non-empty |
| ScrapingService.ScrapingService.RunScraping | app/services/scraping_service.py:61-84 | the notifications and the raise are those of the report on the scrape and process outcome; a failed scrape or load leaves the file and the cache untouched; otherwise the diff's file and cache state result |

## Left out

- HTTP sessions, headers, cookies, TLS settings, request timeouts and `asyncio.sleep` delays in `fetch_page` are not modelled. A GET is an oracle answer, and only GET counts are tracked.
- BeautifulSoup parsing is not modelled. Documents are abstract records of what the `find` calls return.
- A `get_total_pages` exception (its `except` branch) cannot arise in the model: the records hold no malformed markup.
- Image bytes, the directory creation and the file write in `download_image` are replaced by the `downloaded` oracle. It is keyed by image URL, so two items with the same URL share one outcome.
- asyncio concurrency and `gather` are not modelled. Pages are scraped sequentially in submission order, which is the order `gather` returns.
- Floats are not modelled: prices are exact reals. The `float()`/`str()` round trip through the cache is taken as exact.
- `Scraper.ParsePrice` follows `Decimal()` on plain decimals only. Exponents, `NaN`, `Infinity` and underscores are read as unparsable, so such an item is skipped.
- Text.ParseInt: rejects labels that Python's `int()` accepts: underscore digit groups such as "1_0", and non-ASCII decimal digits such as Arabic-Indic ones. Such an anchor is ignored for the page count. The 4300-digit limit is CPython's default; a limit changed with `sys.set_int_max_str_digits` or `PYTHONINTMAXSTRDIGITS`, and releases that predate the limit, are not modelled.
- Text.ParseDecimal: rejects non-ASCII decimal digits that `Decimal()` accepts. A price written with them skips the item.
- Scraper.KeepFilenameChars, Scraper.FilenameChar: `str.isalnum()` is read as ASCII letters and digits only. Other Unicode letters and digits are dropped from file names.
- Redis key expiry over time is not modelled. Only the TTL written with each entry is modelled.
- JSON text, encoding options and pretty-printing in the store are not modelled. A store file that decodes to something other than an array is not modelled.
- A write error in `save_products` ("Error saving products to JSON") is not modelled.
- SMTP, MIME and console printing in `app/services/notifier.py` are modelled only as the notices of a run.
- `Cache.RedisCache.constructor` does not raise when `_connect` raises; the outcome is recorded in `startup` instead.
- The default-argument instances of `ScrapingService.__init__`, created once at import, are not modelled.
- `existing_dict` in `process_scraped_products` is computed and never used, so it is not modelled.
- Logging and `print` output are not modelled.
- The FastAPI surface and the token check in `app/main.py` are not modelled. That file calls `get_stored_products`, which `ScrapingService` does not define (app/main.py:72).
- The `proxy` argument of `scrape` and `run_scraping` is accepted but never used, so it is not modelled.
- `app/core/config.py` is taken as constants: the retry count and base URL are parameters, and the default of three is named.
- The failure texts of exceptions raised inside libraries follow particular releases: a timed-out GET's `str()` is empty (`Scraper.FetchErrorMessage`), and `BeautifulSoup(None)` raises "object of type 'NoneType' has no len()" (`Scraper.NoneMarkupMessage`). Other releases of asyncio, aiohttp or bs4 may word these differently.
