# allegro-scraper crawl engine, modelled in Dafny

This project models the crawl engine of the allegro-scraper Python package.
It covers these parts:

- the proxy-rotating page fetch `get_soup` and its captcha check `check_soup`;
- the captcha classifier `is_captcha_required`;
- the offer-page field extractors and `Product.from_url` / `Product.from_data_dump`;
- the three per-page listing controllers `parse_products`: the one in `allegro_parser.py`, the sequential branch of `product.py`, and the one in `website.py`;
- the filter-to-query compiler with `search` and `crawl`;
- the proxy-file loader and the proxy filter.

The network is a deterministic oracle. `transport` maps a request (url, proxy mapping, timeout) to either a raised exception or a parsed page. A parsed page is a `Pages.Page` record: it holds the few facts the scraper reads from the HTML (number of `div`s, captcha marker, button attributes, breadcrumb links, image containers, parameter rows, offer links, `data-maxpage`), with `None` for an element that is absent. A Python exception is a `Failure(Error)` of `Outcomes.Result`.

One module per source file:

| module | source |
|---|---|
| `Outcomes`, `Text`, `Pages` | shared types: exceptions, the few `str`/`int` operations used, the page record |
| `Check` | allegro/utils/check.py |
| `Soup` | allegro/utils/soup.py |
| `Offer` | allegro/parsers/offer.py (its extractors are the ones of product_parser.py, modelled once in `ProductParser`) |
| `ProductParser` | allegro/parsers/product_parser.py |
| `Products` | allegro/search/product.py (the record, `from_url`, `from_data_dump`, the listing URL) |
| `Listing` | allegro/parsers/allegro_parser.py and the sequential branch of `parse_products` in allegro/search/product.py (the same code), plus the section loop shared with website.py |
| `Website` | allegro/parsers/website.py |
| `Crawler` | allegro/search/crawler.py |
| `ProxyFile` | allegro/proxy/proxy_file.py |
| `ProxyChecker` | allegro/proxy/proxy_checker.py |

Loops and in-place state are modelled imperatively.

- `get_soup` is a method over a `ProxyCycle` object (the `itertools.cycle`).
- The parameter dictionary is filled by three nested loops.
- The section loops, the query-list loop, the proxy-file loop and the proxy-filter loop are all `while` loops.

Each of these methods is proved equal to a specification function. Lemmas prove what the source promises about that function.

Where the code disagrees with its tests or with what its docstrings and messages describe, the model follows the code:

- `crawl` never reads its options. In particular it ignores `max_results`, although a limit of 3 is meant to give exactly 3 products (see Findings).
- `website.py`'s `parse_products` returns the flag `True` after a complete page, with no last-page check.
- `get_soup` stops rotating as soon as the current proxy *equals* the start proxy. A list that repeats its first proxy therefore gives up before trying the proxies after the repeat (`Soup.FetchRepeatedStart`).
- `is_good_proxy` calls `Product.from_url` with a `proxy=` keyword that `from_url` does not accept. The proxy check is kept as an abstract oracle.

## Model

| member | source | states |
|---|---|---|
| Check.CheckSoup | allegro/utils/check.py:9-26 | a request that raises gives `None`; a page with fewer than 10 `div`s gives `None`; otherwise the page is returned unchanged |
| Check.CheckCaptcha | allegro/utils/check.py:29-34 | true iff the page has fewer than 10 `div`s |
| Check.CaptchaThreshold | allegro/utils/check.py:29-34 | exactly 10 `div`s is not a captcha, 9 is, and adding `div`s never turns a page into a captcha |
| Soup.ProxyObject | allegro/utils/soup.py:21-24 | both the `http` and `https` keys map to `"https://" + proxy` |
| Soup.ProxyObjectInjective | allegro/utils/soup.py:43-46 | distinct proxies give distinct proxy mappings |
| Soup.ProxyCycle.Next | allegro/utils/soup.py:17-18 | `next(cycle)` returns the element under the cursor and moves the cursor one step, wrapping after the last element |
| Soup.GetSoup | allegro/utils/soup.py:8-62 | the loop issues exactly the requests of `Fetch`, in order, and ends with its outcome |
| Soup.Retry | allegro/utils/soup.py:35-56 | the retry loop entered at cursor `i` makes at most (length of the list minus `i`) attempts, so it never runs past the end of the list, and the only exception it raises is "We can't bypass IP block" |
| Soup.RetryAttempt | allegro/utils/soup.py:42-49 | retry `k` from cursor `i` goes through `ps[i + k]`, without a timeout, and that proxy is never equal to the start proxy |
| Soup.RetryStops | allegro/utils/soup.py:36-56 | the retry loop stops at the first success and returns its page; otherwise every attempt failed and it raises "We can't bypass IP block" exactly when the cursor reaches a copy of the start proxy |
| Soup.Fetch | allegro/utils/soup.py:8-62 | every call makes at least one request; the only exceptions are the two `OSError`s, since `check_soup` swallows the rest; "You are being IP restricted" only when there is no proxy list or it is empty |
| Soup.FetchWithoutProxies | allegro/utils/soup.py:16-27 | with no list or an empty list: one proxyless request with the caller's timeout; a failure raises `OSError("You are being IP restricted, please use proxies")` |
| Soup.FetchVisitOrder | allegro/utils/soup.py:17-19 | attempt `k` uses `ps[k]`; only the first attempt carries the timeout; there are at most as many attempts as proxies; no retry uses a proxy equal to the start proxy |
| Soup.FetchStopsAtFirstSuccess | allegro/utils/soup.py:49-53 | every attempt before the last failed; a success returns the page of the last attempt unchanged, and no later proxy is tried; a failure means every attempt failed |
| Soup.FetchFirstAttemptWins | allegro/utils/soup.py:27 | a successful first attempt is the only request, and its page is returned |
| Soup.FetchExhausted | allegro/utils/soup.py:36-40 | with distinct proxies, a failed call has made exactly one attempt per proxy and raised "We can't bypass IP block" |
| Soup.FetchRepeatedStart | allegro/utils/soup.py:33 | with one proxy, or a second proxy equal to the first, a failed first attempt raises at once, with no second request |
| Soup.FetchFailover | allegro/utils/soup.py:49-53 | a blocked first proxy followed by a different working second proxy gives exactly two requests, and the second one's page |
| Soup.FetchTriesEachProxyOnce | allegro/utils/soup.py:36-56 | with distinct proxies no two attempts of one call use the same proxy |
| Offer.IsCaptchaRequired | allegro/parsers/offer.py:5-15 | true exactly when the marker's value contains "false" or the page has fewer than 10 `div`s; a marker without the attribute raises `TypeError` |
| Offer.CaptchaBySize | allegro/parsers/offer.py:11-15 | fewer than 10 `div`s is a captcha whatever a readable marker says; with no marker the test is `check_captcha`; false only when neither condition holds |
| ProductParser.IsBuyNowOffer | allegro/parsers/product_parser.py:5-15 | true iff some button has `type=submit`, `id=buy-now-button` and flow type `BuyNow` |
| ProductParser.AnyBuyNowButton | allegro/parsers/offer.py:18-28 | the same existence test over the button list |
| ProductParser.FindName | allegro/parsers/product_parser.py:18-21 | the `og:title` content, or `AttributeError` when the meta is missing |
| ProductParser.FindPrice | allegro/parsers/product_parser.py:42-45 | the price meta's value, or `AttributeError` when the meta is missing |
| ProductParser.FindRating | allegro/parsers/product_parser.py:65-72 | the rating meta's value, or 0 when there is none |
| ProductParser.FindQuantity | allegro/parsers/product_parser.py:57-62 | `int()` of the quantity input's `max`: `AttributeError` when the input is missing, a `ValueError` for text that is not an integer, and on success a value that the text spells |
| ProductParser.QuantityReadsBack | allegro/parsers/offer.py:70-75 | a `max` printed from an integer reads back as that integer |
| ProductParser.BeforeSeparatorSpec | allegro/parsers/product_parser.py:48-54 | `split(" - ")[0]` is a prefix of the text; it is the whole text iff the separator is absent; otherwise the separator follows it and starts at no earlier position |
| ProductParser.FindSeller | allegro/parsers/offer.py:61-67 | the seller text before the first `" - "`, or `AttributeError` when the link is missing |
| ProductParser.CategoryLinksSpec | allegro/parsers/offer.py:37-50 | the comprehension fails with `AttributeError` iff some breadcrumb has no link; it is empty iff no breadcrumb links to a category; its last element is the link of the last matching breadcrumb |
| ProductParser.FindCategory | allegro/parsers/product_parser.py:24-39 | a returned category is one of the breadcrumb links and contains "allegro.pl/kategoria"; every failure is `AttributeError` or `IndexError` |
| ProductParser.FindCategorySpec | allegro/parsers/product_parser.py:24-39 | the link of the last breadcrumb containing "allegro.pl/kategoria"; `IndexError` when none matches; `AttributeError` when a breadcrumb has no link |
| ProductParser.FindImages | allegro/parsers/product_parser.py:75-82 | one image per container that holds one, never more images than containers, and exactly the sources found in the containers |
| ProductParser.ImagesSpec | allegro/parsers/product_parser.py:75-82 | one image per container that holds one, and exactly those sources |
| ProductParser.ImagesAppend | allegro/parsers/offer.py:88-95 | images of consecutive containers are concatenated, so document order is kept |
| ProductParser.DropLastStripsColon | allegro/parsers/offer.py:120 | `text[:-1]` removes exactly the last character of a label |
| ProductParser.FindParameters | allegro/parsers/product_parser.py:85-112 | the nested loops give `Parameters(page)`: `AttributeError` without the box, `IndexError` for a row with fewer than two cells, otherwise the map built row by row in document order |
| ProductParser.AssignParts | allegro/parsers/product_parser.py:101-110 | the loop over one segment's parts extends the map by that segment's rows, or raises `IndexError` because one of them is malformed |
| ProductParser.AssignRows | allegro/parsers/product_parser.py:103-110 | the loop over one part's rows writes `key := value` for each row, or raises `IndexError` because a row is malformed |
| ProductParser.RowInFlat | allegro/parsers/product_parser.py:101-103 | every row of every part belongs to the segment's rows |
| ProductParser.FlatInRows | allegro/parsers/product_parser.py:98-103 | every row of every segment belongs to the box's rows |
| ProductParser.AssignKeys | allegro/parsers/product_parser.py:107-110 | a key is in the map iff some row's label minus its last character is that key |
| ProductParser.AssignLastWins | allegro/parsers/offer.py:117-123 | the last row with a given key decides that key's value |
| ProductParser.AssignSize | allegro/parsers/product_parser.py:97-112 | the map has at most one entry per parameter row |
| Products.ExtractProduct | allegro/search/product.py:70-100 | a non-buy-now offer raises `NotImplementedError` before any extractor runs; the exception of the first failing extractor, in the order name, price, category, seller, quantity, parameters, is the result; on success `url` is the input and every other field is its extractor's value |
| Products.FromUrl | allegro/search/product.py:51-100 | `from_url`: a URL without any of the three offer patterns raises `ValueError("Passed url is not that of a product: " + url)` with no request made; otherwise exactly the requests of `get_soup` are made |
| Products.FromUrlKeepsUrl | allegro/search/product.py:98-100 | a returned product carries the requested URL, which has an accepted shape; a fetched non-buy-now offer raises `NotImplementedError` |
| Products.FrontPageRejected | tests/test_product.py:69-74 | "https://allegro.pl/" is rejected with the "not that of a product" `ValueError` |
| Products.AsDict | allegro/search/product.py:40-48 | the dict of a product has exactly the nine field names |
| Products.StringsRoundTrip | allegro/search/product.py:47 | a list of strings survives the dump |
| Products.StringsRoundTripBack | allegro/search/product.py:114-117 | a JSON array read as a string list is the dump of that list |
| Products.FromDataDump | allegro/search/product.py:103-117 | `TypeError` exactly when the value is not an object with the nine fields, each of the JSON kind `asdict` gives it; otherwise every field of the record equals the entry of the same name |
| Products.DumpRoundTrip | allegro/search/product.py:103-117 | `from_data_dump` of a product's dict gives the same product |
| Products.DumpRoundTripBack | tests/test_product.py:65-67 | a dump that loads is the dict of the product it loads as |
| Products.ListingUrlShape | allegro/search/product.py:130-133 | the listing URL is the encoded base, term and query string followed by `&p=` and the page number, and it holds no space |
| Products.ListingUrlVerbatim | allegro/parsers/allegro_parser.py:16-20 | a space-free term and query string appear in the listing URL unchanged |
| Listing.CollectSections | allegro/parsers/allegro_parser.py:53-93 | the section loop ends as `Collect` says: the limit is checked before each section; a section without a link raises `AttributeError`; `NotImplementedError` skips the section; any other error leaves the loop |
| Listing.CollectUnlimited | allegro/parsers/allegro_parser.py:53-93 | with no limit and no deduplication, every section is attempted: the first bad section's error is raised, or else the kept products are exactly the successful sections' products, in section order |
| Listing.CollectBounded | allegro/search/product.py:226-231 | the limit is never overshot, and an early return holds exactly `max_results` products |
| Listing.CollectLimitHit | allegro/parsers/allegro_parser.py:56-58 | the loop returns early only when the number kept equals `max_results` |
| Listing.CollectPrefix | allegro/search/product.py:248-267 | without deduplication, the kept products are a prefix of the section-ordered list of successful products |
| Listing.CollectDistinct | allegro/parsers/website.py:155-159 | with deduplication the kept products have pairwise distinct URLs |
| Listing.ParseProducts | allegro/parsers/allegro_parser.py:8-106 | `parse_products` equals `ParsePage`: the listing is fetched through `get_soup` without a timeout; errors propagate; a limit hit returns `False`; after a full page `data-maxpage` is read with `int()`, and the flag is false iff the page number equals it |
| Listing.ParsePageBounded | allegro/search/product.py:226-231 | never more than `max_results` products; with fewer, a false flag means the page is the last one |
| Listing.ParsePageUnlimited | allegro/search/product.py:269-280 | with no limit and no bad section, all products come back in section order, and the flag is `page_num != data-maxpage` |
| Listing.ParsePageRaises | allegro/parsers/allegro_parser.py:73-93 | with no limit, the first bad section's error propagates out of `parse_products` |
| Website.ParseProducts | allegro/parsers/website.py:45-179 | equals `WebsitePage`: an empty proxy list raises `StopIteration`; the listing request has no timeout; a captcha page raises "Captcha is required"; a complete page returns the flag `True` |
| Website.CaptchaRejected | allegro/parsers/website.py:89-91 | a captcha page raises `ValueError("Captcha is required")` before any section |
| Website.WebsiteResult | allegro/parsers/website.py:119-179 | with `avoid_duplicates` the returned URLs are distinct; the limit is never overshot; the flag is false only when the limit returned early |
| Website.WebsiteKeepsDuplicates | allegro/parsers/website.py:156-168 | without deduplication or limit, every product is kept in section order, duplicates included, and the flag is `True` |
| Website.ProxiesNeverYieldProducts | allegro/parsers/website.py:140-149 | with proxies, the `proxy=` call raises, so no product is ever returned |
| Website.NoProductsOnFailure | allegro/parsers/website.py:139-176 | a `from_url` call that always raises leaves the loop with no products |
| Crawler.CompileQuery | allegro/search/crawler.py:91-112 | the loop over the filters and the join give `QueryString`; the first exception wins |
| Crawler.FragmentsStop | allegro/search/crawler.py:91-106 | an exception of an earlier filter is the exception of the whole compilation |
| Crawler.LookupsSpec | allegro/search/crawler.py:99-101 | a list contributes `FILTERS[key][v]` for each `v`, in list order; it succeeds iff the list is empty or every choice is in the key's table |
| Crawler.NoSilentDrop | allegro/search/crawler.py:102 | a filter that is `False`, a string or a number makes the compilation raise; it is never dropped |
| Crawler.FragmentsCount | allegro/search/crawler.py:93-101 | `None` adds no fragment, `True` adds one, a list adds one per choice; all-`None` filters give `""` |
| Crawler.QueryStringSpec | allegro/search/crawler.py:108-112 | the query string holds no space, and a single fragment is that fragment with its spaces encoded |
| Crawler.ScrapeSections | allegro/search/crawler.py:134-151 | the section loop gives `ScrapeAll`: one `from_url` call per section, and every exception propagates |
| Crawler.ScrapeAllSpec | allegro/search/crawler.py:40-57 | a successful scrape has one product per section, in section order, product `k` being what the offer call returns for link `k` |
| Crawler.ScrapedUrls | allegro/search/crawler.py:134-151 | each product that `search` and `crawl` return carries the link of its section as its url |
| Crawler.Search | allegro/search/crawler.py:10-60 | `search` fetches the listing for the term and scrapes every section |
| Crawler.Crawl | allegro/search/crawler.py:63-154 | with no options and no filters, `crawl` is `search(term)` without proxies; otherwise it compiles the query and fetches base + term + query with the proxies |
| Crawler.CrawlOptionsOnly | allegro/search/crawler.py:80-116 | options without filters give the same request and products as `search` |
| Crawler.CrawlIgnoresLimit | tests/test_crawler.py:15-22 | with `max_results` 3 and more than three products on the page, `crawl` returns more than three |
| Crawler.ScrapeLimitedSpec | allegro/search/product.py:226-231 | the loop with a limit check keeps at most `limit` products, and exactly the first `limit` when the page scrapes |
| Crawler.CrawlLimitedSpec | allegro/search/crawler.py:63-154 | the corrected `crawl` returns at most `max_results` products, and otherwise the first `max_results` of what `crawl` returns |
| Crawler.CrawlLimitedKeepsThree | tests/test_crawler.py:15-22 | the corrected `crawl` with `max_results` 3 returns exactly the first three products |
| ProxyFile.LoadFromFile | allegro/proxy/proxy_file.py:7-28 | the loop keeps exactly the lines with three `.` and a `:`, untrimmed and in order; a missing file gives `[]` |
| ProxyFile.ValidLinesAppend | allegro/proxy/proxy_file.py:19-21 | kept lines keep their relative order |
| ProxyFile.ValidLinesSpec | allegro/proxy/proxy_file.py:20-23 | a line is kept iff it is proxy-shaped; never more lines than there were; all of them when all are proxy-shaped |
| ProxyFile.LoadSpec | allegro/proxy/proxy_file.py:12-25 | at most one proxy per "\n"-segment; no kept line holds a newline; a file whose every line is proxy-shaped loads completely |
| ProxyFile.EmptyCases | allegro/proxy/proxy_file.py:16-28 | a missing or empty file gives `[]`, and a split always has a segment |
| ProxyChecker.IsGoodProxy | allegro/proxy/proxy_checker.py:7-16 | true iff the probe fetch raises nothing; a `NotImplementedError` probe makes the proxy bad too |
| ProxyChecker.FilterProxies | allegro/proxy/proxy_checker.py:19-32 | every proxy is checked once, in input order, and exactly the passing ones are kept, in input order |
| ProxyChecker.GoodAppend | allegro/proxy/proxy_checker.py:22-26 | the result is a subsequence: filtering distributes over concatenation |
| ProxyChecker.GoodSpec | allegro/proxy/proxy_checker.py:7-26 | a proxy appears once per passing occurrence and never if it fails; the output is never longer than the input |
| Text.EncodeSpacesSpec | allegro/search/crawler.py:110 | `replace(" ", "%20")` leaves no space, adds two characters per space, and leaves space-free text alone |
| Text.SplitLinesSpec | allegro/proxy/proxy_file.py:12 | `split("\n")` gives one piece more than there are newlines; no piece holds a newline; joining the pieces gives the text back |
| Text.IntRoundTrip | allegro/parsers/allegro_parser.py:99 | `int(str(n)) == n` |

## Left out

- HTTP I/O (`requests.get`, headers, status codes) is the deterministic oracle `transport`. Two requests that are equal get the same answer, so a flaky network is not modelled.
- HTML parsing (BeautifulSoup `find` and `find_all`) is not modelled: each page fact is one field of `Pages.Page`.
- The nested lookups of the parameter box are not modelled one by one: a segment without its inner `div`, or a parameter entry without its data container, makes product_parser.py:98-106 raise `AttributeError`, and `Pages.ParamTree` cannot express such a page. Only a missing box or list (`AttributeError`) and a short row (`IndexError`) are modelled.
- An element that is present but lacks the attribute the code reads is not modelled. The breadcrumb link, offer link, quantity `max` and image `src` are each just present or absent. The one exception is the captcha marker.
- Offer links: an `href` that is missing gives `AttributeError` in the model, where Python would raise `TypeError` inside `from_url`.
- Price and rating are real numbers taken from the page. Float parsing and rounding are not modelled.
- `Text.ParseInt` accepts less than Python's `int()`: only an optional sign and ASCII digits. Python also accepts surrounding whitespace, `_` between digits and non-ASCII Unicode digits; the model reports those texts as `ValueError`.
- Proxy lists are lists of strings. A `None` element, which `get_soup` would treat as "no proxy", is not modelled.
- The `ProcessPoolExecutor` branch of `parse_products` in allegro/search/product.py:166-224 is left out. It is concurrent, and its skip message indexes `products_urls` off by one.
- The proxy retry loops of website.py are left out:
  - The loop at lines 76-87 never exits on success. The model ends in the outcome `RetryLoop` when the first listing fetch raises a `ValueError` and proxies are given.
  - The loop at lines 140-149 never repeats with a valid proxy, because its first `proxy=` call raises `TypeError`.
- `Products.FromDataDump` starts from a decoded JSON value, so JSON text encoding is not modelled. It rejects a field of the wrong JSON kind with `TypeError`, whereas the dataclass constructor accepts any value.
- The `FILTERS` table lives in allegro.constants, which is not part of this model. It is a parameter whose entries are a fragment or a choice table.
- `parse_website` of `allegro.parsers.crawler` is not part of this model. `search` and `crawl` get their listing page from the oracle `fetchPage`.
- `is_good_proxy` is the oracle `probe`; its `proxy=` call is not modelled, as noted above. `filter_proxies`'s caller in tests passes a `timeout` keyword it does not accept, which is not modelled either.
- The following are not modelled:
  - the CLI (allegro/parsers/arguments.py, allegro/__main__.py);
  - logging and the `print_num` bookkeeping;
  - the free-proxy scraper allegro/proxy/proxy_gatherer.py;
  - the TypedDict declarations.

## Findings

| source | as written | input that shows it | evidently intended | confidence | as-written member | corrected member |
|---|---|---|---|---|---|---|
| allegro/search/crawler.py:63-154 | `crawl` never reads `options`, so `max_results` has no effect | options `{"max_results": 3}` with no filters, on a listing page with more than three buy-now offers (tests/test_crawler.py:15-22 expects exactly 3) | stop taking sections once `max_results` products are kept, as `parse_products` does | not executed; high that the limit is ignored | Crawler.CrawlIgnoresLimit | Crawler.CrawlLimitedSpec |
