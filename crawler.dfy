/** allegro/search/crawler.py: `search` and `crawl`. `crawl` compiles the
    filters into a query string through the `FILTERS` table, fetches one
    listing page, and turns every offer section into a product. The listing
    page comes from `parse_website` of `allegro.parsers.crawler`, which is
    not part of this model: it is the oracle `fetchPage`. */
module Crawler {
  import opened Outcomes
  import opened Text
  import opened Pages
  import opened Check
  import opened Products

  // ---------------------------------------------------------------------------
  // Filters and the query string

  /** The value of one filter: `None`, a boolean, a list of choices, or any
      other value (a string or a number). */
  datatype FilterValue =
    | Absent
    | Flag(on: bool)
    | Many(choices: seq<string>)
    | Scalar(text: string)

  /** An entry of the `FILTERS` table: a query fragment, or a table from a
      choice to its fragment. */
  datatype FilterEntry =
    | Text(fragment: string)
    | Table(choices: map<string, string>)

  type FilterTable = map<string, FilterEntry>

  /** The filters in the order of the dictionary. */
  type Filters = seq<(string, FilterValue)>

  /** `[FILTERS[key][val] for val in value]`: each lookup in turn; an empty
      list looks nothing up. */
  function Lookups(table: FilterTable, key: string, choices: seq<string>): (r: Result<seq<FilterEntry>>)
  {
    if choices == [] then Success([])
    else if key !in table then Failure(KeyError(key))
    else if table[key].Text? then Failure(TypeError)
    else if choices[0] !in table[key].choices then Failure(KeyError(choices[0]))
    else
      var rest :- Lookups(table, key, choices[1..]);
      Success([Text(table[key].choices[choices[0]])] + rest)
  }

  /** What one filter adds to the query list. A `True` flag appends the table
      entry itself; a list extends by one lookup per choice; any other value
      (`False`, a string, a number) evaluates `FILTERS[key]` and then the
      undefined name `function`. */
  function Contribution(table: FilterTable, key: string, value: FilterValue): (r: Result<seq<FilterEntry>>)
  {
    match value
    case Absent => Success([])
    case Flag(on) =>
      if !on then (if key in table then Failure(NameError("function")) else Failure(KeyError(key)))
      else if key in table then Success([table[key]])
      else Failure(KeyError(key))
    case Many(choices) => Lookups(table, key, choices)
    case Scalar(_) => if key in table then Failure(NameError("function")) else Failure(KeyError(key))
  }

  /** The query list after all filters, or the first exception. */
  function Fragments(table: FilterTable, filters: Filters): (r: Result<seq<FilterEntry>>)
  {
    if filters == [] then Success([])
    else
      var before :- Fragments(table, filters[..|filters| - 1]);
      var last := filters[|filters| - 1];
      var added :- Contribution(table, last.0, last.1);
      Success(before + added)
  }

  /** The texts of a query list, or `None` when it holds a table, which
      `"&".join` rejects. */
  function Texts(fragments: seq<FilterEntry>): (r: Option<seq<string>>)
  {
    if fragments == [] then Some([])
    else if fragments[0].Table? then None
    else match Texts(fragments[1..])
      case None => None
      case Some(rest) => Some([fragments[0].fragment] + rest)
  }

  /** The query string of `crawl`: fragments joined with `&`, spaces encoded. */
  function QueryString(table: FilterTable, filters: Filters): (r: Result<string>)
  {
    var fragments :- Fragments(table, filters);
    match Texts(fragments)
    case None => Failure(TypeError)
    case Some(parts) => Success(if |parts| >= 1 then EncodeSpaces(Join("&", parts)) else "")
  }

  /** The loop over `filters.items()` and the join. */
  method CompileQuery(table: FilterTable, filters: Filters) returns (r: Result<string>)
    ensures r == QueryString(table, filters)
  {
    var query: seq<FilterEntry> := [];
    var i := 0;
    while i < |filters|
      invariant 0 <= i <= |filters|
      invariant Fragments(table, filters[..i]) == Success(query)
    {
      assert filters[..i + 1][..i] == filters[..i];
      var (key, value) := filters[i];
      if value != Absent {
        var added := Contribution(table, key, value);
        if added.Failure? {
          FragmentsStop(table, filters, i + 1);
          return Failure(added.error);
        }
        query := query + added.value;
      } else {
        assert query + [] == query;
      }
      i := i + 1;
    }
    assert filters[..i] == filters;
    var parts := Texts(query);
    if parts.None? {
      return Failure(TypeError);
    }
    if |parts.value| >= 1 {
      r := Success(EncodeSpaces(Join("&", parts.value)));
    } else {
      r := Success("");
    }
  }

  /** An exception of an earlier filter is the exception of the whole list. */
  lemma {:induction false} FragmentsStop(table: FilterTable, filters: Filters, n: nat)
    requires n <= |filters| && Fragments(table, filters[..n]).Failure?
    ensures Fragments(table, filters) == Fragments(table, filters[..n])
    decreases |filters|
  {
    if n < |filters| {
      var init := filters[..|filters| - 1];
      assert init[..n] == filters[..n];
      FragmentsStop(table, init, n);
    } else {
      assert filters[..n] == filters;
    }
  }

  /** A list of choices contributes one fragment per choice, in list order;
      it succeeds exactly when the list is empty or the table maps the key to
      a choice table holding every choice. */
  lemma {:induction false} LookupsSpec(table: FilterTable, key: string, choices: seq<string>)
    ensures Lookups(table, key, choices).Success? <==>
      choices == [] || (key in table && table[key].Table? && forall c :: c in choices ==> c in table[key].choices)
    ensures Lookups(table, key, choices).Success? ==>
      var r := Lookups(table, key, choices).value;
      |r| == |choices| && forall k :: 0 <= k < |r| ==> r[k] == Text(table[key].choices[choices[k]])
  {
    if choices != [] && key in table && table[key].Table? && choices[0] in table[key].choices {
      var tail := choices[1..];
      LookupsSpec(table, key, tail);
      assert forall c :: c in choices ==> c == choices[0] || c in tail;
      if Lookups(table, key, choices).Success? {
        var r := Lookups(table, key, choices).value;
        forall k | 1 <= k < |r|
          ensures r[k] == Text(table[key].choices[choices[k]])
        {
          assert choices[k] == tail[k - 1];
        }
      }
    }
  }

  predicate Rejected(value: FilterValue) {
    value.Scalar? || value == Flag(false)
  }

  /** A filter whose value is neither `None`, `True` nor a list is never
      silently dropped: the compilation raises. */
  lemma {:induction false} NoSilentDrop(table: FilterTable, filters: Filters, k: nat)
    requires k < |filters| && Rejected(filters[k].1)
    ensures Fragments(table, filters).Failure?
    decreases |filters|
  {
    if k < |filters| - 1 {
      NoSilentDrop(table, filters[..|filters| - 1], k);
    }
  }

  /** Number of fragments a list of filters adds when it compiles. */
  function FragmentCount(filters: Filters): (r: nat)
  {
    if filters == [] then 0
    else
      var value := filters[|filters| - 1].1;
      FragmentCount(filters[..|filters| - 1])
      + (match value case Flag(_) => 1 case Many(choices) => |choices| case _ => 0)
  }

  /** `None` values add nothing, a `True` flag adds one fragment and a list
      one per choice; a list of `None` filters gives the empty query string. */
  lemma {:induction false} FragmentsCount(table: FilterTable, filters: Filters)
    ensures Fragments(table, filters).Success? ==> |Fragments(table, filters).value| == FragmentCount(filters)
    ensures (forall k :: 0 <= k < |filters| ==> filters[k].1 == Absent) ==>
      Fragments(table, filters) == Success([]) && QueryString(table, filters) == Success("")
  {
    if filters != [] {
      var init := filters[..|filters| - 1];
      FragmentsCount(table, init);
      var last := filters[|filters| - 1];
      if last.1.Many? {
        LookupsSpec(table, last.0, last.1.choices);
      }
      if forall k :: 0 <= k < |filters| ==> filters[k].1 == Absent {
        assert forall k :: 0 <= k < |init| ==> init[k] == filters[k];
      }
    }
  }

  /** The query string holds no space, and a single fragment is used as it
      is, with its spaces encoded. */
  lemma QueryStringSpec(table: FilterTable, filters: Filters, fragment: string)
    ensures QueryString(table, filters).Success? ==> ' ' !in QueryString(table, filters).value
    ensures Fragments(table, filters) == Success([Text(fragment)])
      ==> QueryString(table, filters) == Success(EncodeSpaces(fragment))
  {
    var f := Fragments(table, filters);
    if f.Success? && Texts(f.value).Some? && |Texts(f.value).value| >= 1 {
      EncodeSpacesSpec(Join("&", Texts(f.value).value));
    }
    if f == Success([Text(fragment)]) {
      assert f.value[1..] == [] && Texts(f.value[1..]) == Some([]);
      assert [fragment] + [] == [fragment];
      assert Texts(f.value) == Some([fragment]);
    }
  }

  // ---------------------------------------------------------------------------
  // search and crawl

  /** The `Options` of `crawl`. */
  datatype Options = Options(
    sponsoredOffers: Option<bool>,
    maxResults: Option<int>,
    pagesToFetch: Option<int>,
    startPage: Option<int>)

  const SearchBase := "https://allegro.pl/listing?string="

  /** The `Product.from_url(href)` call of `search` and `crawl`: no proxies,
      no timeout. */
  function SectionOffer(transport: Request -> Response): (r: string -> Result<Product>)
  {
    url => ProductFromUrl(transport, url, None, None)
  }

  /** The section loop of `search` and `crawl`: `offer` (there always
      `SectionOffer`) for every section, in order; any exception,
      `NotImplementedError` included, propagates. */
  function ScrapeAll(offer: string -> Result<Product>, links: seq<Option<string>>): (r: Result<seq<Product>>)
  {
    if links == [] then Success([])
    else if links[0].None? then Failure(AttributeError)
    else
      var p :- offer(links[0].value);
      var rest :- ScrapeAll(offer, links[1..]);
      Success([p] + rest)
  }

  /** `products` followed by the outcome of the remaining sections. */
  function After(products: seq<Product>, r: Result<seq<Product>>): (res: Result<seq<Product>>)
  {
    if r.Failure? then r else Success(products + r.value)
  }

  /** The `for` loop over the sections. */
  method ScrapeSections(offer: string -> Result<Product>, links: seq<Option<string>>)
    returns (r: Result<seq<Product>>)
    ensures r == ScrapeAll(offer, links)
  {
    var products: seq<Product> := [];
    var i := 0;
    assert After([], ScrapeAll(offer, links)) == ScrapeAll(offer, links) by {
      if ScrapeAll(offer, links).Success? {
        assert [] + ScrapeAll(offer, links).value == ScrapeAll(offer, links).value;
      }
    }
    while i < |links|
      invariant 0 <= i <= |links|
      invariant ScrapeAll(offer, links) == After(products, ScrapeAll(offer, links[i..]))
    {
      var rest := links[i..];
      assert rest[0] == links[i] && rest[1..] == links[i + 1..];
      if links[i].None? {
        return Failure(AttributeError);
      }
      var product := offer(links[i].value);
      if product.Failure? {
        return Failure(product.error);
      }
      var tail := ScrapeAll(offer, links[i + 1..]);
      if tail.Success? {
        assert products + ([product.value] + tail.value) == (products + [product.value]) + tail.value;
      }
      products := products + [product.value];
      i := i + 1;
    }
    assert links[i..] == [];
    assert products + [] == products;
    return Success(products);
  }

  /** In a successful scrape every section gives exactly one product, and the
      product of section `k` is the one built from its link. */
  lemma {:induction false} ScrapeAllSpec(offer: string -> Result<Product>, links: seq<Option<string>>)
    ensures ScrapeAll(offer, links).Success? ==>
      var ps := ScrapeAll(offer, links).value;
      && |ps| == |links|
      && forall k :: 0 <= k < |ps| ==> links[k].Some? && offer(links[k].value) == Success(ps[k])
  {
    if links != [] && ScrapeAll(offer, links).Success? {
      ScrapeAllSpec(offer, links[1..]);
      var ps := ScrapeAll(offer, links).value;
      forall k | 1 <= k < |ps|
        ensures links[k] == links[1..][k - 1] && ps[k] == ScrapeAll(offer, links[1..]).value[k - 1]
      {
      }
    }
  }

  /** Each product `search` and `crawl` return carries the link of its
      section as its url. */
  lemma ScrapedUrls(transport: Request -> Response, links: seq<Option<string>>)
    ensures ScrapeAll(SectionOffer(transport), links).Success? ==>
      var ps := ScrapeAll(SectionOffer(transport), links).value;
      && |ps| == |links|
      && forall k :: 0 <= k < |ps| ==> links[k].Some? && ps[k].url == links[k].value
  {
    ScrapeAllSpec(SectionOffer(transport), links);
    if ScrapeAll(SectionOffer(transport), links).Success? {
      var ps := ScrapeAll(SectionOffer(transport), links).value;
      forall k | 0 <= k < |ps|
        ensures ps[k].url == links[k].value
      {
        FromUrlKeepsUrl(transport, links[k].value, None, None);
      }
    }
  }

  /** `search(search_term)`: the first listing page, every section scraped. */
  function SearchResult(fetchPage: (string, Option<ProxyMap>) -> Result<Page>, transport: Request -> Response,
                        term: string, proxies: Option<ProxyMap>): (r: Result<seq<Product>>)
  {
    var page :- fetchPage(SearchBase + term, proxies);
    ScrapeAll(SectionOffer(transport), page.offerLinks)
  }

  /** `crawl`: without options and filters it is `search(search_term)`,
      without the proxies; otherwise the compiled query string is appended to
      the listing URL. The options play no further part. */
  function CrawlResult(fetchPage: (string, Option<ProxyMap>) -> Result<Page>, transport: Request -> Response,
                       table: FilterTable, term: string, options: Option<Options>, filters: Option<Filters>,
                       proxies: Option<ProxyMap>): (r: Result<seq<Product>>)
  {
    if options.None? && filters.None? then SearchResult(fetchPage, transport, term, None)
    else
      var query :- QueryString(table, if filters.Some? then filters.value else []);
      var page :- fetchPage(SearchBase + term + query, proxies);
      ScrapeAll(SectionOffer(transport), page.offerLinks)
  }

  method Search(fetchPage: (string, Option<ProxyMap>) -> Result<Page>, transport: Request -> Response,
                term: string, proxies: Option<ProxyMap>)
    returns (r: Result<seq<Product>>)
    ensures r == SearchResult(fetchPage, transport, term, proxies)
  {
    var page := fetchPage(SearchBase + term, proxies);
    if page.Failure? {
      return Failure(page.error);
    }
    r := ScrapeSections(SectionOffer(transport), page.value.offerLinks);
  }

  method Crawl(fetchPage: (string, Option<ProxyMap>) -> Result<Page>, transport: Request -> Response,
               table: FilterTable, term: string, options: Option<Options>, filters: Option<Filters>,
               proxies: Option<ProxyMap>)
    returns (r: Result<seq<Product>>)
    ensures r == CrawlResult(fetchPage, transport, table, term, options, filters, proxies)
  {
    if options.None? && filters.None? {
      r := Search(fetchPage, transport, term, None);
      return;
    }
    var query := CompileQuery(table, if filters.Some? then filters.value else []);
    if query.Failure? {
      return Failure(query.error);
    }
    var page := fetchPage(SearchBase + term + query.value, proxies);
    if page.Failure? {
      return Failure(page.error);
    }
    r := ScrapeSections(SectionOffer(transport), page.value.offerLinks);
  }

  /** Options without filters change nothing but skip the short-circuit: the
      listing URL is the base and the term, followed by the empty query
      string, and the proxies are used. */
  lemma CrawlOptionsOnly(fetchPage: (string, Option<ProxyMap>) -> Result<Page>, transport: Request -> Response,
                         table: FilterTable, term: string, options: Options, proxies: Option<ProxyMap>)
    ensures CrawlResult(fetchPage, transport, table, term, Some(options), None, proxies)
         == SearchResult(fetchPage, transport, term, proxies)
  {
    assert SearchBase + term + "" == SearchBase + term;
  }

  /** As written, `crawl` ignores `max_results`: whatever limit the options
      ask for, it returns one product per section of the page. */
  lemma CrawlIgnoresLimit(fetchPage: (string, Option<ProxyMap>) -> Result<Page>, transport: Request -> Response,
                          table: FilterTable, term: string, proxies: Option<ProxyMap>, page: Page,
                          ps: seq<Product>)
    requires fetchPage(SearchBase + term, proxies) == Success(page)
    requires ScrapeAll(SectionOffer(transport), page.offerLinks) == Success(ps) && |ps| > 3
    ensures var options := Options(None, Some(3), None, None);
      var r := CrawlResult(fetchPage, transport, table, term, Some(options), None, proxies);
      r.Success? && |r.value| > 3
  {
    CrawlOptionsOnly(fetchPage, transport, table, term, Options(None, Some(3), None, None), proxies);
  }

  /** The section loop with the limit check of `parse_products`: before each
      section, stop once `limit` products are kept. */
  function ScrapeLimited(offer: string -> Result<Product>, links: seq<Option<string>>, limit: nat)
    : (r: Result<seq<Product>>)
  {
    if links == [] || limit == 0 then Success([])
    else if links[0].None? then Failure(AttributeError)
    else
      var p :- offer(links[0].value);
      var rest :- ScrapeLimited(offer, links[1..], limit - 1);
      Success([p] + rest)
  }

  /** The limited loop keeps at most `limit` products; when the whole page
      scrapes it keeps exactly the first `limit` of them. */
  lemma ScrapeLimitedSpec(offer: string -> Result<Product>, links: seq<Option<string>>, limit: nat)
    ensures ScrapeLimited(offer, links, limit).Success? ==> |ScrapeLimited(offer, links, limit).value| <= limit
    ensures ScrapeAll(offer, links).Success? ==>
      var all := ScrapeAll(offer, links).value;
      ScrapeLimited(offer, links, limit) == Success(if limit <= |all| then all[..limit] else all)
  {
    ScrapeLimitedBound(offer, links, limit);
    if ScrapeAll(offer, links).Success? {
      ScrapeLimitedPrefix(offer, links, limit);
    }
  }

  lemma {:induction false} ScrapeLimitedBound(offer: string -> Result<Product>, links: seq<Option<string>>, limit: nat)
    ensures ScrapeLimited(offer, links, limit).Success? ==> |ScrapeLimited(offer, links, limit).value| <= limit
  {
    if links != [] && limit != 0 && links[0].Some? {
      ScrapeLimitedBound(offer, links[1..], limit - 1);
    }
  }

  lemma {:induction false} ScrapeLimitedPrefix(offer: string -> Result<Product>, links: seq<Option<string>>, limit: nat)
    requires ScrapeAll(offer, links).Success?
    ensures var all := ScrapeAll(offer, links).value;
      ScrapeLimited(offer, links, limit) == Success(if limit <= |all| then all[..limit] else all)
  {
    if links != [] && limit != 0 {
      ScrapeLimitedPrefix(offer, links[1..], limit - 1);
      var all := ScrapeAll(offer, links).value;
      var rest := ScrapeAll(offer, links[1..]).value;
      assert all == [all[0]] + rest;
      if limit <= |all| {
        assert all[..limit] == [all[0]] + rest[..limit - 1];
      }
    }
  }

  /** `crawl` as the options evidently intend: a non-negative `max_results`
      limits the products taken from the page. */
  function CrawlResultLimited(fetchPage: (string, Option<ProxyMap>) -> Result<Page>, transport: Request -> Response,
                              table: FilterTable, term: string, options: Option<Options>, filters: Option<Filters>,
                              proxies: Option<ProxyMap>): (r: Result<seq<Product>>)
  {
    if options.None? && filters.None? then SearchResult(fetchPage, transport, term, None)
    else
      var query :- QueryString(table, if filters.Some? then filters.value else []);
      var page :- fetchPage(SearchBase + term + query, proxies);
      if options.Some? && options.value.maxResults.Some? && options.value.maxResults.value >= 0
      then ScrapeLimited(SectionOffer(transport), page.offerLinks, options.value.maxResults.value)
      else ScrapeAll(SectionOffer(transport), page.offerLinks)
  }

  /** The corrected `crawl` returns at most `max_results` products, exactly
      that many when the page has enough, and otherwise agrees with `crawl`. */
  lemma CrawlLimitedSpec(fetchPage: (string, Option<ProxyMap>) -> Result<Page>, transport: Request -> Response,
                         table: FilterTable, term: string, options: Options, filters: Option<Filters>,
                         proxies: Option<ProxyMap>, m: nat)
    requires options.maxResults == Some(m)
    ensures var r := CrawlResultLimited(fetchPage, transport, table, term, Some(options), filters, proxies);
      var all := CrawlResult(fetchPage, transport, table, term, Some(options), filters, proxies);
      && (r.Success? ==> |r.value| <= m)
      && (all.Success? ==> r == Success(if m <= |all.value| then all.value[..m] else all.value))
  {
    var fs := if filters.Some? then filters.value else [];
    var query := QueryString(table, fs);
    if query.Success? {
      var page := fetchPage(SearchBase + term + query.value, proxies);
      if page.Success? {
        ScrapeLimitedSpec(SectionOffer(transport), page.value.offerLinks, m);
      }
    }
  }

  /** The corrected `crawl` keeps the test's expectation: a page with more
      than three products and `max_results` 3 gives exactly three. */
  lemma CrawlLimitedKeepsThree(fetchPage: (string, Option<ProxyMap>) -> Result<Page>, transport: Request -> Response,
                               table: FilterTable, term: string, proxies: Option<ProxyMap>, page: Page,
                               ps: seq<Product>)
    requires fetchPage(SearchBase + term, proxies) == Success(page)
    requires ScrapeAll(SectionOffer(transport), page.offerLinks) == Success(ps) && |ps| > 3
    ensures var options := Options(None, Some(3), None, None);
      CrawlResultLimited(fetchPage, transport, table, term, Some(options), None, proxies) == Success(ps[..3])
  {
    var options := Options(None, Some(3), None, None);
    assert SearchBase + term + "" == SearchBase + term;
    CrawlLimitedSpec(fetchPage, transport, table, term, options, None, proxies, 3);
  }
}
