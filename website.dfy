/** `parse_products` of allegro/parsers/website.py: the listing page is
    fetched directly (no `get_soup` rotation), rejected when a captcha is
    required, and its sections go through the shared section loop, with
    optional deduplication by url. A completed page always asks for more. */
module Website {
  import opened Outcomes
  import opened Text
  import opened Pages
  import opened Check
  import opened Soup
  import opened Offer
  import opened Products
  import opened Listing

  /** How a call ends. `RetryLoop` stands for entering the proxy retry loop
      that follows a `ValueError` of the first fetch when proxies are given;
      that loop is not modelled. */
  datatype Outcome =
    | Returned(products: seq<Product>, more: bool)
    | Raises(error: Error)
    | RetryLoop

  const CaptchaMsg := "Captcha is required"

  /** The errors an `except ValueError` clause catches. */
  predicate IsValueError(e: Error) {
    e.ValueError? || e.InvalidLiteral?
  }

  /** The `Product.from_url` call of the section loop: with a proxy it passes
      the keyword `proxy`, which `from_url` does not accept, so the call raises
      `TypeError`; without proxies it fetches with the caller's timeout. */
  function WebsiteOffer(transport: Request -> Response, proxies: Option<seq<string>>, timeout: Option<int>)
    : (r: string -> Result<Product>)
  {
    url => if proxies.Some? then Failure(TypeError) else ProductFromUrl(transport, url, None, timeout)
  }

  /** The request of `parse_website(url, proxy)`: no timeout, and both
      schemes mapped to the first proxy. */
  function ListingRequest(url: string, proxies: Option<seq<string>>): (r: Request)
    requires proxies.None? || |proxies.value| >= 1
  {
    Request(url, if proxies.Some? then Some(ProxyObject(proxies.value[0])) else None, None)
  }

  /** What `parse_products` returns or raises. An empty proxy list makes the
      first `next(proxy_cycle)` raise `StopIteration`. */
  function WebsitePage(transport: Request -> Response, term: string, query: string, pageNum: int,
                       proxies: Option<seq<string>>, avoidDuplicates: bool, maxResults: Option<int>,
                       timeout: Option<int>): (r: Outcome)
  {
    if proxies == Some([]) then Raises(StopIteration)
    else match transport(ListingRequest(ListingUrl(term, query, pageNum), proxies))
      case Raised(e) =>
        if IsValueError(e) && proxies.Some? then RetryLoop else Raises(e)
      case Body(page) =>
        match IsCaptchaRequired(page)
        case Failure(e) => Raises(e)
        case Success(captcha) =>
          if captcha then Raises(ValueError(CaptchaMsg))
          else match Collect(WebsiteOffer(transport, proxies, timeout), page.offerLinks, maxResults,
                             avoidDuplicates, [])
            case Stopped(e) => Raises(e)
            case LimitHit(ps) => Returned(ps, false)
            case Exhausted(ps) => Returned(ps, true)
  }

  /** `parse_products`. */
  method ParseProducts(transport: Request -> Response, term: string, query: string, pageNum: int,
                       proxies: Option<seq<string>>, avoidDuplicates: bool, maxResults: Option<int>,
                       timeout: Option<int>)
    returns (r: Outcome)
    ensures r == WebsitePage(transport, term, query, pageNum, proxies, avoidDuplicates, maxResults, timeout)
  {
    var url := ListingUrl(term, query, pageNum);
    if proxies == Some([]) {
      return Raises(StopIteration);
    }
    var response := transport(ListingRequest(url, proxies));
    if response.Raised? {
      if IsValueError(response.error) && proxies.Some? {
        return RetryLoop;
      }
      return Raises(response.error);
    }
    var page := response.page;
    var captcha := IsCaptchaRequired(page);
    if captcha.Failure? {
      return Raises(captcha.error);
    }
    if captcha.value {
      return Raises(ValueError(CaptchaMsg));
    }
    var end := CollectSections(WebsiteOffer(transport, proxies, timeout), page.offerLinks, maxResults,
                               avoidDuplicates);
    match end
    case Stopped(e) =>
      return Raises(e);
    case LimitHit(ps) =>
      return Returned(ps, false);
    case Exhausted(ps) =>
      return Returned(ps, true);
  }

  /** A page that needs a captcha is rejected before any section is looked
      at. */
  lemma CaptchaRejected(transport: Request -> Response, term: string, query: string, pageNum: int,
                        proxies: Option<seq<string>>, avoidDuplicates: bool, maxResults: Option<int>,
                        timeout: Option<int>, page: Page)
    requires proxies != Some([])
    requires transport(ListingRequest(ListingUrl(term, query, pageNum), proxies)) == Body(page)
    requires IsCaptchaRequired(page) == Success(true)
    ensures WebsitePage(transport, term, query, pageNum, proxies, avoidDuplicates, maxResults, timeout)
         == Raises(ValueError("Captcha is required"))
  {
  }

  /** With `avoid_duplicates` the returned products have distinct urls; the
      limit is never overshot; and the flag is false only when the limit
      stopped the loop early. */
  lemma WebsiteResult(transport: Request -> Response, term: string, query: string, pageNum: int,
                      proxies: Option<seq<string>>, avoidDuplicates: bool, maxResults: Option<int>,
                      timeout: Option<int>)
    ensures var r := WebsitePage(transport, term, query, pageNum, proxies, avoidDuplicates, maxResults, timeout);
      && (r.Returned? && avoidDuplicates ==> DistinctUrls(r.products))
      && (r.Returned? && maxResults.Some? && maxResults.value >= 0 ==> |r.products| <= maxResults.value)
      && (r.Returned? && !r.more ==> maxResults == Some(|r.products|))
  {
    var r := WebsitePage(transport, term, query, pageNum, proxies, avoidDuplicates, maxResults, timeout);
    if r.Returned? {
      var page := transport(ListingRequest(ListingUrl(term, query, pageNum), proxies)).page;
      var offer := WebsiteOffer(transport, proxies, timeout);
      if avoidDuplicates {
        CollectDistinct(offer, page.offerLinks, maxResults, []);
      }
      CollectLimitHit(offer, page.offerLinks, maxResults, avoidDuplicates, []);
      if maxResults.Some? && maxResults.value >= 0 {
        CollectBounded(offer, page.offerLinks, maxResults.value, avoidDuplicates, []);
      }
    }
  }

  /** Without `avoid_duplicates` and without a limit, every product is kept
      in section order, duplicate urls included, and the page asks for more. */
  lemma WebsiteKeepsDuplicates(transport: Request -> Response, term: string, query: string, pageNum: int,
                               timeout: Option<int>, page: Page)
    requires transport(ListingRequest(ListingUrl(term, query, pageNum), None)) == Body(page)
    requires IsCaptchaRequired(page) == Success(false)
    requires FirstError(WebsiteOffer(transport, None, timeout), page.offerLinks).None?
    ensures WebsitePage(transport, term, query, pageNum, None, false, None, timeout)
         == Returned(Successes(WebsiteOffer(transport, None, timeout), page.offerLinks), true)
  {
    var offer := WebsiteOffer(transport, None, timeout);
    CollectUnlimited(offer, page.offerLinks, []);
    assert [] + Successes(offer, page.offerLinks) == Successes(offer, page.offerLinks);
  }

  /** With proxies, the first section that reaches `from_url` raises
      `TypeError`, so no product is ever returned. */
  lemma ProxiesNeverYieldProducts(transport: Request -> Response, term: string, query: string, pageNum: int,
                                  proxies: seq<string>, avoidDuplicates: bool, maxResults: Option<int>,
                                  timeout: Option<int>)
    ensures var r := WebsitePage(transport, term, query, pageNum, Some(proxies), avoidDuplicates, maxResults, timeout);
      r.Returned? ==> r.products == []
  {
    var r := WebsitePage(transport, term, query, pageNum, Some(proxies), avoidDuplicates, maxResults, timeout);
    if r.Returned? {
      var page := transport(ListingRequest(ListingUrl(term, query, pageNum), Some(proxies))).page;
      NoProductsOnFailure(WebsiteOffer(transport, Some(proxies), timeout), page.offerLinks, maxResults,
                          avoidDuplicates);
    }
  }

  /** An offer that never yields a product leaves the loop with nothing kept. */
  lemma {:induction false} NoProductsOnFailure(offer: string -> Result<Product>, links: seq<Option<string>>,
                                               maxResults: Option<int>, dedupe: bool)
    requires forall url :: offer(url).Failure?
    ensures var end := Collect(offer, links, maxResults, dedupe, []);
      !end.Stopped? ==> end.products == []
    decreases |links|
  {
    if links != [] && maxResults != Some(0) && links[0].Some? {
      NoProductsOnFailure(offer, links[1..], maxResults, dedupe);
    }
  }
}
