/** `parse_products` of allegro/parsers/allegro_parser.py, and the sequential
    branch of `parse_products` in allegro/search/product.py, which is the same
    code: one listing page is fetched, its offer sections are turned into
    products one by one, and a flag says whether a next page exists.
    The section loop is shared with allegro/parsers/website.py. */
module Listing {
  import opened Outcomes
  import opened Text
  import opened Pages
  import opened Check
  import opened Soup
  import opened ProductParser
  import opened Products

  // ---------------------------------------------------------------------------
  // The section loop

  /** How the loop over the sections ends: the `max_results` check returned
      early, every section was handled, or an exception left the loop. */
  datatype LoopEnd =
    | LimitHit(products: seq<Product>)
    | Exhausted(products: seq<Product>)
    | Stopped(error: Error)

  predicate HasUrl(products: seq<Product>, url: string) {
    exists k :: 0 <= k < |products| && products[k].url == url
  }

  predicate DistinctUrls(products: seq<Product>) {
    forall i, j :: 0 <= i < j < |products| ==> products[i].url != products[j].url
  }

  /** The loop over the remaining sections (`links`, the `href` of each
      section's offer link) having already kept `acc`. `offer` is the
      `Product.from_url` call of the caller. Before each section the limit is
      compared with the number kept so far; a section without a link raises
      (`None.get`); `NotImplementedError` skips the section; with `dedupe` a
      product whose url was already kept is skipped too. */
  function Collect(offer: string -> Result<Product>, links: seq<Option<string>>, maxResults: Option<int>,
                   dedupe: bool, acc: seq<Product>): (r: LoopEnd)
    decreases |links|
  {
    if links == [] then Exhausted(acc)
    else if maxResults == Some(|acc|) then LimitHit(acc)
    else if links[0].None? then Stopped(AttributeError)
    else match offer(links[0].value)
      case Failure(e) =>
        if e == NotImplementedError then Collect(offer, links[1..], maxResults, dedupe, acc) else Stopped(e)
      case Success(p) =>
        if dedupe && HasUrl(acc, p.url) then Collect(offer, links[1..], maxResults, dedupe, acc)
        else Collect(offer, links[1..], maxResults, dedupe, acc + [p])
  }

  /** The `for` loop over the sections. */
  method CollectSections(offer: string -> Result<Product>, links: seq<Option<string>>, maxResults: Option<int>,
                         dedupe: bool)
    returns (end: LoopEnd)
    ensures end == Collect(offer, links, maxResults, dedupe, [])
  {
    var products: seq<Product> := [];
    var i := 0;
    while i < |links|
      invariant 0 <= i <= |links|
      invariant Collect(offer, links, maxResults, dedupe, []) == Collect(offer, links[i..], maxResults, dedupe, products)
    {
      assert links[i..][0] == links[i] && links[i..][1..] == links[i + 1..];
      if maxResults == Some(|products|) {
        return LimitHit(products);
      }
      if links[i].None? {
        return Stopped(AttributeError);
      }
      var result := offer(links[i].value);
      if result.Failure? {
        if result.error != NotImplementedError {
          return Stopped(result.error);
        }
      } else {
        var product := result.value;
        if !(dedupe && HasUrl(products, product.url)) {
          products := products + [product];
        }
      }
      i := i + 1;
    }
    return Exhausted(products);
  }

  /** Reference definition: the products of all sections whose link exists
      and whose offer is a product, in section order. */
  function Successes(offer: string -> Result<Product>, links: seq<Option<string>>): (r: seq<Product>)
  {
    if links == [] then []
    else
      (if links[0].Some? && offer(links[0].value).Success? then [offer(links[0].value).value] else [])
      + Successes(offer, links[1..])
  }

  /** Reference definition: the exception of the first section that has no
      link or whose offer raises something other than `NotImplementedError`. */
  function FirstError(offer: string -> Result<Product>, links: seq<Option<string>>): (r: Option<Error>)
  {
    if links == [] then None
    else if links[0].None? then Some(AttributeError)
    else match offer(links[0].value)
      case Failure(e) => if e == NotImplementedError then FirstError(offer, links[1..]) else Some(e)
      case Success(_) => FirstError(offer, links[1..])
  }

  /** Without a limit and without deduplication every section is attempted:
      the loop raises the first error, or keeps exactly the products of all
      sections in section order, duplicates included. */
  lemma CollectUnlimited(offer: string -> Result<Product>, links: seq<Option<string>>, acc: seq<Product>)
    ensures Collect(offer, links, None, false, acc)
         == match FirstError(offer, links)
            case Some(e) => Stopped(e)
            case None => Exhausted(acc + Successes(offer, links))
  {
    match FirstError(offer, links)
    case Some(e) => CollectStops(offer, links, acc, e);
    case None => CollectExhausts(offer, links, acc);
  }

  /** The loop raises the error of the first bad section. */
  lemma {:induction false} CollectStops(offer: string -> Result<Product>, links: seq<Option<string>>,
                                        acc: seq<Product>, e: Error)
    requires FirstError(offer, links) == Some(e)
    ensures Collect(offer, links, None, false, acc) == Stopped(e)
    decreases |links|
  {
    if links[0].Some? {
      var r := offer(links[0].value);
      if r.Success? {
        CollectStops(offer, links[1..], acc + [r.value], e);
      } else if r.error == NotImplementedError {
        CollectStops(offer, links[1..], acc, e);
      }
    }
  }

  /** With no bad section the loop keeps every product, in section order. */
  lemma {:induction false} CollectExhausts(offer: string -> Result<Product>, links: seq<Option<string>>,
                                           acc: seq<Product>)
    requires FirstError(offer, links).None?
    ensures Collect(offer, links, None, false, acc) == Exhausted(acc + Successes(offer, links))
    decreases |links|
  {
    if links == [] {
      assert acc + [] == acc;
    } else {
      var tail := links[1..];
      var r := offer(links[0].value);
      if r.Failure? {
        assert Collect(offer, links, None, false, acc) == Collect(offer, tail, None, false, acc);
        CollectExhausts(offer, tail, acc);
        assert Successes(offer, links) == Successes(offer, tail);
      } else {
        var p := r.value;
        assert Collect(offer, links, None, false, acc) == Collect(offer, tail, None, false, acc + [p]);
        CollectExhausts(offer, tail, acc + [p]);
        assert Successes(offer, links) == [p] + Successes(offer, tail);
        assert acc + [p] + Successes(offer, tail) == acc + ([p] + Successes(offer, tail));
      }
    }
  }

  /** The limit is never overshot: starting at or below `m` products, the
      loop ends with at most `m`, and returns early only with exactly `m`. */
  lemma {:induction false} CollectBounded(offer: string -> Result<Product>, links: seq<Option<string>>, m: int,
                                          dedupe: bool, acc: seq<Product>)
    requires |acc| <= m
    ensures var end := Collect(offer, links, Some(m), dedupe, acc);
      && (end.LimitHit? ==> |end.products| == m)
      && (end.Exhausted? ==> |end.products| <= m)
    decreases |links|
  {
    if links != [] && m != |acc| && links[0].Some? {
      match offer(links[0].value)
      case Failure(e) =>
        CollectBounded(offer, links[1..], m, dedupe, acc);
      case Success(p) =>
        CollectBounded(offer, links[1..], m, dedupe, acc);
        CollectBounded(offer, links[1..], m, dedupe, acc + [p]);
    }
  }

  /** The loop returns early only when the number kept equals the limit. */
  lemma {:induction false} CollectLimitHit(offer: string -> Result<Product>, links: seq<Option<string>>,
                                           maxResults: Option<int>, dedupe: bool, acc: seq<Product>)
    ensures var end := Collect(offer, links, maxResults, dedupe, acc);
      end.LimitHit? ==> maxResults == Some(|end.products|)
    decreases |links|
  {
    if links != [] && maxResults != Some(|acc|) && links[0].Some? {
      match offer(links[0].value)
      case Failure(e) =>
        CollectLimitHit(offer, links[1..], maxResults, dedupe, acc);
      case Success(p) =>
        CollectLimitHit(offer, links[1..], maxResults, dedupe, acc);
        CollectLimitHit(offer, links[1..], maxResults, dedupe, acc + [p]);
    }
  }

  /** Whatever the limit, a loop without deduplication that returns keeps
      what it started with followed by a prefix of the reference list:
      products are appended in section order and none is skipped except
      non-products. */
  lemma {:induction false} CollectPrefix(offer: string -> Result<Product>, links: seq<Option<string>>,
                                         maxResults: Option<int>, acc: seq<Product>)
    ensures var end := Collect(offer, links, maxResults, false, acc);
      !end.Stopped? ==>
        && |acc| <= |end.products| <= |acc| + |Successes(offer, links)|
        && end.products == acc + Successes(offer, links)[..|end.products| - |acc|]
    decreases |links|
  {
    if links == [] || maxResults == Some(|acc|) {
      assert acc + Successes(offer, links)[..0] == acc;
    } else if links[0].Some? {
      var tail := links[1..];
      var r := offer(links[0].value);
      if r.Failure? {
        CollectPrefix(offer, tail, maxResults, acc);
      } else {
        CollectPrefix(offer, tail, maxResults, acc + [r.value]);
        var end := Collect(offer, tail, maxResults, false, acc + [r.value]);
        if !end.Stopped? {
          var n := |end.products| - |acc| - 1;
          PrefixCons(acc, r.value, Successes(offer, tail), n);
        }
      }
    }
  }

  lemma PrefixCons(acc: seq<Product>, p: Product, t: seq<Product>, n: nat)
    requires n <= |t|
    ensures acc + [p] + t[..n] == acc + ([p] + t)[..n + 1]
  {
    assert ([p] + t)[..n + 1] == [p] + t[..n];
  }

  /** With deduplication the kept products have distinct urls. */
  lemma {:induction false} CollectDistinct(offer: string -> Result<Product>, links: seq<Option<string>>,
                                           maxResults: Option<int>, acc: seq<Product>)
    requires DistinctUrls(acc)
    ensures var end := Collect(offer, links, maxResults, true, acc);
      !end.Stopped? ==> DistinctUrls(end.products)
    decreases |links|
  {
    if links != [] && maxResults != Some(|acc|) && links[0].Some? {
      match offer(links[0].value)
      case Failure(e) =>
        CollectDistinct(offer, links[1..], maxResults, acc);
      case Success(p) =>
        if HasUrl(acc, p.url) {
          CollectDistinct(offer, links[1..], maxResults, acc);
        } else {
          var acc' := acc + [p];
          forall i, j | 0 <= i < j < |acc'|
            ensures acc'[i].url != acc'[j].url
          {
            if j == |acc| {
              assert acc'[i] == acc[i];
            }
          }
          CollectDistinct(offer, links[1..], maxResults, acc');
        }
    }
  }

  // ---------------------------------------------------------------------------
  // One listing page

  /** The `Product.from_url(url=..., proxies=proxies, timeout=timeout)` call. */
  function OfferFromUrl(transport: Request -> Response, proxies: Option<seq<string>>, timeout: Option<int>)
    : (r: string -> Result<Product>)
  {
    url => ProductFromUrl(transport, url, proxies, timeout)
  }

  /** What `parse_products` returns or raises: the products and whether to
      go on to the next page. The listing itself is fetched by `get_soup`
      without a timeout. After the loop, the page-number input's
      `data-maxpage` is read with `int()`, and the flag is false exactly when
      the page just read is the last one. */
  function ParsePage(transport: Request -> Response, term: string, query: string, pageNum: int,
                     proxies: Option<seq<string>>, maxResults: Option<int>, timeout: Option<int>)
    : (r: Result<(seq<Product>, bool)>)
  {
    var soup := Fetch(transport, ListingUrl(term, query, pageNum), proxies, None).result;
    if soup.Failure? then Failure(soup.error)
    else
      var page := soup.value;
      match Collect(OfferFromUrl(transport, proxies, timeout), page.offerLinks, maxResults, false, [])
      case Stopped(e) => Failure(e)
      case LimitHit(ps) => Success((ps, false))
      case Exhausted(ps) =>
        if page.maxPage.None? then Failure(AttributeError)
        else match ParseInt(page.maxPage.value)
          case None => Failure(InvalidLiteral(page.maxPage.value))
          case Some(last) => Success((ps, pageNum != last))
  }

  /** `parse_products`. */
  method ParseProducts(transport: Request -> Response, term: string, query: string, pageNum: int,
                       proxies: Option<seq<string>>, maxResults: Option<int>, timeout: Option<int>)
    returns (r: Result<(seq<Product>, bool)>)
    ensures r == ParsePage(transport, term, query, pageNum, proxies, maxResults, timeout)
  {
    var url := ListingUrl(term, query, pageNum);
    var soup, _ := GetSoup(transport, url, proxies, None);
    if soup.Failure? {
      return Failure(soup.error);
    }
    var page := soup.value;
    var end := CollectSections(OfferFromUrl(transport, proxies, timeout), page.offerLinks, maxResults, false);
    match end
    case Stopped(e) =>
      return Failure(e);
    case LimitHit(ps) =>
      return Success((ps, false));
    case Exhausted(ps) =>
      if page.maxPage.None? {
        return Failure(AttributeError);
      }
      var last := ParseInt(page.maxPage.value);
      if last.None? {
        return Failure(InvalidLiteral(page.maxPage.value));
      }
      return Success((ps, pageNum != last.value));
  }

  /** A page never yields more than `max_results` products; when it yields
      fewer the flag can only be false because this is the last page. */
  lemma ParsePageBounded(transport: Request -> Response, term: string, query: string, pageNum: int,
                         proxies: Option<seq<string>>, m: nat, timeout: Option<int>)
    ensures var r := ParsePage(transport, term, query, pageNum, proxies, Some(m), timeout);
      r.Success? ==> |r.value.0| <= m
    ensures var r := ParsePage(transport, term, query, pageNum, proxies, Some(m), timeout);
      r.Success? && |r.value.0| < m && !r.value.1 ==>
        var page := Fetch(transport, ListingUrl(term, query, pageNum), proxies, None).result.value;
        page.maxPage.Some? && ParseInt(page.maxPage.value) == Some(pageNum)
  {
    var soup := Fetch(transport, ListingUrl(term, query, pageNum), proxies, None).result;
    if soup.Success? {
      CollectBounded(OfferFromUrl(transport, proxies, timeout), soup.value.offerLinks, m, false, []);
    }
  }

  /** Without a limit, a page whose sections all have links and raise nothing
      but `NotImplementedError` yields every product in section order; the flag
      is true exactly when `data-maxpage` names another page. */
  lemma ParsePageUnlimited(transport: Request -> Response, term: string, query: string, pageNum: int,
                           proxies: Option<seq<string>>, timeout: Option<int>, page: Page, last: int)
    requires Fetch(transport, ListingUrl(term, query, pageNum), proxies, None).result == Success(page)
    requires FirstError(OfferFromUrl(transport, proxies, timeout), page.offerLinks).None?
    requires page.maxPage.Some? && ParseInt(page.maxPage.value) == Some(last)
    ensures ParsePage(transport, term, query, pageNum, proxies, None, timeout)
         == Success((Successes(OfferFromUrl(transport, proxies, timeout), page.offerLinks), pageNum != last))
  {
    var offer := OfferFromUrl(transport, proxies, timeout);
    CollectUnlimited(offer, page.offerLinks, []);
    assert [] + Successes(offer, page.offerLinks) == Successes(offer, page.offerLinks);
  }

  /** An error of the first bad section propagates out of `parse_products`
      when no limit stops the loop before it. */
  lemma ParsePageRaises(transport: Request -> Response, term: string, query: string, pageNum: int,
                        proxies: Option<seq<string>>, timeout: Option<int>, page: Page, e: Error)
    requires Fetch(transport, ListingUrl(term, query, pageNum), proxies, None).result == Success(page)
    requires FirstError(OfferFromUrl(transport, proxies, timeout), page.offerLinks) == Some(e)
    ensures ParsePage(transport, term, query, pageNum, proxies, None, timeout) == Failure(e)
  {
    CollectUnlimited(OfferFromUrl(transport, proxies, timeout), page.offerLinks, []);
  }
}
