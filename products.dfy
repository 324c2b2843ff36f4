/** allegro/search/product.py: the `Product` record, `Product.from_url`,
    `Product.from_data_dump`, and the listing URL of `parse_products`. */
module Products {
  import opened Outcomes
  import opened Text
  import opened Pages
  import opened Check
  import opened Soup
  import opened ProductParser

  /** The frozen dataclass `Product`; `price` and `rating` are Python floats. */
  datatype Product = Product(
    url: string,
    name: string,
    category: string,
    price: real,
    seller: string,
    quantity: int,
    rating: real,
    images: seq<string>,
    parameters: map<string, string>)

  // ---------------------------------------------------------------------------
  // Product.from_url

  const OfferPattern := "allegro.pl/oferta"
  const ClickPattern := "allegro.pl/events/clicks"
  const RedirectPattern := "&redirect=https%3A%2F%2Fallegro.pl%2Foferta"

  /** The URL shapes `from_url` accepts: an offer page, or an analytics click
      link, or a link redirecting to an offer page. */
  predicate IsProductUrl(url: string) {
    Contains(url, OfferPattern) || Contains(url, ClickPattern) || Contains(url, RedirectPattern)
  }

  function NotAProductMsg(url: string): (r: string) {
    "Passed url is not that of a product: " + url
  }

  /** The part of `from_url` after the page is fetched: classify the offer,
      then run the extractors in order; the first one that raises decides
      the outcome. */
  function ExtractProduct(url: string, page: Page): (r: Result<Product>)
    ensures !IsBuyNowOffer(page) ==> r == Failure(NotImplementedError)
    ensures IsBuyNowOffer(page) && FindName(page).Failure? ==> r == Failure(FindName(page).error)
    ensures IsBuyNowOffer(page) && FindName(page).Success? && FindPrice(page).Failure?
            ==> r == Failure(FindPrice(page).error)
    ensures IsBuyNowOffer(page) && FindName(page).Success? && FindPrice(page).Success?
            && FindCategory(page).Failure?
            ==> r == Failure(FindCategory(page).error)
    ensures IsBuyNowOffer(page) && FindName(page).Success? && FindPrice(page).Success?
            && FindCategory(page).Success? && FindSeller(page).Failure?
            ==> r == Failure(FindSeller(page).error)
    ensures IsBuyNowOffer(page) && FindName(page).Success? && FindPrice(page).Success?
            && FindCategory(page).Success? && FindSeller(page).Success? && FindQuantity(page).Failure?
            ==> r == Failure(FindQuantity(page).error)
    ensures IsBuyNowOffer(page) && FindName(page).Success? && FindPrice(page).Success?
            && FindCategory(page).Success? && FindSeller(page).Success? && FindQuantity(page).Success?
            && Parameters(page).Failure?
            ==> r == Failure(Parameters(page).error)
    ensures r.Success? <==>
      && IsBuyNowOffer(page)
      && FindName(page).Success? && FindPrice(page).Success? && FindCategory(page).Success?
      && FindSeller(page).Success? && FindQuantity(page).Success? && Parameters(page).Success?
    ensures r.Success? ==>
      && r.value.url == url
      && r.value.name == FindName(page).value
      && r.value.price == FindPrice(page).value
      && r.value.category == FindCategory(page).value
      && r.value.seller == FindSeller(page).value
      && r.value.quantity == FindQuantity(page).value
      && r.value.rating == FindRating(page)
      && r.value.images == FindImages(page)
      && r.value.parameters == Parameters(page).value
  {
    if !IsBuyNowOffer(page) then Failure(NotImplementedError)
    else
      var name :- FindName(page);
      var price :- FindPrice(page);
      var category :- FindCategory(page);
      var seller :- FindSeller(page);
      var quantity :- FindQuantity(page);
      var rating := FindRating(page);
      var images := FindImages(page);
      var parameters :- Parameters(page);
      Success(Product(url, name, category, price, seller, quantity, rating, images, parameters))
  }

  /** What `Product.from_url(url, proxies, timeout)` returns or raises. */
  function ProductFromUrl(transport: Request -> Response, url: string, proxies: Option<seq<string>>,
                          timeout: Option<int>): (r: Result<Product>)
  {
    if !IsProductUrl(url) then Failure(ValueError(NotAProductMsg(url)))
    else match Fetch(transport, url, proxies, timeout).result
      case Failure(e) => Failure(e)
      case Success(page) => ExtractProduct(url, page)
  }

  /** `Product.from_url`: the URL is validated before anything is fetched
      (no request at all for a rejected URL); then one `get_soup` call. */
  method FromUrl(transport: Request -> Response, url: string, proxies: Option<seq<string>>,
                 timeout: Option<int>)
    returns (r: Result<Product>, requests: seq<Request>)
    ensures r == ProductFromUrl(transport, url, proxies, timeout)
    ensures !IsProductUrl(url) ==> requests == [] && r == Failure(ValueError(NotAProductMsg(url)))
    ensures IsProductUrl(url) ==> requests == Fetch(transport, url, proxies, timeout).trace
  {
    if !IsProductUrl(url) {
      return Failure(ValueError(NotAProductMsg(url))), [];
    }
    var soup;
    soup, requests := GetSoup(transport, url, proxies, timeout);
    if soup.Failure? {
      return Failure(soup.error), requests;
    }
    var page := soup.value;
    if !IsBuyNowOffer(page) {
      return Failure(NotImplementedError), requests;
    }
    var name := FindName(page);
    if name.Failure? { return Failure(name.error), requests; }
    var price := FindPrice(page);
    if price.Failure? { return Failure(price.error), requests; }
    var category := FindCategory(page);
    if category.Failure? { return Failure(category.error), requests; }
    var seller := FindSeller(page);
    if seller.Failure? { return Failure(seller.error), requests; }
    var quantity := FindQuantity(page);
    if quantity.Failure? { return Failure(quantity.error), requests; }
    var rating := FindRating(page);
    var images := FindImages(page);
    var parameters := FindParameters(page);
    if parameters.Failure? { return Failure(parameters.error), requests; }
    r := Success(Product(url, name.value, category.value, price.value, seller.value,
                         quantity.value, rating, images, parameters.value));
  }

  /** A product built by `from_url` carries the URL it was asked for, and a
      non-buy-now offer is never returned as a (partial) product. */
  lemma FromUrlKeepsUrl(transport: Request -> Response, url: string, proxies: Option<seq<string>>,
                        timeout: Option<int>)
    ensures var r := ProductFromUrl(transport, url, proxies, timeout);
      && (r.Success? ==> r.value.url == url && IsProductUrl(url))
      && (IsProductUrl(url) && Fetch(transport, url, proxies, timeout).result.Success?
          && !IsBuyNowOffer(Fetch(transport, url, proxies, timeout).result.value)
          ==> r == Failure(NotImplementedError))
  {
  }

  /** The marketplace's front page is not a product URL. */
  lemma FrontPageRejected(transport: Request -> Response, proxies: Option<seq<string>>, timeout: Option<int>)
    ensures ProductFromUrl(transport, "https://allegro.pl/", proxies, timeout)
         == Failure(ValueError(NotAProductMsg("https://allegro.pl/")))
  {
    var url := "https://allegro.pl/";
    assert 'f' !in url && 'v' !in url && '%' !in url;
    NoOfferPattern(url);
    NoClickPattern(url);
    NoRedirectPattern(url);
  }

  /** Every offer URL holds an `f` (from "oferta"). */
  lemma NoOfferPattern(url: string)
    requires 'f' !in url
    ensures !Contains(url, OfferPattern)
  {
    var offer := OfferPattern;
    assert offer[12] == 'f';
    if Contains(url, offer) {
      ContainsChars(url, offer, 'f');
    }
  }

  /** Every click URL holds a `v` (from "events"). */
  lemma NoClickPattern(url: string)
    requires 'v' !in url
    ensures !Contains(url, ClickPattern)
  {
    var click := ClickPattern;
    assert click[12] == 'v';
    if Contains(url, click) {
      ContainsChars(url, click, 'v');
    }
  }

  /** Every redirect URL holds a `%` (it is percent-encoded). */
  lemma NoRedirectPattern(url: string)
    requires '%' !in url
    ensures !Contains(url, RedirectPattern)
  {
    var redirect := RedirectPattern;
    assert redirect[15] == '%';
    if Contains(url, redirect) {
      ContainsChars(url, redirect, '%');
    }
  }

  // ---------------------------------------------------------------------------
  // Product.from_data_dump and dataclasses.asdict

  /** A decoded JSON value. */
  datatype Json =
    | JNull
    | JBool(b: bool)
    | JInt(i: int)
    | JFloat(f: real)
    | JString(s: string)
    | JArray(items: seq<Json>)
    | JObject(fields: map<string, Json>)

  function JStrings(xs: seq<string>): (r: seq<Json>)
    ensures |r| == |xs|
  {
    if xs == [] then [] else [JString(xs[0])] + JStrings(xs[1..])
  }

  /** The strings of an array that holds only strings. */
  function Strings(items: seq<Json>): (r: Option<seq<string>>)
  {
    if items == [] then Some([])
    else if !items[0].JString? then None
    else match Strings(items[1..])
      case None => None
      case Some(rest) => Some([items[0].s] + rest)
  }

  lemma {:induction false} StringsRoundTrip(xs: seq<string>)
    ensures Strings(JStrings(xs)) == Some(xs)
  {
    if xs != [] {
      StringsRoundTrip(xs[1..]);
      var items := JStrings(xs);
      assert items[0] == JString(xs[0]);
      assert items[1..] == JStrings(xs[1..]);
      assert xs == [xs[0]] + xs[1..];
    }
  }

  lemma {:induction false} StringsRoundTripBack(items: seq<Json>, xs: seq<string>)
    requires Strings(items) == Some(xs)
    ensures JStrings(xs) == items
  {
    if items != [] {
      StringsRoundTripBack(items[1..], xs[1..]);
    }
  }

  predicate AllStrings(fields: map<string, Json>) {
    forall k :: k in fields ==> fields[k].JString?
  }

  /** `asdict` of a `dict` of strings. */
  function JStringMap(m: map<string, string>): (r: map<string, Json>)
  {
    map k | k in m :: JString(m[k])
  }

  function StringMap(fields: map<string, Json>): (r: map<string, string>)
    requires AllStrings(fields)
  {
    map k | k in fields :: fields[k].s
  }

  const FieldNames: set<string> :=
    {"url", "name", "category", "price", "seller", "quantity", "rating", "images", "parameters"}

  /** `dataclasses.asdict(product)`. */
  function AsDict(p: Product): (d: map<string, Json>)
    ensures d.Keys == FieldNames
  {
    map["url" := JString(p.url), "name" := JString(p.name), "category" := JString(p.category),
        "price" := JFloat(p.price), "seller" := JString(p.seller), "quantity" := JInt(p.quantity),
        "rating" := JFloat(p.rating), "images" := JArray(JStrings(p.images)),
        "parameters" := JObject(JStringMap(p.parameters))]
  }

  /** Every field holds the JSON kind `asdict` gives it. */
  predicate FieldsTyped(d: map<string, Json>)
    requires d.Keys == FieldNames
  {
    && d["url"].JString? && d["name"].JString? && d["category"].JString?
    && d["price"].JFloat? && d["seller"].JString? && d["quantity"].JInt?
    && d["rating"].JFloat? && d["images"].JArray? && Strings(d["images"].items).Some?
    && d["parameters"].JObject? && AllStrings(d["parameters"].fields)
  }

  /** `Product.from_data_dump`: `cls(**json.loads(data))`, starting from the
      decoded value. A non-object, a missing field or an unknown field is the
      `TypeError` of the constructor call. */
  function FromDataDump(data: Json): (r: Result<Product>)
    ensures r.Failure? ==> r.error == TypeError
    ensures r.Success? <==> data.JObject? && data.fields.Keys == FieldNames && FieldsTyped(data.fields)
    ensures r.Success? ==>
      var d := data.fields;
      && d["url"] == JString(r.value.url) && d["name"] == JString(r.value.name)
      && d["category"] == JString(r.value.category) && d["price"] == JFloat(r.value.price)
      && d["seller"] == JString(r.value.seller) && d["quantity"] == JInt(r.value.quantity)
      && d["rating"] == JFloat(r.value.rating)
      && d["images"] == JArray(JStrings(r.value.images))
      && d["parameters"] == JObject(JStringMap(r.value.parameters))
  {
    if !data.JObject? || data.fields.Keys != FieldNames || !FieldsTyped(data.fields) then Failure(TypeError)
    else
      var d := data.fields;
      StringsRoundTripBack(d["images"].items, Strings(d["images"].items).value);
      assert JStringMap(StringMap(d["parameters"].fields)) == d["parameters"].fields;
      Success(Product(d["url"].s, d["name"].s, d["category"].s, d["price"].f, d["seller"].s,
                      d["quantity"].i, d["rating"].f, Strings(d["images"].items).value,
                      StringMap(d["parameters"].fields)))
  }

  /** Dumping a product and loading the dump gives the same product back. */
  lemma DumpRoundTrip(p: Product)
    ensures FromDataDump(JObject(AsDict(p))) == Success(p)
  {
    var d := AsDict(p);
    StringsRoundTrip(p.images);
    assert AllStrings(JStringMap(p.parameters));
    assert StringMap(JStringMap(p.parameters)) == p.parameters;
  }

  /** Loading a dump and turning the product back into a dict gives the dump:
      `asdict(Product.from_data_dump(json.dumps(d))) == d`. */
  lemma DumpRoundTripBack(data: Json)
    requires FromDataDump(data).Success?
    ensures JObject(AsDict(FromDataDump(data).value)) == data
  {
    var d := data.fields;
    var p := FromDataDump(data).value;
    StringsRoundTripBack(d["images"].items, p.images);
    assert JStringMap(StringMap(d["parameters"].fields)) == d["parameters"].fields;
    assert AsDict(p) == d;
  }

  // ---------------------------------------------------------------------------
  // The listing URL of parse_products

  const ListingBase := "https://allegro.pl/listing?string="

  /** `f"https://allegro.pl/listing?string={search_term}{query_string}&p={page_num}"`
      with every space replaced by `%20`. */
  function ListingUrl(term: string, query: string, pageNum: int): (r: string)
  {
    EncodeSpaces(ListingBase + term + query + "&p=" + IntToString(pageNum))
  }

  /** Encoding `head` followed by `&p=` and a page number encodes `head`
      only, and leaves no space. */
  lemma PageSuffix(head: string, pageNum: int)
    ensures EncodeSpaces(head + "&p=" + IntToString(pageNum))
         == EncodeSpaces(head) + "&p=" + IntToString(pageNum)
    ensures ' ' !in EncodeSpaces(head) + "&p=" + IntToString(pageNum)
  {
    var tail := "&p=" + IntToString(pageNum);
    assert head + "&p=" + IntToString(pageNum) == head + tail;
    IntToStringHasNoSpace(pageNum);
    assert ' ' !in tail;
    EncodeSpacesSuffix(head, tail);
    EncodeSpacesSpec(head);
    assert ' ' !in EncodeSpaces(head) + tail;
  }

  /** The listing URL is the encoded base, term and query string followed by
      `&p=` and the page number, and it holds no space. */
  lemma ListingUrlShape(term: string, query: string, pageNum: int)
    ensures ListingUrl(term, query, pageNum)
         == EncodeSpaces(ListingBase + term + query) + "&p=" + IntToString(pageNum)
    ensures ' ' !in ListingUrl(term, query, pageNum)
  {
    PageSuffix(ListingBase + term + query, pageNum);
  }

  /** A space-free term and query string appear in the listing URL verbatim. */
  lemma ListingUrlVerbatim(term: string, query: string, pageNum: int)
    requires ' ' !in term + query
    ensures ListingUrl(term, query, pageNum) == ListingBase + term + query + "&p=" + IntToString(pageNum)
  {
    PageSuffix(ListingBase + term + query, pageNum);
    ListingBaseHasNoSpace();
    assert ListingBase + term + query == ListingBase + (term + query);
    EncodeSpacesSpec(ListingBase + term + query);
  }

  lemma ListingBaseHasNoSpace()
    ensures ' ' !in ListingBase
  {
  }
}
