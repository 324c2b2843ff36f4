/** A fetched HTML page, reduced to the facts the scraper reads from it.
    HTML parsing itself is not modelled: each field stands for the outcome of
    one BeautifulSoup lookup. An absent element is `None`. */
module Pages {
  import opened Outcomes

  /** One parameter entry of the offer's parameter box: the texts of the
      `div`s inside the entry's data container (label first, value second). */
  datatype ParamRow = ParamRow(cells: seq<string>)

  /** The nesting of the parameter box: segments (`li` children of the list),
      parts (`div`s of a segment), rows (`li`s of a part). */
  type ParamTree = seq<seq<seq<ParamRow>>>

  /** The attributes of one element, by name. */
  type Attrs = map<string, string>

  datatype Page = Page(
    /** number of `div` elements */
    divCount: nat,
    /** the `div#analyticsCaptchaPassed` element, when present, and the value
        of its `data-analytics-captcha-passed` attribute, when set */
    captchaMarker: Option<Option<string>>,
    /** the attributes of each `button` element, in document order */
    buttons: seq<Attrs>,
    /** content of the `og:title` meta */
    title: Option<string>,
    /** numeric content of the `price` meta */
    price: Option<real>,
    /** for each breadcrumb item, the `href` of its link */
    breadcrumbs: seq<Option<string>>,
    /** text of the `#aboutSeller` link */
    sellerText: Option<string>,
    /** `max` attribute of the quantity input */
    quantityMax: Option<string>,
    /** numeric content of the `ratingValue` meta */
    rating: Option<real>,
    /** for each `div[role=button][tabindex=0]`, the `src` of the image in it */
    imageSlots: seq<Option<string>>,
    /** the parameter box and its list, when both exist */
    parameters: Option<ParamTree>,
    /** for each offer `article` of a listing page, the `href` of its link */
    offerLinks: seq<Option<string>>,
    /** `data-maxpage` of the page-number input of a listing page */
    maxPage: Option<string>
  )
}
