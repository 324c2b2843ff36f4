/** allegro/utils/check.py: one HTTP attempt and the "enable JavaScript"
    interstitial test. The network is an oracle from request to response. */
module Check {
  import opened Outcomes
  import opened Pages

  /** The `proxies` argument of `requests.get`, a dict with exactly the keys
      `"http"` and `"https"`, each mapped to a proxy URL. */
  datatype ProxyMap = ProxyMap(http: string, https: string)

  /** The arguments of one `requests.get` call (the header set is fixed
      configuration and is not part of the request's identity here). */
  datatype Request = Request(url: string, proxies: Option<ProxyMap>, timeout: Option<int>)

  /** The outcome of one `requests.get`: it raised (connection, timeout, TLS,
      ... -- any exception), or it returned a body, here already parsed. */
  datatype Response = Raised(error: Error) | Body(page: Page)

  /** `check_captcha`: fewer than ten `div`s means the site served an
      interstitial instead of content. */
  function CheckCaptcha(page: Page): (r: bool)
    ensures r <==> page.divCount < 10
  {
    page.divCount < 10
  }

  /** The threshold is strict: exactly ten `div`s is real content, nine is
      not, and adding `div`s never turns content into an interstitial. */
  lemma CaptchaThreshold(page: Page, more: Page)
    requires more.divCount >= page.divCount
    ensures page.divCount == 10 ==> !CheckCaptcha(page)
    ensures page.divCount == 9 ==> CheckCaptcha(page)
    ensures !CheckCaptcha(page) ==> !CheckCaptcha(more)
  {
  }

  /** `check_soup`: an attempt yields a page only when the request did not
      raise and the page passes `check_captcha`; an exception is swallowed
      and reported as `None`, never propagated. */
  function CheckSoup(transport: Request -> Response, req: Request): (r: Option<Page>)
    ensures transport(req).Raised? ==> r.None?
    ensures transport(req).Body? && CheckCaptcha(transport(req).page) ==> r.None?
    ensures transport(req).Body? && !CheckCaptcha(transport(req).page) ==> r == Some(transport(req).page)
  {
    match transport(req)
    case Raised(_) => None
    case Body(page) => if CheckCaptcha(page) then None else Some(page)
  }
}
