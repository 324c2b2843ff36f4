/** allegro/parsers/offer.py: the captcha test applied to listing pages.
    Its field extractors are the ones of allegro/parsers/product_parser.py
    and are modelled in ProductParser. */
module Offer {
  import opened Outcomes
  import opened Text
  import opened Pages
  import Check

  /** The marker div says the captcha was NOT passed. */
  predicate MarkerSaysFailed(page: Page) {
    page.captchaMarker.Some? && page.captchaMarker.value.Some?
    && Contains(page.captchaMarker.value.value, "false")
  }

  /** `is_captcha_required`: the marker div reports a failed captcha, or the
      page has fewer than ten `div`s. A marker div without its attribute
      makes `"false" in None` raise `TypeError`. */
  function IsCaptchaRequired(page: Page): (r: Result<bool>)
    ensures r.Failure? <==> page.captchaMarker == Some(None)
    ensures r.Failure? ==> r.error == TypeError
    ensures r.Success? ==> (r.value <==> MarkerSaysFailed(page) || page.divCount < 10)
  {
    match page.captchaMarker
    case Some(None) => Failure(TypeError)
    case Some(Some(passed)) =>
      if Contains(passed, "false") then Success(true) else Success(page.divCount < 10)
    case None => Success(page.divCount < 10)
  }

  /** A page with fewer than ten `div`s needs a captcha whatever its marker
      says (as long as the marker can be read), and without a marker the
      test is exactly `check_captcha`. */
  lemma CaptchaBySize(page: Page)
    ensures page.divCount < 10 && page.captchaMarker != Some(None) ==> IsCaptchaRequired(page) == Success(true)
    ensures page.captchaMarker.None? ==> IsCaptchaRequired(page) == Success(Check.CheckCaptcha(page))
    ensures IsCaptchaRequired(page) == Success(false) ==> !MarkerSaysFailed(page) && page.divCount >= 10
  {
  }
}
