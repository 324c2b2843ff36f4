/** allegro/parsers/product_parser.py: the field extractors of an offer page.
    allegro/parsers/offer.py holds the same extractors under underscored
    names, line for line; both are modelled by this module. */
module ProductParser {
  import opened Outcomes
  import opened Text
  import opened Pages

  // ---------------------------------------------------------------------------
  // Offer kind

  /** The attributes `is_buynow_offer` looks for on a `button`. */
  predicate IsBuyNowButton(attrs: Attrs) {
    && "type" in attrs && attrs["type"] == "submit"
    && "id" in attrs && attrs["id"] == "buy-now-button"
    && "data-analytics-interaction-custom-flow-type" in attrs
    && attrs["data-analytics-interaction-custom-flow-type"] == "BuyNow"
  }

  /** `is_buynow_offer`: does a buy-now submit button exist? */
  function IsBuyNowOffer(page: Page): (r: bool)
    ensures r <==> exists k :: 0 <= k < |page.buttons| && IsBuyNowButton(page.buttons[k])
  {
    AnyBuyNowButton(page.buttons)
  }

  function AnyBuyNowButton(buttons: seq<Attrs>): (r: bool)
    ensures r <==> exists k :: 0 <= k < |buttons| && IsBuyNowButton(buttons[k])
  {
    if buttons == [] then false
    else if IsBuyNowButton(buttons[0]) then true
    else
      assert forall k :: 1 <= k < |buttons| ==> buttons[k] == buttons[1..][k - 1];
      AnyBuyNowButton(buttons[1..])
  }

  // ---------------------------------------------------------------------------
  // Scalar fields

  /** `find_product_name`: content of the `og:title` meta; a missing meta
      makes `.get` run on `None`. */
  function FindName(page: Page): (r: Result<string>)
    ensures page.title.None? ==> r == Failure(AttributeError)
    ensures page.title.Some? ==> r == Success(page.title.value)
  {
    if page.title.None? then Failure(AttributeError) else Success(page.title.value)
  }

  /** `find_product_price` (the `float` conversion is taken as done). */
  function FindPrice(page: Page): (r: Result<real>)
    ensures page.price.None? ==> r == Failure(AttributeError)
    ensures page.price.Some? ==> r == Success(page.price.value)
  {
    if page.price.None? then Failure(AttributeError) else Success(page.price.value)
  }

  /** `find_product_rating`: the `ratingValue` meta, or 0 when there is none. */
  function FindRating(page: Page): (r: real)
    ensures page.rating.None? ==> r == 0.0
    ensures page.rating.Some? ==> r == page.rating.value
  {
    if page.rating.Some? then page.rating.value else 0.0
  }

  /** `find_product_quantity`: `int()` of the quantity input's `max`. */
  function FindQuantity(page: Page): (r: Result<int>)
    ensures page.quantityMax.None? ==> r == Failure(AttributeError)
    ensures page.quantityMax.Some? && ParseInt(page.quantityMax.value).None?
            ==> r == Failure(InvalidLiteral(page.quantityMax.value))
    ensures r.Success? ==> page.quantityMax.Some? && ParseInt(page.quantityMax.value) == Some(r.value)
  {
    if page.quantityMax.None? then Failure(AttributeError)
    else match ParseInt(page.quantityMax.value)
      case None => Failure(InvalidLiteral(page.quantityMax.value))
      case Some(n) => Success(n)
  }

  /** A quantity printed by `str` is read back as itself. */
  lemma QuantityReadsBack(page: Page, n: int)
    requires page.quantityMax == Some(IntToString(n))
    ensures FindQuantity(page) == Success(n)
  {
    IntRoundTrip(n);
  }

  // ---------------------------------------------------------------------------
  // Seller: `text.split(" - ")[0]`

  const SellerSeparator := " - "

  /** The text before the first occurrence of `sep`, or all of it. */
  function BeforeSeparator(s: string, sep: string): (r: string)
    requires |sep| >= 1
    decreases |s|
  {
    if StartsWith(s, sep) || s == [] then ""
    else [s[0]] + BeforeSeparator(s[1..], sep)
  }

  /** `split(sep)[0]` is a prefix of the text; it is the whole text exactly
      when the separator does not occur; otherwise the separator follows it
      and does not start at any earlier position. */
  lemma {:induction false} BeforeSeparatorSpec(s: string, sep: string)
    requires |sep| >= 1
    ensures var r := BeforeSeparator(s, sep);
      && StartsWith(s, r)
      && (r == s <==> !Contains(s, sep))
      && (r != s ==> StartsWith(s[|r|..], sep))
      && (forall i :: 0 <= i < |r| ==> !StartsWith(s[i..], sep))
    decreases |s|
  {
    var r := BeforeSeparator(s, sep);
    if StartsWith(s, sep) {
      assert r == "" && s[0..] == s;
    } else if s == [] {
      assert !Contains(s, sep);
    } else {
      BeforeSeparatorSpec(s[1..], sep);
      var r' := BeforeSeparator(s[1..], sep);
      assert r == [s[0]] + r';
      assert s[|r|..] == s[1..][|r'|..];
      forall i | 0 <= i < |r|
        ensures !StartsWith(s[i..], sep)
      {
        if i > 0 {
          assert s[i..] == s[1..][i - 1..];
        } else {
          assert s[0..] == s;
        }
      }
      if r == s {
        assert r' == s[1..];
      } else {
        assert r' != s[1..];
      }
      assert s == [s[0]] + s[1..];
    }
  }

  /** `find_product_seller`: the seller link's text up to the first " - ". */
  function FindSeller(page: Page): (r: Result<string>)
    ensures page.sellerText.None? ==> r == Failure(AttributeError)
    ensures page.sellerText.Some? ==> r == Success(BeforeSeparator(page.sellerText.value, SellerSeparator))
  {
    if page.sellerText.None? then Failure(AttributeError)
    else Success(BeforeSeparator(page.sellerText.value, SellerSeparator))
  }

  // ---------------------------------------------------------------------------
  // Category: the last breadcrumb linking to a category page

  const CategoryMarker := "allegro.pl/kategoria"

  /** The list comprehension of `find_product_category`: breadcrumb links that
      contain the marker, in page order. A breadcrumb without a link raises
      (`None.get`), whatever the other breadcrumbs hold. */
  function CategoryLinks(crumbs: seq<Option<string>>): (r: Result<seq<string>>)
  {
    if crumbs == [] then Success([])
    else if crumbs[0].None? then Failure(AttributeError)
    else
      var rest :- CategoryLinks(crumbs[1..]);
      var href := crumbs[0].value;
      Success(if Contains(href, CategoryMarker) then [href] + rest else rest)
  }

  /** `find_product_category`: `categories[-1]`, an `IndexError` when no
      breadcrumb matches. */
  function FindCategory(page: Page): (r: Result<string>)
    ensures r.Failure? ==> r.error == AttributeError || r.error == IndexError
    ensures r.Success? ==> Some(r.value) in page.breadcrumbs && Contains(r.value, CategoryMarker)
  {
    CategoryLinksSpec(page.breadcrumbs);
    var links :- CategoryLinks(page.breadcrumbs);
    if links == [] then Failure(IndexError) else Success(links[|links| - 1])
  }

  predicate IsCategoryCrumb(crumbs: seq<Option<string>>, k: int) {
    0 <= k < |crumbs| && crumbs[k].Some? && Contains(crumbs[k].value, CategoryMarker)
  }

  lemma {:induction false} CategoryLinksSpec(crumbs: seq<Option<string>>)
    ensures CategoryLinks(crumbs).Failure? <==> exists k :: 0 <= k < |crumbs| && crumbs[k].None?
    ensures CategoryLinks(crumbs).Failure? ==> CategoryLinks(crumbs).error == AttributeError
    ensures CategoryLinks(crumbs).Success? ==>
      var links := CategoryLinks(crumbs).value;
      && (links == [] <==> forall k :: 0 <= k < |crumbs| ==> !IsCategoryCrumb(crumbs, k))
      && (links != [] ==> exists k :: IsCategoryCrumb(crumbs, k) && crumbs[k].value == links[|links| - 1]
                                      && forall j :: k < j < |crumbs| ==> !IsCategoryCrumb(crumbs, j))
  {
    if crumbs != [] {
      var tail := crumbs[1..];
      CategoryLinksSpec(tail);
      assert forall k :: 1 <= k < |crumbs| ==> crumbs[k] == tail[k - 1];
      assert forall k :: 1 <= k < |crumbs| ==> (IsCategoryCrumb(crumbs, k) <==> IsCategoryCrumb(tail, k - 1));
      if crumbs[0].Some? && CategoryLinks(tail).Success? {
        var rest := CategoryLinks(tail).value;
        var links := CategoryLinks(crumbs).value;
        if rest != [] {
          var k' :| IsCategoryCrumb(tail, k') && tail[k'].value == rest[|rest| - 1]
                    && forall j :: k' < j < |tail| ==> !IsCategoryCrumb(tail, j);
          assert links[|links| - 1] == rest[|rest| - 1];
          assert IsCategoryCrumb(crumbs, k' + 1);
          forall j | k' + 1 < j < |crumbs|
            ensures !IsCategoryCrumb(crumbs, j)
          {
            assert !IsCategoryCrumb(tail, j - 1);
          }
        } else if IsCategoryCrumb(crumbs, 0) {
          assert links == [crumbs[0].value];
        }
      }
    }
  }

  /** `find_product_category` returns the link of the LAST breadcrumb whose
      link contains "allegro.pl/kategoria"; it raises `IndexError` when none
      does, and `AttributeError` when some breadcrumb has no link. */
  lemma FindCategorySpec(page: Page)
    ensures (exists k :: 0 <= k < |page.breadcrumbs| && page.breadcrumbs[k].None?)
      ==> FindCategory(page) == Failure(AttributeError)
    ensures (forall k :: 0 <= k < |page.breadcrumbs| ==>
               page.breadcrumbs[k].Some? && !IsCategoryCrumb(page.breadcrumbs, k))
      ==> FindCategory(page) == Failure(IndexError)
    ensures FindCategory(page).Success? ==>
      exists k :: IsCategoryCrumb(page.breadcrumbs, k) && page.breadcrumbs[k] == Some(FindCategory(page).value)
                  && forall j :: k < j < |page.breadcrumbs| ==> !IsCategoryCrumb(page.breadcrumbs, j)
  {
    var links := CategoryLinks(page.breadcrumbs);
    CategoryLinksSpec(page.breadcrumbs);
    if links.Success? && links.value != [] {
      assert FindCategory(page) == Success(links.value[|links.value| - 1]);
    }
  }

  // ---------------------------------------------------------------------------
  // Images: `src` of the image in each button container that has one

  /** The comprehension of `find_product_images`. */
  function Images(slots: seq<Option<string>>): (r: seq<string>)
    ensures |r| <= |slots|
  {
    if slots == [] then []
    else (if slots[0].Some? then [slots[0].value] else []) + Images(slots[1..])
  }

  /** `find_product_images`: the `src` of every container that holds an
      image, and nothing else. */
  function FindImages(page: Page): (r: seq<string>)
    ensures |r| == ImageCount(page.imageSlots) <= |page.imageSlots|
    ensures forall src :: src in r <==> Some(src) in page.imageSlots
  {
    ImagesSpec(page.imageSlots);
    Images(page.imageSlots)
  }

  /** Number of containers that hold an image. */
  function ImageCount(slots: seq<Option<string>>): (r: nat)
  {
    if slots == [] then 0 else (if slots[0].Some? then 1 else 0) + ImageCount(slots[1..])
  }

  /** One image per container that holds one, and exactly those sources. */
  lemma {:induction false} ImagesSpec(slots: seq<Option<string>>)
    ensures |Images(slots)| == ImageCount(slots)
    ensures forall src :: src in Images(slots) <==> Some(src) in slots
  {
    if slots != [] {
      ImagesSpec(slots[1..]);
      assert slots == [slots[0]] + slots[1..];
    }
  }

  /** Images keep document order: the images of consecutive runs of
      containers are concatenated. */
  lemma {:induction false} ImagesAppend(a: seq<Option<string>>, b: seq<Option<string>>)
    ensures Images(a + b) == Images(a) + Images(b)
  {
    if a == [] {
      assert a + b == b;
    } else {
      assert (a + b)[0] == a[0];
      assert (a + b)[1..] == a[1..] + b;
      ImagesAppend(a[1..], b);
    }
  }

  // ---------------------------------------------------------------------------
  // Parameters: a flat map built from the nested parameter box

  /** Python's `text[:-1]`: the text without its last character ("" stays ""). */
  function DropLast(s: string): (r: string)
  {
    if |s| == 0 then "" else s[..|s| - 1]
  }

  /** The label "Stan:" becomes the key "Stan". */
  lemma DropLastStripsColon(name: string, c: char)
    ensures DropLast(name + [c]) == name
  {
    assert (name + [c])[..|name|] == name;
  }

  predicate WellFormed(row: ParamRow) {
    |row.cells| >= 2
  }

  predicate AllWellFormed(rows: seq<ParamRow>) {
    forall k :: 0 <= k < |rows| ==> WellFormed(rows[k])
  }

  function Key(row: ParamRow): (r: string)
    requires WellFormed(row)
  {
    DropLast(row.cells[0])
  }

  function Value(row: ParamRow): (r: string)
    requires WellFormed(row)
  {
    row.cells[1]
  }

  /** The rows of a segment's parts, in document order. */
  function Flat(parts: seq<seq<ParamRow>>): (r: seq<ParamRow>)
  {
    if parts == [] then [] else Flat(parts[..|parts| - 1]) + parts[|parts| - 1]
  }

  /** All rows of the parameter box, in document order. */
  function Rows(tree: ParamTree): (r: seq<ParamRow>)
  {
    if tree == [] then [] else Rows(tree[..|tree| - 1]) + Flat(tree[|tree| - 1])
  }

  /** `parameters[key] = value` for each row in turn. */
  function Assign(rows: seq<ParamRow>): (r: map<string, string>)
    requires AllWellFormed(rows)
  {
    if rows == [] then map[]
    else
      var last := rows[|rows| - 1];
      Assign(rows[..|rows| - 1])[Key(last) := Value(last)]
  }

  /** What `find_product_parameters` returns: the assignments of all rows, or
      the exception of a missing box or a row with fewer than two cells. */
  function Parameters(page: Page): (r: Result<map<string, string>>)
  {
    if page.parameters.None? then Failure(AttributeError)
    else
      var rows := Rows(page.parameters.value);
      if AllWellFormed(rows) then Success(Assign(rows)) else Failure(IndexError)
  }

  /** `find_product_parameters`: the three nested loops over segments, parts
      and rows, writing one entry per row. The two inner loops are the
      methods below. */
  method FindParameters(page: Page) returns (r: Result<map<string, string>>)
    ensures r == Parameters(page)
  {
    if page.parameters.None? {
      return Failure(AttributeError);
    }
    var segments := page.parameters.value;
    var parameters: map<string, string> := map[];
    var i := 0;
    while i < |segments|
      invariant 0 <= i <= |segments|
      invariant AllWellFormed(Rows(segments[..i]))
      invariant parameters == Assign(Rows(segments[..i]))
    {
      var next := AssignParts(parameters, segments[i], Rows(segments[..i]));
      if next.Failure? {
        var flat := Flat(segments[i]);
        var k :| 0 <= k < |flat| && !WellFormed(flat[k]);
        FlatInRows(segments, i);
        assert flat[k] in Rows(segments);
        return next;
      }
      parameters := next.value;
      assert segments[..i + 1][..i] == segments[..i];
      i := i + 1;
    }
    assert segments[..i] == segments;
    return Success(parameters);
  }

  /** The loop over the parts of one segment, continuing from the map built
      from the rows `done`. */
  method AssignParts(parameters: map<string, string>, parts: seq<seq<ParamRow>>, ghost done: seq<ParamRow>)
    returns (r: Result<map<string, string>>)
    requires AllWellFormed(done) && parameters == Assign(done)
    ensures r.Success? ==> AllWellFormed(done + Flat(parts)) && r.value == Assign(done + Flat(parts))
    ensures r.Failure? ==> r.error == IndexError && !AllWellFormed(Flat(parts))
  {
    var current := parameters;
    var j := 0;
    assert done + Flat(parts[..j]) == done;
    while j < |parts|
      invariant 0 <= j <= |parts|
      invariant AllWellFormed(done + Flat(parts[..j]))
      invariant current == Assign(done + Flat(parts[..j]))
    {
      var next := AssignRows(current, parts[j], done + Flat(parts[..j]));
      if next.Failure? {
        var k :| 0 <= k < |parts[j]| && !WellFormed(parts[j][k]);
        RowInFlat(parts, j, k);
        return next;
      }
      current := next.value;
      assert parts[..j + 1][..j] == parts[..j];
      assert Flat(parts[..j + 1]) == Flat(parts[..j]) + parts[j];
      assert done + Flat(parts[..j + 1]) == (done + Flat(parts[..j])) + parts[j];
      j := j + 1;
    }
    assert parts[..j] == parts;
    return Success(current);
  }

  /** The loop over the rows of one part: `parameters[key] = value`, where a
      row with fewer than two cells raises `IndexError`. */
  method AssignRows(parameters: map<string, string>, rows: seq<ParamRow>, ghost done: seq<ParamRow>)
    returns (r: Result<map<string, string>>)
    requires AllWellFormed(done) && parameters == Assign(done)
    ensures r.Success? ==> AllWellFormed(done + rows) && r.value == Assign(done + rows)
    ensures r.Failure? ==> r.error == IndexError && !AllWellFormed(rows)
  {
    var current := parameters;
    var k := 0;
    assert done + rows[..k] == done;
    while k < |rows|
      invariant 0 <= k <= |rows|
      invariant AllWellFormed(done + rows[..k])
      invariant current == Assign(done + rows[..k])
    {
      var cells := rows[k].cells;
      if |cells| < 2 {
        return Failure(IndexError);
      }
      var key := DropLast(cells[0]);
      var value := cells[1];
      current := current[key := value];
      assert rows[..k + 1] == rows[..k] + [rows[k]];
      assert (done + rows[..k + 1])[..|done + rows[..k]|] == done + rows[..k];
      k := k + 1;
    }
    assert rows[..k] == rows;
    return Success(current);
  }

  lemma {:induction false} RowInFlat(parts: seq<seq<ParamRow>>, j: nat, k: nat)
    requires j < |parts| && k < |parts[j]|
    ensures parts[j][k] in Flat(parts)
    decreases |parts|
  {
    if j < |parts| - 1 {
      RowInFlat(parts[..|parts| - 1], j, k);
    }
  }

  lemma {:induction false} FlatInRows(tree: ParamTree, i: nat)
    requires i < |tree|
    ensures forall row :: row in Flat(tree[i]) ==> row in Rows(tree)
    decreases |tree|
  {
    if i < |tree| - 1 {
      FlatInRows(tree[..|tree| - 1], i);
    }
  }

  /** A key is in the map exactly when some row has it as label-minus-last. */
  lemma {:induction false} AssignKeys(rows: seq<ParamRow>)
    requires AllWellFormed(rows)
    ensures forall key :: key in Assign(rows) <==> exists k :: 0 <= k < |rows| && Key(rows[k]) == key
  {
    if rows != [] {
      var init := rows[..|rows| - 1];
      AssignKeys(init);
      assert forall k :: 0 <= k < |init| ==> init[k] == rows[k];
    }
  }

  /** Last write wins: a row that no later row shares its key with decides
      that key's value. */
  lemma {:induction false} AssignLastWins(rows: seq<ParamRow>, k: nat)
    requires AllWellFormed(rows) && k < |rows|
    requires forall j :: k < j < |rows| ==> Key(rows[j]) != Key(rows[k])
    ensures Key(rows[k]) in Assign(rows) && Assign(rows)[Key(rows[k])] == Value(rows[k])
  {
    if k < |rows| - 1 {
      var init := rows[..|rows| - 1];
      AssignLastWins(init, k);
    }
  }

  /** The map has at most one entry per row. */
  lemma {:induction false} AssignSize(rows: seq<ParamRow>)
    requires AllWellFormed(rows)
    ensures |Assign(rows)| <= |rows|
  {
    if rows != [] {
      AssignSize(rows[..|rows| - 1]);
    }
  }
}
