/**
 * `_apply_device_filters`: the AND of the per-device tests, the stable price
 * sort and the cut to `MAX_FILTER_RESULTS`.
 */
module Matching {
  import opened Wrappers
  import opened PyText
  import opened Values
  import opened Devices
  import opened PriceSort

  /** `MAX_FILTER_RESULTS`. */
  const MAX_FILTER_RESULTS: nat := 6

  /** `BRAND_SYNONYMS`: a normalized brand filter to the brand name it also accepts. */
  const BRAND_SYNONYMS: map<string, string> := map[
    "iphone" := "apple", "iphones" := "apple",
    "pixel" := "google", "google" := "google",
    "galaxy" := "samsung", "samsung" := "samsung",
    "moto" := "motorola", "motorola" := "motorola",
    "oneplus" := "oneplus"]

  /** `filters.get(key)`. */
  function Get(filters: map<string, Value>, key: string): Option<Value> {
    if key in filters then Some(filters[key]) else None
  }

  /** The terms one of which must occur in a device's brand or title; none when no brand is asked for. */
  function BrandTerms(brand: string): set<string> {
    if brand == "" then {}
    else if brand in BRAND_SYNONYMS && BRAND_SYNONYMS[brand] != "" then {brand, BRAND_SYNONYMS[brand]}
    else {brand}
  }

  /**
   * Python compares a float with a `bool`, an `int` or a `float`, and raises
   * TypeError for a string: `max_price`, when present, must not be a string.
   */
  predicate MaxPriceComparable(filters: map<string, Value>) {
    "max_price" in filters ==> !filters["max_price"].Str?
  }

  /** The number a non-string value stands for in a comparison with a float. */
  function NumericValue(v: Value): real
    requires !v.Str?
  {
    match v
    case Bool(b) => if b then 1.0 else 0.0
    case Int(i) => i as real
    case Num(x) => x
    case Str(_) => 0.0
  }

  /** The filter as `_apply_device_filters` reads it before the loop. */
  datatype Criteria = Criteria(
    brandTerms: set<string>,
    maxPrice: Option<real>,
    condition: string,
    color: string,
    size: string,
    category: string,
    inStockRequired: bool)

  /** The criteria of a filter map; keys other than the seven it reads (such as `query`) are ignored. */
  function CriteriaOf(fl: Floats, filters: map<string, Value>): Criteria
    requires MaxPriceComparable(filters)
  {
    Criteria(
      BrandTerms(Normalize(fl, Get(filters, "brand"))),
      if "max_price" in filters then Some(NumericValue(filters["max_price"])) else None,
      Normalize(fl, Get(filters, "condition")),
      Normalize(fl, Get(filters, "color")),
      Normalize(fl, Get(filters, "size")),
      Normalize(fl, Get(filters, "category")),
      if "in_stock" in filters then Truthy(Some(filters["in_stock"])) else true)
  }

  /** `" ".join(filter(None, [str(product_category or ""), str(category or "")])).lower()`. */
  function CategoryBlob(fl: Floats, d: Device): string {
    var a := TextOrEmpty(fl, d.productCategory);
    var b := TextOrEmpty(fl, d.category);
    Lower(if a != "" && b != "" then a + " " + b else a + b)
  }

  /** The stock test: skipped only when `in_stock` is falsy. */
  predicate InStockOk(c: Criteria, d: Device) {
    c.inStockRequired ==> d.availability == Some(Str("in_stock"))
  }

  /** Some brand term occurs in the normalized brand or title; any device passes when there are no terms. */
  predicate BrandOk(fl: Floats, c: Criteria, d: Device) {
    c.brandTerms == {} || AnyTermIn(c.brandTerms, Normalize(fl, d.brand), Normalize(fl, d.title))
  }

  /** `any(term in brand or term in title for term in terms)`. */
  predicate AnyTermIn(terms: set<string>, brand: string, title: string) {
    exists t :: t in terms && (Contains(brand, t) || Contains(title, t))
  }

  /** An exact test on a normalized field; an empty filter value passes everything. */
  predicate ExactOk(want: string, have: string) {
    want == "" || have == want
  }

  /** The category occurs in the category blob; an empty category passes everything. */
  predicate CategoryOk(fl: Floats, c: Criteria, d: Device) {
    c.category == "" || Contains(CategoryBlob(fl, d), c.category)
  }

  /** With a price cap, the device must have a price and it must not exceed the cap. */
  predicate PriceOk(fl: Floats, c: Criteria, d: Device) {
    c.maxPrice.Some? ==> ExtractPrice(fl, d).Some? && ExtractPrice(fl, d).value <= c.maxPrice.value
  }

  /** A device passes every `continue` guard of the loop. */
  predicate Matches(fl: Floats, c: Criteria, d: Device) {
    InStockOk(c, d) &&
    BrandOk(fl, c, d) &&
    ExactOk(c.condition, Normalize(fl, d.condition)) &&
    ExactOk(c.color, Normalize(fl, d.color)) &&
    ExactOk(c.size, Normalize(fl, d.size)) &&
    CategoryOk(fl, c, d) &&
    PriceOk(fl, c, d)
  }

  /** `Matches` as a test on devices. */
  function MatchTest(fl: Floats, c: Criteria): Device -> bool {
    d => Matches(fl, c, d)
  }

  /** The entries of `s` that satisfy `p`, in order. */
  function Filter<T>(p: T -> bool, s: seq<T>): (r: seq<T>)
    ensures |r| <= |s|
    ensures forall x :: x in r ==> x in s && p(x)
    ensures forall i :: 0 <= i < |s| && p(s[i]) ==> s[i] in r
  {
    if s == [] then []
    else
      var n := |s| - 1;
      assert forall i :: 0 <= i < n ==> s[..n][i] == s[i];
      Filter(p, s[..n]) + (if p(s[n]) then [s[n]] else [])
  }

  /** The `filtered` list the loop builds. */
  function Select(fl: Floats, c: Criteria, ds: seq<Device>): seq<Device> {
    Filter(MatchTest(fl, c), ds)
  }

  /** `s[:n]`. */
  function Take<T>(s: seq<T>, n: nat): (r: seq<T>)
    ensures |r| <= n && |r| <= |s|
    ensures |s| <= n ==> r == s
  {
    if |s| <= n then s else s[..n]
  }

  /** What `_apply_device_filters` returns for a filter map and a catalog. */
  function FilterResults(fl: Floats, filters: map<string, Value>, dataset: seq<Device>): (r: seq<Device>)
    requires MaxPriceComparable(filters)
    ensures |r| <= MAX_FILTER_RESULTS && |r| <= |dataset|
  {
    if filters == map[] then []
    else Take(SortBy(PriceKey(fl), Select(fl, CriteriaOf(fl, filters), dataset)), MAX_FILTER_RESULTS)
  }

  /** The body of the loop: the `continue` guards, in the source's order, on one device. */
  method DeviceMatches(fl: Floats, c: Criteria, device: Device) returns (keep: bool)
    ensures keep == Matches(fl, c, device)
  {
    var normalizedTitle := Normalize(fl, device.title);
    if c.inStockRequired && device.availability != Some(Str("in_stock")) {
      return false;
    }
    var deviceBrand := Normalize(fl, device.brand);
    var deviceCondition := Normalize(fl, device.condition);
    var deviceColor := Normalize(fl, device.color);
    var deviceSize := Normalize(fl, device.size);
    var categoryBlob := CategoryBlob(fl, device);
    if c.brandTerms != {} {
      if !AnyTermIn(c.brandTerms, deviceBrand, normalizedTitle) {
        return false;
      }
    }
    if c.condition != "" && deviceCondition != c.condition {
      return false;
    }
    if c.color != "" && deviceColor != c.color {
      return false;
    }
    if c.size != "" && deviceSize != c.size {
      return false;
    }
    if c.category != "" && !Contains(categoryBlob, c.category) {
      return false;
    }
    if c.maxPrice.Some? {
      var priceValue := ExtractPrice(fl, device);
      if priceValue.None? || priceValue.value > c.maxPrice.value {
        return false;
      }
    }
    return true;
  }

  /** The `brand_terms` set: the brand filter and, when it has one, its synonym. */
  method CollectBrandTerms(brandFilter: string) returns (brandTerms: set<string>)
    ensures brandTerms == BrandTerms(brandFilter)
  {
    brandTerms := {};
    if brandFilter != "" {
      brandTerms := brandTerms + {brandFilter};
      var synonym := if brandFilter in BRAND_SYNONYMS then Some(BRAND_SYNONYMS[brandFilter]) else None;
      if synonym.Some? && synonym.value != "" {
        brandTerms := brandTerms + {synonym.value};
      }
    }
  }

  /**
   * The set-up of the criteria, the loop over the catalog, the in-place sort
   * and the slice.
   */
  method ApplyDeviceFilters(fl: Floats, filters: map<string, Value>, dataset: seq<Device>)
    returns (result: seq<Device>)
    requires MaxPriceComparable(filters)
    ensures result == FilterResults(fl, filters, dataset)
  {
    if filters == map[] {
      return [];
    }
    var brandFilter := Normalize(fl, Get(filters, "brand"));
    var brandTerms := CollectBrandTerms(brandFilter);
    var maxPrice := Get(filters, "max_price");
    var condition := Normalize(fl, Get(filters, "condition"));
    var color := Normalize(fl, Get(filters, "color"));
    var size := Normalize(fl, Get(filters, "size"));
    var category := Normalize(fl, Get(filters, "category"));
    var inStockRequired := if "in_stock" in filters then filters["in_stock"] else Bool(true);
    var c := Criteria(
      brandTerms,
      if maxPrice.Some? then Some(NumericValue(maxPrice.value)) else None,
      condition, color, size, category,
      Truthy(Some(inStockRequired)));
    assert c == CriteriaOf(fl, filters);

    var filtered: seq<Device> := [];
    for i := 0 to |dataset|
      invariant filtered == Select(fl, c, dataset[..i])
    {
      assert dataset[..i + 1][..i] == dataset[..i];
      var keep := DeviceMatches(fl, c, dataset[i]);
      if !keep {
        continue;
      }
      filtered := filtered + [dataset[i]];
    }
    assert dataset[..|dataset|] == dataset;

    filtered := SortBy(PriceKey(fl), filtered);
    result := Take(filtered, MAX_FILTER_RESULTS);
  }
}
