/** What `_apply_device_filters` promises about the devices it returns. */
module MatchingProps {
  import opened Wrappers
  import opened PyText
  import opened Values
  import opened Devices
  import opened PriceSort
  import opened Matching

  /** A device is kept by the loop exactly when it is in the catalog and passes every test. */
  lemma SelectMembers(fl: Floats, c: Criteria, ds: seq<Device>, d: Device)
    ensures d in Select(fl, c, ds) <==> d in ds && Matches(fl, c, d)
  {
    if d in ds && Matches(fl, c, d) {
      var i :| 0 <= i < |ds| && ds[i] == d;
      assert MatchTest(fl, c)(ds[i]);
    }
  }

  /** The filter keeps only entries of its input, and keeps none exactly when no entry passes. */
  lemma {:induction false} FilterOrder<T>(p: T -> bool, s: seq<T>)
    ensures forall x :: x in Filter(p, s) ==> x in s
    ensures Filter(p, s) == [] <==> forall i :: 0 <= i < |s| ==> !p(s[i])
  {
    if s != [] {
      FilterOrder(p, s[..|s| - 1]);
      assert forall i :: 0 <= i < |s| - 1 ==> s[..|s| - 1][i] == s[i];
    }
  }

  /** Filtering a sequence all of whose entries pass leaves it as it is. */
  lemma {:induction false} FilterAll<T>(p: T -> bool, s: seq<T>)
    requires forall x :: x in s ==> p(x)
    ensures Filter(p, s) == s
  {
    if s != [] {
      var n := |s| - 1;
      var init := s[..n];
      assert s == init + [s[n]];
      FilterAll(p, init);
      assert p(s[n]);
    }
  }

  /** Every entry of `s[..n]` is an entry of `s`. */
  lemma TakeMembers<T>(s: seq<T>, n: nat, x: T)
    requires x in Take(s, n)
    ensures x in s
  {
    if |s| > n {
      var i :| 0 <= i < n && s[..n][i] == x;
      assert s[i] == x;
    }
  }

  /** The sort and the cut keep only devices the loop kept. */
  lemma ResultsFromSelect(fl: Floats, filters: map<string, Value>, dataset: seq<Device>, d: Device)
    requires MaxPriceComparable(filters)
    requires d in FilterResults(fl, filters, dataset)
    ensures d in Select(fl, CriteriaOf(fl, filters), dataset)
  {
    var s := SortBy(PriceKey(fl), Select(fl, CriteriaOf(fl, filters), dataset));
    TakeMembers(s, MAX_FILTER_RESULTS, d);
    assert d in multiset(s);
  }

  /**
   * No filters give no devices; otherwise at most `MAX_FILTER_RESULTS`
   * devices, each from the catalog and passing every test, in price order.
   */
  lemma ResultsShape(fl: Floats, filters: map<string, Value>, dataset: seq<Device>)
    requires MaxPriceComparable(filters)
    ensures filters == map[] ==> FilterResults(fl, filters, dataset) == []
    ensures |FilterResults(fl, filters, dataset)| <= MAX_FILTER_RESULTS
    ensures forall d :: d in FilterResults(fl, filters, dataset) ==>
      d in dataset && Matches(fl, CriteriaOf(fl, filters), d)
    ensures SortedBy(PriceKey(fl), FilterResults(fl, filters, dataset))
  {
    var r := FilterResults(fl, filters, dataset);
    forall d | d in r ensures d in dataset && Matches(fl, CriteriaOf(fl, filters), d) {
      ResultsFromSelect(fl, filters, dataset, d);
      SelectMembers(fl, CriteriaOf(fl, filters), dataset, d);
    }
    if filters != map[] {
      SortBySorted(PriceKey(fl), Select(fl, CriteriaOf(fl, filters), dataset));
    }
  }

  /**
   * Prices never go down along the results, and once a device without a
   * price appears, every later one has no price either.
   */
  lemma PricesAscendUnpricedLast(fl: Floats, filters: map<string, Value>, dataset: seq<Device>)
    requires MaxPriceComparable(filters)
    ensures forall i, j :: 0 <= i < j < |FilterResults(fl, filters, dataset)| ==>
      var r := FilterResults(fl, filters, dataset);
      (ExtractPrice(fl, r[i]).None? ==> ExtractPrice(fl, r[j]).None?) &&
      (ExtractPrice(fl, r[i]).Some? && ExtractPrice(fl, r[j]).Some? ==>
        ExtractPrice(fl, r[i]).value <= ExtractPrice(fl, r[j]).value)
  {
    ResultsShape(fl, filters, dataset);
    var r := FilterResults(fl, filters, dataset);
    forall i, j | 0 <= i < j < |r|
      ensures PriceLe(ExtractPrice(fl, r[i]), ExtractPrice(fl, r[j]))
    {
      assert PriceLe(PriceKey(fl)(r[i]), PriceKey(fl)(r[j]));
    }
  }

  /**
   * Soundness in the filter map's own terms: every returned device is in
   * stock unless `in_stock` is given and falsy, has a brand term in its brand
   * or title when a brand is given, equals the condition, colour and size
   * after normalization, contains the category in its category blob, and has
   * a price not above `max_price` when one is given.
   */
  lemma ResultSatisfiesFilters(fl: Floats, filters: map<string, Value>, dataset: seq<Device>, d: Device)
    requires MaxPriceComparable(filters)
    requires d in FilterResults(fl, filters, dataset)
    ensures ("in_stock" !in filters || Truthy(Some(filters["in_stock"]))) ==> d.availability == Some(Str("in_stock"))
    ensures Normalize(fl, Get(filters, "brand")) != "" ==>
      exists t :: t in BrandTerms(Normalize(fl, Get(filters, "brand"))) &&
        (Contains(Normalize(fl, d.brand), t) || Contains(Normalize(fl, d.title), t))
    ensures Normalize(fl, Get(filters, "condition")) != "" ==>
      Normalize(fl, d.condition) == Normalize(fl, Get(filters, "condition"))
    ensures Normalize(fl, Get(filters, "color")) != "" ==>
      Normalize(fl, d.color) == Normalize(fl, Get(filters, "color"))
    ensures Normalize(fl, Get(filters, "size")) != "" ==>
      Normalize(fl, d.size) == Normalize(fl, Get(filters, "size"))
    ensures Normalize(fl, Get(filters, "category")) != "" ==>
      Contains(CategoryBlob(fl, d), Normalize(fl, Get(filters, "category")))
    ensures "max_price" in filters ==>
      ExtractPrice(fl, d).Some? && ExtractPrice(fl, d).value <= NumericValue(filters["max_price"])
  {
    ResultsShape(fl, filters, dataset);
    var c := CriteriaOf(fl, filters);
    assert Matches(fl, c, d);
    BrandTermsShape(Normalize(fl, Get(filters, "brand")));
  }

  /** The brand terms: the brand itself, plus its synonym when it has one. */
  lemma BrandTermsShape(brand: string)
    ensures brand == "" <==> BrandTerms(brand) == {}
    ensures brand != "" ==> brand in BrandTerms(brand)
    ensures brand in BRAND_SYNONYMS ==> BRAND_SYNONYMS[brand] in BrandTerms(brand)
    ensures forall t :: t in BrandTerms(brand) ==> t == brand || (brand in BRAND_SYNONYMS && t == BRAND_SYNONYMS[brand])
  {
    if brand in BRAND_SYNONYMS {
      assert BRAND_SYNONYMS[brand] != "";
    }
  }

  /** A filter of "iphone" also accepts devices whose brand or title says "apple". */
  lemma IphoneAlsoMatchesApple()
    ensures BrandTerms("iphone") == {"iphone", "apple"}
  {
  }

  /** When few enough devices pass, all of them are returned. */
  lemma AllMatchesWhenFew(fl: Floats, filters: map<string, Value>, dataset: seq<Device>)
    requires MaxPriceComparable(filters) && filters != map[]
    requires |Select(fl, CriteriaOf(fl, filters), dataset)| <= MAX_FILTER_RESULTS
    ensures multiset(FilterResults(fl, filters, dataset)) == multiset(Select(fl, CriteriaOf(fl, filters), dataset))
    ensures forall d :: d in dataset && Matches(fl, CriteriaOf(fl, filters), d) ==> d in FilterResults(fl, filters, dataset)
  {
    var c := CriteriaOf(fl, filters);
    forall d | d in dataset && Matches(fl, c, d) ensures d in FilterResults(fl, filters, dataset) {
      SelectMembers(fl, c, dataset, d);
      assert d in multiset(Select(fl, c, dataset));
    }
  }

  /**
   * A passing device that is left out was cut: there are
   * `MAX_FILTER_RESULTS` results and none of them costs more than it.
   */
  lemma CheapestKept(fl: Floats, filters: map<string, Value>, dataset: seq<Device>, d: Device)
    requires MaxPriceComparable(filters) && filters != map[]
    requires d in dataset && Matches(fl, CriteriaOf(fl, filters), d)
    requires d !in FilterResults(fl, filters, dataset)
    ensures |FilterResults(fl, filters, dataset)| == MAX_FILTER_RESULTS
    ensures forall e :: e in FilterResults(fl, filters, dataset) ==> PriceLe(ExtractPrice(fl, e), ExtractPrice(fl, d))
  {
    var c := CriteriaOf(fl, filters);
    var s := SortBy(PriceKey(fl), Select(fl, c, dataset));
    SelectMembers(fl, c, dataset, d);
    assert d in multiset(Select(fl, c, dataset));
    assert d in multiset(s);
    SortBySorted(PriceKey(fl), Select(fl, c, dataset));
    CutBehind(PriceKey(fl), s, MAX_FILTER_RESULTS, d);
  }

  /** In a sorted sequence, an entry that the cut drops has a key at least that of every entry kept. */
  lemma CutBehind<T>(key: T -> Option<real>, s: seq<T>, n: nat, x: T)
    requires SortedBy(key, s) && x in s && x !in Take(s, n)
    ensures |Take(s, n)| == n
    ensures forall e :: e in Take(s, n) ==> PriceLe(key(e), key(x))
  {
    var j :| 0 <= j < |s| && s[j] == x;
    var r := s[..n];
    forall i | 0 <= i < n ensures s[i] != x {
      assert r[i] == s[i];
    }
    forall e | e in r ensures PriceLe(key(e), key(x)) {
      var i :| 0 <= i < |r| && r[i] == e;
      assert s[i] == e;
    }
  }

  /** Cutting a sequence keeps, for every key, a prefix of the entries with that key. */
  lemma {:induction false} WithKeyTake<T>(key: T -> Option<real>, s: seq<T>, n: nat, k: Option<real>)
    ensures WithKey(key, Take(s, n), k) <= WithKey(key, s, k)
    decreases |s|
  {
    if |s| > n {
      var init := s[..|s| - 1];
      WithKeyTake(key, init, n, k);
      assert Take(init, n) == Take(s, n) by {
        if |init| > n {
          assert init[..n] == s[..n];
        }
      }
    }
  }

  /**
   * Stability in the output: for every price, the returned devices with that
   * price are the first of the passing devices with that price, in catalog
   * order.
   */
  lemma EqualPricesKeepCatalogOrder(fl: Floats, filters: map<string, Value>, dataset: seq<Device>, k: Option<real>)
    requires MaxPriceComparable(filters) && filters != map[]
    ensures WithKey(PriceKey(fl), FilterResults(fl, filters, dataset), k) <=
      WithKey(PriceKey(fl), Select(fl, CriteriaOf(fl, filters), dataset), k)
  {
    var s := Select(fl, CriteriaOf(fl, filters), dataset);
    WithKeyTake(PriceKey(fl), SortBy(PriceKey(fl), s), MAX_FILTER_RESULTS, k);
    SortByStable(PriceKey(fl), s, k);
  }

  /** Filtering the results again with the same filters returns them unchanged. */
  lemma FilterResultsIdempotent(fl: Floats, filters: map<string, Value>, dataset: seq<Device>)
    requires MaxPriceComparable(filters)
    ensures FilterResults(fl, filters, FilterResults(fl, filters, dataset)) == FilterResults(fl, filters, dataset)
  {
    if filters != map[] {
      var r := FilterResults(fl, filters, dataset);
      var c := CriteriaOf(fl, filters);
      ResultsShape(fl, filters, dataset);
      FilterAll(MatchTest(fl, c), r);
      SortBySortedIdentity(PriceKey(fl), r);
    }
  }

  /** The `query` entry is carried along but never read. */
  lemma QueryIgnored(fl: Floats, filters: map<string, Value>, dataset: seq<Device>, query: Value)
    requires MaxPriceComparable(filters) && filters != map[]
    ensures MaxPriceComparable(filters["query" := query])
    ensures FilterResults(fl, filters["query" := query], dataset) == FilterResults(fl, filters, dataset)
  {
    assert CriteriaOf(fl, filters["query" := query]) == CriteriaOf(fl, filters);
  }
}
