/**
 * The non-I/O part of the `filter-devices` tool (`filter_devices`): the
 * arguments are coerced, filters are inferred from the query, the two are
 * merged, the catalog is filtered and the response is assembled.
 */
module Tool {
  import opened Wrappers
  import opened PyText
  import opened Values
  import opened Coerce
  import opened Devices
  import opened Infer
  import opened InferProps
  import opened Matching
  import opened Assets
  import MatchingProps

  /** The arguments of `filter_devices`; `max_price` arrives as a float. */
  datatype Args = Args(
    brand: Option<string>,
    maxPrice: Option<real>,
    condition: Option<string>,
    color: Option<string>,
    size: Option<string>,
    query: Option<string>)

  /** What the tool hands back: the text content, the structured content and the iframe URL. */
  datatype ToolResponse = ToolResponse(
    text: string,
    filters: map<string, Value>,
    count: nat,
    results: seq<Device>,
    iframeUrl: string)

  /** The four string arguments that go through coercion. */
  const STRING_ARGS: set<string> := {"brand", "condition", "color", "size"}

  /** An optional string argument as a Python value. */
  function StrArg(a: Option<string>): Option<Value> {
    match a
    case None => None
    case Some(s) => Some(Str(s))
  }

  /** The dict `filter_devices` hands to `_coerce_filter_values`. */
  function RawArguments(a: Args): map<string, Option<Value>> {
    map[
      "brand" := StrArg(a.brand),
      "max_price" := (match a.maxPrice case None => None case Some(x) => Some(Num(x))),
      "condition" := StrArg(a.condition),
      "color" := StrArg(a.color),
      "size" := StrArg(a.size)]
  }

  /** The string argument given for one of the four string keys. */
  function StringArg(a: Args, key: string): Option<string>
    requires key in STRING_ARGS
  {
    if key == "brand" then a.brand
    else if key == "condition" then a.condition
    else if key == "color" then a.color
    else a.size
  }

  /** A string argument that survives coercion: present and not blank, "none" or "null" in any case. */
  predicate Given(arg: Option<string>) {
    arg.Some? && Lower(Strip(arg.value)) !in NULLISH
  }

  /** `if query:` on an optional string. */
  predicate HasQuery(query: Option<string>) {
    query.Some? && query.value != ""
  }

  /** `merged_filters` after the update with the explicit filters, the query copy and the `in_stock` default. */
  function Merged(inferred: map<string, Value>, base: map<string, Value>, query: Option<string>): (r: map<string, Value>)
    ensures "in_stock" in r && inferred.Keys + base.Keys <= r.Keys
    ensures forall k :: k in base && k != "query" ==> r[k] == base[k]
  {
    var m := inferred + base;
    var withQuery := if HasQuery(query) then m["query" := Str(query.value)] else m;
    if "in_stock" in withQuery then withQuery else withQuery["in_stock" := Bool(true)]
  }

  /** The coerced explicit filters of a call. */
  function BaseFilters(fl: Floats, a: Args): map<string, Value> {
    Coerced(fl, RawArguments(a))
  }

  /** The filters inferred from a call's query, with the catalog's colours. */
  function QueryFilters(fl: Floats, dataset: seq<Device>, a: Args): map<string, Value> {
    InferredFilters(a.query, KnownColors(fl, dataset))
  }

  /** The filter map handed to `_apply_device_filters`. */
  function MergedFilters(fl: Floats, dataset: seq<Device>, a: Args): map<string, Value> {
    Merged(QueryFilters(fl, dataset, a), BaseFilters(fl, a), a.query)
  }

  /**
   * The merged filters always hold `in_stock = True`, since neither the
   * explicit nor the inferred filters can set it, and their `max_price`,
   * which only an explicit argument sets, is the float argument, so the
   * price comparison never meets a string.
   */
  lemma MergedFiltersDefaults(fl: Floats, dataset: seq<Device>, a: Args)
    ensures MaxPriceComparable(MergedFilters(fl, dataset, a))
    ensures "in_stock" in MergedFilters(fl, dataset, a) && MergedFilters(fl, dataset, a)["in_stock"] == Bool(true)
    ensures "max_price" in MergedFilters(fl, dataset, a) <==> a.maxPrice.Some?
    ensures a.maxPrice.Some? ==> MergedFilters(fl, dataset, a)["max_price"] == Num(a.maxPrice.value)
  {
    InferredShape(a.query, KnownColors(fl, dataset));
    BaseMaxPrice(fl, a);
    MergedDefaults(QueryFilters(fl, dataset, a), BaseFilters(fl, a), a.query);
  }

  /** Without `in_stock` on either side, and with `max_price` only explicit, the merge sets both as the tool needs. */
  lemma MergedDefaults(inferred: map<string, Value>, base: map<string, Value>, query: Option<string>)
    requires "in_stock" !in inferred && "in_stock" !in base && "max_price" !in inferred
    ensures "in_stock" in Merged(inferred, base, query) && Merged(inferred, base, query)["in_stock"] == Bool(true)
    ensures "max_price" in Merged(inferred, base, query) <==> "max_price" in base
    ensures "max_price" in base ==> Merged(inferred, base, query)["max_price"] == base["max_price"]
  {
  }

  /** The coerced `max_price` is the float argument, kept as it is; `in_stock` is never set. */
  lemma BaseMaxPrice(fl: Floats, a: Args)
    ensures "in_stock" !in BaseFilters(fl, a)
    ensures "max_price" in BaseFilters(fl, a) <==> a.maxPrice.Some?
    ensures a.maxPrice.Some? ==> BaseFilters(fl, a)["max_price"] == Num(a.maxPrice.value)
  {
    var raw := RawArguments(a);
    if a.maxPrice.Some? {
      assert raw["max_price"] == Some(Num(a.maxPrice.value));
      assert CoerceEntry(fl, "max_price", raw["max_price"]) == Some(Num(a.maxPrice.value));
    }
  }

  /** A string argument is kept, stripped, exactly when it is `Given`. */
  lemma BaseStringArg(fl: Floats, a: Args, key: string)
    requires key in STRING_ARGS
    ensures key in BaseFilters(fl, a) <==> Given(StringArg(a, key))
    ensures Given(StringArg(a, key)) ==> BaseFilters(fl, a)[key] == Str(Strip(StringArg(a, key).value))
  {
    var raw := RawArguments(a);
    assert raw[key] == StrArg(StringArg(a, key));
    if StringArg(a, key).Some? {
      var s := StringArg(a, key).value;
      StripIdempotent(s);
      LowerShape(Strip(s));
      assert Text(fl, Stripped(Str(s))) == Strip(s);
    }
  }

  /** `dict.update` precedence, the query copy and the `in_stock` default. */
  lemma MergePrecedence(inferred: map<string, Value>, base: map<string, Value>, query: Option<string>)
    ensures Merged(inferred, base, query).Keys ==
      inferred.Keys + base.Keys + (if HasQuery(query) then {"query"} else {}) + {"in_stock"}
    ensures forall k :: k in base && !(k == "query" && HasQuery(query)) ==>
      Merged(inferred, base, query)[k] == base[k]
    ensures forall k :: k in inferred && k !in base && !(k == "query" && HasQuery(query)) ==>
      Merged(inferred, base, query)[k] == inferred[k]
    ensures HasQuery(query) ==> Merged(inferred, base, query)["query"] == Str(query.value)
    ensures "in_stock" !in inferred && "in_stock" !in base ==>
      Merged(inferred, base, query)["in_stock"] == Bool(true)
  {
  }

  /**
   * For each string filter, an explicit argument that survives coercion wins
   * over the inferred value; otherwise the inferred value, if any, stays.
   */
  lemma ExplicitOverridesInferred(fl: Floats, dataset: seq<Device>, a: Args, key: string)
    requires key in STRING_ARGS
    ensures Given(StringArg(a, key)) ==>
      key in MergedFilters(fl, dataset, a) &&
      MergedFilters(fl, dataset, a)[key] == Str(Strip(StringArg(a, key).value))
    ensures !Given(StringArg(a, key)) ==>
      (key in MergedFilters(fl, dataset, a) <==> key in QueryFilters(fl, dataset, a)) &&
      (key in QueryFilters(fl, dataset, a) ==> MergedFilters(fl, dataset, a)[key] == QueryFilters(fl, dataset, a)[key])
  {
    BaseStringArg(fl, a, key);
    MergePrecedence(QueryFilters(fl, dataset, a), BaseFilters(fl, a), a.query);
  }

  /** The merged map holds the explicit, inferred, query and `in_stock` entries and nothing else. */
  lemma MergedKeys(fl: Floats, dataset: seq<Device>, a: Args)
    ensures MergedFilters(fl, dataset, a).Keys ==
      QueryFilters(fl, dataset, a).Keys + BaseFilters(fl, a).Keys +
      (if HasQuery(a.query) then {"query"} else {}) + {"in_stock"}
    ensures HasQuery(a.query) ==> MergedFilters(fl, dataset, a)["query"] == Str(a.query.value)
    ensures MergedFilters(fl, dataset, a).Keys <= ALLOWED_FILTER_KEYS + {"query"}
  {
    MergePrecedence(QueryFilters(fl, dataset, a), BaseFilters(fl, a), a.query);
    InferredShape(a.query, KnownColors(fl, dataset));
  }

  /** Every device the tool returns is in stock, is from the catalog and passes every filter. */
  lemma ResultsInStock(fl: Floats, dataset: seq<Device>, a: Args)
    ensures MaxPriceComparable(MergedFilters(fl, dataset, a))
    ensures forall d :: d in FilterResults(fl, MergedFilters(fl, dataset, a), dataset) ==>
      d in dataset && d.availability == Some(Str("in_stock")) &&
      Matches(fl, CriteriaOf(fl, MergedFilters(fl, dataset, a)), d)
  {
    var merged := MergedFilters(fl, dataset, a);
    MergedFiltersDefaults(fl, dataset, a);
    forall d | d in FilterResults(fl, merged, dataset)
      ensures d in dataset && Matches(fl, CriteriaOf(fl, merged), d)
    {
      MatchingProps.ResultsFromSelect(fl, merged, dataset, d);
      MatchingProps.SelectMembers(fl, CriteriaOf(fl, merged), dataset, d);
    }
  }

  /** `merged_filters` built step by step: copy, update, query, default. */
  method MergeFilters(inferred: map<string, Value>, base: map<string, Value>, query: Option<string>)
    returns (merged: map<string, Value>)
    ensures merged == Merged(inferred, base, query)
  {
    merged := inferred;
    merged := merged + base;
    if HasQuery(query) {
      merged := merged["query" := Str(query.value)];
    }
    if "in_stock" !in merged {
      merged := merged["in_stock" := Bool(true)];
    }
  }

  /**
   * `filter_devices` without its logging and the MCP result wrapper: the
   * reported filters are the merged ones plus `sorted_by` and `limit`, the
   * count is the number of results, and the iframe points at the filter
   * widget's html file.
   */
  method FilterDevices(fl: Floats, dataset: seq<Device>, assetBaseUrl: string, a: Args)
    returns (response: ToolResponse)
    ensures MaxPriceComparable(MergedFilters(fl, dataset, a)) &&
      response.results == FilterResults(fl, MergedFilters(fl, dataset, a), dataset)
    ensures response.filters ==
      MergedFilters(fl, dataset, a)["sorted_by" := Str("price_asc")]["limit" := Int(MAX_FILTER_RESULTS)]
    ensures response.count == |response.results| <= MAX_FILTER_RESULTS
    ensures response.text == "Found " + IntText(response.count) + " matching devices."
    ensures response.iframeUrl == assetBaseUrl + "/" + FILTER_WIDGET_FILE
  {
    var base := CoerceFilterValues(fl, RawArguments(a));
    var colors := KnownDeviceColors(fl, dataset);
    var inferred := InferFiltersFromQuery(a.query, colors);
    var merged := MergeFilters(inferred, base, a.query);
    assert merged == MergedFilters(fl, dataset, a);
    MergedFiltersDefaults(fl, dataset, a);

    var filtered := ApplyDeviceFilters(fl, merged, dataset);
    MatchingProps.ResultsShape(fl, merged, dataset);

    var iframeUrl := WidgetIframeUrl(assetBaseUrl, FILTER_WIDGET_TEMPLATE);
    FilterWidgetIframeUrl(assetBaseUrl);

    var text := "Found " + IntText(|filtered|) + " matching devices.";
    var responseFilters := merged;
    responseFilters := responseFilters["sorted_by" := Str("price_asc")];
    responseFilters := responseFilters["limit" := Int(MAX_FILTER_RESULTS)];
    response := ToolResponse(text, responseFilters, |filtered|, filtered, iframeUrl);
  }
}
