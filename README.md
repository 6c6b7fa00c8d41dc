# Visible device filter, modelled in Dafny

This project models the device-filtering pipeline of the Visible MCP server
(`visible_server_python/main.py`). The pipeline serves the `filter-devices`
tool and has four stages:

1. **Coercion.** `_coerce_filter_values` turns the raw tool arguments into a
   clean filter map. It keeps only the allowed keys and drops `None` and the
   strings that strip to "", "none" or "null". It reads `max_price` as a
   float and `in_stock` as a boolean, and strips every other string.
2. **Inference.** `_infer_filters_from_query` lowercases the free-text query
   and scans it:
   - for the first known catalog colour;
   - for the leftmost `SIZE_REGEX` match;
   - for the first `CONDITION_KEYWORDS` hit;
   - for the first `BRAND_KEYWORDS` hit.

   The colours come from `_known_device_colors`.
3. **Matching.** `_apply_device_filters` keeps the catalog devices that pass
   every active test:
   - stock;
   - brand or its `BRAND_SYNONYMS` entry;
   - exact condition, colour and size;
   - category substring;
   - `max_price`, checked against `_extract_price_value`.

   It then sorts the kept devices stably by price, with unpriced devices last,
   and keeps the first `MAX_FILTER_RESULTS` = 6.
4. **Merging.** `filter_devices` lays the explicit filters over the inferred
   ones, copies a non-empty query, defaults `in_stock` to `True` and builds
   the response. The response holds the text summary, the decorated filter
   map, the count, the results and the iframe URL. The URL comes from
   `_resolve_asset_base_url` and `_widget_iframe_url`.

Modules:

| module | file | contents |
|---|---|---|
| `Wrappers` | `wrappers.dfy` | `Option` |
| `PyText` | `text.dfy` | `str.strip`, `str.lower`, `rstrip("/")`, `in` on strings and `str(int)` |
| `Values` | `values.dfy` | dynamically typed Python values, truthiness, `str()`, `float()` and the `_normalize` helper |
| `Coerce` | `coerce.dfy` | coercion |
| `Devices` | `devices.dfy` | the device record, the effective price and the known-colours table |
| `Infer` | `infer.dfy` | query inference and the size scanner |
| `InferProps` | `infer_props.dfy` | properties of the inferred map |
| `PriceSort` | `price_sort.dfy` | the stable price sort and its uniqueness |
| `Matching` | `matching.dfy` | `_apply_device_filters` |
| `MatchingProps` | `matching_props.dfy` | properties of the results |
| `Assets` | `assets.dfy` | the asset base URL and the iframe URL |
| `Tool` | `tool.dfy` | the merge and the response of `filter_devices` |

The code that works by changing state has imperative models:
- the coercion loop;
- the three first-match loops with `break`;
- the first-seen colours loop;
- the device loop with its `continue` guards;
- the candidate loop with its early return;
- the building of `merged_filters`.

Each of these is a `method`, proved equal to a function that specifies it.
The properties are then proved about those functions.

`main.py` has no minimum-price, billing-term or wearable filter, and
`_apply_device_filters` never reads the `query` key it is handed
(`MatchingProps.QueryIgnored`).

## Model

| member | source | states |
|---|---|---|
| `PyText.TrimLeftShape` | visible_server_python/main.py:200 | `lstrip` leaves a suffix of the input, drops only blanks (the full `str.isspace` set) and leaves no blank at the front |
| `PyText.TrimRightShape` | visible_server_python/main.py:200 | `rstrip` leaves a prefix of the input, drops only blanks and leaves no blank at the back |
| `PyText.StripShape` | visible_server_python/main.py:66 | `strip` leaves a substring of the input; it is empty exactly when the input is all blanks, and otherwise has no blank at either end |
| `PyText.StripIdempotent` | visible_server_python/main.py:218-222 | stripping a stripped string changes nothing, so the value coercion keeps is the stripped argument |
| `PyText.LowerShape` | visible_server_python/main.py:201 | `lower` keeps the length and lowers each character on its own: an ASCII capital becomes the letter 32 code points higher, anything else is kept |
| `PyText.TrimTrailingSlashes` | visible_server_python/main.py:68 | `rstrip("/")` leaves a prefix with no `/` at its end, and only `/` were removed |
| `PyText.NatText` | visible_server_python/main.py:409 | `str()` of a count is a non-empty string of digits with no leading zero, and those digits, read in base ten, are the count |
| `Values.TextOrEmpty` | visible_server_python/main.py:294-295 | `str(term or "")` is empty for a falsy term and is the string itself for a string |
| `Values.Normalize` | visible_server_python/main.py:294-295 | `_normalize` is "" for a falsy term and the stripped, lowered text of a string |
| `Values.Truthy` | visible_server_python/main.py:277 | Python truthiness: `None`, `""`, `False`, `0` and `0.0` are falsy, everything else is truthy |
| `Values.ToFloat` | visible_server_python/main.py:280-283 | `float()` of a bool, int or float is its number; of a string it is the host parse, with none where Python raises |
| `Coerce.CoerceEntry` | visible_server_python/main.py:192-225 | an entry is kept only for an allowed key whose value is neither `None` nor nullish; `max_price` is kept iff `float()` succeeds, as that float; a bool `in_stock` is kept as is, any other `in_stock` is true iff its stripped, lowered text is "true", "1" or "yes"; any other string is kept, stripped, iff it is non-empty after stripping; every kept string is stripped and non-empty |
| `Coerce.CoerceFilterValues` | visible_server_python/main.py:186-229 | the coerced map has only allowed keys, all from the input; each key holds exactly the entry `CoerceEntry` keeps; an empty input gives an empty map |
| `Devices.ExtractPrice` | visible_server_python/main.py:274-283 | the effective price is the sale value when it is truthy, else the list value, else none; a value `float()` cannot read gives none |
| `Devices.ZeroSaleFallsThrough` | visible_server_python/main.py:277 | a sale value of 0 counts as no sale: the list price is used, as it would be without a sale price |
| `Devices.KnownDeviceColors` | visible_server_python/main.py:174-183 | the loop builds exactly the first-seen colours table of the catalog |
| `Devices.KnownColors` | visible_server_python/main.py:174-183 | the first-seen colours table of a catalog, one entry per new lowered colour, so never longer than the catalog |
| `Devices.KnownColorsWellFormed` | visible_server_python/main.py:174-183 | the table has distinct keys; each value is a non-empty stripped colour and its key is that colour lowered |
| `Devices.KnownColorsKeepKey` | visible_server_python/main.py:181-182 | a later device never removes a colour already in the table |
| `Devices.KnownColorsHaveLast` | visible_server_python/main.py:176-183 | after a device with a colour, its lowered colour is in the table |
| `Devices.KnownColorsComplete` | visible_server_python/main.py:174-183 | every catalog device with a non-empty colour has its lowered colour in the table |
| `Infer.FirstMatch` | visible_server_python/main.py:241-263 | the index found is the first table entry whose non-empty key occurs in the lowered query; none means no entry fires |
| `Infer.FirstMatchAt` | visible_server_python/main.py:241-263 | an entry that fires after only non-firing entries is the one found |
| `Infer.FirstMatchNone` | visible_server_python/main.py:241-263 | when no entry fires, nothing is found |
| `Infer.DigitRunEnd` | visible_server_python/main.py:139 | `\d+` runs to the first non-digit, and everything it passes is a digit |
| `Infer.SpaceRunEnd` | visible_server_python/main.py:139 | `\s*` runs to the first non-blank, and everything it passes is a blank |
| `Infer.UnitAtIsG` | visible_server_python/main.py:139 | every unit of the size pattern starts with `g`, so a unit is present iff one starts, case-insensitively, at that point |
| `Infer.SizeMatchAtIsRegex` | visible_server_python/main.py:139 | the scanner's test at a position holds iff the regex (digits, optional blanks, then gb, g, gig, gigabyte or gigabytes) matches there, with a maximal digit run |
| `Infer.SearchSize` | visible_server_python/main.py:247-249  | the search returns the leftmost position, from where it starts, at which the size pattern matches |
| `Infer.SizeInQuery` | visible_server_python/main.py:247-251 | a size found in the query is a run of digits followed by " GB" |
| `Infer.Cleaned` | visible_server_python/main.py:265-269 | cleaning keeps exactly the allowed keys whose value is not the empty string, with their values |
| `Infer.InferredFilters` | visible_server_python/main.py:232-269 | an absent or empty query gives `{}`; otherwise only allowed keys with non-empty values |
| `Infer.FirstHit` | visible_server_python/main.py:241-263 | each first-match loop with `break` yields the first firing entry's value |
| `Infer.Put` | visible_server_python/main.py:241-263  | a found value is stored under its key, and nothing else changes |
| `Infer.InferFromLowered` | visible_server_python/main.py:238-269 | the body of `_infer_filters_from_query` computes the cleaned inferred map for colours, size, condition and brand, over any keyword tables |
| `Infer.InferFiltersFromQuery` | visible_server_python/main.py:232-271 | `_infer_filters_from_query` returns the inferred map; it is empty for an absent or empty query |
| `InferProps.FoundIsFirstHit` | visible_server_python/main.py:253-263 | table lookup is first-match-wins: nothing iff no key fires, else the value of the first entry whose key fires |
| `InferProps.FoundAppend` | visible_server_python/main.py:241-245 | a table grown by one entry keeps an earlier hit; otherwise the new entry decides |
| `InferProps.RawInferredEntries` | visible_server_python/main.py:236-263 | before cleaning, each of the four keys is set iff its search found something, and holds that value |
| `InferProps.InferredShape` | visible_server_python/main.py:232-269  | an absent or empty query gives `{}`; every inferred key is one of colour, size, condition and brand, and thus allowed; every value is a non-empty string |
| `InferProps.CleanedKeeps` | visible_server_python/main.py:265-269 | an inferred key survives cleaning iff it was set to a non-empty value, and keeps that value |
| `InferProps.InferredCondition` | visible_server_python/main.py:253-257 | condition is inferred iff some `CONDITION_KEYWORDS` key occurs in the lowered query; its value is the first such entry's value, so it is "used" or "new" |
| `InferProps.InferredBrand` | visible_server_python/main.py:259-263  | brand is inferred iff some `BRAND_KEYWORDS` key occurs in the lowered query, and its value is the first such entry's value |
| `InferProps.IphoneMeansApple` | visible_server_python/main.py:259-263  | a query that mentions "iphone" in any case infers the brand "Apple" |
| `InferProps.NoSizeMatch` | visible_server_python/main.py:247-249  | when the scanner finds nothing, the size regex matches nowhere |
| `InferProps.LeftmostSizeMatch` | visible_server_python/main.py:247-249  | when the scanner finds a size, it is the digits of the leftmost regex match followed by " GB" |
| `InferProps.SizeInQueryIsRegex` | visible_server_python/main.py:247-249  | a size is found iff the size regex matches the lowered query somewhere; it is then built from the leftmost match |
| `InferProps.InferredSize` | visible_server_python/main.py:247-251  | size is inferred iff the regex matches the lowered query; the value is `<digits> GB`, with the digits of the leftmost match |
| `InferProps.FoundKnownColorsStep` | visible_server_python/main.py:174-183  | one more catalog device changes the colour found only when no earlier colour hit and its own colour does |
| `InferProps.FirstWhere` | visible_server_python/main.py:241-245 | the index found is the first entry satisfying the test; none means no entry does |
| `InferProps.FirstMatchIsFirstWhere` | visible_server_python/main.py:253-263 | the keyword scan's first match is the first table entry, in order, that passes the key test, the same rule as the colour scan |
| `InferProps.FoundKnownColor` | visible_server_python/main.py:241-245  | scanning the colours table finds the colour of the first catalog device, in catalog order, whose lowered colour occurs in the query |
| `InferProps.InferredColor` | visible_server_python/main.py:241-245 | colour is inferred iff some catalog device's lowered colour occurs in the lowered query; the value is the stripped colour, in its original case, of the first such device |
| `PriceSort.PriceLeTotalPreorder` | visible_server_python/main.py:360-362 | the `price_key` order is reflexive, total and transitive, and two prices are tied exactly when they are equal |
| `PriceSort.Insert` | visible_server_python/main.py:364 | an insertion step is a permutation that adds the one entry |
| `PriceSort.SortBy` | visible_server_python/main.py:364 | the sort is a permutation of its input |
| `PriceSort.InsertSorted` | visible_server_python/main.py:364 | inserting into a sorted list keeps it sorted |
| `PriceSort.SortBySorted` | visible_server_python/main.py:360-364 | the sorted list is in non-decreasing `price_key` order |
| `PriceSort.WithKeyAppend` | visible_server_python/main.py:364 | the entries with one key, in order, split over concatenation |
| `PriceSort.InsertStable` | visible_server_python/main.py:364 | an insertion step puts the new entry after every entry with the same key |
| `PriceSort.SortByStable` | visible_server_python/main.py:364 | the sort is stable: the entries with any one key keep their input order |
| `PriceSort.SortBySortedIdentity` | visible_server_python/main.py:364 | a list already in order is left as it is |
| `PriceSort.SortByIdempotent` | visible_server_python/main.py:364 | sorting twice is sorting once |
| `PriceSort.SortedUnique` | visible_server_python/main.py:364 | two sorted lists with the same entries per key, in the same order, are equal |
| `PriceSort.StableSortIsSortBy` | visible_server_python/main.py:364 | any stable sort by `price_key` gives the model's sort, so `list.sort` is modelled exactly |
| `Matching.Filter` | visible_server_python/main.py:311-358 | the loop keeps only entries that pass, and every entry that passes is kept |
| `Matching.Take` | visible_server_python/main.py:365 | the slice `[:n]` has at most `n` entries, and a short list is kept whole |
| `Matching.DeviceMatches` | visible_server_python/main.py:312-358 | the `continue` guards keep a device iff it is in stock (when required), matches a brand term, has the exact condition, colour and size, contains the category, and has a price within `max_price` |
| `Matching.CollectBrandTerms` | visible_server_python/main.py:297-303 | the brand terms are the normalized brand filter and its non-empty synonym, or none when no brand is asked for |
| `Matching.CriteriaOf` | visible_server_python/main.py:294-310 | the seven filter values the loop reads: normalized brand terms, condition, colour, size and category, `max_price` as a number, and `in_stock` as a truth value defaulting to true |
| `Matching.CategoryBlob` | visible_server_python/main.py:324-332 | the lowered `product_category` and `category` texts, joined by a space when both are non-empty |
| `Matching.Matches` | visible_server_python/main.py:312-358 | the conjunction of every `continue` guard of the loop |
| `Matching.FilterResults` | visible_server_python/main.py:286-365 | the results hold at most six devices and no more than the catalog has; empty filters give `[]` |
| `Matching.ApplyDeviceFilters` | visible_server_python/main.py:286-368 | empty filters give `[]`; otherwise the result is the first six of the stable price sort of the devices that pass every test |
| `MatchingProps.SelectMembers` | visible_server_python/main.py:311-358 | a device is kept iff it is in the catalog and passes every test |
| `MatchingProps.FilterOrder` | visible_server_python/main.py:311-358 | the kept entries come from the input, and none is kept iff no entry passes |
| `MatchingProps.FilterAll` | visible_server_python/main.py:311-358 | filtering devices that all pass leaves them as they are |
| `MatchingProps.ResultsFromSelect` | visible_server_python/main.py:360-365 | the sort and the cut return only kept devices |
| `MatchingProps.ResultsShape` | visible_server_python/main.py:286-365  | empty filters give `[]`; otherwise at most six devices, all from the catalog, each passing every test, in non-decreasing price order |
| `MatchingProps.PricesAscendUnpricedLast` | visible_server_python/main.py:360-364 | prices never decrease along the results, and no priced device follows an unpriced one |
| `MatchingProps.ResultSatisfiesFilters` | visible_server_python/main.py:305-358 | each result is in stock unless `in_stock` is falsy (absent counts as true); it contains a brand term in its brand or title; its condition, colour and size equal the filter's; its category blob contains the category; it has a price within `max_price` |
| `MatchingProps.BrandTermsShape` | visible_server_python/main.py:297-303 | no terms iff no brand filter; otherwise the terms are the brand and its synonym, if it has one |
| `MatchingProps.IphoneAlsoMatchesApple` | visible_server_python/main.py:297-303  | a brand filter of "iphone" also accepts devices whose brand or title says "apple" |
| `MatchingProps.AllMatchesWhenFew` | visible_server_python/main.py:360-365 | when at most six devices pass, all of them are returned |
| `MatchingProps.CheapestKept` | visible_server_python/main.py:360-365 | a passing device that is not returned was cut: there are six results, and none costs more than it |
| `MatchingProps.WithKeyTake` | visible_server_python/main.py:365 | under any one price, the slice keeps a prefix of the devices with that price |
| `MatchingProps.EqualPricesKeepCatalogOrder` | visible_server_python/main.py:311-365 | results with the same price appear in catalog order |
| `MatchingProps.FilterResultsIdempotent` | visible_server_python/main.py:286-365 | filtering the results again with the same filters returns them unchanged |
| `MatchingProps.QueryIgnored` | visible_server_python/main.py:294-310 | adding a `query` entry to non-empty filters does not change the results |
| `Assets.ResolvedAssetBaseUrl` | visible_server_python/main.py:57-69 | the candidates select the first one that is non-blank after stripping, with its trailing `/` removed; when all are blank, the default base |
| `Assets.ResolveAssetBaseUrl` | visible_server_python/main.py:57-69 | the loop with its early return yields `ResolvedAssetBaseUrl`: the base URL is the first candidate that is non-blank after stripping, with its trailing `/` removed; when all are blank it is `http://127.0.0.1:<PORT or 8081>/assets` |
| `Assets.DefaultAssetBaseUrl` | visible_server_python/main.py:52-54 | the fallback base `http://127.0.0.1:<port>/assets`, with port 8081 when `PORT` is unset |
| `Assets.LastSegment` | visible_server_python/main.py:575 | `rsplit("/", 1)[-1]` is a suffix of the URI with no `/`, preceded by a `/` unless it is the whole URI |
| `Assets.WidgetIframeUrl` | visible_server_python/main.py:574-576 | the iframe URL starts with the base and a `/`, and has no `/` after that |
| `Assets.IframeUrlShape` | visible_server_python/main.py:574-576 | the iframe URL is the base, a `/`, and the part of the template URI after its last `/` |
| `Assets.LastSegmentAfterSlash` | visible_server_python/main.py:575 | the segment after a `/` that no other `/` follows is the last segment |
| `Assets.IframeUrlOfTemplate` | visible_server_python/main.py:574-576 | a template URI `<prefix>/<file>`, where the file has no `/`, is served as `<base>/<file>` |
| `Assets.FilterWidgetIframeUrl` | visible_server_python/main.py:574-576  | the filter widget `ui://widget/visible-filter-devices.html` is served as `<base>/visible-filter-devices.html` |
| `Tool.BaseMaxPrice` | visible_server_python/main.py:379-387  | the coerced arguments never set `in_stock`, and they hold `max_price` iff it was given, as that float |
| `Tool.BaseStringArg` | visible_server_python/main.py:379-387  | a string argument is kept, stripped, iff it is given and does not strip to "", "none" or "null" in any case |
| `Tool.MergePrecedence` | visible_server_python/main.py:393-399 | the merged keys are the inferred, the explicit, the query when non-empty, and `in_stock`; explicit values override inferred ones; the query is copied; `in_stock` defaults to `True` |
| `Tool.MergedDefaults` | visible_server_python/main.py:393-399 | when neither side sets `in_stock` and only the explicit side can set `max_price`, the merge holds `in_stock = True` and the explicit `max_price`, if any |
| `Tool.MergedFiltersDefaults` | visible_server_python/main.py:379-399 | the filters of every call hold `in_stock = True`, and `max_price` iff it was given, as that float, so it is never compared as a string |
| `Tool.ExplicitOverridesInferred` | visible_server_python/main.py:393-395 | for brand, condition, colour and size, an explicit argument that survives coercion wins, stripped; otherwise the inferred value, if any, stays |
| `Tool.MergedKeys` | visible_server_python/main.py:393-399 | the merged map holds only allowed keys and `query`, and `query` is the query when it is non-empty |
| `Tool.ResultsInStock` | visible_server_python/main.py:398-402  | every device the tool returns is from the catalog, is in stock and passes every merged filter |
| `Tool.MergeFilters` | visible_server_python/main.py:393-399 | building `merged_filters` step by step yields the merge of the inferred and explicit filters, with the query and the `in_stock` default |
| `Tool.Merged` | visible_server_python/main.py:393-399 | the merged map always holds `in_stock`, keeps every inferred and explicit key, and holds each explicit value other than `query` unchanged |
| `Tool.FilterDevices` | visible_server_python/main.py:371-443 | the results are `_apply_device_filters` of the merged filters; the response filters are the merged ones plus `sorted_by = "price_asc"` and `limit = 6`; the count is the number of results (at most six); the text is `Found <count> matching devices.`; the iframe URL is `<base>/visible-filter-devices.html` |

## Left out

- Configuration, process wiring and services are left out:
  - environment variables, the dataset path search and JSON loading;
  - `_load_widget_html` and `lru_cache`;
  - logging;
  - the FastMCP and Starlette wiring, CORS, uvicorn and `serve_asset_endpoint`.

  The catalog, the asset-URL candidates, the port and the resolved base URL
  are parameters instead.
- Pydantic validation of the tool input (`FilterDevicesInput`) is left out. `Tool.Args` takes the validated shape: optional strings, and `max_price` as an optional float.
- The MCP result wrapper is left out: `_meta`, the iframe title and height, and `CallToolResult`. `Tool.ToolResponse` keeps the text, the filters, the count, the results and the URL.
- `float(str)` and `str(float)` are host functions passed in as `Values.Floats`. IEEE behaviour (NaN, infinities, rounding) is not modelled: prices and `max_price` are `real`s, and `float("inf")` in the sort key is the unpriced case of the order.
- `Matching.ApplyDeviceFilters`: requires a `max_price` that is not a string, so the string case is not modelled. With a string `max_price`, Python raises TypeError at main.py:354 once a device with a price passes every earlier guard. With an empty catalog, or when only unpriced devices get that far, it returns normally. `Tool.MergedFiltersDefaults` proves that every tool call meets the requires.
- `PyText.Lower`: models `str.lower()` on ASCII letters only. `\d` and `IGNORECASE` in `SIZE_REGEX` are likewise read as ASCII digits and ASCII case.
- `SIZE_REGEX` is not run by a regex engine. A hand-written scanner stands in for it, and `Infer.SizeMatchAtIsRegex` ties the scanner to the pattern.
- The catalog device is reduced to the ten fields the filter reads. `sale_price` and `price` are flattened to their `value` entries, so a price object that is not a dict is not modelled.
- A filter map holds no `None` values. Coercion and inference never store one.
- `filtered.sort` sorts a local list in place. The model sorts values with `PriceSort.SortBy` instead. `PriceSort.StableSortIsSortBy` shows that any stable sort by the same key gives the same list.
- `Coerce.CoerceFilterValues` visits the keys in an arbitrary order rather than dict order. Each key is handled on its own, so the result is the same.
- `async` is not modelled. Nothing in `filter_devices` runs concurrently.
