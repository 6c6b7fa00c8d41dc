/** `_coerce_filter_values`: raw tool arguments to a clean filter map. */
module Coerce {
  import opened Wrappers
  import opened PyText
  import opened Values

  /** The keys a filter map may hold (`ALLOWED_FILTER_KEYS`). */
  const ALLOWED_FILTER_KEYS: set<string> :=
    {"brand", "max_price", "condition", "color", "size", "category", "in_stock"}

  /** Stripped, lowered strings that count as "no value". */
  const NULLISH: set<string> := {"", "none", "null"}

  /** Stripped, lowered strings that read as a true `in_stock`. */
  const TRUTHY: set<string> := {"true", "1", "yes"}

  /** A string that strips, case-insensitively, to "", "none" or "null". */
  predicate IsNullish(v: Value) {
    v.Str? && Lower(Strip(v.s)) in NULLISH
  }

  /** The value as the coercion goes on with it: strings are stripped first. */
  function Stripped(v: Value): Value {
    if v.Str? then Str(Strip(v.s)) else v
  }

  /** What one argument becomes in the coerced map; `None` drops the key. */
  function CoerceEntry(fl: Floats, key: string, raw: Option<Value>): (r: Option<Value>)
    ensures r.Some? ==> key in ALLOWED_FILTER_KEYS && raw.Some? && !IsNullish(raw.value)
    ensures r.Some? && r.value.Str? ==> r.value.s != "" && Strip(r.value.s) == r.value.s
    ensures key == "max_price" && raw.Some? && !IsNullish(raw.value) ==>
      (r.Some? <==> ToFloat(fl, Stripped(raw.value)).Some?) &&
      (r.Some? ==> r.value == Num(ToFloat(fl, Stripped(raw.value)).value))
    ensures key == "in_stock" && raw.Some? && !IsNullish(raw.value) ==>
      r == Some(if raw.value.Bool? then raw.value
                else Bool(Lower(Strip(Text(fl, Stripped(raw.value)))) in TRUTHY))
    ensures key in ALLOWED_FILTER_KEYS && key != "max_price" && key != "in_stock" &&
            raw.Some? && !IsNullish(raw.value) ==>
      (r.Some? <==> Strip(Text(fl, Stripped(raw.value))) != "") &&
      (r.Some? ==> r.value == Str(Strip(Text(fl, Stripped(raw.value)))))
  {
    if key !in ALLOWED_FILTER_KEYS || raw.None? then None
    else
      var v := raw.value;
      if IsNullish(v) then None
      else
        var value := Stripped(v);
        if key == "max_price" then
          match ToFloat(fl, value)
          case Some(x) => Some(Num(x))
          case None => None
        else if key == "in_stock" then
          Some(if value.Bool? then value else Bool(Lower(Strip(Text(fl, value))) in TRUTHY))
        else
          var text := Strip(Text(fl, value));
          StripIdempotent(Text(fl, value));
          if text == "" then None else Some(Str(text))
  }

  /** The coerced entries for the keys in `keys`. */
  function CoercedOn(fl: Floats, filters: map<string, Option<Value>>, keys: set<string>): map<string, Value> {
    map k | k in keys && k in filters && CoerceEntry(fl, k, filters[k]).Some? :: CoerceEntry(fl, k, filters[k]).value
  }

  /** The map `_coerce_filter_values` returns for `filters`. */
  function Coerced(fl: Floats, filters: map<string, Option<Value>>): map<string, Value> {
    CoercedOn(fl, filters, filters.Keys)
  }

  /**
   * The loop over the arguments. Each key is handled on its own, so the model
   * takes them in an arbitrary order, which covers the dict's order.
   */
  method CoerceFilterValues(fl: Floats, filters: map<string, Option<Value>>) returns (coerced: map<string, Value>)
    ensures coerced == Coerced(fl, filters)
    ensures coerced.Keys <= ALLOWED_FILTER_KEYS && coerced.Keys <= filters.Keys
    ensures forall k :: k in filters && CoerceEntry(fl, k, filters[k]).Some? ==> k in coerced
    ensures forall k :: k in coerced ==> Some(coerced[k]) == CoerceEntry(fl, k, filters[k])
    ensures |filters| == 0 ==> coerced == map[]
  {
    coerced := map[];
    if |filters| == 0 {
      return;
    }
    var remaining := filters.Keys;
    while remaining != {}
      invariant remaining <= filters.Keys
      invariant coerced == CoercedOn(fl, filters, filters.Keys - remaining)
      decreases remaining
    {
      var key :| key in remaining;
      var entry := CoerceEntry(fl, key, filters[key]);
      if entry.Some? {
        coerced := coerced[key := entry.value];
      }
      remaining := remaining - {key};
    }
  }
}
