/** What `_infer_filters_from_query` promises about the map it returns. */
module InferProps {
  import opened Wrappers
  import opened PyText
  import opened Values
  import opened Coerce
  import opened Devices
  import opened Infer

  /** The first entry of `table`, in order, whose key fires on `q` is entry `j`. */
  ghost predicate FirstHitAt(table: seq<(string, string)>, q: string, j: int) {
    0 <= j < |table| && Hit(table[j].0, q) &&
    forall i :: 0 <= i < j ==> !Hit(table[i].0, q)
  }

  /** `Found` is first-match-wins: nothing when no key fires, else the first firing entry's value. */
  lemma FoundIsFirstHit(table: seq<(string, string)>, q: string)
    ensures Found(table, q).None? <==> forall j :: 0 <= j < |table| ==> !Hit(table[j].0, q)
    ensures Found(table, q).Some? ==>
      exists j :: FirstHitAt(table, q, j) && Found(table, q) == Some(table[j].1)
  {
    if Found(table, q).Some? {
      var j := FirstMatch(table, q).value;
      assert FirstHitAt(table, q, j);
    }
  }

  /** A table grown by one entry: an earlier hit still wins, else the new entry decides. */
  lemma FoundAppend(t: seq<(string, string)>, e: (string, string), q: string)
    ensures Found(t + [e], q) ==
      if Found(t, q).Some? then Found(t, q)
      else if Hit(e.0, q) then Some(e.1)
      else None
  {
    var u := t + [e];
    if Found(t, q).Some? {
      var j := FirstMatch(t, q).value;
      assert u[j] == t[j];
      forall i | 0 <= i < j ensures !Hit(u[i].0, q) {
        assert u[i] == t[i];
      }
      FirstMatchAt(u, q, j);
    } else {
      forall i | 0 <= i < |t| ensures !Hit(u[i].0, q) {
        assert u[i] == t[i];
      }
      if Hit(e.0, q) {
        FirstMatchAt(u, q, |t|);
      } else {
        FirstMatchNone(u, q);
      }
    }
  }

  // ---------------------------------------------------------------------------
  // The four entries of the inferred map

  /** The keys `_infer_filters_from_query` can set. */
  const INFERRED_KEYS: set<string> := {"color", "size", "condition", "brand"}

  /** Each key of the raw map holds exactly what its step found; no other key is set. */
  lemma RawInferredEntries(q: string, colors: seq<(string, string)>)
    ensures RawInferred(q, colors).Keys <= INFERRED_KEYS
    ensures "color" in RawInferred(q, colors) <==> Found(colors, q).Some?
    ensures "color" in RawInferred(q, colors) ==> RawInferred(q, colors)["color"] == Str(Found(colors, q).value)
    ensures "size" in RawInferred(q, colors) <==> SizeInQuery(q).Some?
    ensures "size" in RawInferred(q, colors) ==> RawInferred(q, colors)["size"] == Str(SizeInQuery(q).value)
    ensures "condition" in RawInferred(q, colors) <==> Found(CONDITION_KEYWORDS, q).Some?
    ensures "condition" in RawInferred(q, colors) ==>
      RawInferred(q, colors)["condition"] == Str(Found(CONDITION_KEYWORDS, q).value)
    ensures "brand" in RawInferred(q, colors) <==> Found(BRAND_KEYWORDS, q).Some?
    ensures "brand" in RawInferred(q, colors) ==> RawInferred(q, colors)["brand"] == Str(Found(BRAND_KEYWORDS, q).value)
  {
  }

  /** An empty or absent query infers nothing; otherwise every key is an inferred key holding a non-empty string. */
  lemma InferredShape(query: Option<string>, colors: seq<(string, string)>)
    ensures query.None? || query.value == "" ==> InferredFilters(query, colors) == map[]
    ensures InferredFilters(query, colors).Keys <= INFERRED_KEYS
    ensures InferredFilters(query, colors).Keys <= ALLOWED_FILTER_KEYS
    ensures forall k :: k in InferredFilters(query, colors) ==>
      InferredFilters(query, colors)[k].Str? && InferredFilters(query, colors)[k].s != ""
  {
    if query.Some? && query.value != "" {
      RawInferredEntries(Lower(query.value), colors);
    }
  }

  /** The kept entry for `key`: cleaning drops only an empty string. */
  lemma CleanedKeeps(query: Option<string>, colors: seq<(string, string)>, key: string)
    requires query.Some? && query.value != "" && key in INFERRED_KEYS
    ensures key in InferredFilters(query, colors) <==>
      key in RawInferred(Lower(query.value), colors) && RawInferred(Lower(query.value), colors)[key] != Str("")
    ensures key in InferredFilters(query, colors) ==>
      InferredFilters(query, colors)[key] == RawInferred(Lower(query.value), colors)[key]
  {
  }

  /**
   * Condition: set exactly when some `CONDITION_KEYWORDS` key occurs in the
   * lowered query, to the value of the first such key in table order, so it
   * is always "used" or "new".
   */
  lemma InferredCondition(query: Option<string>, colors: seq<(string, string)>)
    requires query.Some? && query.value != ""
    ensures "condition" in InferredFilters(query, colors) <==>
      exists j :: 0 <= j < |CONDITION_KEYWORDS| && Hit(CONDITION_KEYWORDS[j].0, Lower(query.value))
    ensures "condition" in InferredFilters(query, colors) ==>
      exists j :: FirstHitAt(CONDITION_KEYWORDS, Lower(query.value), j) &&
        InferredFilters(query, colors)["condition"] == Str(CONDITION_KEYWORDS[j].1)
    ensures "condition" in InferredFilters(query, colors) ==>
      InferredFilters(query, colors)["condition"] in {Str("used"), Str("new")}
  {
    var q := Lower(query.value);
    RawInferredEntries(q, colors);
    CleanedKeeps(query, colors, "condition");
    FoundIsFirstHit(CONDITION_KEYWORDS, q);
  }

  /**
   * Brand: set exactly when some `BRAND_KEYWORDS` key occurs in the lowered
   * query, to the value of the first such key in table order.
   */
  lemma InferredBrand(query: Option<string>, colors: seq<(string, string)>)
    requires query.Some? && query.value != ""
    ensures "brand" in InferredFilters(query, colors) <==>
      exists j :: 0 <= j < |BRAND_KEYWORDS| && Hit(BRAND_KEYWORDS[j].0, Lower(query.value))
    ensures "brand" in InferredFilters(query, colors) ==>
      exists j :: FirstHitAt(BRAND_KEYWORDS, Lower(query.value), j) &&
        InferredFilters(query, colors)["brand"] == Str(BRAND_KEYWORDS[j].1)
  {
    var q := Lower(query.value);
    RawInferredEntries(q, colors);
    CleanedKeeps(query, colors, "brand");
    FoundIsFirstHit(BRAND_KEYWORDS, q);
  }

  /** "iphone" is the first brand keyword, so a query naming it infers Apple. */
  lemma IphoneMeansApple(query: Option<string>, colors: seq<(string, string)>)
    requires query.Some? && Contains(Lower(query.value), "iphone")
    ensures "brand" in InferredFilters(query, colors)
    ensures InferredFilters(query, colors)["brand"] == Str("Apple")
  {
    var q := Lower(query.value);
    assert query.value != "";
    FirstMatchAt(BRAND_KEYWORDS, q, 0);
    RawInferredEntries(q, colors);
    CleanedKeeps(query, colors, "brand");
  }

  /** With no scanner match anywhere, the pattern matches nowhere. */
  lemma NoSizeMatch(q: string)
    requires SearchSize(q, 0).None?
    ensures forall i: nat, j: nat, k: nat :: !RegexMatchAt(q, i, j, k)
  {
    forall i: nat, j: nat, k: nat ensures !RegexMatchAt(q, i, j, k) {
      if i < |q| {
        SizeMatchAtIsRegex(q, i);
      }
    }
  }

  /** The scanner's leftmost match is the pattern's leftmost match, and the size is its digits. */
  lemma LeftmostSizeMatch(q: string)
    requires SearchSize(q, 0).Some?
    ensures exists i: nat, j: nat, k: nat :: (RegexMatchAt(q, i, j, k) &&
      (forall i': nat, j': nat, k': nat :: i' < i ==> !RegexMatchAt(q, i', j', k')) &&
      SizeInQuery(q) == Some(q[i..j] + " GB"))
  {
    var i := SearchSize(q, 0).value;
    SizeMatchAtIsRegex(q, i);
    var j := DigitRunEnd(q, i);
    var k := SpaceRunEnd(q, j);
    UnitAtIsG(q, k);
    assert RegexMatchAt(q, i, j, k);
    forall i': nat, j': nat, k': nat | i' < i ensures !RegexMatchAt(q, i', j', k') {
      SizeMatchAtIsRegex(q, i');
    }
  }

  /** `SizeInQuery` is `SIZE_REGEX.search`: a size exactly when the pattern matches, from the leftmost match. */
  lemma SizeInQueryIsRegex(q: string)
    ensures SizeInQuery(q).Some? <==> exists i: nat, j: nat, k: nat :: RegexMatchAt(q, i, j, k)
    ensures SizeInQuery(q).Some? ==>
      exists i: nat, j: nat, k: nat :: RegexMatchAt(q, i, j, k) &&
        (forall i': nat, j': nat, k': nat :: i' < i ==> !RegexMatchAt(q, i', j', k')) &&
        SizeInQuery(q) == Some(q[i..j] + " GB")
  {
    if SearchSize(q, 0).None? {
      NoSizeMatch(q);
    } else {
      LeftmostSizeMatch(q);
    }
  }

  /**
   * Size: set exactly when `SIZE_REGEX` matches the lowered query, to the
   * digits of the leftmost match followed by " GB".
   */
  lemma InferredSize(query: Option<string>, colors: seq<(string, string)>)
    requires query.Some? && query.value != ""
    ensures "size" in InferredFilters(query, colors) <==>
      exists i: nat, j: nat, k: nat :: RegexMatchAt(Lower(query.value), i, j, k)
    ensures "size" in InferredFilters(query, colors) ==>
      exists i: nat, j: nat, k: nat :: RegexMatchAt(Lower(query.value), i, j, k) &&
        (forall i': nat, j': nat, k': nat :: i' < i ==> !RegexMatchAt(Lower(query.value), i', j', k')) &&
        InferredFilters(query, colors)["size"] == Str(Lower(query.value)[i..j] + " GB")
  {
    var q := Lower(query.value);
    RawInferredEntries(q, colors);
    CleanedKeeps(query, colors, "size");
    SizeInQueryIsRegex(q);
  }

  // ---------------------------------------------------------------------------
  // The inferred colour and the catalog it comes from

  /** The device's colour, lowered, occurs in the lowered query. */
  predicate ColorHit(fl: Floats, d: Device, q: string) {
    Hit(Lower(ColorOf(fl, d)), q)
  }

  /** Device `i` is the first of `ds`, in catalog order, whose colour occurs in `q`. */
  ghost predicate FirstColorDevice(fl: Floats, ds: seq<Device>, q: string, i: int) {
    0 <= i < |ds| && ColorHit(fl, ds[i], q) &&
    forall j :: 0 <= j < i ==> !ColorHit(fl, ds[j], q)
  }

  /** One more device: an earlier colour still wins, else the new device's colour decides. */
  lemma FoundKnownColorsStep(fl: Floats, ds: seq<Device>, q: string)
    requires ds != []
    ensures Found(KnownColors(fl, ds), q) ==
      if Found(KnownColors(fl, ds[..|ds| - 1]), q).Some? then Found(KnownColors(fl, ds[..|ds| - 1]), q)
      else if ColorHit(fl, ds[|ds| - 1], q) then Some(ColorOf(fl, ds[|ds| - 1]))
      else None
  {
    var t := KnownColors(fl, ds[..|ds| - 1]);
    var c := ColorOf(fl, ds[|ds| - 1]);
    if c != "" && !HasKey(t, Lower(c)) {
      assert KnownColors(fl, ds) == t + [(Lower(c), c)];
      FoundAppend(t, (Lower(c), c), q);
    } else if Found(t, q).None? && c != "" {
      var k :| 0 <= k < |t| && t[k].0 == Lower(c);
      FoundIsFirstHit(t, q);
      assert !Hit(t[k].0, q);
    }
  }

  /** The index of the first element of `s` that satisfies `p`. */
  function FirstWhere<T>(p: T -> bool, s: seq<T>): (r: Option<nat>)
    ensures r.Some? ==> r.value < |s| && p(s[r.value]) && forall j :: 0 <= j < r.value ==> !p(s[j])
    ensures r.None? ==> forall i :: 0 <= i < |s| ==> !p(s[i])
  {
    if s == [] then None
    else
      var n := |s| - 1;
      assert forall i :: 0 <= i < n ==> s[..n][i] == s[i];
      match FirstWhere(p, s[..n])
      case Some(i) => Some(i)
      case None => if p(s[n]) then Some(n) else None
  }

  /** `Hit` on an entry's key for a fixed query, as a test on table entries. */
  function EntryHits(q: string): ((string, string)) -> bool {
    (e: (string, string)) => Hit(e.0, q)
  }

  /** `FirstMatch` is `FirstWhere` with the key test: both name the first entry that fires. */
  lemma FirstMatchIsFirstWhere(table: seq<(string, string)>, q: string)
    ensures FirstMatch(table, q) == FirstWhere(EntryHits(q), table)
  {
    var p := EntryHits(q);
    assert forall j :: 0 <= j < |table| ==> (p(table[j]) <==> Hit(table[j].0, q));
  }

  /** `ColorHit` for a fixed query, as a test on devices. */
  function ColorHits(fl: Floats, q: string): Device -> bool {
    d => ColorHit(fl, d, q)
  }

  /** The index of the first device of `ds`, in catalog order, whose colour occurs in `q`. */
  function FirstColorIndex(fl: Floats, ds: seq<Device>, q: string): Option<nat> {
    FirstWhere(ColorHits(fl, q), ds)
  }

  /**
   * The colour loop over the known-colours table finds the spelling of the
   * first device, in catalog order, whose colour occurs in the query, and
   * nothing when there is none.
   */
  lemma {:induction false} FoundKnownColor(fl: Floats, ds: seq<Device>, q: string)
    ensures Found(KnownColors(fl, ds), q) ==
      match FirstColorIndex(fl, ds, q)
      case None => None
      case Some(i) => Some(ColorOf(fl, ds[i]))
  {
    if ds != [] {
      var n := |ds| - 1;
      FoundKnownColor(fl, ds[..n], q);
      FoundKnownColorsStep(fl, ds, q);
      match FirstColorIndex(fl, ds[..n], q)
      case Some(i) =>
        assert ds[..n][i] == ds[i];
      case None =>
    }
  }

  /**
   * Colour, with the table `_known_device_colors` builds from the catalog:
   * set exactly when some device's colour, lowered, occurs in the lowered
   * query, to the spelling of the first such device in catalog order.
   */
  lemma InferredColor(fl: Floats, ds: seq<Device>, query: Option<string>)
    requires query.Some? && query.value != ""
    ensures "color" in InferredFilters(query, KnownColors(fl, ds)) <==>
      exists i :: 0 <= i < |ds| && ColorHit(fl, ds[i], Lower(query.value))
    ensures "color" in InferredFilters(query, KnownColors(fl, ds)) ==>
      exists i :: FirstColorDevice(fl, ds, Lower(query.value), i) &&
        InferredFilters(query, KnownColors(fl, ds))["color"] == Str(ColorOf(fl, ds[i]))
  {
    var q := Lower(query.value);
    var colors := KnownColors(fl, ds);
    FoundKnownColor(fl, ds, q);
    RawInferredEntries(q, colors);
    CleanedKeeps(query, colors, "color");
    match FirstColorIndex(fl, ds, q)
    case None =>
    case Some(i) =>
      assert ColorHits(fl, q)(ds[i]);
      assert ColorOf(fl, ds[i]) != "";
      assert FirstColorDevice(fl, ds, q, i);
  }
}
