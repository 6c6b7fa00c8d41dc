/**
 * `_infer_filters_from_query`: colour, storage size, condition and brand
 * guessed from a free-text query.
 */
module Infer {
  import opened Wrappers
  import opened PyText
  import opened Values
  import opened Coerce
  import opened Devices

  /** `BRAND_KEYWORDS`, in the dict's order. */
  const BRAND_KEYWORDS: seq<(string, string)> := [
    ("iphone", "Apple"), ("iphones", "Apple"), ("apple", "Apple"),
    ("pixel", "Google"), ("google", "Google"),
    ("galaxy", "Samsung"), ("samsung", "Samsung"),
    ("motorola", "Motorola"), ("moto", "Motorola"),
    ("oneplus", "OnePlus"), ("nokia", "Nokia"),
    ("sony", "Sony"), ("xperia", "Sony")]

  /** `CONDITION_KEYWORDS`, in the dict's order. */
  const CONDITION_KEYWORDS: seq<(string, string)> := [
    ("pre-owned", "used"), ("preowned", "used"), ("refurb", "used"),
    ("refurbished", "used"), ("used", "used"), ("new", "new")]

  /** The unit alternatives of `SIZE_REGEX`, in the pattern's order. */
  const SIZE_UNITS: seq<string> := ["gb", "g", "gig", "gigabyte", "gigabytes"]

  /** A table key that fires on the lowered query: non-empty and a substring of it. */
  predicate Hit(key: string, q: string) {
    key != "" && Contains(q, key)
  }

  /** The index of the first entry, in table order, whose key fires on `q`. */
  function FirstMatch(table: seq<(string, string)>, q: string): (r: Option<nat>)
    ensures r.Some? ==> r.value < |table| && Hit(table[r.value].0, q)
    ensures r.Some? ==> forall j :: 0 <= j < r.value ==> !Hit(table[j].0, q)
    ensures r.None? ==> forall j :: 0 <= j < |table| ==> !Hit(table[j].0, q)
  {
    if table == [] then None
    else if Hit(table[0].0, q) then Some(0)
    else
      match FirstMatch(table[1..], q)
      case None => None
      case Some(i) => Some(i + 1)
  }

  /** The value of the first entry that fires on `q`. */
  function Found(table: seq<(string, string)>, q: string): Option<string> {
    match FirstMatch(table, q)
    case None => None
    case Some(i) => Some(table[i].1)
  }

  /** The first entry that fires, found by a scan in table order, is the one `FirstMatch` names. */
  lemma FirstMatchAt(table: seq<(string, string)>, q: string, i: nat)
    requires i < |table| && Hit(table[i].0, q)
    requires forall j :: 0 <= j < i ==> !Hit(table[j].0, q)
    ensures Found(table, q) == Some(table[i].1)
  {
  }

  /** A scan that reaches the end of the table without a hit finds nothing. */
  lemma FirstMatchNone(table: seq<(string, string)>, q: string)
    requires forall j :: 0 <= j < |table| ==> !Hit(table[j].0, q)
    ensures Found(table, q) == None
  {
  }

  // ---------------------------------------------------------------------------
  // SIZE_REGEX = (\d+)\s*(gb|g|gig|gigabyte|gigabytes), case-insensitive

  /** The end of the run of digits that starts at `i`. */
  function DigitRunEnd(s: string, i: nat): (j: nat)
    requires i <= |s|
    ensures i <= j <= |s|
    ensures forall k :: i <= k < j ==> IsDigit(s[k])
    ensures j == |s| || !IsDigit(s[j])
    decreases |s| - i
  {
    if i < |s| && IsDigit(s[i]) then DigitRunEnd(s, i + 1) else i
  }

  /** The end of the run of blanks that starts at `i`. */
  function SpaceRunEnd(s: string, i: nat): (j: nat)
    requires i <= |s|
    ensures i <= j <= |s|
    ensures forall k :: i <= k < j ==> IsSpace(s[k])
    ensures j == |s| || !IsSpace(s[j])
    decreases |s| - i
  {
    if i < |s| && IsSpace(s[i]) then SpaceRunEnd(s, i + 1) else i
  }

  /** `w` (lower-case) occurs at `k` in `s`, ignoring case. */
  predicate WordAtIgnoreCase(s: string, k: nat, w: string) {
    k + |w| <= |s| && forall m :: 0 <= m < |w| ==> LowerChar(s[k + m]) == w[m]
  }

  /** One of the unit alternatives occurs at `k`. */
  predicate UnitAt(s: string, k: nat) {
    exists u :: 0 <= u < |SIZE_UNITS| && WordAtIgnoreCase(s, k, SIZE_UNITS[u])
  }

  /** The pattern matches `s[i..]` with `\d+` taking `s[i..j]` and `\s*` taking `s[j..k]`. */
  ghost predicate RegexMatchAt(s: string, i: nat, j: nat, k: nat) {
    i < j <= k <= |s| &&
    (forall m :: i <= m < j ==> IsDigit(s[m])) &&
    (forall m :: j <= m < k ==> IsSpace(s[m])) &&
    UnitAt(s, k)
  }

  /** The scanner's test at `i`: digits, then blanks, then a `g`. */
  predicate SizeMatchAt(s: string, i: nat) {
    i < |s| && IsDigit(s[i]) &&
    var k := SpaceRunEnd(s, DigitRunEnd(s, i));
    k < |s| && LowerChar(s[k]) == 'g'
  }

  /** Every unit starts with `g` and `g` is one of them, so a unit occurs exactly where a `g` does. */
  lemma UnitAtIsG(s: string, k: nat)
    ensures UnitAt(s, k) <==> k < |s| && LowerChar(s[k]) == 'g'
  {
    if k < |s| && LowerChar(s[k]) == 'g' {
      assert WordAtIgnoreCase(s, k, SIZE_UNITS[1]);
    }
    if UnitAt(s, k) {
      var u :| 0 <= u < |SIZE_UNITS| && WordAtIgnoreCase(s, k, SIZE_UNITS[u]);
      assert SIZE_UNITS[u][0] == 'g';
    }
  }

  /** A digit is neither a blank nor a `g` in either case. */
  lemma DigitIsNotSeparator(c: char)
    ensures IsDigit(c) ==> !IsSpace(c) && LowerChar(c) != 'g'
  {
  }

  /** A blank does not lower to `g`. */
  lemma BlankIsNotG(c: char)
    ensures IsSpace(c) ==> LowerChar(c) != 'g'
  {
  }

  /**
   * The scanner agrees with the pattern: it matches at `i` exactly when some
   * split of digits, blanks and unit does, and then the digits are the whole
   * run that greedy `\d+` takes.
   */
  lemma SizeMatchAtIsRegex(s: string, i: nat)
    ensures SizeMatchAt(s, i) <==> exists j: nat, k: nat :: RegexMatchAt(s, i, j, k)
    ensures forall j: nat, k: nat :: RegexMatchAt(s, i, j, k) ==> j == DigitRunEnd(s, i)
  {
    forall j: nat, k: nat | RegexMatchAt(s, i, j, k)
      ensures j == DigitRunEnd(s, i) && k == SpaceRunEnd(s, j) && SizeMatchAt(s, i)
    {
      UnitAtIsG(s, k);
      if j < |s| {
        DigitIsNotSeparator(s[j]);
      }
      BlankIsNotG(s[k]);
    }
    if SizeMatchAt(s, i) {
      var j := DigitRunEnd(s, i);
      var k := SpaceRunEnd(s, j);
      UnitAtIsG(s, k);
      assert RegexMatchAt(s, i, j, k);
    }
  }

  /** `SIZE_REGEX.search(s)` from `from` on: the leftmost start of a match. */
  function SearchSize(s: string, from: nat): (r: Option<nat>)
    requires from <= |s|
    ensures r.Some? ==> from <= r.value < |s| && SizeMatchAt(s, r.value)
    ensures r.Some? ==> forall i :: from <= i < r.value ==> !SizeMatchAt(s, i)
    ensures r.None? ==> forall i :: from <= i < |s| ==> !SizeMatchAt(s, i)
    decreases |s| - from
  {
    if from == |s| then None
    else if SizeMatchAt(s, from) then Some(from)
    else SearchSize(s, from + 1)
  }

  /** The size the query names: group 1 of the leftmost match followed by " GB". */
  function SizeInQuery(q: string): (r: Option<string>)
    ensures r.Some? ==> |r.value| >= 4 && r.value[|r.value| - 3..] == " GB"
    ensures r.Some? ==> forall k :: 0 <= k < |r.value| - 3 ==> IsDigit(r.value[k])
  {
    match SearchSize(q, 0)
    case None => None
    case Some(i) => Some(q[i..DigitRunEnd(q, i)] + " GB")
  }

  // ---------------------------------------------------------------------------
  // The inferred filter map

  /** `m` with `key` set to the found value, if one was found. */
  function SetFound(m: map<string, Value>, key: string, found: Option<string>): map<string, Value> {
    match found
    case None => m
    case Some(v) => m[key := Str(v)]
  }

  /** The `inferred` dict before cleaning, for the lowered query `q` and the two keyword tables. */
  function RawInferredWith(q: string, colors: seq<(string, string)>,
                           conditions: seq<(string, string)>, brands: seq<(string, string)>): map<string, Value> {
    var withColor := SetFound(map[], "color", Found(colors, q));
    var withSize := SetFound(withColor, "size", SizeInQuery(q));
    var withCondition := SetFound(withSize, "condition", Found(conditions, q));
    SetFound(withCondition, "brand", Found(brands, q))
  }

  /** The `inferred` dict before cleaning, with the module's keyword tables. */
  function RawInferred(q: string, colors: seq<(string, string)>): map<string, Value> {
    RawInferredWith(q, colors, CONDITION_KEYWORDS, BRAND_KEYWORDS)
  }

  /** The final comprehension: allowed keys whose value is not empty. */
  function Cleaned(m: map<string, Value>): (r: map<string, Value>)
    ensures r.Keys <= m.Keys && r.Keys <= ALLOWED_FILTER_KEYS
    ensures forall k :: k in r ==> r[k] == m[k] && r[k] != Str("")
    ensures forall k :: k in m && k in ALLOWED_FILTER_KEYS && m[k] != Str("") ==> k in r
  {
    map k | k in m && k in ALLOWED_FILTER_KEYS && m[k] != Str("") :: m[k]
  }

  /** The map `_infer_filters_from_query` returns, given the known colours table. */
  function InferredFilters(query: Option<string>, colors: seq<(string, string)>): (r: map<string, Value>)
    ensures query.None? || query.value == "" ==> r == map[]
    ensures r.Keys <= ALLOWED_FILTER_KEYS && forall k :: k in r ==> r[k] != Str("")
  {
    if query.None? || query.value == "" then map[]
    else Cleaned(RawInferred(Lower(query.value), colors))
  }

  /**
   * One first-match loop with `break`: the value of the first entry whose key
   * is non-empty and occurs in the lowered query. The colour loop tests both
   * halves; the keyword loops test only `keyword in normalized`, which is the
   * same test because no keyword is empty.
   */
  method FirstHit(table: seq<(string, string)>, normalized: string) returns (found: Option<string>)
    ensures found == Found(table, normalized)
  {
    found := None;
    for i := 0 to |table|
      invariant found == None
      invariant forall j :: 0 <= j < i ==> !Hit(table[j].0, normalized)
    {
      var (key, value) := table[i];
      if key != "" && Contains(normalized, key) {
        FirstMatchAt(table, normalized, i);
        found := Some(value);
        break;
      }
    }
    if found.None? {
      FirstMatchNone(table, normalized);
    }
  }

  /** `if found: inferred[key] = found`. */
  method Put(inferred: map<string, Value>, key: string, found: Option<string>)
    returns (r: map<string, Value>)
    ensures r == SetFound(inferred, key, found)
  {
    r := inferred;
    if found.Some? {
      r := inferred[key := Str(found.value)];
    }
  }

  /** The body of `_infer_filters_from_query` after the empty-query test, over any keyword tables. */
  method InferFromLowered(normalized: string, colors: seq<(string, string)>,
                          conditions: seq<(string, string)>, brands: seq<(string, string)>)
    returns (cleaned: map<string, Value>)
    ensures cleaned == Cleaned(RawInferredWith(normalized, colors, conditions, brands))
  {
    var inferred: map<string, Value> := map[];

    var color := FirstHit(colors, normalized);
    inferred := Put(inferred, "color", color);

    var sizeMatch := SearchSize(normalized, 0);
    var size := None;
    if sizeMatch.Some? {
      var start := sizeMatch.value;
      size := Some(normalized[start..DigitRunEnd(normalized, start)] + " GB");
    }
    inferred := Put(inferred, "size", size);

    var condition := FirstHit(conditions, normalized);
    inferred := Put(inferred, "condition", condition);

    var brand := FirstHit(brands, normalized);
    inferred := Put(inferred, "brand", brand);

    cleaned := Cleaned(inferred);
  }

  /** The empty-query test, the lowering and the module's keyword tables. */
  method InferFiltersFromQuery(query: Option<string>, colors: seq<(string, string)>)
    returns (cleaned: map<string, Value>)
    ensures cleaned == InferredFilters(query, colors)
  {
    if query.None? || query.value == "" {
      return map[];
    }
    cleaned := InferFromLowered(Lower(query.value), colors, CONDITION_KEYWORDS, BRAND_KEYWORDS);
  }
}
