/**
 * A device record of the catalog, its effective price (`_extract_price_value`)
 * and the table of known colours built from the catalog (`_known_device_colors`).
 */
module Devices {
  import opened Wrappers
  import opened PyText
  import opened Values

  /**
   * The fields of a device record that the filter reads; `None` stands for a
   * missing key or a JSON `null`. `salePrice` and `listPrice` are the `value`
   * entries of the record's `sale_price` and `price` objects.
   */
  datatype Device = Device(
    title: Option<Value>,
    brand: Option<Value>,
    availability: Option<Value>,
    condition: Option<Value>,
    color: Option<Value>,
    size: Option<Value>,
    productCategory: Option<Value>,
    category: Option<Value>,
    salePrice: Option<Value>,
    listPrice: Option<Value>)

  /**
   * The effective price: the sale value when it is truthy, otherwise the list
   * value, converted with `float`; `None` when neither is there or the
   * conversion fails.
   */
  function ExtractPrice(fl: Floats, d: Device): (r: Option<real>)
    ensures Truthy(d.salePrice) ==> r == ToFloat(fl, d.salePrice.value)
    ensures !Truthy(d.salePrice) && d.listPrice.Some? ==> r == ToFloat(fl, d.listPrice.value)
    ensures !Truthy(d.salePrice) && d.listPrice.None? ==> r.None?
  {
    var value := if Truthy(d.salePrice) then d.salePrice else d.listPrice;
    match value
    case None => None
    case Some(v) => ToFloat(fl, v)
  }

  /** A sale value of zero is falsy, so the list price is used instead. */
  lemma ZeroSaleFallsThrough(fl: Floats, d: Device)
    requires d.salePrice == Some(Num(0.0)) || d.salePrice == Some(Int(0))
    ensures ExtractPrice(fl, d) == ExtractPrice(fl, d.(salePrice := None))
    ensures d.listPrice.Some? ==> ExtractPrice(fl, d) == ToFloat(fl, d.listPrice.value)
  {
  }

  /** The sort key of a device: its effective price. */
  function PriceKey(fl: Floats): Device -> Option<real> {
    d => ExtractPrice(fl, d)
  }

  /** `str(device.get("color") or "").strip()`. */
  function ColorOf(fl: Floats, d: Device): string {
    Strip(TextOrEmpty(fl, d.color))
  }

  /** Some entry of the ordered table `t` has key `k` (`k in dict`). */
  predicate HasKey(t: seq<(string, string)>, k: string) {
    exists i :: 0 <= i < |t| && t[i].0 == k
  }

  /**
   * The ordered dict `_known_device_colors` builds: for every colour, lowered,
   * the spelling of the first device that has it, in first-seen order.
   */
  function KnownColors(fl: Floats, ds: seq<Device>): (r: seq<(string, string)>)
    ensures |r| <= |ds|
  {
    if ds == [] then []
    else
      var prev := KnownColors(fl, ds[..|ds| - 1]);
      var color := ColorOf(fl, ds[|ds| - 1]);
      if color == "" || HasKey(prev, Lower(color)) then prev
      else prev + [(Lower(color), color)]
  }

  /** The loop of `_known_device_colors`, over the catalog given as a parameter. */
  method KnownDeviceColors(fl: Floats, dataset: seq<Device>) returns (colors: seq<(string, string)>)
    ensures colors == KnownColors(fl, dataset)
  {
    colors := [];
    for i := 0 to |dataset|
      invariant colors == KnownColors(fl, dataset[..i])
    {
      assert dataset[..i + 1][..i] == dataset[..i];
      var color := ColorOf(fl, dataset[i]);
      if color == "" {
        continue;
      }
      var lowered := Lower(color);
      if !HasKey(colors, lowered) {
        colors := colors + [(lowered, color)];
      }
    }
    assert dataset[..|dataset|] == dataset;
  }

  /** No two entries of the ordered table `t` share a key. */
  predicate DistinctKeys(t: seq<(string, string)>) {
    forall i, j :: 0 <= i < j < |t| ==> t[i].0 != t[j].0
  }

  /** An entry maps a colour, lowered, to its stripped, non-empty spelling. */
  predicate ColorEntry(e: (string, string)) {
    e.1 != "" && e.0 == Lower(e.1) && Strip(e.1) == e.1
  }

  /** Keys are distinct and every entry is a colour spelling under its lowered key. */
  lemma {:induction false} KnownColorsWellFormed(fl: Floats, ds: seq<Device>)
    ensures DistinctKeys(KnownColors(fl, ds))
    ensures forall i :: 0 <= i < |KnownColors(fl, ds)| ==> ColorEntry(KnownColors(fl, ds)[i])
  {
    if ds != [] {
      var prev := KnownColors(fl, ds[..|ds| - 1]);
      KnownColorsWellFormed(fl, ds[..|ds| - 1]);
      var color := ColorOf(fl, ds[|ds| - 1]);
      if color != "" && !HasKey(prev, Lower(color)) {
        var t := prev + [(Lower(color), color)];
        assert KnownColors(fl, ds) == t;
        StripIdempotent(TextOrEmpty(fl, ds[|ds| - 1].color));
        assert ColorEntry(t[|prev|]);
        forall i, j | 0 <= i < j < |t| ensures t[i].0 != t[j].0 {
          if j == |prev| {
            assert t[i] == prev[i];
          }
        }
      }
    }
  }

  /** Scanning one more device keeps every key already in the table. */
  lemma KnownColorsKeepKey(fl: Floats, ds: seq<Device>, key: string)
    requires ds != [] && HasKey(KnownColors(fl, ds[..|ds| - 1]), key)
    ensures HasKey(KnownColors(fl, ds), key)
  {
    var prev := KnownColors(fl, ds[..|ds| - 1]);
    var k :| 0 <= k < |prev| && prev[k].0 == key;
    assert KnownColors(fl, ds)[k] == prev[k];
  }

  /** After scanning a device with a colour, that colour, lowered, is a key. */
  lemma KnownColorsHaveLast(fl: Floats, ds: seq<Device>)
    requires ds != [] && ColorOf(fl, ds[|ds| - 1]) != ""
    ensures HasKey(KnownColors(fl, ds), Lower(ColorOf(fl, ds[|ds| - 1])))
  {
    var prev := KnownColors(fl, ds[..|ds| - 1]);
    var key := Lower(ColorOf(fl, ds[|ds| - 1]));
    if HasKey(prev, key) {
      KnownColorsKeepKey(fl, ds, key);
    } else {
      assert KnownColors(fl, ds)[|prev|].0 == key;
    }
  }

  /** Every device with a colour has that colour, lowered, among the keys. */
  lemma {:induction false} KnownColorsComplete(fl: Floats, ds: seq<Device>, i: nat)
    requires i < |ds| && ColorOf(fl, ds[i]) != ""
    ensures HasKey(KnownColors(fl, ds), Lower(ColorOf(fl, ds[i])))
  {
    if i < |ds| - 1 {
      var init := ds[..|ds| - 1];
      assert init[i] == ds[i];
      KnownColorsComplete(fl, init, i);
      KnownColorsKeepKey(fl, ds, Lower(ColorOf(fl, ds[i])));
    } else {
      KnownColorsHaveLast(fl, ds);
    }
  }
}
