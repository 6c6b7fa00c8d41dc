/**
 * Where the widget's assets are served from: `_resolve_asset_base_url`,
 * `_default_asset_base_url` and `_widget_iframe_url`. The environment
 * variables they read are parameters.
 */
module Assets {
  import opened Wrappers
  import opened PyText

  /** `f"http://127.0.0.1:{port}/assets"` with `port = os.environ.get("PORT", "8081")`. */
  function DefaultAssetBaseUrl(port: Option<string>): string {
    "http://127.0.0.1:" + port.GetOr("8081") + "/assets"
  }

  /** `(candidate or "").strip()`. */
  function CandidateValue(candidate: Option<string>): string {
    Strip(candidate.GetOr(""))
  }

  /** Candidate `i` is the first one that is not blank. */
  ghost predicate FirstSetCandidate(candidates: seq<Option<string>>, i: int) {
    0 <= i < |candidates| && CandidateValue(candidates[i]) != "" &&
    forall j :: 0 <= j < i ==> CandidateValue(candidates[j]) == ""
  }

  /**
   * The base URL the candidates select: the first one that is not blank,
   * stripped and without its trailing slashes, or the default when all are.
   */
  function ResolvedAssetBaseUrl(candidates: seq<Option<string>>, port: Option<string>): (r: string)
    ensures forall i :: FirstSetCandidate(candidates, i) ==> r == TrimTrailingSlashes(CandidateValue(candidates[i]))
    ensures (forall i :: 0 <= i < |candidates| ==> CandidateValue(candidates[i]) == "") ==>
      r == DefaultAssetBaseUrl(port)
  {
    if candidates == [] then DefaultAssetBaseUrl(port)
    else if CandidateValue(candidates[0]) != "" then TrimTrailingSlashes(CandidateValue(candidates[0]))
    else
      var rest := candidates[1..];
      assert forall i :: 1 <= i < |candidates| ==> candidates[i] == rest[i - 1];
      assert forall i :: FirstSetCandidate(candidates, i) ==> i > 0 && FirstSetCandidate(rest, i - 1);
      ResolvedAssetBaseUrl(rest, port)
  }

  /**
   * The loop over the five environment candidates (`VISIBLE_WIDGET_BASE_URL`,
   * `VISIBLE_ASSET_BASE_URL`, `WIDGET_BASE_URL`, `ASSET_BASE_URL`,
   * `BASE_URL`, in that order) with its early return, and the fallback.
   */
  method ResolveAssetBaseUrl(candidates: seq<Option<string>>, port: Option<string>) returns (url: string)
    ensures url == ResolvedAssetBaseUrl(candidates, port)
    ensures forall i :: FirstSetCandidate(candidates, i) ==> url == TrimTrailingSlashes(CandidateValue(candidates[i]))
    ensures (forall i :: 0 <= i < |candidates| ==> CandidateValue(candidates[i]) == "") ==>
      url == DefaultAssetBaseUrl(port)
  {
    for i := 0 to |candidates|
      invariant ResolvedAssetBaseUrl(candidates[i..], port) == ResolvedAssetBaseUrl(candidates, port)
    {
      var value := Strip(candidates[i].GetOr(""));
      if value != "" {
        return TrimTrailingSlashes(value);
      }
      assert candidates[i..][1..] == candidates[i + 1..];
    }
    return DefaultAssetBaseUrl(port);
  }

  /** The part of `s` after its last `/`; all of `s` when it has none (`s.rsplit("/", 1)[-1]`). */
  function LastSegment(s: string): (r: string)
    ensures |r| <= |s| && r == s[|s| - |r|..]
    ensures forall i :: 0 <= i < |r| ==> r[i] != '/'
    ensures |r| < |s| ==> s[|s| - |r| - 1] == '/'
  {
    if s == [] || s[|s| - 1] == '/' then []
    else LastSegment(s[..|s| - 1]) + [s[|s| - 1]]
  }

  /** `f"{ASSET_BASE_URL}/{html_file}"`. */
  function WidgetIframeUrl(assetBaseUrl: string, templateUri: string): (r: string)
    ensures |r| > |assetBaseUrl| && r[..|assetBaseUrl| + 1] == assetBaseUrl + "/"
    ensures forall i :: |assetBaseUrl| < i < |r| ==> r[i] != '/'
  {
    assetBaseUrl + "/" + LastSegment(templateUri)
  }

  /**
   * The iframe URL is the base, a `/`, and a file name with no `/` that ends
   * the template URI and is preceded there by a `/` unless it is all of it.
   */
  lemma IframeUrlShape(assetBaseUrl: string, templateUri: string)
    ensures exists file: string ::
      WidgetIframeUrl(assetBaseUrl, templateUri) == assetBaseUrl + "/" + file &&
      (forall i :: 0 <= i < |file| ==> file[i] != '/') &&
      |file| <= |templateUri| && templateUri[|templateUri| - |file|..] == file &&
      (|file| < |templateUri| ==> templateUri[|templateUri| - |file| - 1] == '/')
  {
    var file := LastSegment(templateUri);
    assert WidgetIframeUrl(assetBaseUrl, templateUri) == assetBaseUrl + "/" + file;
  }

  /** The segment after a `/` that is followed by no other `/`. */
  lemma {:induction false} LastSegmentAfterSlash(prefix: string, file: string)
    requires forall i :: 0 <= i < |file| ==> file[i] != '/'
    ensures LastSegment(prefix + "/" + file) == file
  {
    if file != [] {
      var init := file[..|file| - 1];
      LastSegmentAfterSlash(prefix, init);
      assert (prefix + "/" + file)[..|prefix + "/" + file| - 1] == prefix + "/" + init;
      assert init + [file[|file| - 1]] == file;
    } else {
      assert prefix + "/" + file == prefix + "/";
    }
  }

  /** A template URI ending in `/` and a plain file name is served as that file under the base. */
  lemma IframeUrlOfTemplate(assetBaseUrl: string, prefix: string, file: string)
    requires forall i :: 0 <= i < |file| ==> file[i] != '/'
    ensures WidgetIframeUrl(assetBaseUrl, prefix + "/" + file) == assetBaseUrl + "/" + file
  {
    LastSegmentAfterSlash(prefix, file);
  }

  /** The html file of the filter widget. */
  const FILTER_WIDGET_FILE: string := "visible-filter-devices.html"

  /** The template URI of the filter widget, `ui://widget/visible-filter-devices.html`. */
  const FILTER_WIDGET_TEMPLATE: string := "ui://widget/" + FILTER_WIDGET_FILE

  /** The filter widget is served as its html file under the base. */
  lemma FilterWidgetIframeUrl(assetBaseUrl: string)
    ensures WidgetIframeUrl(assetBaseUrl, FILTER_WIDGET_TEMPLATE) == assetBaseUrl + "/" + FILTER_WIDGET_FILE
  {
    assert "ui://widget/" == "ui://widget" + "/";
    IframeUrlOfTemplate(assetBaseUrl, "ui://widget", FILTER_WIDGET_FILE);
  }
}
