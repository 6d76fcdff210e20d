/**
 * What the classifier reads from an image URL before it downloads anything:
 * whether the path names a common image format, and the width and height
 * hints of its query string.
 */
module UrlHints {
  import opened Wrappers
  import opened JavaLang

  /** The extensions `hasCommonImageExtension` accepts, in the order it tries them. */
  const COMMON_IMAGE_EXTENSIONS: seq<string> := [".jpg", ".jpeg", ".png", ".svg", ".webp", ".bmp"]

  /** `s` ends with one of `exts`, tried in order. */
  function EndsWithAny(s: string, exts: seq<string>): (b: bool)
    ensures b <==> exists k :: 0 <= k < |exts| && EndsWith(s, exts[k])
  {
    if exts == [] then false
    else
      assert forall k :: 1 <= k < |exts| ==> exts[k] == exts[1..][k - 1];
      EndsWith(s, exts[0]) || EndsWithAny(s, exts[1..])
  }

  /**
   * `hasCommonImageExtension`: false for a null or empty URL; otherwise true
   * exactly when the URL up to its first `?`, lower-cased, ends with one of
   * the common extensions.
   */
  function HasCommonImageExtension(url: Option<string>): (b: bool)
    ensures url.None? || url.value == [] ==> !b
    ensures url.Some? ==>
              (b <==> exists k :: 0 <= k < |COMMON_IMAGE_EXTENSIONS|
                                  && EndsWith(ToLower(Before(url.value, '?')), COMMON_IMAGE_EXTENSIONS[k]))
  {
    if url.None? || url.value == [] then false
    else EndsWithAny(ToLower(Before(url.value, '?')), COMMON_IMAGE_EXTENSIONS)
  }

  /** Lower-casing works character by character, so it distributes over concatenation. */
  lemma ToLowerAppend(s: string, t: string)
    ensures ToLower(s + t) == ToLower(s) + ToLower(t)
  {
    var l, r := ToLower(s + t), ToLower(s) + ToLower(t);
    assert |l| == |r|;
    forall i | 0 <= i < |l|
      ensures l[i] == r[i]
    {
      if i < |s| {
        assert (s + t)[i] == s[i];
      } else {
        assert (s + t)[i] == t[i - |s|];
      }
    }
  }

  /** The query string plays no part in the extension test. */
  lemma QueryIgnoredByExtensionTest(path: string, query: string)
    requires '?' !in path
    ensures HasCommonImageExtension(Some(path + "?" + query)) == HasCommonImageExtension(Some(path))
  {
    var url := path + "?" + query;
    assert url[|path|] == '?' && url[..|path|] == path;
    assert Before(url, '?') == path;
    assert Before(path, '?') == path;
  }

  /** The test ignores case: a path ending in `.JPG` is accepted. */
  lemma UpperCaseExtensionAccepted(stem: string)
    requires '?' !in stem
    ensures HasCommonImageExtension(Some(stem + ".JPG"))
  {
    var path := stem + ".JPG";
    assert '?' !in path;
    assert Before(path, '?') == path;
    ToLowerAppend(stem, ".JPG");
    assert ToLower(".JPG") == ".jpg";
    var lowered := ToLower(path);
    assert lowered[|lowered| - 4..] == ".jpg";
    assert EndsWith(lowered, COMMON_IMAGE_EXTENSIONS[0]);
  }

  // ---------------------------------------------------------------------------
  // Query-string dimension hints

  datatype Dimension = Width | Height

  /** `w` and `width` name the width, `h` and `height` the height. */
  predicate NamesDimension(key: string, d: Dimension) {
    match d
    case Width => key == "w" || key == "width"
    case Height => key == "h" || key == "height"
  }

  /** The key of a `key=value` parameter, lower-cased: the text before the first `=`. */
  function ParamKey(param: string): string {
    ToLower(Before(param, '='))
  }

  /** The value of a `key=value` parameter: everything after the first `=`, as `split("=", 2)` gives it. */
  function ParamValue(param: string): (v: string)
    requires '=' in param
    ensures param == Before(param, '=') + "=" + v
  {
    param[|Before(param, '=')| + 1..]
  }

  /** The value `param` gives for `d`: a `key=value` parameter whose key names `d` and whose value is an `int`. */
  function HintValue(param: string, d: Dimension): Option<int> {
    if '=' in param && NamesDimension(ParamKey(param), d) then ParseInt(ParamValue(param)) else None
  }

  /** The value the parameters give for `d`, the last hint winning; `None` when none gives one. */
  function LastHint(params: seq<string>, d: Dimension): Option<int> {
    if params == [] then None
    else if HintValue(params[|params| - 1], d).Some? then HintValue(params[|params| - 1], d)
    else LastHint(params[..|params| - 1], d)
  }

  /** The parameters of the query string: the text after the first `?`, split at `&`. */
  function QueryParams(url: string): (params: seq<string>)
    requires '?' in url
    ensures forall i :: 0 <= i < |params| ==> '&' !in params[i]
  {
    Split(url[IndexOf(url, '?') + 1..], '&')
  }

  /** The `[width, height]` hints of a URL, or null when it has no query string or lacks either hint. */
  function DimensionsFromUrl(url: Option<string>): Option<(int, int)> {
    if url.None? || '?' !in url.value then None
    else
      var params := QueryParams(url.value);
      var w, h := LastHint(params, Width), LastHint(params, Height);
      if w.Some? && h.Some? then Some((w.value, h.value)) else None
  }

  /**
   * `extractDimensionsFromUrl`: the loop over the query parameters, keeping
   * the last numeric width and the last numeric height it meets.
   */
  method ExtractDimensionsFromUrl(url: Option<string>) returns (r: Option<(int, int)>)
    ensures r == DimensionsFromUrl(url)
  {
    if url.None? || '?' !in url.value {
      return None;
    }
    var params := QueryParams(url.value);

    var width: Option<int> := None;
    var height: Option<int> := None;
    for i := 0 to |params|
      invariant width == LastHint(params[..i], Width)
      invariant height == LastHint(params[..i], Height)
    {
      assert params[..i + 1][..i] == params[..i];
      width, height := ReadParam(params[i], width, height);
    }
    assert params[..|params|] == params;

    if width.Some? && height.Some? {
      return Some((width.value, height.value));
    }
    return None;
  }

  /**
   * One round of the parameter loop: a `key=value` parameter with a numeric
   * value overwrites the width for the key `w` or `width`, else the height
   * for `h` or `height`; a value that is not a number is skipped.
   */
  method ReadParam(param: string, width: Option<int>, height: Option<int>)
    returns (width': Option<int>, height': Option<int>)
    ensures width' == (if HintValue(param, Width).Some? then HintValue(param, Width) else width)
    ensures height' == (if HintValue(param, Height).Some? then HintValue(param, Height) else height)
  {
    width', height' := width, height;
    if '=' in param {
      var key := ToLower(Before(param, '='));
      var value := param[|Before(param, '=')| + 1..];
      var intValue := ParseInt(value);
      if intValue.Some? {
        if key == "w" || key == "width" {
          width' := intValue;
        } else if key == "h" || key == "height" {
          height' := intValue;
        }
      }
    }
  }

  /** The last value `f` gives for an element of `xs`, or `None`. */
  function LastOf(xs: seq<string>, f: string -> Option<int>): Option<int> {
    if xs == [] then None
    else if f(xs[|xs| - 1]).Some? then f(xs[|xs| - 1])
    else LastOf(xs[..|xs| - 1], f)
  }

  /** `LastOf` is a value of the last element that has one, and there is one exactly when some element has one. */
  lemma {:induction false} LastOfIsLast(xs: seq<string>, f: string -> Option<int>)
    ensures LastOf(xs, f).Some? <==> exists k :: 0 <= k < |xs| && f(xs[k]).Some?
    ensures LastOf(xs, f).Some? ==>
              exists k :: 0 <= k < |xs| && f(xs[k]) == LastOf(xs, f) && forall j :: k < j < |xs| ==> f(xs[j]).None?
  {
    if xs != [] {
      var n := |xs| - 1;
      var init := xs[..n];
      assert forall k :: 0 <= k < n ==> init[k] == xs[k];
      LastOfIsLast(init, f);
      if f(xs[n]).None? && LastOf(init, f).Some? {
        var k :| 0 <= k < n && f(init[k]) == LastOf(init, f) && forall j :: k < j < n ==> f(init[j]).None?;
        assert forall j :: k < j < |xs| ==> f(xs[j]).None?;
      }
    }
  }

  /** `LastHint` is `LastOf` for the hint values of `d`. */
  lemma {:induction false} LastHintIsLastOf(params: seq<string>, d: Dimension)
    ensures LastHint(params, d) == LastOf(params, s => HintValue(s, d))
  {
    if params != [] {
      LastHintIsLastOf(params[..|params| - 1], d);
    }
  }

  /**
   * `LastHint` is the last hint: there is one exactly when some parameter
   * gives one, and then it is the value of a parameter after which no
   * parameter gives another.
   */
  lemma LastHintIsLastOccurrence(params: seq<string>, d: Dimension)
    ensures LastHint(params, d).Some? <==> exists k :: 0 <= k < |params| && HintValue(params[k], d).Some?
    ensures LastHint(params, d).Some? ==>
              exists k :: 0 <= k < |params| && HintValue(params[k], d) == LastHint(params, d)
                          && forall j :: k < j < |params| ==> HintValue(params[j], d).None?
  {
    LastHintIsLastOf(params, d);
    LastOfIsLast(params, s => HintValue(s, d));
  }

  /**
   * A URL yields dimensions exactly when it has a query string in which some
   * parameter gives a width and some parameter gives a height.
   */
  lemma DimensionsNeedBothHints(url: Option<string>)
    ensures DimensionsFromUrl(url).Some? <==>
              && url.Some? && '?' in url.value
              && (exists k :: 0 <= k < |QueryParams(url.value)| && HintValue(QueryParams(url.value)[k], Width).Some?)
              && (exists k :: 0 <= k < |QueryParams(url.value)| && HintValue(QueryParams(url.value)[k], Height).Some?)
  {
    if url.Some? && '?' in url.value {
      LastHintIsLastOccurrence(QueryParams(url.value), Width);
      LastHintIsLastOccurrence(QueryParams(url.value), Height);
    }
  }

  /** Parameters that give no value for `d`, such as `w=auto`, leave the earlier hint in place. */
  lemma {:induction false} NonNumericHintIgnored(params: seq<string>, extra: seq<string>, d: Dimension)
    requires forall k :: 0 <= k < |extra| ==> HintValue(extra[k], d).None?
    ensures LastHint(params + extra, d) == LastHint(params, d)
  {
    if extra != [] {
      var shorter := extra[..|extra| - 1];
      assert (params + extra)[..|params + extra| - 1] == params + shorter;
      assert (params + extra)[|params + extra| - 1] == extra[|extra| - 1];
      NonNumericHintIgnored(params, shorter, d);
    } else {
      assert params + extra == params;
    }
  }
}
