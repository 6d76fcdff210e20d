/**
 * The two rules that Image and Video share: how a raw HTML attribute value is
 * stored (`nullTrim`) and how the area is derived from the raw width and
 * height attributes at construction time.
 */
module MediaAttributes {
  import opened Wrappers
  import opened JavaLang

  /** `nullTrim`: null and all-blank values become null, anything else is trimmed. */
  function NullTrim(s: Option<string>): (r: Option<string>)
    ensures r.None? <==> (s.None? || Trim(s.value) == [])
    ensures r.Some? ==> r.value == Trim(s.value)
  {
    if s.None? then None
    else
      var t := Trim(s.value);
      if |t| == 0 then None else Some(t)
  }

  /** `nullTrim` gives null exactly for null and for all-blank values. */
  lemma NullTrimNoneIffBlank(s: Option<string>)
    ensures NullTrim(s).None? <==> (s.None? || IsBlank(s.value))
  {
    if s.Some? {
      TrimEmptyIffBlank(s.value);
    }
  }

  /**
   * The constructor's area: the product of the parsed width and height (as a
   * Java `int` product) when both raw attributes are present and parse, and
   * the sentinel -1 otherwise. The raw, untrimmed attributes are parsed.
   */
  function AreaFromAttributes(width: Option<string>, height: Option<string>): (area: int)
    ensures IsInt(area)
    ensures width.None? || height.None? ==> area == -1
    ensures width.Some? && height.Some? ==>
              (ParseInt(width.value).None? || ParseInt(height.value).None? ==> area == -1)
    ensures width.Some? && height.Some? && ParseInt(width.value).Some? && ParseInt(height.value).Some? ==>
              area == Wrap32(ParseInt(width.value).value * ParseInt(height.value).value)
  {
    if width.None? || height.None? then -1
    else
      match (ParseInt(width.value), ParseInt(height.value))
      case (Some(w), Some(h)) => Wrap32(w * h)
      case _ => -1
  }

  /** The decimal string of an `int` is stored unchanged. */
  lemma NullTrimOfDecimal(n: int)
    ensures NullTrim(Some(IntToString(n))) == Some(IntToString(n))
  {
    TrimOfIntToString(n);
  }

  /** What `setWidth(int)`/`setHeight(int)` store: `nullTrim` of the decimal string, i.e. that string. */
  function StoredDecimal(n: int): (r: Option<string>)
    ensures r == Some(IntToString(n))
  {
    NullTrimOfDecimal(n);
    NullTrim(Some(IntToString(n)))
  }

  /** Attributes holding decimal `int` strings give their product (no overflow) as area. */
  lemma AreaOfDecimalAttributes(w: int, h: int)
    requires IsInt(w) && IsInt(h) && IsInt(w * h)
    ensures AreaFromAttributes(Some(IntToString(w)), Some(IntToString(h))) == w * h
  {
    IntToStringRoundTrip(w);
    IntToStringRoundTrip(h);
  }

  /**
   * Attributes holding decimal `int` strings give the product of the two
   * values as a Java `int` product: it wraps when it does not fit.
   */
  lemma AreaOfDecimalAttributesWraps(w: int, h: int)
    requires IsInt(w) && IsInt(h)
    ensures AreaFromAttributes(Some(IntToString(w)), Some(IntToString(h))) == Wrap32(w * h)
  {
    IntToStringRoundTrip(w);
    IntToStringRoundTrip(h);
  }

  /**
   * A padded width is stored trimmed, yet the area is computed from the raw
   * attribute, which does not parse: `" 800"` is stored as `"800"` while the
   * area is the sentinel.
   */
  lemma PaddedAttributeGivesUnknownArea()
    ensures NullTrim(Some(" 800")) == Some("800")
    ensures AreaFromAttributes(Some(" 800"), Some("600")) == -1
  {
    assert TrimStart(" 800", 0) == 1;
    assert TrimEnd(" 800", 1, 4) == 4;
    assert Trim(" 800") == " 800"[1..4] == "800";
    NonDigitBreaksAllDigits(" 800", 0);
  }
}
