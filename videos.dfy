/**
 * A video embedded in the page. Every field is final, so a video is a value:
 * it is built once by `NewVideo` and never changes. Unlike an image, a video
 * accepts a null source.
 */
module Videos {
  import opened Wrappers
  import opened JavaLang
  import opened MediaAttributes

  /** The stored fields of a video: trimmed (or null) width and height and the area fixed at construction. */
  datatype Video = Video(src: Option<string>, width: Option<string>, height: Option<string>, area: int)

  /** `new Video(src, width, height)`. */
  function NewVideo(src: Option<string>, width: Option<string>, height: Option<string>): (v: Video)
    ensures v.src == src
    ensures v.width.None? <==> (width.None? || IsBlank(width.value))
    ensures v.height.None? <==> (height.None? || IsBlank(height.value))
    ensures v.width.Some? ==> v.width.value == Trim(width.value)
    ensures v.height.Some? ==> v.height.value == Trim(height.value)
    ensures v.area == AreaFromAttributes(width, height)
  {
    NullTrimNoneIffBlank(width);
    NullTrimNoneIffBlank(height);
    Video(src, NullTrim(width), NullTrim(height), AreaFromAttributes(width, height))
  }

  /**
   * `compareTo`: larger area first, equal areas ordered by source. Java's
   * identity test `o == this` is taken as equality of the two values. With
   * equal areas a null source on either side makes `String.compareTo` throw
   * NullPointerException.
   */
  function CompareTo(v: Video, o: Video): (r: Result<int, Exception>)
    ensures v == o ==> r == Success(0)
    ensures v != o && v.area > o.area ==> r.Success? && r.value < 0
    ensures v != o && v.area < o.area ==> r.Success? && r.value > 0
    ensures r.Failure? <==> v != o && v.area == o.area && (v.src.None? || o.src.None?)
    ensures r.Failure? ==> r.error == NullPointerException
    ensures v != o && v.area == o.area && r.Success? ==> (r.value == 0 <==> v.src == o.src)
  {
    if v == o then Success(0)
    else if v.area > o.area then Success(-1)
    else if v.area == o.area then
      if v.src.None? || o.src.None? then Failure(NullPointerException)
      else
        CompareStringsZero(v.src.value, o.src.value);
        Success(CompareStrings(v.src.value, o.src.value))
    else Success(1)
  }

  /** Swapping the two videos negates a comparison that does not throw, and keeps one that throws. */
  lemma CompareToAntisymmetric(v: Video, o: Video)
    ensures CompareTo(v, o).Failure? <==> CompareTo(o, v).Failure?
    ensures CompareTo(v, o).Success? ==> CompareTo(o, v).value == -CompareTo(v, o).value
  {
    if v.src.Some? && o.src.Some? {
      CompareStringsAntisymmetric(v.src.value, o.src.value);
    }
  }

  /** Of comparisons that do not throw, "sorts before" is transitive. */
  lemma CompareToTransitive(a: Video, b: Video, c: Video)
    requires CompareTo(a, b).Success? && CompareTo(a, b).value < 0
    requires CompareTo(b, c).Success? && CompareTo(b, c).value < 0
    ensures CompareTo(a, c).Success? && CompareTo(a, c).value < 0
  {
    CompareToAntisymmetric(a, b);
    if a.area == b.area == c.area {
      CompareStringsTransitive(a.src.value, b.src.value, c.src.value);
    }
  }

  /** Two videos built from decimal `int` attributes whose product fits compare by that product first. */
  lemma LargerDecimalVideoFirst(s1: Option<string>, w1: int, h1: int, s2: Option<string>, w2: int, h2: int)
    requires IsInt(w1) && IsInt(h1) && IsInt(w1 * h1)
    requires IsInt(w2) && IsInt(h2) && IsInt(w2 * h2)
    requires w1 * h1 > w2 * h2
    ensures CompareTo(NewVideo(s1, Some(IntToString(w1)), Some(IntToString(h1))),
                      NewVideo(s2, Some(IntToString(w2)), Some(IntToString(h2)))) == Success(-1)
  {
    AreaOfDecimalAttributes(w1, h1);
    AreaOfDecimalAttributes(w2, h2);
  }
}
