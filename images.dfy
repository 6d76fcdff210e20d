/**
 * An image referenced by the page. `src` is never null once constructed; the
 * width and height are stored trimmed (or null), the area is fixed by the
 * constructor and afterwards changed only through `SetArea`.
 */
module Images {
  import opened Wrappers
  import opened JavaLang
  import opened MediaAttributes

  class Image {
    var src: string
    var width: Option<string>
    var height: Option<string>
    const alt: Option<string>
    var area: int

    constructor (src: string, width: Option<string>, height: Option<string>, alt: Option<string>)
      ensures this.src == src && this.alt == NullTrim(alt)
      ensures this.width == NullTrim(width) && this.height == NullTrim(height)
      ensures this.area == AreaFromAttributes(width, height)
    {
      var w, h, a := NullTrim(width), NullTrim(height), NullTrim(alt);
      var size := AreaFromAttributes(width, height);
      this.src := src;
      this.width := w;
      this.height := h;
      this.alt := a;
      this.area := size;
    }

    /** `setWidth(int)`: stores the decimal string of `w`; the area is left alone. */
    method SetWidth(w: int)
      modifies this`width
      ensures width == Some(IntToString(w))
    {
      width := StoredDecimal(w);
    }

    /** `setHeight(int)`: stores the decimal string of `h`; the area is left alone. */
    method SetHeight(h: int)
      modifies this`height
      ensures height == Some(IntToString(h))
    {
      height := StoredDecimal(h);
    }

    /** `setArea(int)`: changes the area and nothing else. */
    method SetArea(a: int)
      modifies this`area
      ensures area == a
    {
      area := a;
    }

    /** `setSource`: changes the source and nothing else. */
    method SetSource(newSrc: string)
      modifies this`src
      ensures src == newSrc
    {
      src := newSrc;
    }

    /**
     * `compareTo`: larger area first, equal areas ordered by source; an image
     * compared with itself gives 0.
     */
    function CompareTo(o: Image): (r: int)
      reads this, o
      ensures o == this ==> r == 0
      ensures o != this && area > o.area ==> r < 0
      ensures o != this && area < o.area ==> r > 0
      ensures o != this && area == o.area ==> (r == 0 <==> src == o.src)
    {
      if o == this then 0
      else if area > o.area then -1
      else if area == o.area then
        CompareStringsZero(src, o.src);
        CompareStrings(src, o.src)
      else 1
    }
  }

  /**
   * `new Image(...)` on a source that may be null: a null source throws
   * NullPointerException before any field is set.
   */
  method NewImage(src: Option<string>, width: Option<string>, height: Option<string>, alt: Option<string>)
    returns (r: Result<Image, Exception>)
    ensures r.Failure? <==> src.None?
    ensures r.Failure? ==> r.error == NullPointerException
    ensures r.Success? ==> fresh(r.value) && r.value.src == src.value && r.value.alt == NullTrim(alt)
    ensures r.Success? ==> r.value.width == NullTrim(width) && r.value.height == NullTrim(height)
    ensures r.Success? ==> r.value.area == AreaFromAttributes(width, height)
  {
    if src.None? {
      return Failure(NullPointerException);
    }
    var image := new Image(src.value, width, height, alt);
    return Success(image);
  }

  /** The sources of the images, in order. */
  function Sources(images: seq<Image>): (srcs: seq<string>)
    reads images`src
    ensures |srcs| == |images|
    ensures forall k :: 0 <= k < |images| ==> srcs[k] == images[k].src
  {
    if images == [] then [] else Sources(images[..|images| - 1]) + [images[|images| - 1].src]
  }

  /** No two positions of `images` hold the same object. */
  predicate Distinct(images: seq<Image>) {
    forall i, j :: 0 <= i < j < |images| ==> images[i] != images[j]
  }

  /** Swapping the two images negates the comparison. */
  lemma CompareToAntisymmetric(a: Image, b: Image)
    ensures b.CompareTo(a) == -a.CompareTo(b)
  {
    CompareStringsAntisymmetric(a.src, b.src);
  }

  /** The order `compareTo` defines is transitive. */
  lemma CompareToTransitive(a: Image, b: Image, c: Image)
    requires a.CompareTo(b) < 0 && b.CompareTo(c) < 0
    ensures a.CompareTo(c) < 0
  {
    CompareToAntisymmetric(a, b);
    if a.area == b.area == c.area {
      CompareStringsTransitive(a.src, b.src, c.src);
    }
  }
}
