/**
 * What one extractor pass of `classify` does to the images it found before
 * they are measured: it keeps only those whose URL names a common image
 * format, sizes the ones whose URL carries width and height hints, downloads
 * the rest and sizes them from the files that can be decoded.
 */
module ImagePreparation {
  import opened Wrappers
  import opened JavaLang
  import opened MediaAttributes
  import opened Images
  import opened UrlHints
  import opened ImageDownloads

  // ---------------------------------------------------------------------------
  // Filtering by source

  /** The images whose source (`srcs[k]` for `images[k]`) satisfies `keep`, in their original order. */
  function Select<K>(images: seq<Image>, keys: seq<K>, keep: K -> bool): (r: seq<Image>)
    requires |keys| == |images|
    ensures |r| <= |images|
  {
    if images == [] then []
    else
      var n := |images| - 1;
      var kept := Select(images[..n], keys[..n], keep);
      if keep(keys[n]) then kept + [images[n]] else kept
  }

  /** Of distinct images, exactly those whose source passes are selected. */
  lemma {:induction false} SelectedIffPassing<K>(images: seq<Image>, keys: seq<K>, keep: K -> bool, j: nat)
    requires |keys| == |images| && Distinct(images) && j < |images|
    ensures images[j] in Select(images, keys, keep) <==> keep(keys[j])
  {
    var n := |images| - 1;
    if j < n {
      SelectedIffPassing(images[..n], keys[..n], keep, j);
      assert images[..n][j] == images[j] && keys[..n][j] == keys[j];
      assert images[j] != images[n];
    } else if !keep(keys[n]) {
      SelectedFrom(images[..n], keys[..n], keep);
      assert images[n] !in images[..n];
    }
  }

  /** Selecting keeps only images of the list. */
  lemma {:induction false} SelectedFrom<K>(images: seq<Image>, keys: seq<K>, keep: K -> bool)
    requires |keys| == |images|
    ensures forall k :: 0 <= k < |Select(images, keys, keep)| ==> Select(images, keys, keep)[k] in images
  {
    if images != [] {
      var n := |images| - 1;
      SelectedFrom(images[..n], keys[..n], keep);
      assert images == images[..n] + [images[n]];
    }
  }

  /** `hasCommonImageExtension` on a source (which is never null). */
  predicate IsCommonImageSource(src: string) {
    HasCommonImageExtension(Some(src))
  }

  /** The source gives no width-and-height hint. */
  predicate GivesNoHint(src: string) {
    DimensionsFromUrl(Some(src)).None?
  }

  /** The images `removeIf` leaves: those whose source has a common image extension. */
  function CommonImages(images: seq<Image>): seq<Image>
    reads images`src
  {
    Select(images, Sources(images), IsCommonImageSource)
  }

  /** The images whose source gives no width-and-height hint, which are downloaded. */
  function Unhinted(images: seq<Image>): seq<Image>
    reads images`src
  {
    Select(images, Sources(images), GivesNoHint)
  }

  /** An image with this source is downloaded: it has a common image extension and no width-and-height hint. */
  predicate Downloadable(src: string) {
    IsCommonImageSource(src) && GivesNoHint(src)
  }

  /** The source of some image satisfies `p`. */
  predicate AnySource(images: seq<Image>, p: string -> bool)
    reads images`src
  {
    images != [] && (AnySource(images[..|images| - 1], p) || p(images[|images| - 1].src))
  }

  /** `AnySource` is the existential it names. */
  lemma {:induction false} AnySourceIff(images: seq<Image>, p: string -> bool)
    ensures AnySource(images, p) <==> exists k :: 0 <= k < |images| && p(images[k].src)
  {
    if images != [] {
      var n := |images| - 1;
      AnySourceIff(images[..n], p);
      if k :| 0 <= k < |images| && p(images[k].src) {
        if k < n {
          assert images[..n][k] == images[k];
        }
      }
      if k :| 0 <= k < n && p(images[..n][k].src) {
        assert p(images[k].src);
      }
    }
  }

  /** Some of the images must be downloaded: one of them has a downloadable source. */
  predicate NeedsDownload(images: seq<Image>)
    reads images`src
  {
    AnySource(images, Downloadable)
  }

  /** Of distinct images, some are left to download exactly when one of them has a common extension and no hint. */
  lemma DownloadNeeded(images: seq<Image>)
    requires Distinct(images)
    ensures Unhinted(CommonImages(images)) != [] <==> NeedsDownload(images)
  {
    SelectTwiceNonEmpty(images, IsCommonImageSource, GivesNoHint);
    AnySourceIff(images, Downloadable);
    if k :| 0 <= k < |images| && IsCommonImageSource(images[k].src) && GivesNoHint(images[k].src) {
      assert Downloadable(images[k].src);
    }
  }

  /** Of distinct images, selecting by `p` and then by `q` leaves some image exactly when some image passes both. */
  lemma SelectTwiceNonEmpty(images: seq<Image>, p: string -> bool, q: string -> bool)
    requires Distinct(images)
    ensures var kept := Select(images, Sources(images), p);
      Select(kept, Sources(kept), q) != [] <==> exists k :: 0 <= k < |images| && p(images[k].src) && q(images[k].src)
  {
    var kept := Select(images, Sources(images), p);
    SelectKeepsDistinct(images, Sources(images), p);
    if k :| 0 <= k < |images| && p(images[k].src) && q(images[k].src) {
      PassingBothSelectedTwice(images, p, q, k);
    }
    if Select(kept, Sources(kept), q) != [] {
      SelectedTwicePassesBoth(images, p, q);
    }
  }

  /** An image passing `p` and `q` survives both selections. */
  lemma PassingBothSelectedTwice(images: seq<Image>, p: string -> bool, q: string -> bool, k: nat)
    requires Distinct(images) && k < |images| && p(images[k].src) && q(images[k].src)
    ensures var kept := Select(images, Sources(images), p);
      images[k] in Select(kept, Sources(kept), q)
  {
    var srcs := Sources(images);
    var kept := Select(images, srcs, p);
    SelectKeepsDistinct(images, srcs, p);
    SelectedIffPassing(images, srcs, p, k);
    var j :| 0 <= j < |kept| && kept[j] == images[k];
    assert Sources(kept)[j] == images[k].src;
    SelectedIffPassing(kept, Sources(kept), q, j);
  }

  /** The first image left by both selections passes `p` and `q`. */
  lemma SelectedTwicePassesBoth(images: seq<Image>, p: string -> bool, q: string -> bool)
    requires Distinct(images)
    requires var kept := Select(images, Sources(images), p);
      Select(kept, Sources(kept), q) != []
    ensures exists k :: 0 <= k < |images| && p(images[k].src) && q(images[k].src)
  {
    var srcs := Sources(images);
    var kept := Select(images, srcs, p);
    var twice := Select(kept, Sources(kept), q);
    SelectKeepsDistinct(images, srcs, p);
    SelectedFrom(kept, Sources(kept), q);
    SelectedFrom(images, srcs, p);
    var u := twice[0];
    assert u in kept;
    var j :| 0 <= j < |kept| && kept[j] == u;
    SelectedIffPassing(kept, Sources(kept), q, j);
    assert q(u.src) by {
      assert Sources(kept)[j] == kept[j].src;
    }
    var k :| 0 <= k < |images| && images[k] == u;
    SelectedIffPassing(images, srcs, p, k);
    assert p(u.src) by {
      assert srcs[k] == images[k].src;
    }
  }

  /** Selecting from a list of distinct images gives a list of distinct images. */
  lemma {:induction false} SelectKeepsDistinct<K>(images: seq<Image>, keys: seq<K>, keep: K -> bool)
    requires |keys| == |images| && Distinct(images)
    ensures Distinct(Select(images, keys, keep))
  {
    if images != [] {
      var n := |images| - 1;
      SelectKeepsDistinct(images[..n], keys[..n], keep);
      SelectedFrom(images[..n], keys[..n], keep);
      assert images[n] !in images[..n];
      assert images[n] !in Select(images[..n], keys[..n], keep);
    }
  }

  /** When every source passes, nothing is removed. */
  lemma {:induction false} SelectKeepsAllPassing<K>(images: seq<Image>, keys: seq<K>, keep: K -> bool)
    requires |keys| == |images|
    requires forall k :: 0 <= k < |keys| ==> keep(keys[k])
    ensures Select(images, keys, keep) == images
  {
    if images != [] {
      var n := |images| - 1;
      SelectKeepsAllPassing(images[..n], keys[..n], keep);
      assert images[..n] + [images[n]] == images;
    }
  }

  // ---------------------------------------------------------------------------
  // Sizing images

  /** A stored width, height and area. */
  type StoredSize = (Option<string>, Option<string>, int)

  /** The stored width, height and area of an image. */
  function Size(image: Image): StoredSize
    reads image`width, image`height, image`area
  {
    (image.width, image.height, image.area)
  }

  /** What `setWidth(w)`, `setHeight(h)` and `setArea(w * h)` leave: the decimal strings and the `int` product. */
  function SizeOf(d: (int, int)): StoredSize {
    (Some(IntToString(d.0)), Some(IntToString(d.1)), Wrap32(d.0 * d.1))
  }

  /**
   * A sized image holds the area a newly built image would derive from its
   * stored width and height.
   */
  lemma SizedAreaAgreesWithAttributes(d: (int, int))
    requires IsInt(d.0) && IsInt(d.1)
    ensures SizeOf(d).2 == AreaFromAttributes(SizeOf(d).0, SizeOf(d).1)
  {
    IntToStringRoundTrip(d.0);
    IntToStringRoundTrip(d.1);
  }

  /** The three setters in the order the classifier calls them. */
  method SetSize(image: Image, d: (int, int))
    modifies image`width, image`height, image`area
    ensures Size(image) == SizeOf(d)
  {
    image.SetWidth(d.0);
    image.SetHeight(d.1);
    image.SetArea(Wrap32(d.0 * d.1));
  }

  /** One round of the hint loop: an image whose URL gives both dimensions is sized from them. */
  method ApplyUrlHint(image: Image) returns (hint: Option<(int, int)>)
    modifies image`width, image`height, image`area
    ensures hint == DimensionsFromUrl(Some(image.src))
    ensures Size(image) == UpdatedSize(hint, old(Size(image)))
  {
    hint := ExtractDimensionsFromUrl(Some(image.src));
    if hint.Some? {
      SetSize(image, hint.value);
    }
  }

  /** The size an image is left with: `d` when given, or the size it had. */
  function UpdatedSize(d: Option<(int, int)>, before: StoredSize): StoredSize {
    if d.Some? then SizeOf(d.value) else before
  }

  /** The sizes of the images, in order. */
  function Sizes(images: seq<Image>): (sizes: seq<StoredSize>)
    reads images`width, images`height, images`area
    ensures |sizes| == |images|
    ensures forall k :: 0 <= k < |images| ==> sizes[k] == Size(images[k])
  {
    if images == [] then [] else Sizes(images[..|images| - 1]) + [Size(images[|images| - 1])]
  }

  /**
   * The sizes after the first `i` rounds of the hint loop: the first `i`
   * images are sized by their hints, the others keep the size they had
   * before the loop (`before`).
   */
  ghost predicate SizedByHints(images: seq<Image>, i: nat, before: seq<StoredSize>, hints: seq<Option<(int, int)>>)
    reads images`width, images`height, images`area
  {
    && i <= |images| && |before| == |images| && |hints| == i
    && forall k :: 0 <= k < |images| ==>
         Size(images[k]) == if k < i then UpdatedSize(hints[k], before[k]) else before[k]
  }

  /** One round of the hint loop: the image at `i` is sized by its hint or put on the download list. */
  method HintRound(images: seq<Image>, i: nat, ghost before: seq<StoredSize>, ghost hints: seq<Option<(int, int)>>,
                   toDownload: seq<Image>)
    returns (hint: Option<(int, int)>, toDownload': seq<Image>)
    requires i < |images|
    requires forall k :: 0 <= k < |images| && k != i ==> images[k] != images[i]
    requires SizedByHints(images, i, before, hints)
    requires toDownload == Select(images[..i], hints, IsNoHint)
    modifies images`width, images`height, images`area
    ensures hint == DimensionsFromUrl(Some(images[i].src))
    ensures SizedByHints(images, i + 1, before, hints + [hint])
    ensures toDownload' == Select(images[..i + 1], hints + [hint], IsNoHint)
  {
    hint := ApplyUrlHint(images[i]);
    toDownload' := if hint.None? then toDownload + [images[i]] else toDownload;
    assert images[..i + 1][..i] == images[..i] && (hints + [hint])[..i] == hints;
  }

  /**
   * The hint loop of `classify`: sizes every image whose URL gives both
   * dimensions and returns, in order, those that must be downloaded.
   */
  method ApplyUrlHints(images: seq<Image>) returns (imagesToDownload: seq<Image>)
    requires Distinct(images)
    modifies images`width, images`height, images`area
    ensures imagesToDownload == old(Unhinted(images))
    ensures forall k :: 0 <= k < |images| ==>
              Size(images[k]) == UpdatedSize(DimensionsFromUrl(Some(images[k].src)), old(Size(images[k])))
  {
    ghost var srcs := Sources(images);
    ghost var before := Sizes(images);
    ghost var hints: seq<Option<(int, int)>> := [];
    imagesToDownload := [];
    for i := 0 to |images|
      invariant srcs == Sources(images) && |hints| == i
      invariant forall k :: 0 <= k < i ==> hints[k] == DimensionsFromUrl(Some(srcs[k]))
      invariant imagesToDownload == Select(images[..i], hints, IsNoHint)
      invariant SizedByHints(images, i, before, hints)
    {
      forall k | 0 <= k < |images| && k != i
        ensures images[k] != images[i]
      {
      }
      var hint;
      hint, imagesToDownload := HintRound(images, i, before, hints, imagesToDownload);
      hints := hints + [hint];
    }
    HintsAllApplied(images, srcs, before, hints, imagesToDownload);
  }

  /** After the last round the download list is the unhinted images and every image is sized by its hint. */
  lemma HintsAllApplied(images: seq<Image>, srcs: seq<string>, before: seq<StoredSize>,
                        hints: seq<Option<(int, int)>>, toDownload: seq<Image>)
    requires srcs == Sources(images) && |hints| == |images|
    requires forall k :: 0 <= k < |images| ==> hints[k] == DimensionsFromUrl(Some(srcs[k]))
    requires toDownload == Select(images[..|images|], hints, IsNoHint)
    requires SizedByHints(images, |images|, before, hints)
    ensures toDownload == Unhinted(images)
    ensures forall k :: 0 <= k < |images| ==>
              Size(images[k]) == UpdatedSize(DimensionsFromUrl(Some(images[k].src)), before[k])
  {
    assert images[..|images|] == images;
    forall k | 0 <= k < |images|
      ensures GivesNoHint(srcs[k]) == IsNoHint(hints[k])
    {
    }
    SelectSameDecisions(images, srcs, GivesNoHint, hints, IsNoHint);
  }

  /** No width-and-height hint. */
  predicate IsNoHint(hint: Option<(int, int)>) {
    hint.None?
  }

  /** Two ways of deciding that agree on every image select the same images. */
  lemma {:induction false} SelectSameDecisions<K, L>(images: seq<Image>, a: seq<K>, p: K -> bool, b: seq<L>, q: L -> bool)
    requires |a| == |images| && |b| == |images|
    requires forall k :: 0 <= k < |images| ==> p(a[k]) == q(b[k])
    ensures Select(images, a, p) == Select(images, b, q)
  {
    if images != [] {
      var n := |images| - 1;
      SelectSameDecisions(images[..n], a[..n], p, b[..n], q);
    }
  }

  /** Every image of a pass is sized by its hints or downloaded, never both. */
  lemma HintedOrDownloaded(images: seq<Image>, k: nat)
    requires Distinct(images) && k < |images|
    ensures images[k] in Unhinted(images) <==> DimensionsFromUrl(Some(images[k].src)).None?
  {
    SelectedIffPassing(images, Sources(images), GivesNoHint, k);
  }

  // ---------------------------------------------------------------------------
  // updateImageDimensions

  /** The file downloaded for the image at `i`: null past the end of the list. */
  function FileAt(files: seq<Option<string>>, i: nat): Option<string> {
    if i < |files| then files[i] else None
  }

  /**
   * The size read from the file of the image at `i`, whose bytes were fetched
   * from `fetched`: the file must be there and the picture must be one
   * `ImageIO` can decode (`decoded` maps the URL of each such picture to its
   * width and height); otherwise none.
   */
  function DecodedSize(files: seq<Option<string>>, decoded: map<string, (int, int)>, fetched: string, i: nat): (r: Option<(int, int)>)
    ensures r.Some? <==> FileAt(files, i).Some? && fetched in decoded
    ensures r.Some? ==> r.value == decoded[fetched]
  {
    if FileAt(files, i).Some? && fetched in decoded then Some(decoded[fetched]) else None
  }

  /**
   * `updateImageDimensions`, called after `downloadImages` has rewritten each
   * source to the URL it fetched: an image whose file exists and decodes takes
   * the size of the decoded picture; all other images keep theirs.
   */
  method UpdateImageDimensions(images: seq<Image>, files: seq<Option<string>>, decoded: map<string, (int, int)>)
    requires Distinct(images)
    modifies images`width, images`height, images`area
    ensures forall k :: 0 <= k < |images| ==>
              Size(images[k]) == UpdatedSize(DecodedSize(files, decoded, images[k].src, k), old(Size(images[k])))
  {
    for i := 0 to |images|
      invariant forall k :: 0 <= k < |images| ==>
                  Size(images[k]) == if k < i then UpdatedSize(DecodedSize(files, decoded, images[k].src, k), old(Size(images[k])))
                                     else old(Size(images[k]))
    {
      var image := images[i];
      var file := if i < |files| then files[i] else None;
      if file.Some? && image.src in decoded {
        SetSize(image, decoded[image.src]);
      }
    }
  }

  // ---------------------------------------------------------------------------
  // The image steps of one extractor pass

  /**
   * What the downloads of a pass meet: the base URL relative sources are
   * resolved against, whether the image directory can be created, the URLs
   * that download completely, and the URLs whose pictures `ImageIO` decodes,
   * with their width and height.
   */
  datatype Network = Network(base: string, directoryCreated: bool, served: set<string>, decoded: map<string, (int, int)>)

  /**
   * The download step of a pass: `downloadImages`, then
   * `updateImageDimensions` on the list of files it returns.
   */
  method DownloadAndMeasure(toDownload: seq<Image>, net: Network) returns (r: Result<seq<Option<string>>, Exception>)
    requires Distinct(toDownload)
    modifies toDownload`src, toDownload`width, toDownload`height, toDownload`area
    ensures r.Failure? <==> !net.directoryCreated
    ensures r.Failure? ==> r.error == IOException(CannotCreateDirectory)
    ensures r.Success? ==> |r.value| == |toDownload|
    ensures r.Success? ==> forall j :: 0 <= j < |toDownload| ==>
              && r.value[j] == DownloadedFile(j, old(toDownload[j].src), net.base, net.served)
              && toDownload[j].src == RewrittenSource(net.base, old(toDownload[j].src))
              && Size(toDownload[j]) == UpdatedSize(DecodedSize(r.value, net.decoded, toDownload[j].src, j), old(Size(toDownload[j])))
  {
    r := DownloadImages(toDownload, net.base, net.directoryCreated, net.served);
    if r.Success? {
      UpdateImageDimensions(toDownload, r.value, net.decoded);
    }
  }


  /**
   * The image steps of a pass of `classify`: keep the images with a common
   * extension, size those with URL hints, download the others (only when
   * there are any) and size them from their decoded files. Fails with the
   * IOException of `downloadImages` when the directory cannot be created.
   * On success the kept images are returned; `imagesToDownload` and `files`
   * are the download list and the list of files it produced.
   */
  method PrepareImages(images: seq<Image>, net: Network)
    returns (r: Result<seq<Image>, Exception>, ghost imagesToDownload: seq<Image>, ghost files: seq<Option<string>>)
    requires Distinct(images)
    modifies images`src, images`width, images`height, images`area
    ensures imagesToDownload == old(Unhinted(CommonImages(images)))
    ensures forall j :: 0 <= j < |imagesToDownload| ==> imagesToDownload[j] in images
    ensures r.Failure? <==> imagesToDownload != [] && !net.directoryCreated
    ensures r.Failure? <==> old(NeedsDownload(images)) && !net.directoryCreated
    ensures r.Failure? ==> r.error == IOException(CannotCreateDirectory)
    ensures r.Success? ==> r.value == old(CommonImages(images))
    ensures r.Success? ==> |files| == |imagesToDownload|
    ensures r.Success? ==> forall j :: 0 <= j < |imagesToDownload| ==>
              && files[j] == DownloadedFile(j, old(imagesToDownload[j].src), net.base, net.served)
              && imagesToDownload[j].src == RewrittenSource(net.base, old(imagesToDownload[j].src))
              && (var fetched := SourceToFetch(net.base, old(imagesToDownload[j].src));
                  files[j].Some? && fetched in net.decoded ==> Size(imagesToDownload[j]) == SizeOf(net.decoded[fetched]))
  {
    DownloadNeeded(images);
    var kept := CommonImages(images);
    SelectKeepsDistinct(images, Sources(images), IsCommonImageSource);
    SelectedFrom(images, Sources(images), IsCommonImageSource);
    SelectedFrom(kept, Sources(kept), GivesNoHint);
    var toDownload := ApplyUrlHints(kept);
    imagesToDownload, files := toDownload, [];
    if toDownload != [] {
      SelectKeepsDistinct(kept, Sources(kept), GivesNoHint);
      var downloaded := DownloadAndMeasure(toDownload, net);
      if downloaded.Failure? {
        return Failure(downloaded.error), imagesToDownload, files;
      }
      files := downloaded.value;
    }
    r := Success(kept);
  }
}
