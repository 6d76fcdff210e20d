/**
 * The feature pass of the classifier (`calculateMetrics`): one ordered scan
 * over the labelled text blocks that fills the counters of a fresh feature
 * record, then the image and video counts, then the derived values. Each
 * counter is specified by the reference definition of the feature in
 * `TextBlocks`.
 */
module Features {
  import opened Wrappers
  import opened JavaLang
  import opened Constants
  import opened TextBlocks
  import opened Images
  import opened Videos
  import opened MetricsModel

  /** An image is large when its area exceeds 700 * 700. */
  predicate IsLargeImage(image: Image)
    reads image
  {
    image.area > LARGE_IMAGE_SIZE * LARGE_IMAGE_SIZE
  }

  /** The number of large images. */
  function LargeImageCount(images: seq<Image>): (n: nat)
    reads images
    ensures n <= |images|
  {
    if images == [] then 0
    else LargeImageCount(images[..|images| - 1]) + (if IsLargeImage(images[|images| - 1]) then 1 else 0)
  }

  /** Both stored dimensions of the video parse to positive numbers. */
  predicate IsSizedVideo(v: Video) {
    && ParseNullable(v.width).Some? && ParseNullable(v.width).value > 0
    && ParseNullable(v.height).Some? && ParseNullable(v.height).value > 0
  }

  /**
   * The test `parseInt(width) > 0 && parseInt(height) > 0` succeeds on `v`:
   * the width parses, and the height parses too unless the width already
   * decided the conjunction.
   */
  predicate VideoTestTerminates(v: Video) {
    && ParseNullable(v.width).Some?
    && (ParseNullable(v.width).value > 0 ==> ParseNullable(v.height).Some?)
  }

  /** `r` is `s` with some elements left out: its elements occur in `s` in the same order. */
  predicate IsSubsequence<T(==)>(r: seq<T>, s: seq<T>)
    decreases |s|
  {
    if r == [] then true
    else if s == [] then false
    else
      || (r[|r| - 1] == s[|s| - 1] && IsSubsequence(r[..|r| - 1], s[..|s| - 1]))
      || IsSubsequence(r, s[..|s| - 1])
  }

  /**
   * The videos kept by the feature pass, in order, or the
   * NumberFormatException of the first video whose test throws.
   */
  function SizedVideos(vs: seq<Video>): (r: Result<seq<Video>, Exception>)
    ensures r.Success? <==> forall k :: 0 <= k < |vs| ==> VideoTestTerminates(vs[k])
    ensures r.Failure? ==> r.error == NumberFormatException
    ensures r.Success? ==> |r.value| <= |vs|
    ensures r.Success? ==> forall v :: v in r.value <==> v in vs && IsSizedVideo(v)
  {
    if vs == [] then Success([])
    else
      var init, v := vs[..|vs| - 1], vs[|vs| - 1];
      assert forall k :: 0 <= k < |init| ==> init[k] == vs[k];
      assert forall u :: u in vs <==> u in init || u == v;
      match SizedVideos(init)
      case Failure(e) => Failure(e)
      case Success(kept) =>
        var w := ParseNullable(v.width);
        if w.None? then Failure(NumberFormatException)
        else if w.value <= 0 then Success(kept)
        else
          var h := ParseNullable(v.height);
          if h.None? then Failure(NumberFormatException)
          else if h.value <= 0 then Success(kept)
          else Success(kept + [v])
  }

  /**
   * The kept videos are the sized ones, each as often as it occurs in the
   * input and in input order, so `totalVideos` counts the sized videos with
   * their repetitions.
   */
  lemma {:induction false} SizedVideosKeepsEachVideo(vs: seq<Video>)
    requires SizedVideos(vs).Success?
    ensures var kept := SizedVideos(vs).value;
      && (forall v :: multiset(kept)[v] == if IsSizedVideo(v) then multiset(vs)[v] else 0)
      && IsSubsequence(kept, vs)
  {
    if vs != [] {
      var init, v := vs[..|vs| - 1], vs[|vs| - 1];
      assert vs == init + [v];
      SizedVideosKeepsEachVideo(init);
      var kept := SizedVideos(init).value;
      if IsSizedVideo(v) {
        assert SizedVideos(vs).value == kept + [v];
        assert (kept + [v])[..|kept|] == kept;
      } else {
        assert SizedVideos(vs).value == kept;
      }
    }
  }

  /** The text features of `blocks`, by their reference definitions. */
  function TextFeaturesOf(blocks: Blocks): TextFeatures {
    var contentBlocks := Count(blocks, Content);
    TextFeatures(
      totalBlocks := |blocks|,
      emptyBlocks := Count(blocks, Empty),
      verySmallBlocks := Count(blocks, VerySmall),
      contentBlocks := contentBlocks,
      largeContentBlocks := Count(blocks, LargeContent),
      mediumContentBlocks := Count(blocks, MediumContent),
      smallContentBlocks := Count(blocks, SmallContent),
      totalWords := TotalWords(blocks),
      contentWords := ContentWords(blocks),
      largestBlockWords := LargestContent(blocks),
      totalLinkDensity := LinkDensitySum(blocks),
      consecutiveLargeBlocks := LongestRun(blocks),
      avgLinkDensity := GuardedQuotient(LinkDensitySum(blocks), contentBlocks),
      avgWordsPerContentBlock := GuardedQuotient(ContentWords(blocks) as real, contentBlocks),
      blockSizeVariance := SizeVariance(blocks))
  }

  /** The media features of `images` and of the kept videos `sized`. */
  function MediaFeaturesOf(images: seq<Image>, sized: seq<Video>): MediaFeatures
    reads images
  {
    MediaFeatures(images, |images|, LargeImageCount(images), sized, |sized|)
  }

  /**
   * The text features agree with each other: the size buckets partition the
   * content blocks, the longest run of large blocks is made of large blocks,
   * content words are part of all words, the empty and very small blocks are
   * distinct blocks, and the variance is never negative.
   */
  lemma TextFeaturesConsistent(blocks: Blocks)
    ensures var t := TextFeaturesOf(blocks);
      && t.largeContentBlocks + t.mediumContentBlocks + t.smallContentBlocks == t.contentBlocks <= t.totalBlocks
      && t.consecutiveLargeBlocks <= t.largeContentBlocks
      && t.contentWords <= t.totalWords
      && t.emptyBlocks + t.verySmallBlocks <= t.totalBlocks
      && t.blockSizeVariance >= 0.0
  {
    BucketsPartitionContent(blocks);
    LongestRunAtMostLarge(blocks);
    ContentWordsAtMostTotal(blocks);
    EmptyAndVerySmallFit(blocks);
    SizeVarianceNonNegative(blocks);
  }

  /** The words per content block never exceed the largest block; without content blocks they are 0. */
  lemma AverageWordsAtMostLargest(blocks: Blocks)
    ensures var t := TextFeaturesOf(blocks);
      && t.avgWordsPerContentBlock <= t.largestBlockWords as real
      && (t.contentBlocks == 0 ==> t.avgWordsPerContentBlock == 0.0)
  {
    ContentWordsAtMostLargestPerBlock(blocks);
    QuotientOfWordsAtMost(ContentWords(blocks), Count(blocks, Content), LargestContent(blocks));
  }

  lemma QuotientOfWordsAtMost(words: nat, n: nat, largest: nat)
    requires words <= n * largest
    ensures GuardedQuotient(words as real, n) <= largest as real
  {
    assert (n * largest) as real == n as real * largest as real;
    QuotientAtMost(words as real, n, largest as real);
  }

  /**
   * With link densities in [0, 1] the average link density is in [0, 1] too;
   * without content blocks it is 0.
   */
  lemma AverageLinkDensityBounded(blocks: Blocks)
    ensures Count(blocks, Content) == 0 ==> TextFeaturesOf(blocks).avgLinkDensity == 0.0
    ensures (forall k :: 0 <= k < |blocks| ==> 0.0 <= blocks[k].linkDensity <= 1.0) ==>
              0.0 <= TextFeaturesOf(blocks).avgLinkDensity <= 1.0
  {
    if forall k :: 0 <= k < |blocks| ==> 0.0 <= blocks[k].linkDensity <= 1.0 {
      LinkDensitySumBounds(blocks);
      QuotientOfDensitiesInUnitInterval(LinkDensitySum(blocks), Count(blocks, Content));
    }
  }

  lemma QuotientOfDensitiesInUnitInterval(sum: real, n: nat)
    requires 0.0 <= sum <= n as real
    ensures 0.0 <= GuardedQuotient(sum, n) <= 1.0
  {
    QuotientAtMost(sum, n, 1.0);
    QuotientMonotone(0.0, sum, n);
  }

  /** A video whose width is null or not a number stops the pass with NumberFormatException. */
  lemma UnparsableWidthThrows(vs: seq<Video>, k: int)
    requires 0 <= k < |vs| && ParseNullable(vs[k].width).None?
    ensures SizedVideos(vs) == Failure(NumberFormatException)
  {
    assert !VideoTestTerminates(vs[k]);
  }

  /**
   * The test short-circuits: a video whose width parses to 0 or less is skipped
   * whatever its height holds, even a null.
   */
  lemma NonPositiveWidthSkipsVideo(v: Video)
    requires ParseNullable(v.width).Some? && ParseNullable(v.width).value <= 0
    ensures SizedVideos([v]) == Success([])
  {
    assert [v][..0] == [];
  }

  /** When every video has positive dimensions, all of them are kept, in order. */
  lemma {:induction false} AllSizedVideosKept(vs: seq<Video>)
    requires forall k :: 0 <= k < |vs| ==> IsSizedVideo(vs[k])
    ensures SizedVideos(vs) == Success(vs)
  {
    if vs != [] {
      var init := vs[..|vs| - 1];
      assert forall k :: 0 <= k < |init| ==> init[k] == vs[k];
      AllSizedVideosKept(init);
      assert init + [vs[|vs| - 1]] == vs;
    }
  }

  /** The large images are a part of the images: all of them when every image is large, none when none is. */
  lemma {:induction false} LargeImageCountExtremes(images: seq<Image>)
    ensures (forall k :: 0 <= k < |images| ==> IsLargeImage(images[k])) ==> LargeImageCount(images) == |images|
    ensures (forall k :: 0 <= k < |images| ==> !IsLargeImage(images[k])) ==> LargeImageCount(images) == 0
  {
    if images != [] {
      var init := images[..|images| - 1];
      assert forall k :: 0 <= k < |init| ==> init[k] == images[k];
      LargeImageCountExtremes(init);
    }
  }

  /**
   * `calculateMetrics`. The result is NumberFormatException exactly when a
   * video's width (or, after a positive width, its height) is null or not a
   * number; otherwise it is a fresh record holding the features of the input.
   */
  method CalculateMetrics(blocks: Blocks, images: seq<Image>, videos: seq<Video>)
    returns (r: Result<Metrics, Exception>)
    ensures r.Success? <==> SizedVideos(videos).Success?
    ensures r.Failure? ==> r.error == NumberFormatException
    ensures r.Success? ==> fresh(r.value) && r.value.Text() == TextFeaturesOf(blocks) && r.value.DerivedUpToDate()
    ensures r.Success? ==> r.value.Media() == old(MediaFeaturesOf(images, SizedVideos(videos).value))
  {
    var text := BlockFeatures(blocks);
    var largeImages := CountLargeImages(images);
    var sized := KeepSizedVideos(videos);
    if sized.Failure? {
      return Failure(sized.error);
    }

    var metrics := new Metrics.Of(text, MediaFeatures(images, |images|, largeImages, sized.value, |sized.value|));
    return Success(metrics);
  }

  /** The block loop of `calculateMetrics` followed by the two averages and the variance. */
  method BlockFeatures(blocks: Blocks) returns (text: TextFeatures)
    ensures text == TextFeaturesOf(blocks)
  {
    var scan := ScanBlocks(blocks);

    var avgLinkDensity, avgWordsPerContentBlock := 0.0, 0.0;
    if scan.contentBlocks > 0 {
      avgLinkDensity := scan.totalLinkDensity / scan.contentBlocks as real;
      avgWordsPerContentBlock := scan.contentWords as real / scan.contentBlocks as real;
    }
    text := TextFeatures(
      |blocks|, scan.emptyBlocks, scan.verySmallBlocks, scan.contentBlocks,
      scan.largeContentBlocks, scan.mediumContentBlocks, scan.smallContentBlocks,
      scan.totalWords, scan.contentWords, scan.largestBlockWords, scan.totalLinkDensity,
      scan.maxConsecutiveLarge, avgLinkDensity, avgWordsPerContentBlock, SizeVariance(blocks));
  }

  /** The running values of the block loop: the counters it updates and the two run lengths. */
  datatype ScanState = ScanState(
    emptyBlocks: nat, verySmallBlocks: nat, contentBlocks: nat, contentWords: nat,
    largeContentBlocks: nat, mediumContentBlocks: nat, smallContentBlocks: nat,
    largestBlockWords: nat, totalLinkDensity: real, totalWords: nat,
    consecutiveLargeCount: nat, maxConsecutiveLarge: nat)

  /** The running values after the blocks `bs` have been visited, by the reference definitions. */
  function ScanStateOf(bs: Blocks): ScanState {
    ScanState(
      emptyBlocks := Count(bs, Empty),
      verySmallBlocks := Count(bs, VerySmall),
      contentBlocks := Count(bs, Content),
      contentWords := ContentWords(bs),
      largeContentBlocks := Count(bs, LargeContent),
      mediumContentBlocks := Count(bs, MediumContent),
      smallContentBlocks := Count(bs, SmallContent),
      largestBlockWords := LargestContent(bs),
      totalLinkDensity := LinkDensitySum(bs),
      totalWords := TotalWords(bs),
      consecutiveLargeCount := RunEnd(bs),
      maxConsecutiveLarge := LongestRun(bs))
  }

  /** The loop of `calculateMetrics` over the text blocks, visiting them in order from all-zero counters. */
  method ScanBlocks(blocks: Blocks) returns (scan: ScanState)
    ensures scan == ScanStateOf(blocks)
  {
    scan := ScanState(0, 0, 0, 0, 0, 0, 0, 0, 0.0, 0, 0, 0);
    var i := 0;
    while i < |blocks|
      invariant 0 <= i <= |blocks|
      invariant scan == ScanStateOf(blocks[..i])
    {
      assert blocks[..i + 1] == blocks[..i] + [blocks[i]];
      scan := VisitBlock(scan, blocks[..i], blocks[i]);
      i := i + 1;
    }
    assert blocks[..i] == blocks;
  }

  /**
   * The body of the block loop: the counters `block` falls under go up by
   * one, the word and link-density sums grow by its share, and the run of
   * large content blocks grows or restarts.
   */
  method VisitBlock(scan: ScanState, ghost visited: Blocks, block: TextBlock) returns (next: ScanState)
    requires scan == ScanStateOf(visited)
    ensures next == ScanStateOf(visited + [block])
  {
    ghost var after := visited + [block];
    assert Init(after) == visited && Last(after) == block;

    var numWords := block.numWords;
    var linkDensity := block.linkDensity;
    next := scan;

    if numWords == 0 {
      next := next.(emptyBlocks := next.emptyBlocks + 1, consecutiveLargeCount := 0);
    } else if numWords < WORDS_SMALL_BLOCK {
      next := next.(verySmallBlocks := next.verySmallBlocks + 1, consecutiveLargeCount := 0);
    }

    if block.isContent {
      next := next.(contentBlocks := next.contentBlocks + 1, contentWords := next.contentWords + numWords);

      if numWords > WORDS_LARGE_BLOCK {
        var count := next.consecutiveLargeCount + 1;
        next := next.(largeContentBlocks := next.largeContentBlocks + 1, consecutiveLargeCount := count,
                      maxConsecutiveLarge := if next.maxConsecutiveLarge >= count then next.maxConsecutiveLarge else count);
      } else if numWords >= WORDS_MEDIUM_BLOCK {
        next := next.(mediumContentBlocks := next.mediumContentBlocks + 1, consecutiveLargeCount := 0);
      } else {
        next := next.(smallContentBlocks := next.smallContentBlocks + 1, consecutiveLargeCount := 0);
      }

      if numWords > next.largestBlockWords {
        next := next.(largestBlockWords := numWords);
      }

      next := next.(totalLinkDensity := next.totalLinkDensity + linkDensity);
    } else {
      next := next.(consecutiveLargeCount := 0);
    }
    next := next.(totalWords := next.totalWords + numWords);
  }

  /** The loop over the images that counts the large ones. */
  method CountLargeImages(images: seq<Image>) returns (largeImages: nat)
    ensures largeImages == LargeImageCount(images)
  {
    largeImages := 0;
    var i := 0;
    while i < |images|
      invariant 0 <= i <= |images|
      invariant largeImages == LargeImageCount(images[..i])
    {
      assert images[..i + 1][..i] == images[..i];
      if images[i].area > LARGE_IMAGE_SIZE * LARGE_IMAGE_SIZE {
        largeImages := largeImages + 1;
      }
      i := i + 1;
    }
    assert images[..i] == images;
  }

  /** The loop over the videos that keeps the sized ones; a test that throws ends it. */
  method KeepSizedVideos(videos: seq<Video>) returns (r: Result<seq<Video>, Exception>)
    ensures r == SizedVideos(videos)
  {
    var kept: seq<Video> := [];
    var i := 0;
    while i < |videos|
      invariant 0 <= i <= |videos|
      invariant SizedVideos(videos[..i]) == Success(kept)
    {
      assert videos[..i + 1][..i] == videos[..i];
      var video := videos[i];
      var width := ParseNullable(video.width);
      if width.None? {
        PrefixFailureFixed(videos, i + 1);
        return Failure(NumberFormatException);
      }
      if width.value > 0 {
        var height := ParseNullable(video.height);
        if height.None? {
          PrefixFailureFixed(videos, i + 1);
          return Failure(NumberFormatException);
        }
        if height.value > 0 {
          kept := kept + [video];
        }
      }
      i := i + 1;
    }
    assert videos[..i] == videos;
    return Success(kept);
  }

  /** Once a prefix of the videos makes the test throw, so does every longer prefix. */
  lemma {:induction false} PrefixFailureFixed(vs: seq<Video>, n: nat)
    requires n <= |vs| && SizedVideos(vs[..n]).Failure?
    ensures SizedVideos(vs) == Failure(NumberFormatException)
    decreases |vs| - n
  {
    if n < |vs| {
      assert vs[..n + 1][..n] == vs[..n];
      PrefixFailureFixed(vs, n + 1);
    } else {
      assert vs[..n] == vs;
    }
  }
}
