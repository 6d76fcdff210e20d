/**
 * The six category scorers and the decision rule. Each scorer first applies
 * its gate, then adds a fixed weight for every threshold test that holds and
 * caps the sum at 1.0 (`Math.min(1.0, score)`). Weights are exact decimals,
 * so the rounding of Java's `double` additions is not reproduced.
 */
module Scoring {
  import opened Wrappers
  import opened Constants
  import opened Images
  import opened MetricsModel

  /** The page categories; `Unknown` is the label given when no category is confident enough. */
  datatype PageType = PhotoGallery | Comic | VideoPlayer | Forum | Article | Homepage | Unknown {
    predicate IsCategory() {
      !Unknown?
    }
  }

  /** `weight` when the test holds, 0 otherwise. */
  function Weight(test: bool, weight: real): real {
    if test then weight else 0.0
  }

  /** `Math.min(1.0, x)`. */
  function CapAtOne(x: real): (r: real)
    ensures r <= 1.0 && r <= x
    ensures r == x || r == 1.0
  {
    if x < 1.0 then x else 1.0
  }

  /**
   * `num / (double) den >= bound` for a positive bound, with Java's floating
   * division by zero: a positive numerator gives +Infinity, which passes, and
   * 0 / 0.0 gives NaN, which fails.
   */
  predicate QuotientAtLeast(num: nat, den: nat, bound: real)
    requires bound > 0.0
  {
    if den == 0 then num > 0 else num as real / den as real >= bound
  }

  /** Some image has at least the comic size, 500 by 500. */
  predicate HasComicSizedImage(images: seq<Image>)
    reads images
  {
    exists i :: 0 <= i < |images| && images[i].area >= COMIC_MIN_LARGE_IMAGE_SIZE * COMIC_MIN_LARGE_IMAGE_SIZE
  }

  /** `calculatePhotoGalleryScore`. */
  function GalleryScore(m: Metrics): (r: real)
    reads m
    ensures |m.images| == 0 ==> r == 0.0
    ensures 0.0 <= r <= 1.0
  {
    if |m.images| == 0 then 0.0
    else
      CapAtOne(
        Weight(m.totalImages >= GALLERY_MIN_IMAGES, 0.3)
        + Weight(m.largeImages >= GALLERY_MIN_LARGE_IMAGES, 0.2)
        + Weight(m.totalImages >= GALLERY_OPTIMAL_IMAGES, 0.1)
        + Weight(GALLERY_MIN_IMAGE_TEXT_RATIO <= m.imageToTextRatio <= GALLERY_MAX_IMAGE_TEXT_RATIO, 0.2)
        + Weight(m.largeImages >= GALLERY_MIN_LARGE_IMAGES, 0.1)
        + Weight(m.contentBlocks <= GALLERY_MAX_CONTENT_BLOCKS, 0.1)
        + Weight(m.totalBlocks <= GALLERY_MAX_TOTAL_BLOCKS, 0.1)
        + Weight(m.avgWordsPerContentBlock < GALLERY_MAX_AVG_WORDS_PER_BLOCK, 0.1)
        + Weight(m.avgLinkDensity < GALLERY_MAX_LINK_DENSITY, 0.1)
        + Weight(m.contentRatio >= GALLERY_MIN_CONTENT_RATIO, 0.1))
  }

  /** `calculateComicScore`; the search for a comic-sized image runs before the gate but cannot matter without images. */
  function ComicScore(m: Metrics): (r: real)
    reads m, m.images
    ensures |m.images| == 0 ==> r == 0.0
    ensures 0.0 <= r <= 1.0
  {
    var sized := Weight(HasComicSizedImage(m.images), 0.2);
    if |m.images| == 0 then 0.0
    else
      CapAtOne(
        sized
        + Weight(COMIC_MIN_TOTAL_IMAGES <= m.totalImages <= COMIC_MAX_TOTAL_IMAGES, 0.2)
        + Weight(m.contentWords < COMIC_MAX_CONTENT_WORDS, 0.2)
        + Weight(m.totalBlocks < COMIC_TOTAL_BLOCKS, 0.1)
        + Weight(m.contentBlocks < COMIC_MAX_CONTENT_BLOCKS, 0.1)
        + Weight(m.avgWordsPerContentBlock < COMIC_MAX_AVG_WORDS_PER_BLOCK, 0.1)
        + Weight(m.imageToTextRatio >= COMIC_MIN_IMAGE_TO_TEXT_RATIO, 0.1)
        + Weight(m.avgLinkDensity < COMIC_MAX_LINK_DENSITY, 0.1)
        + Weight(QuotientAtLeast(m.largeImages, m.totalImages, COMIC_MIN_LARGE_IMAGE_RATIO), 0.1))
  }

  /** `calculateVideoPlayerScore`: a page with a sized video starts at 0.3. */
  function VideoPlayerScore(m: Metrics): (r: real)
    reads m
    ensures |m.videos| == 0 ==> r == 0.0
    ensures |m.videos| > 0 ==> 0.3 <= r
    ensures 0.0 <= r <= 1.0
  {
    if |m.videos| == 0 then 0.0
    else
      CapAtOne(
        0.3
        + Weight(m.contentRatio <= VIDEO_MAX_CONTENT_RATIO, 0.1)
        + Weight(m.contentWords < VIDEO_MAX_CONTENT_WORDS, 0.2)
        + Weight(VIDEO_MIN_AVG_LINK_DENSITY <= m.avgLinkDensity <= VIDEO_MAX_AVG_LINK_DENSITY, 0.1)
        + Weight(m.largeBlockRatio < VIDEO_MAX_LARGE_BLOCK_RATIO, 0.1)
        + Weight(m.mediaToTextRatio >= VIDEO_MIN_MEDIA_RATIO, 0.2)
        + Weight(m.largeContentBlocks <= VIDEO_MAX_LARGE_BLOCKS, 0.1))
  }

  /** `calculateArticleScore`. */
  function ArticleScore(m: Metrics): (r: real)
    reads m
    ensures m.totalWords < ARTICLE_MIN_TOTAL_WORDS ==> r == 0.0
    ensures 0.0 <= r <= 1.0
  {
    if m.totalWords < ARTICLE_MIN_TOTAL_WORDS then 0.0
    else
      CapAtOne(
        Weight(m.contentQualityScore >= ARTICLE_MIN_QUALITY_SCORE, 0.2)
        + Weight(m.largeContentBlocks >= ARTICLE_MIN_LARGE_CONTENT_BLOCKS, 0.2)
        + Weight(m.largeBlockRatio >= ARTICLE_MIN_LARGE_BLOCK_RATIO, 0.2)
        + Weight(m.contentRatio >= ARTICLE_MIN_CONTENT_RATIO, 0.2)
        + Weight(m.avgLinkDensity <= ARTICLE_MAX_AVG_LINK_DENSITY, 0.1)
        + Weight(m.largestBlockWords >= ARTICLE_MIN_LARGEST_BLOCK_WORDS, 0.1)
        + Weight(m.avgWordsPerContentBlock >= ARTICLE_MIN_AVG_WORDS_PER_BLOCK, 0.1)
        + Weight(m.contentWords >= ARTICLE_MIN_CONTENT_WORDS, 0.1)
        + Weight(m.consecutiveLargeBlocks >= ARTICLE_MIN_CONSECUTIVE_LARGE_BLOCKS, 0.1))
  }

  /** The eight structural tests of the forum scorer, before the image term. */
  function ForumStructure(m: Metrics): (r: real)
    reads m
    ensures 0.0 <= r <= 0.9
  {
    Weight(FORUM_MIN_CONTENT_BLOCKS <= m.contentBlocks <= FORUM_MAX_CONTENT_BLOCKS, 0.15)
    + Weight(m.totalBlocks >= FORUM_MIN_TOTAL_BLOCKS, 0.1)
    + Weight(FORUM_MIN_CONTENT_RATIO <= m.contentRatio <= FORUM_MAX_CONTENT_RATIO, 0.25)
    + Weight(m.mediumContentBlocks >= FORUM_MIN_MEDIUM_BLOCKS, 0.1)
    + Weight(m.largeBlockRatio < FORUM_MAX_LARGE_BLOCK_RATIO, 0.1)
    + Weight(FORUM_MIN_AVG_LINK_DENSITY <= m.avgLinkDensity <= FORUM_MAX_AVG_LINK_DENSITY, 0.1)
    + Weight(m.avgWordsPerContentBlock < FORUM_MAX_AVG_WORDS_PER_BLOCK, 0.05)
    + Weight(FORUM_MIN_BLOCK_SIZE_VARIANCE <= m.blockSizeVariance <= FORUM_MAX_BLOCK_SIZE_VARIANCE, 0.05)
  }

  /**
   * `calculateForumScore`: the image term adds 0.2 for at most ten images and
   * subtracts 0.2 otherwise, and only the upper cap is applied, so the score
   * can be -0.2.
   */
  function ForumScore(m: Metrics): (r: real)
    reads m
    ensures m.totalWords < FORUM_MIN_TOTAL_WORDS ==> r == 0.0
    ensures -0.2 <= r <= 1.0
    ensures r < 0.0 ==> m.totalWords >= FORUM_MIN_TOTAL_WORDS && m.totalImages > FORUM_MAX_IMAGES
  {
    if m.totalWords < FORUM_MIN_TOTAL_WORDS then 0.0
    else CapAtOne(ForumStructure(m) + (if m.totalImages <= FORUM_MAX_IMAGES then 0.2 else -0.2))
  }

  /** `calculateHomepageScore`: no gate. */
  function HomepageScore(m: Metrics): (r: real)
    reads m
    ensures 0.0 <= r <= 1.0
  {
    CapAtOne(
      Weight(HOMEPAGE_MIN_CONTENT_BLOCKS <= m.contentBlocks <= HOMEPAGE_MAX_CONTENT_BLOCKS, 0.3)
      + Weight(m.totalBlocks >= HOMEPAGE_MIN_TOTAL_BLOCKS, 0.2)
      + Weight(HOMEPAGE_MIN_CONTENT_RATIO <= m.contentRatio <= HOMEPAGE_MAX_CONTENT_RATIO, 0.2)
      + Weight(HOMEPAGE_MIN_IMAGES <= m.totalImages <= HOMEPAGE_MAX_IMAGES, 0.1)
      + Weight(m.smallContentBlocks >= HOMEPAGE_MIN_SMALL_CONTENT_BLOCKS, 0.1)
      + Weight(m.mediumContentBlocks >= HOMEPAGE_MIN_MEDIUM_BLOCKS, 0.1)
      + Weight(HOMEPAGE_MIN_AVG_LINK_DENSITY <= m.avgLinkDensity <= HOMEPAGE_MAX_AVG_LINK_DENSITY, 0.1)
      + Weight(m.largeBlockRatio <= HOMEPAGE_MAX_LARGE_BLOCK_RATIO, 0.1))
  }

  /** The confidence score of category `c`. */
  function Score(m: Metrics, c: PageType): (r: real)
    requires c.IsCategory()
    reads m, m.images
    ensures -0.2 <= r <= 1.0
    ensures c != Forum ==> 0.0 <= r
  {
    match c
    case PhotoGallery => GalleryScore(m)
    case Comic => ComicScore(m)
    case VideoPlayer => VideoPlayerScore(m)
    case Forum => ForumScore(m)
    case Article => ArticleScore(m)
    case Homepage => HomepageScore(m)
  }

  /** The map of `classifyBasedOnMetrics` from each category to its confidence score. */
  function ScoreMap(m: Metrics): (scores: map<PageType, real>)
    reads m, m.images
    ensures forall c: PageType :: c.IsCategory() ==> c in scores && scores[c] == Score(m, c)
  {
    map[PhotoGallery := GalleryScore(m), Comic := ComicScore(m), VideoPlayer := VideoPlayerScore(m),
        Forum := ForumScore(m), Article := ArticleScore(m), Homepage := HomepageScore(m)]
  }

  /** An order in which the six categories can be visited: each exactly once. */
  predicate IsScoreOrder(order: seq<PageType>) {
    && |order| == 6
    && (forall c: PageType :: c in order <==> c.IsCategory())
    && (forall i, j :: 0 <= i < j < |order| ==> order[i] != order[j])
  }

  /** The order in which the scores are put into the score map. */
  const INSERTION_ORDER: seq<PageType> := [PhotoGallery, Comic, VideoPlayer, Forum, Article, Homepage]

  lemma InsertionOrderIsScoreOrder()
    ensures IsScoreOrder(INSERTION_ORDER)
  {
    forall c: PageType
      ensures c in INSERTION_ORDER <==> c.IsCategory()
    {
      if c.IsCategory() {
        match c
        case PhotoGallery => assert INSERTION_ORDER[0] == c;
        case Comic => assert INSERTION_ORDER[1] == c;
        case VideoPlayer => assert INSERTION_ORDER[2] == c;
        case Forum => assert INSERTION_ORDER[3] == c;
        case Article => assert INSERTION_ORDER[4] == c;
        case Homepage => assert INSERTION_ORDER[5] == c;
      }
    }
  }

  /**
   * `classifyBasedOnMetrics`: UNKNOWN without content blocks; otherwise the
   * first category, in the map's iteration order `order`, with the highest
   * score, provided that score is strictly above 0.6, and UNKNOWN if no score
   * is. The scorers' gates carry over to the decision: no image rules out
   * the gallery and the comic, no video the video player, fewer than 100
   * words the article and the forum, and a negative forum score the forum.
   */
  method ClassifyBasedOnMetrics(m: Metrics, order: seq<PageType>) returns (r: PageType)
    requires IsScoreOrder(order)
    ensures m.contentBlocks == 0 ==> r == Unknown
    ensures r != Unknown ==> r in order && Score(m, r) > CONFIDENCE_THRESHOLD
    ensures r != Unknown ==> forall c :: c in order ==> Score(m, c) <= Score(m, r)
    ensures r != Unknown ==>
              exists k :: 0 <= k < |order| && order[k] == r && forall j :: 0 <= j < k ==> Score(m, order[j]) < Score(m, r)
    ensures r == Unknown && m.contentBlocks > 0 ==> forall c :: c in order ==> Score(m, c) <= CONFIDENCE_THRESHOLD
    ensures |m.images| == 0 ==> r != PhotoGallery && r != Comic
    ensures |m.videos| == 0 ==> r != VideoPlayer
    ensures m.totalWords < ARTICLE_MIN_TOTAL_WORDS ==> r != Article
    ensures m.totalWords < FORUM_MIN_TOTAL_WORDS || ForumScore(m) < 0.0 ==> r != Forum
  {
    if m.contentBlocks == 0 {
      return Unknown;
    }

    var confidenceScores := ScoreMap(m);
    ghost var pos;
    var maxValue, result;
    maxValue, result, pos := FindHighest(order, confidenceScores);
    HighestScore(m, order, confidenceScores, maxValue, result.value, pos);
    r := if maxValue > CONFIDENCE_THRESHOLD then result.value else Unknown;
  }

  /** What `findHighest` says of the score map, stated for the scores themselves. */
  lemma HighestScore(m: Metrics, order: seq<PageType>, scores: map<PageType, real>, maxValue: real, r: PageType, pos: nat)
    requires IsScoreOrder(order) && scores == ScoreMap(m)
    requires r in order && maxValue == scores[r]
    requires forall c :: c in order ==> scores[c] <= maxValue
    requires pos < |order| && order[pos] == r && forall j :: 0 <= j < pos ==> scores[order[j]] < maxValue
    ensures r.IsCategory() && Score(m, r) == maxValue
    ensures forall c :: c in order ==> Score(m, c) <= Score(m, r)
    ensures exists k :: 0 <= k < |order| && order[k] == r && forall j :: 0 <= j < k ==> Score(m, order[j]) < Score(m, r)
    ensures maxValue <= CONFIDENCE_THRESHOLD ==> forall c :: c in order ==> Score(m, c) <= CONFIDENCE_THRESHOLD
  {
    assert forall j :: 0 <= j < pos ==> order[j] in order;
  }

  /**
   * The search for the highest score in `classifyBasedOnMetrics`: starting
   * from -1, an entry replaces the best so far only when its score is
   * strictly higher, so the first of several equal maxima is kept.
   */
  method FindHighest(order: seq<PageType>, scores: map<PageType, real>)
    returns (maxValue: real, result: Option<PageType>, ghost pos: nat)
    requires |order| > 0
    requires forall c :: c in order ==> c in scores && scores[c] > -1.0
    ensures result.Some? && result.value in order && maxValue == scores[result.value]
    ensures forall c :: c in order ==> scores[c] <= maxValue
    ensures pos < |order| && order[pos] == result.value && forall j :: 0 <= j < pos ==> scores[order[j]] < maxValue
  {
    maxValue := -1.0;
    result := None;
    pos := 0;
    var i := 0;
    while i < |order|
      invariant 0 <= i <= |order|
      invariant i == 0 <==> result.None?
      invariant i == 0 ==> maxValue == -1.0
      invariant result.Some? ==> result.value in order[..i] && maxValue == scores[result.value]
      invariant forall j :: 0 <= j < i ==> scores[order[j]] <= maxValue
      invariant result.Some? ==>
                  pos < i && order[pos] == result.value && forall j :: 0 <= j < pos ==> scores[order[j]] < maxValue
    {
      var c := order[i];
      if scores[c] > maxValue {
        maxValue := scores[c];
        result := Some(c);
        pos := i;
      }
      i := i + 1;
    }
    assert order[..i] == order;
  }

  // ---------------------------------------------------------------------------
  // What the scorers promise

  /** Many images, one of them large, in the right proportion to the text: the gallery score is at least 0.9. */
  lemma ImageRichPageScoresAsGallery(m: Metrics)
    requires |m.images| > 0 && m.totalImages >= GALLERY_OPTIMAL_IMAGES && m.largeImages >= GALLERY_MIN_LARGE_IMAGES
    requires GALLERY_MIN_IMAGE_TEXT_RATIO <= m.imageToTextRatio <= GALLERY_MAX_IMAGE_TEXT_RATIO
    ensures GalleryScore(m) >= 0.9
  {
  }

  /** Ten images or fewer and the gate passed: the forum score is at least 0.2. */
  lemma FewImagesForumBonus(m: Metrics)
    requires m.totalWords >= FORUM_MIN_TOTAL_WORDS && m.totalImages <= FORUM_MAX_IMAGES
    ensures ForumScore(m) >= 0.2
  {
  }
}
