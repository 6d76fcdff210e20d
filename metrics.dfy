/**
 * The per-extractor feature record. Its counters are filled by the feature
 * pass; `CalculateDerivedMetrics` then derives the four ratios and the
 * content-quality score from them in place.
 */
module MetricsModel {
  import opened Constants
  import opened Images
  import opened Videos

  /** `(double) num / den` when `den > 0`, and 0 otherwise: the guarded division of the feature record. */
  function GuardedQuotient(num: real, den: nat): (r: real)
    ensures den == 0 ==> r == 0.0
    ensures den > 0 ==> r * den as real == num
  {
    if den > 0 then num / den as real else 0.0
  }

  /** A guarded quotient of a part by its whole lies in [0, 1]. */
  lemma QuotientOfPartInUnitInterval(part: nat, whole: nat)
    requires part <= whole
    ensures 0.0 <= GuardedQuotient(part as real, whole) <= 1.0
  {
    if whole > 0 {
      var r := GuardedQuotient(part as real, whole);
      assert (1.0 - r) * whole as real == (whole - part) as real;
    }
  }

  /** Guarded division by the same denominator keeps the order of the numerators. */
  lemma QuotientMonotone(a: real, b: real, den: nat)
    requires a <= b
    ensures GuardedQuotient(a, den) <= GuardedQuotient(b, den)
  {
    if den > 0 {
      var qa, qb := GuardedQuotient(a, den), GuardedQuotient(b, den);
      assert (qb - qa) * den as real == b - a;
    }
  }

  /** A numerator of at most `den` times a non-negative bound gives a guarded quotient of at most that bound. */
  lemma QuotientAtMost(num: real, den: nat, bound: real)
    requires 0.0 <= bound && num <= den as real * bound
    ensures GuardedQuotient(num, den) <= bound
  {
    if den > 0 {
      var r := GuardedQuotient(num, den);
      assert (bound - r) * den as real == den as real * bound - num;
    }
  }

  /** 0 for a negative argument, 1 for an argument above 1, the argument otherwise. */
  function Clamp01(x: real): (r: real)
    ensures 0.0 <= r <= 1.0
    ensures 0.0 <= x <= 1.0 ==> r == x
  {
    if x < 0.0 then 0.0 else if x > 1.0 then 1.0 else x
  }

  /**
   * The content-quality score: five bonuses (0.3, 0.2, 0.2, 0.2, 0.1) and
   * three penalties (0.3, 0.2, 0.1), the sum clamped to [0, 1].
   */
  function QualityScore(largeContentBlocks: nat, avgWordsPerContentBlock: real, avgLinkDensity: real,
                        contentRatio: real, consecutiveLargeBlocks: nat, verySmallBlocks: nat,
                        contentBlocks: nat, emptyBlocks: nat): (r: real)
    ensures 0.0 <= r <= 1.0
  {
    var bonus :=
      (if largeContentBlocks > 0 then 0.3 else 0.0)
      + (if avgWordsPerContentBlock > 30.0 then 0.2 else 0.0)
      + (if avgLinkDensity < 0.3 then 0.2 else 0.0)
      + (if contentRatio > 0.3 then 0.2 else 0.0)
      + (if consecutiveLargeBlocks > 0 then 0.1 else 0.0);
    var penalty :=
      (if avgLinkDensity > 0.7 then 0.3 else 0.0)
      + (if verySmallBlocks as real > contentBlocks as real * 0.5 then 0.2 else 0.0)
      + (if emptyBlocks > 0 then 0.1 else 0.0);
    Clamp01(bonus - penalty)
  }

  /** All five bonuses and no penalty give exactly the top score. */
  lemma QualityScorePerfect(large: nat, avgWords: real, avgLinkDensity: real, contentRatio: real,
                            consecutive: nat, verySmall: nat, content: nat, empty: nat)
    requires large > 0 && avgWords > 30.0 && avgLinkDensity < 0.3 && contentRatio > 0.3 && consecutive > 0
    requires verySmall as real <= content as real * 0.5 && empty == 0
    ensures QualityScore(large, avgWords, avgLinkDensity, contentRatio, consecutive, verySmall, content, empty) == 1.0
  {
  }

  /** A page without large blocks scores at most 0.6: the 0.3 and 0.1 bonuses both need one. */
  lemma QualityScoreWithoutLargeBlocks(avgWords: real, avgLinkDensity: real, contentRatio: real,
                                       verySmall: nat, content: nat, empty: nat)
    ensures QualityScore(0, avgWords, avgLinkDensity, contentRatio, 0, verySmall, content, empty) <= 0.6
  {
  }

  /** Each penalty lowers the score by its weight before clamping: a link-heavy page scores at most 0.5. */
  lemma QualityScoreOfLinkHeavyPage(large: nat, avgWords: real, avgLinkDensity: real, contentRatio: real,
                                    consecutive: nat, verySmall: nat, content: nat, empty: nat)
    requires avgLinkDensity > 0.7
    ensures QualityScore(large, avgWords, avgLinkDensity, contentRatio, consecutive, verySmall, content, empty) <= 0.5
  {
  }

  /** The text part of a feature record: block counters, averages and block-size variance. */
  datatype TextFeatures = TextFeatures(
    totalBlocks: nat, emptyBlocks: nat, verySmallBlocks: nat, contentBlocks: nat,
    largeContentBlocks: nat, mediumContentBlocks: nat, smallContentBlocks: nat,
    totalWords: nat, contentWords: nat, largestBlockWords: nat, totalLinkDensity: real,
    consecutiveLargeBlocks: nat, avgLinkDensity: real, avgWordsPerContentBlock: real,
    blockSizeVariance: real)

  /** The media part of a feature record. */
  datatype MediaFeatures = MediaFeatures(
    images: seq<Image>, totalImages: nat, largeImages: nat, videos: seq<Video>, totalVideos: nat)

  /** The feature record of one extractor pass. */
  class Metrics {
    // Content metrics
    var totalBlocks: nat
    var contentBlocks: nat
    var totalWords: nat
    var contentWords: nat

    // Block size categorisation
    var largeContentBlocks: nat
    var mediumContentBlocks: nat
    var smallContentBlocks: nat
    var largestBlockWords: nat

    // Density metrics
    var totalLinkDensity: real
    var avgLinkDensity: real
    var avgWordsPerContentBlock: real

    // Image metrics
    var totalImages: nat
    var largeImages: nat
    var images: seq<Image>

    // Video metrics
    var videos: seq<Video>
    var totalVideos: nat

    // Structural metrics
    var consecutiveLargeBlocks: nat
    var verySmallBlocks: nat
    var emptyBlocks: nat

    // Content quality metrics
    var blockSizeVariance: real
    var contentQualityScore: real

    // Ratios
    var contentRatio: real
    var imageToTextRatio: real
    var largeBlockRatio: real
    var mediaToTextRatio: real

    /** A fresh record: every counter and ratio 0, no images and no videos. */
    constructor ()
      ensures totalBlocks == contentBlocks == totalWords == contentWords == 0
      ensures largeContentBlocks == mediumContentBlocks == smallContentBlocks == largestBlockWords == 0
      ensures totalLinkDensity == avgLinkDensity == avgWordsPerContentBlock == 0.0
      ensures totalImages == largeImages == totalVideos == 0 && images == [] && videos == []
      ensures consecutiveLargeBlocks == verySmallBlocks == emptyBlocks == 0
      ensures blockSizeVariance == contentQualityScore == 0.0
      ensures contentRatio == imageToTextRatio == largeBlockRatio == mediaToTextRatio == 0.0
    {
      totalBlocks, contentBlocks, totalWords, contentWords := 0, 0, 0, 0;
      largeContentBlocks, mediumContentBlocks, smallContentBlocks, largestBlockWords := 0, 0, 0, 0;
      totalLinkDensity, avgLinkDensity, avgWordsPerContentBlock := 0.0, 0.0, 0.0;
      totalImages, largeImages, images := 0, 0, [];
      videos, totalVideos := [], 0;
      consecutiveLargeBlocks, verySmallBlocks, emptyBlocks := 0, 0, 0;
      blockSizeVariance, contentQualityScore := 0.0, 0.0;
      contentRatio, imageToTextRatio, largeBlockRatio, mediaToTextRatio := 0.0, 0.0, 0.0, 0.0;
    }

    /**
     * The record the feature pass leaves behind: the given text and media
     * features, then `calculateDerivedMetrics` run on them.
     */
    constructor Of(t: TextFeatures, f: MediaFeatures)
      ensures Text() == t && Media() == f
      ensures DerivedUpToDate()
    {
      totalBlocks, emptyBlocks, verySmallBlocks, contentBlocks := t.totalBlocks, t.emptyBlocks, t.verySmallBlocks, t.contentBlocks;
      largeContentBlocks, mediumContentBlocks, smallContentBlocks := t.largeContentBlocks, t.mediumContentBlocks, t.smallContentBlocks;
      totalWords, contentWords, largestBlockWords := t.totalWords, t.contentWords, t.largestBlockWords;
      totalLinkDensity, consecutiveLargeBlocks := t.totalLinkDensity, t.consecutiveLargeBlocks;
      avgLinkDensity, avgWordsPerContentBlock, blockSizeVariance := t.avgLinkDensity, t.avgWordsPerContentBlock, t.blockSizeVariance;
      images, totalImages, largeImages, videos, totalVideos := f.images, f.totalImages, f.largeImages, f.videos, f.totalVideos;
      contentQualityScore := 0.0;
      contentRatio, imageToTextRatio, largeBlockRatio, mediaToTextRatio := 0.0, 0.0, 0.0, 0.0;
      new;
      CalculateDerivedMetrics();
    }

    /** The current values of the text fields. */
    function Text(): TextFeatures
      reads this`totalBlocks, this`emptyBlocks, this`verySmallBlocks, this`contentBlocks,
            this`largeContentBlocks, this`mediumContentBlocks, this`smallContentBlocks, this`totalWords,
            this`contentWords, this`largestBlockWords, this`totalLinkDensity, this`consecutiveLargeBlocks,
            this`avgLinkDensity, this`avgWordsPerContentBlock, this`blockSizeVariance
    {
      TextFeatures(totalBlocks, emptyBlocks, verySmallBlocks, contentBlocks,
                   largeContentBlocks, mediumContentBlocks, smallContentBlocks,
                   totalWords, contentWords, largestBlockWords, totalLinkDensity,
                   consecutiveLargeBlocks, avgLinkDensity, avgWordsPerContentBlock, blockSizeVariance)
    }

    /** The current values of the media fields. */
    function Media(): MediaFeatures
      reads this`images, this`totalImages, this`largeImages, this`videos, this`totalVideos
    {
      MediaFeatures(images, totalImages, largeImages, videos, totalVideos)
    }

    /** The content-quality score of the current counters, averages and content ratio. */
    function CurrentQualityScore(): real
      reads this
    {
      QualityScore(largeContentBlocks, avgWordsPerContentBlock, avgLinkDensity, contentRatio,
                   consecutiveLargeBlocks, verySmallBlocks, contentBlocks, emptyBlocks)
    }

    /** The four ratios and the quality score agree with the counters they are derived from. */
    predicate DerivedUpToDate()
      reads this
    {
      && contentRatio == GuardedQuotient(contentBlocks as real, totalBlocks)
      && imageToTextRatio == GuardedQuotient(totalImages as real, contentWords)
      && largeBlockRatio == GuardedQuotient(largeContentBlocks as real, contentBlocks)
      && mediaToTextRatio == GuardedQuotient((totalImages + totalVideos) as real, contentWords)
      && contentQualityScore == CurrentQualityScore()
    }

    /**
     * `calculateDerivedMetrics`: writes the four ratios and then the quality
     * score, and nothing else. Running it on a record whose derived values are
     * already up to date changes nothing.
     */
    method CalculateDerivedMetrics()
      modifies this`contentRatio, this`imageToTextRatio, this`largeBlockRatio, this`mediaToTextRatio,
               this`contentQualityScore
      ensures DerivedUpToDate()
      ensures old(DerivedUpToDate()) ==>
                && contentRatio == old(contentRatio) && imageToTextRatio == old(imageToTextRatio)
                && largeBlockRatio == old(largeBlockRatio) && mediaToTextRatio == old(mediaToTextRatio)
                && contentQualityScore == old(contentQualityScore)
    {
      contentRatio := GuardedQuotient(contentBlocks as real, totalBlocks);
      imageToTextRatio := GuardedQuotient(totalImages as real, contentWords);
      largeBlockRatio := GuardedQuotient(largeContentBlocks as real, contentBlocks);
      mediaToTextRatio := GuardedQuotient((totalImages + totalVideos) as real, contentWords);
      CalculateContentQualityScore();
    }

    /** `calculateContentQualityScore`: accumulates the bonuses and penalties, then clamps. */
    method CalculateContentQualityScore()
      modifies this`contentQualityScore
      ensures contentQualityScore == CurrentQualityScore()
    {
      var score: real := 0.0;

      // Positive factors
      if largeContentBlocks > 0 { score := score + 0.3; }
      if avgWordsPerContentBlock > 30.0 { score := score + 0.2; }
      if avgLinkDensity < 0.3 { score := score + 0.2; }
      if contentRatio > 0.3 { score := score + 0.2; }
      if consecutiveLargeBlocks > 0 { score := score + 0.1; }

      // Negative factors
      if avgLinkDensity > 0.7 { score := score - 0.3; }
      if verySmallBlocks as real > contentBlocks as real * 0.5 { score := score - 0.2; }
      if emptyBlocks > 0 { score := score - 0.1; }

      contentQualityScore := if score < 0.0 then 0.0 else if score > 1.0 then 1.0 else score;
    }
  }

  /** Up-to-date derived values: each ratio is 0 exactly when its guard fails or its numerator is 0. */
  lemma RatiosZeroWithoutDenominator(m: Metrics)
    requires m.DerivedUpToDate()
    ensures m.totalBlocks == 0 ==> m.contentRatio == 0.0
    ensures m.contentWords == 0 ==> m.imageToTextRatio == 0.0 && m.mediaToTextRatio == 0.0
    ensures m.contentBlocks == 0 ==> m.largeBlockRatio == 0.0
  {
  }

  /** Up-to-date derived values: ratios of parts to wholes lie in [0, 1], and media outweigh images alone. */
  lemma RatioBounds(m: Metrics)
    requires m.DerivedUpToDate()
    ensures m.contentBlocks <= m.totalBlocks ==> 0.0 <= m.contentRatio <= 1.0
    ensures m.largeContentBlocks <= m.contentBlocks ==> 0.0 <= m.largeBlockRatio <= 1.0
    ensures m.imageToTextRatio <= m.mediaToTextRatio
    ensures 0.0 <= m.contentQualityScore <= 1.0
  {
    if m.contentBlocks <= m.totalBlocks {
      QuotientOfPartInUnitInterval(m.contentBlocks, m.totalBlocks);
    }
    if m.largeContentBlocks <= m.contentBlocks {
      QuotientOfPartInUnitInterval(m.largeContentBlocks, m.contentBlocks);
    }
    QuotientMonotone(m.totalImages as real, (m.totalImages + m.totalVideos) as real, m.contentWords);
  }
}
