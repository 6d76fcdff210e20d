/**
 * Text blocks as the classifier sees them after an extractor has labelled the
 * document, and reference definitions of the per-document features that the
 * feature pass accumulates. Each feature is defined on a prefix of the block
 * sequence by its last block, which is the order in which the pass visits
 * them.
 */
module TextBlocks {
  import opened Constants

  /** The three values the classifier reads from a block. */
  datatype TextBlock = TextBlock(numWords: nat, linkDensity: real, isContent: bool)

  type Blocks = seq<TextBlock>

  predicate IsEmptyBlock(b: TextBlock) {
    b.numWords == 0
  }

  predicate IsVerySmallBlock(b: TextBlock) {
    0 < b.numWords < WORDS_SMALL_BLOCK
  }

  predicate IsContentBlock(b: TextBlock) {
    b.isContent
  }

  /** A content block of more than 60 words. */
  predicate IsLargeContent(b: TextBlock) {
    b.isContent && b.numWords > WORDS_LARGE_BLOCK
  }

  /** A content block of 15 to 60 words. */
  predicate IsMediumContent(b: TextBlock) {
    b.isContent && WORDS_MEDIUM_BLOCK <= b.numWords <= WORDS_LARGE_BLOCK
  }

  /** A content block of fewer than 15 words, a content block without words included. */
  predicate IsSmallContent(b: TextBlock) {
    b.isContent && b.numWords < WORDS_MEDIUM_BLOCK
  }

  function Last(bs: Blocks): TextBlock
    requires |bs| > 0
  {
    bs[|bs| - 1]
  }

  function Init(bs: Blocks): Blocks
    requires |bs| > 0
  {
    bs[..|bs| - 1]
  }

  /** The classes of blocks the feature pass counts. */
  datatype BlockClass = Empty | VerySmall | Content | LargeContent | MediumContent | SmallContent

  predicate InClass(b: TextBlock, k: BlockClass) {
    match k
    case Empty => IsEmptyBlock(b)
    case VerySmall => IsVerySmallBlock(b)
    case Content => IsContentBlock(b)
    case LargeContent => IsLargeContent(b)
    case MediumContent => IsMediumContent(b)
    case SmallContent => IsSmallContent(b)
  }

  /** The number of blocks of class `k`. */
  function Count(bs: Blocks, k: BlockClass): (n: nat)
    ensures n <= |bs|
  {
    if bs == [] then 0 else Count(Init(bs), k) + (if InClass(Last(bs), k) then 1 else 0)
  }

  /** The number of words of all blocks. */
  function TotalWords(bs: Blocks): nat {
    if bs == [] then 0 else TotalWords(Init(bs)) + Last(bs).numWords
  }

  /** The number of words of the content blocks. */
  function ContentWords(bs: Blocks): nat {
    if bs == [] then 0
    else ContentWords(Init(bs)) + (if Last(bs).isContent then Last(bs).numWords else 0)
  }

  /** The sum of the link densities of the content blocks. */
  function LinkDensitySum(bs: Blocks): real {
    if bs == [] then 0.0
    else LinkDensitySum(Init(bs)) + (if Last(bs).isContent then Last(bs).linkDensity else 0.0)
  }

  /** The word count of the largest content block, 0 when there is none. */
  function LargestContent(bs: Blocks): nat {
    if bs == [] then 0
    else
      var before := LargestContent(Init(bs));
      if Last(bs).isContent && Last(bs).numWords > before then Last(bs).numWords else before
  }

  /** The number of large content blocks at the end of `bs`, with nothing else between them. */
  function RunEnd(bs: Blocks): nat {
    if bs == [] then 0
    else if IsLargeContent(Last(bs)) then RunEnd(Init(bs)) + 1
    else 0
  }

  /** The length of the longest stretch of adjacent large content blocks. */
  function LongestRun(bs: Blocks): nat {
    if bs == [] then 0
    else
      var before := LongestRun(Init(bs));
      if RunEnd(bs) > before then RunEnd(bs) else before
  }

  /** `bs[i..j]` is made of large content blocks only. */
  predicate LargeStretch(bs: Blocks, i: int, j: int) {
    0 <= i <= j <= |bs| && forall k :: i <= k < j ==> IsLargeContent(bs[k])
  }

  /** The mean block size, over all blocks. */
  function MeanSize(bs: Blocks): real
    requires |bs| > 0
  {
    TotalWords(bs) as real / |bs| as real
  }

  /** The sum of the squared distances of the block sizes from `mean`. */
  function SquaredDeviations(bs: Blocks, mean: real): real {
    if bs == [] then 0.0
    else
      var d := Last(bs).numWords as real - mean;
      SquaredDeviations(Init(bs), mean) + d * d
  }

  /** The population variance of the block sizes; 0 for fewer than two blocks. */
  function SizeVariance(bs: Blocks): real {
    if |bs| > 1 then SquaredDeviations(bs, MeanSize(bs)) / |bs| as real else 0.0
  }

  // ---------------------------------------------------------------------------
  // Properties of the features

  /** Every content block is in exactly one size bucket. */
  lemma {:induction false} BucketsPartitionContent(bs: Blocks)
    ensures Count(bs, LargeContent) + Count(bs, MediumContent) + Count(bs, SmallContent)
            == Count(bs, Content)
  {
    if bs != [] {
      BucketsPartitionContent(Init(bs));
    }
  }

  /** A content block without words is counted as an empty block and as a small content block, and in no other bucket. */
  lemma ZeroWordContentBlockIsSmall(b: TextBlock)
    requires b.isContent && b.numWords == 0
    ensures Count([b], Empty) == 1 && Count([b], VerySmall) == 0
    ensures Count([b], SmallContent) == 1 && Count([b], MediumContent) == 0 && Count([b], LargeContent) == 0
  {
    assert Init([b]) == [] && Last([b]) == b;
  }

  /** A block is never both empty and very small, so the two counts fit in the block count. */
  lemma {:induction false} EmptyAndVerySmallFit(bs: Blocks)
    ensures Count(bs, Empty) + Count(bs, VerySmall) <= |bs|
  {
    if bs != [] {
      EmptyAndVerySmallFit(Init(bs));
    }
  }

  /** The content words are part of the words. */
  lemma {:induction false} ContentWordsAtMostTotal(bs: Blocks)
    ensures ContentWords(bs) <= TotalWords(bs)
  {
    if bs != [] {
      ContentWordsAtMostTotal(Init(bs));
    }
  }

  /** There are no content words without content blocks. */
  lemma {:induction false} NoContentNoContentWords(bs: Blocks)
    requires Count(bs, Content) == 0
    ensures ContentWords(bs) == 0 && LargestContent(bs) == 0
  {
    if bs != [] {
      NoContentNoContentWords(Init(bs));
    }
  }

  /** `LargestContent` bounds every content block and is 0 or the size of one of them. */
  lemma {:induction false} LargestContentIsMaximum(bs: Blocks)
    ensures forall k :: 0 <= k < |bs| && bs[k].isContent ==> bs[k].numWords <= LargestContent(bs)
    ensures LargestContent(bs) == 0
            || exists k :: 0 <= k < |bs| && bs[k].isContent && bs[k].numWords == LargestContent(bs)
  {
    if bs != [] {
      var init := Init(bs);
      LargestContentIsMaximum(init);
      assert forall k :: 0 <= k < |init| ==> init[k] == bs[k];
      if LargestContent(bs) != LargestContent(init) {
        assert Last(bs) == bs[|bs| - 1];
      }
    }
  }

  /** Multiplying by a natural number keeps the order of natural numbers. */
  lemma {:induction false} ScaleMonotone(a: nat, b: nat, c: nat)
    requires b <= c
    ensures a * b <= a * c
  {
    if a > 0 {
      ScaleMonotone(a - 1, b, c);
      assert a * b == (a - 1) * b + b;
      assert a * c == (a - 1) * c + c;
    }
  }

  /** No content block is larger than the largest, so the content words are at most that many per block. */
  lemma {:induction false} ContentWordsAtMostLargestPerBlock(bs: Blocks)
    ensures ContentWords(bs) <= Count(bs, Content) * LargestContent(bs)
  {
    if bs != [] {
      var init, b := Init(bs), Last(bs);
      ContentWordsAtMostLargestPerBlock(init);
      var c, before, largest := Count(init, Content), LargestContent(init), LargestContent(bs);
      assert before <= largest;
      ScaleMonotone(c, before, largest);
      var words := ContentWords(init);
      assert words <= c * largest;
      if b.isContent {
        assert b.numWords <= largest;
        assert ContentWords(bs) == words + b.numWords;
        assert Count(bs, Content) == c + 1;
        assert words + b.numWords <= (c + 1) * largest;
      } else {
        assert ContentWords(bs) == words;
        assert Count(bs, Content) == c;
      }
    }
  }

  /** The trailing run is made of large content blocks. */
  lemma {:induction false} RunEndIsStretch(bs: Blocks)
    ensures RunEnd(bs) <= |bs|
    ensures LargeStretch(bs, |bs| - RunEnd(bs), |bs|)
  {
    if bs != [] && IsLargeContent(Last(bs)) {
      var init := Init(bs);
      RunEndIsStretch(init);
      assert forall k :: 0 <= k < |init| ==> init[k] == bs[k];
    }
  }

  /** A stretch that reaches the end of `bs` is no longer than the trailing run. */
  lemma {:induction false} StretchAtEndWithinRunEnd(bs: Blocks, i: int)
    requires LargeStretch(bs, i, |bs|)
    ensures |bs| - i <= RunEnd(bs)
  {
    if i < |bs| {
      var init := Init(bs);
      assert IsLargeContent(bs[|bs| - 1]);
      assert LargeStretch(init, i, |init|) by {
        assert forall k :: 0 <= k < |init| ==> init[k] == bs[k];
      }
      StretchAtEndWithinRunEnd(init, i);
    }
  }

  /** A stretch of a prefix is a stretch of the whole sequence. */
  lemma StretchOfPrefix(bs: Blocks, n: int, i: int, j: int)
    requires 0 <= n <= |bs| && LargeStretch(bs[..n], i, j)
    ensures LargeStretch(bs, i, j)
  {
    assert forall k :: i <= k < j ==> bs[..n][k] == bs[k];
  }

  /** No stretch of large content blocks is longer than `LongestRun`. */
  lemma {:induction false} LongestRunIsUpperBound(bs: Blocks, i: int, j: int)
    requires LargeStretch(bs, i, j)
    ensures j - i <= LongestRun(bs)
  {
    if bs != [] {
      var init := Init(bs);
      if j == |bs| {
        StretchAtEndWithinRunEnd(bs, i);
      } else {
        assert LargeStretch(init, i, j) by {
          assert forall k :: i <= k < j ==> init[k] == bs[k];
        }
        LongestRunIsUpperBound(init, i, j);
      }
    }
  }

  /** Some stretch of large content blocks is as long as `LongestRun`. */
  lemma {:induction false} LongestRunIsAttained(bs: Blocks) returns (i: int, j: int)
    ensures LargeStretch(bs, i, j) && j - i == LongestRun(bs)
  {
    if bs == [] {
      i, j := 0, 0;
    } else if RunEnd(bs) > LongestRun(Init(bs)) {
      RunEndIsStretch(bs);
      i, j := |bs| - RunEnd(bs), |bs|;
    } else {
      i, j := LongestRunIsAttained(Init(bs));
      StretchOfPrefix(bs, |bs| - 1, i, j);
    }
  }

  /** `LongestRun` is exactly the length of the longest stretch of large content blocks. */
  lemma LongestRunIsLongestStretch(bs: Blocks)
    ensures exists i, j :: LargeStretch(bs, i, j) && j - i == LongestRun(bs)
    ensures forall i, j :: LargeStretch(bs, i, j) ==> j - i <= LongestRun(bs)
  {
    var i, j := LongestRunIsAttained(bs);
    forall i', j' | LargeStretch(bs, i', j')
      ensures j' - i' <= LongestRun(bs)
    {
      LongestRunIsUpperBound(bs, i', j');
    }
  }

  /** The trailing run is made of large blocks, so it never exceeds their number. */
  lemma {:induction false} RunEndAtMostLarge(bs: Blocks)
    ensures RunEnd(bs) <= Count(bs, LargeContent)
  {
    if bs != [] {
      RunEndAtMostLarge(Init(bs));
    }
  }

  /** The longest run of large content blocks never exceeds their number. */
  lemma {:induction false} LongestRunAtMostLarge(bs: Blocks)
    ensures LongestRun(bs) <= Count(bs, LargeContent)
  {
    if bs != [] {
      LongestRunAtMostLarge(Init(bs));
      RunEndAtMostLarge(bs);
    }
  }

  /** With link densities in [0, 1], their sum over the content blocks is between 0 and their number. */
  lemma {:induction false} LinkDensitySumBounds(bs: Blocks)
    requires forall k :: 0 <= k < |bs| ==> 0.0 <= bs[k].linkDensity <= 1.0
    ensures 0.0 <= LinkDensitySum(bs) <= Count(bs, Content) as real
  {
    if bs != [] {
      var init := Init(bs);
      assert forall k :: 0 <= k < |init| ==> init[k] == bs[k];
      LinkDensitySumBounds(init);
    }
  }

  /** A sum of squares is never negative. */
  lemma {:induction false} SquaredDeviationsNonNegative(bs: Blocks, mean: real)
    ensures SquaredDeviations(bs, mean) >= 0.0
  {
    if bs != [] {
      SquaredDeviationsNonNegative(Init(bs), mean);
      var d := Last(bs).numWords as real - mean;
      assert d * d >= 0.0;
    }
  }

  /** The block-size variance is never negative. */
  lemma SizeVarianceNonNegative(bs: Blocks)
    ensures SizeVariance(bs) >= 0.0
  {
    SquaredDeviationsNonNegative(bs, if |bs| > 0 then MeanSize(bs) else 0.0);
  }

  /** Blocks that all have the size of the mean contribute nothing to the variance. */
  lemma {:induction false} SquaredDeviationsOfConstant(bs: Blocks, size: nat)
    requires forall k :: 0 <= k < |bs| ==> bs[k].numWords == size
    ensures SquaredDeviations(bs, size as real) == 0.0
    ensures TotalWords(bs) == |bs| * size
  {
    if bs != [] {
      var init := Init(bs);
      assert forall k :: 0 <= k < |init| ==> init[k] == bs[k];
      SquaredDeviationsOfConstant(init, size);
    }
  }

  /** Blocks of one and the same size have variance 0. */
  lemma SizeVarianceOfUniformBlocks(bs: Blocks, size: nat)
    requires forall k :: 0 <= k < |bs| ==> bs[k].numWords == size
    ensures SizeVariance(bs) == 0.0
  {
    SquaredDeviationsOfConstant(bs, size);
    if |bs| > 1 {
      assert MeanSize(bs) == size as real by {
        assert (|bs| * size) as real == |bs| as real * size as real;
      }
    }
  }
}
