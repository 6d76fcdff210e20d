/**
 * The classifier's thresholds. The global, Article, Forum and Homepage values
 * are those of the `Constants` class, which defines no others. The scorers
 * also read PhotoGallery, Comic and VideoPlayer classes that `Constants` does
 * not define, so their values here are assumed.
 */
module Constants {

  // Global thresholds
  const LARGE_IMAGE_SIZE: nat := 700
  const WORDS_LARGE_BLOCK: nat := 60
  const WORDS_MEDIUM_BLOCK: nat := 15
  const WORDS_SMALL_BLOCK: nat := 5

  // Article
  const ARTICLE_MIN_TOTAL_WORDS: nat := 100
  const ARTICLE_MIN_LARGE_CONTENT_BLOCKS: nat := 1
  const ARTICLE_MIN_LARGE_BLOCK_RATIO: real := 0.2
  const ARTICLE_MIN_CONTENT_RATIO: real := 0.3
  const ARTICLE_MAX_AVG_LINK_DENSITY: real := 0.2
  const ARTICLE_MIN_LARGEST_BLOCK_WORDS: nat := 60
  const ARTICLE_MIN_AVG_WORDS_PER_BLOCK: real := 25.0
  const ARTICLE_MIN_QUALITY_SCORE: real := 0.4
  const ARTICLE_MIN_CONTENT_WORDS: nat := 100
  const ARTICLE_MIN_CONSECUTIVE_LARGE_BLOCKS: nat := 1

  // Forum
  const FORUM_MIN_TOTAL_WORDS: nat := 100
  const FORUM_MAX_BLOCK_SIZE_VARIANCE: real := 150.0
  const FORUM_MIN_TOTAL_BLOCKS: nat := 15
  const FORUM_MIN_CONTENT_RATIO: real := 0.1
  const FORUM_MIN_AVG_LINK_DENSITY: real := 0.0
  const FORUM_MAX_AVG_LINK_DENSITY: real := 0.4
  const FORUM_MAX_AVG_WORDS_PER_BLOCK: real := 40.0
  const FORUM_MAX_LARGE_BLOCK_RATIO: real := 0.3
  const FORUM_MIN_MEDIUM_BLOCKS: nat := 3
  const FORUM_MIN_BLOCK_SIZE_VARIANCE: real := 25.0
  const FORUM_MIN_CONTENT_BLOCKS: nat := 6
  const FORUM_MAX_CONTENT_RATIO: real := 0.4
  const FORUM_MAX_CONTENT_BLOCKS: nat := 80
  const FORUM_MAX_IMAGES: nat := 10

  // Homepage
  const HOMEPAGE_MIN_CONTENT_BLOCKS: nat := 10
  const HOMEPAGE_MAX_CONTENT_BLOCKS: nat := 300
  const HOMEPAGE_MIN_IMAGES: nat := 1
  const HOMEPAGE_MAX_IMAGES: nat := 50
  const HOMEPAGE_MIN_CONTENT_RATIO: real := 0.02
  const HOMEPAGE_MAX_CONTENT_RATIO: real := 0.3
  const HOMEPAGE_MIN_SMALL_CONTENT_BLOCKS: nat := 5
  const HOMEPAGE_MIN_AVG_LINK_DENSITY: real := 0.1
  const HOMEPAGE_MAX_AVG_LINK_DENSITY: real := 1.0
  const HOMEPAGE_MAX_LARGE_BLOCK_RATIO: real := 0.2
  const HOMEPAGE_MIN_MEDIUM_BLOCKS: nat := 5
  const HOMEPAGE_MIN_TOTAL_BLOCKS: nat := 40

  // Photo gallery
  const GALLERY_MIN_IMAGES: nat := 6
  const GALLERY_MIN_LARGE_IMAGES: nat := 1
  const GALLERY_OPTIMAL_IMAGES: nat := 12
  const GALLERY_MIN_IMAGE_TEXT_RATIO: real := 0.05
  const GALLERY_MAX_IMAGE_TEXT_RATIO: real := 4.0
  const GALLERY_MAX_CONTENT_BLOCKS: nat := 50
  const GALLERY_MAX_TOTAL_BLOCKS: nat := 100
  const GALLERY_MAX_AVG_WORDS_PER_BLOCK: real := 25.0
  const GALLERY_MAX_LINK_DENSITY: real := 0.3
  const GALLERY_MIN_CONTENT_RATIO: real := 0.1

  // Comic
  const COMIC_MIN_LARGE_IMAGE_SIZE: nat := 500
  const COMIC_MIN_TOTAL_IMAGES: nat := 1
  const COMIC_MAX_TOTAL_IMAGES: nat := 30
  const COMIC_MAX_CONTENT_WORDS: nat := 200
  const COMIC_TOTAL_BLOCKS: nat := 30
  const COMIC_MAX_CONTENT_BLOCKS: nat := 10
  const COMIC_MAX_AVG_WORDS_PER_BLOCK: real := 20.0
  const COMIC_MIN_IMAGE_TO_TEXT_RATIO: real := 0.02
  const COMIC_MAX_LINK_DENSITY: real := 0.2
  const COMIC_MIN_LARGE_IMAGE_RATIO: real := 0.3

  // Video player
  const VIDEO_MAX_CONTENT_RATIO: real := 0.3
  const VIDEO_MAX_CONTENT_WORDS: nat := 200
  const VIDEO_MIN_AVG_LINK_DENSITY: real := 0.1
  const VIDEO_MAX_AVG_LINK_DENSITY: real := 0.7
  const VIDEO_MAX_LARGE_BLOCK_RATIO: real := 0.3
  const VIDEO_MIN_MEDIA_RATIO: real := 0.01
  const VIDEO_MAX_LARGE_BLOCKS: nat := 2

  /** The decision rule's confidence threshold: a category needs a score strictly above it. */
  const CONFIDENCE_THRESHOLD: real := 0.6
}
