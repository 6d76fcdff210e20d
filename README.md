# A verified model of the boilerpipe web-page classifier

This project models, in Dafny, the core of the web-page classifier that sits on
top of the Boilerpipe extractors. Given a URL and the result of running six
extractors over the page, `WebpageClassifier.classify` builds a map from page
type (photo gallery, comic, video player, forum, article, homepage, unknown) to
the sources of evidence for it. A source is either a URL pattern match or one of
the extractors.

For each extractor pass the classifier does the following:

- keeps the images whose URL names a common image format;
- sizes images from `w`/`width` and `h`/`height` query-string hints;
- downloads the remaining images and sizes them from the decoded files;
- runs one ordered pass over the labelled text blocks to compute a feature record (`Metrics`);
- derives ratios and a content-quality score from that record;
- scores the six categories and picks the best score above 0.6.

The model also covers the value records `Image` and `Video`;
`ImageDownloader`, with its file naming, relative-URL resolution and
one-result-per-image list; and the response checks and cookie header of
`HTMLFetcher`.

Files and modules:

| file | module | what it holds |
|---|---|---|
| wrappers.dfy | Wrappers | `Option` for nullable references, `Result` for calls that throw, the exceptions |
| java_lang.dfy | JavaLang | 32-bit `int` wrap-around and the `String`/`Integer` operations the code relies on |
| constants.dfy | Constants | the thresholds |
| attributes.dfy | MediaAttributes | `nullTrim` and the area-from-attributes rule shared by `Image` and `Video` |
| images.dfy, videos.dfy | Images, Videos | `Image` (a class: its setters mutate it) and `Video` (a datatype: its fields are final) |
| blocks.dfy | TextBlocks | text blocks and reference definitions of every per-document feature |
| metrics.dfy | MetricsModel | the `Metrics` class, `calculateDerivedMetrics`, `calculateContentQualityScore` |
| features.dfy | Features | `calculateMetrics` as loops proved against the reference definitions |
| scoring.dfy | Scoring | the six scorers and `classifyBasedOnMetrics` |
| url_hints.dfy | UrlHints | `hasCommonImageExtension`, `extractDimensionsFromUrl` |
| image_downloader.dfy | ImageDownloads | `getFileExtension`, URL resolution, `downloadImages` |
| image_preparation.dfy | ImagePreparation | image filtering, hint sizing, download split, `updateImageDimensions` |
| classifier.dfy | Classifier | the results map, `matchPattern`, `getType`, `classify` |
| html_fetcher.dfy | HtmlFetcher | the 429 and content-type checks, `addCookie`, `buildCookieBypassHeader` |

Choices the code leaves open, or where it behaves other than its comments suggest:

- **The Forum score can be negative.** The Forum scorer caps its sum only from above (`Math.min(1.0, score)`), so its score can be -0.2. The model keeps that and does not clamp it to [0, 1].
- **`Metrics.videos` is added as a field.** `Metrics.java` declares no `videos` field, but `calculateMetrics` and the video scorer use one. The model adds it: the list of videos that passed the size test.
- **Three constant classes are assumed.** `Constants.java` defines only the global, `Article`, `Forum` and `Homepage` values. The scorers also read the classes `PhotoGallery`, `Comic` and `VideoPlayer`, which `Constants.java` does not define. Their values in `constants.dfy` are assumed:
  - `PhotoGallery`: MIN_IMAGES 6, MIN_LARGE_IMAGES 1, OPTIMAL_IMAGES 12, MIN_IMAGE_TEXT_RATIO 0.05, MAX_IMAGE_TEXT_RATIO 4.0, MAX_CONTENT_BLOCKS 50, MAX_TOTAL_BLOCKS 100, MAX_AVG_WORDS_PER_BLOCK 25, MAX_LINK_DENSITY 0.3, MIN_CONTENT_RATIO 0.1.
  - `Comic`: MIN_LARGE_IMAGE_SIZE 500, MIN_TOTAL_IMAGES 1, MAX_TOTAL_IMAGES 30, MAX_CONTENT_WORDS 200, TOTAL_BLOCKS 30, MAX_CONTENT_BLOCKS 10, MAX_AVG_WORDS_PER_BLOCK 20, MIN_IMAGE_TO_TEXT_RATIO 0.02, MAX_LINK_DENSITY 0.2, MIN_LARGE_IMAGE_RATIO 0.3.
  - `VideoPlayer`: MAX_CONTENT_RATIO 0.3, MAX_CONTENT_WORDS 200, MIN_AVG_LINK_DENSITY 0.1, MAX_AVG_LINK_DENSITY 0.7, MAX_LARGE_BLOCK_RATIO 0.3, MIN_MEDIA_RATIO 0.01, MAX_LARGE_BLOCKS 2.
  - The proved ranges of the scores (each in [0, 1]) do not depend on these values. The lemmas that name thresholds, such as `Scoring.ImageRichPageScoresAsGallery`, do.
- **The scan order is a parameter.** `classifyBasedOnMetrics` scans a `HashMap`, whose order is not fixed. The order is a parameter (`order`, any order that visits the six categories once each). `Scoring.InsertionOrderIsScoreOrder` shows that the documented order is one of them.

## Model

| member | source | states |
|---|---|---|
| JavaLang.Wrap32 | boilerpipe-core/src/main/de/l3s/boilerpipe/document/Image.java:30 | the result is an `int`, congruent to the exact product modulo 2^32, and equal to it when it fits |
| JavaLang.IndexOf | boilerpipe-core/src/main/de/l3s/boilerpipe/classifier/WebpageClassifier.java:442 | -1 exactly when the character is absent; otherwise a position holding it with no earlier occurrence |
| JavaLang.LastIndexOf | boilerpipe-core/src/main/de/l3s/boilerpipe/util/ImageDownloader.java:135 | -1 exactly when the character is absent; otherwise a position holding it with no later occurrence |
| JavaLang.Before | boilerpipe-core/src/main/de/l3s/boilerpipe/classifier/WebpageClassifier.java:441-445 | the result is a prefix without the character, followed in the input by that character whenever it occurs |
| JavaLang.ToLower | boilerpipe-core/src/main/de/l3s/boilerpipe/classifier/WebpageClassifier.java:450 | `toLowerCase` keeps the length, turns each ASCII upper-case letter into its lower-case letter (code + 32), leaves no ASCII upper-case letter and changes no other character |
| JavaLang.TrimStart | boilerpipe-core/src/main/de/l3s/boilerpipe/document/Image.java:72 | everything skipped is at most a space, and the character stopped at is above a space |
| JavaLang.TrimEnd | boilerpipe-core/src/main/de/l3s/boilerpipe/document/Image.java:72 | everything cut off is at most a space, and the last character kept is above a space |
| JavaLang.Trim | boilerpipe-core/src/main/de/l3s/boilerpipe/document/Image.java:72 | `trim` is a slice `s[k..e]` with only removable characters before `k` and after `e`, and a non-empty result begins and ends with a character above a space |
| JavaLang.TrimEmptyIffBlank | boilerpipe-core/src/main/de/l3s/boilerpipe/document/Image.java:72-73 | `trim` gives the empty string exactly for strings of characters at most a space |
| JavaLang.TrimOfUnpadded | boilerpipe-core/src/main/de/l3s/boilerpipe/document/Image.java:72 | a string with no character at most a space is left unchanged by `trim` |
| JavaLang.NonDigitBreaksAllDigits | boilerpipe-core/src/main/de/l3s/boilerpipe/document/Image.java:30-32 | one non-digit anywhere makes the digit test fail |
| JavaLang.ParseInt | boilerpipe-core/src/main/de/l3s/boilerpipe/document/Image.java:30 | a parsed value is always within the `int` range |
| JavaLang.ParseNullable | boilerpipe-core/src/main/de/l3s/boilerpipe/classifier/WebpageClassifier.java:223 | `parseInt(null)` throws, and a parsed value is an `int` |
| JavaLang.NatToString | boilerpipe-core/src/main/de/l3s/boilerpipe/document/Image.java:57 | the decimal digits of a natural number: non-empty and digits only |
| JavaLang.IntToString | boilerpipe-core/src/main/de/l3s/boilerpipe/document/Image.java:57 | `String.valueOf(int)` is non-empty and has no character `trim` removes |
| JavaLang.IntToStringRoundTrip | boilerpipe-core/src/main/de/l3s/boilerpipe/document/Image.java:57 | parsing the decimal string of an `int` gives that `int` back |
| JavaLang.TrimOfIntToString | boilerpipe-core/src/main/de/l3s/boilerpipe/document/Image.java:57 | `trim` leaves the decimal string of an `int` unchanged |
| JavaLang.Utf16Char | boilerpipe-core/src/main/de/l3s/boilerpipe/document/Image.java:100 | a character is one UTF-16 code unit in the Basic Multilingual Plane and two otherwise; every unit lies below 0x10000, and a pair starts exactly when the first unit is a high surrogate |
| JavaLang.Utf16CharInjective | boilerpipe-core/src/main/de/l3s/boilerpipe/document/Image.java:100 | two characters with the same code units are equal |
| JavaLang.Utf16 | boilerpipe-core/src/main/de/l3s/boilerpipe/document/Image.java:100 | the code units a Java `String` holds: between one and two per character |
| JavaLang.Utf16Injective | boilerpipe-core/src/main/de/l3s/boilerpipe/document/Image.java:100 | two strings with the same code units are equal |
| JavaLang.CompareStrings | boilerpipe-core/src/main/de/l3s/boilerpipe/document/Image.java:100 | reference definition of `String.compareTo`: the difference of the first differing UTF-16 code units, or of the UTF-16 lengths when one is a prefix of the other |
| JavaLang.CompareUnitsAntisymmetric | boilerpipe-core/src/main/de/l3s/boilerpipe/document/Image.java:100 | swapping two code-unit sequences negates their comparison |
| JavaLang.CompareUnitsZero | boilerpipe-core/src/main/de/l3s/boilerpipe/document/Image.java:100 | two code-unit sequences compare as 0 exactly when they are equal |
| JavaLang.CompareUnitsTransitive | boilerpipe-core/src/main/de/l3s/boilerpipe/document/Image.java:100 | the order on code-unit sequences is transitive |
| JavaLang.SupplementaryBeforeLastBmpCharacter | boilerpipe-core/src/main/de/l3s/boilerpipe/document/Image.java:100 | U+10000 sorts before U+FFFF, by 0xD800 - 0xFFFF, as its high surrogate decides |
| JavaLang.CompareStringsAntisymmetric | boilerpipe-core/src/main/de/l3s/boilerpipe/document/Image.java:100 | swapping the strings negates `String.compareTo` |
| JavaLang.CompareStringsZero | boilerpipe-core/src/main/de/l3s/boilerpipe/document/Image.java:100 | `String.compareTo` is 0 exactly for equal strings |
| JavaLang.CompareStringsTransitive | boilerpipe-core/src/main/de/l3s/boilerpipe/document/Image.java:100 | the order of `String.compareTo` is transitive |
| JavaLang.Pieces | boilerpipe-core/src/main/de/l3s/boilerpipe/classifier/WebpageClassifier.java:470 | at least one piece, none containing the separator, more than one when the separator occurs |
| JavaLang.JoinPieces | boilerpipe-core/src/main/de/l3s/boilerpipe/classifier/WebpageClassifier.java:470 | the pieces joined back with the separator give the original string |
| JavaLang.DropTrailingEmpty | boilerpipe-core/src/main/de/l3s/boilerpipe/classifier/WebpageClassifier.java:470 | the result is a prefix, and everything dropped is an empty piece |
| JavaLang.Split | boilerpipe-core/src/main/de/l3s/boilerpipe/classifier/WebpageClassifier.java:470 | no part of `split("&")` contains the separator |
| MediaAttributes.NullTrim | boilerpipe-core/src/main/de/l3s/boilerpipe/document/Image.java:68-77 | null exactly for null or all-blank input, otherwise the trimmed string |
| MediaAttributes.NullTrimNoneIffBlank | boilerpipe-core/src/main/de/l3s/boilerpipe/document/Video.java:44-53 | `nullTrim` gives null exactly for null and for blank values |
| MediaAttributes.AreaFromAttributes | boilerpipe-core/src/main/de/l3s/boilerpipe/document/Image.java:27-37 | the area is an `int`; it is -1 when either raw attribute is null or does not parse; when both raw attributes parse, it is the product of the two parsed values wrapped to 32 bits |
| MediaAttributes.NullTrimOfDecimal | boilerpipe-core/src/main/de/l3s/boilerpipe/document/Image.java:56-62 | the decimal string stored by the setters is kept unchanged by `nullTrim` |
| MediaAttributes.StoredDecimal | boilerpipe-core/src/main/de/l3s/boilerpipe/document/Image.java:56-62 | `setWidth`/`setHeight` store the decimal string of the value |
| MediaAttributes.AreaOfDecimalAttributes | boilerpipe-core/src/main/de/l3s/boilerpipe/document/Image.java:27-34 | decimal `int` attributes whose product fits give that product as area |
| MediaAttributes.PaddedAttributeGivesUnknownArea | boilerpipe-core/src/main/de/l3s/boilerpipe/document/Image.java:23-32 | `" 800"` is stored as `"800"` but the area is -1, because the raw attribute is parsed |
| MediaAttributes.AreaOfDecimalAttributesWraps | boilerpipe-core/src/main/de/l3s/boilerpipe/document/Image.java:27-34 | decimal `int` attributes give the product of the two values wrapped to 32 bits, as Java's `int` multiplication does |
| Images.Image.constructor | boilerpipe-core/src/main/de/l3s/boilerpipe/document/Image.java:17-38 | the source is kept; width, height and alt are `nullTrim`med; the area follows the attribute rule |
| Images.Image.SetWidth | boilerpipe-core/src/main/de/l3s/boilerpipe/document/Image.java:56-58 | stores the decimal string of the width and changes nothing else |
| Images.Image.SetHeight | boilerpipe-core/src/main/de/l3s/boilerpipe/document/Image.java:60-62 | stores the decimal string of the height and changes nothing else |
| Images.Image.SetArea | boilerpipe-core/src/main/de/l3s/boilerpipe/document/Image.java:64-66 | changes the area and nothing else |
| Images.Image.SetSource | boilerpipe-core/src/main/de/l3s/boilerpipe/document/Image.java:106-108 | changes the source and nothing else |
| Images.Image.CompareTo | boilerpipe-core/src/main/de/l3s/boilerpipe/document/Image.java:92-104 | 0 for the same object; a larger area first; with equal areas, 0 exactly for equal sources |
| Images.NewImage | boilerpipe-core/src/main/de/l3s/boilerpipe/document/Image.java:17-38 | fails with NullPointerException exactly for a null source; otherwise a fresh image holding the constructor's fields |
| Images.Sources | boilerpipe-core/src/main/de/l3s/boilerpipe/document/Image.java:40-42 | one source per image, in order |
| Images.CompareToAntisymmetric | boilerpipe-core/src/main/de/l3s/boilerpipe/document/Image.java:92-104 | swapping the two images negates `compareTo` |
| Images.CompareToTransitive | boilerpipe-core/src/main/de/l3s/boilerpipe/document/Image.java:92-104 | the order `compareTo` defines is transitive |
| Videos.NewVideo | boilerpipe-core/src/main/de/l3s/boilerpipe/document/Video.java:13-30 | any source, null included, is kept; width and height are null exactly when blank and are otherwise trimmed; the area follows the attribute rule |
| Videos.CompareTo | boilerpipe-core/src/main/de/l3s/boilerpipe/document/Video.java:68-80 | 0 for the same video; a larger area first; with equal areas it throws exactly when a source is null, and is otherwise 0 exactly for equal sources |
| Videos.CompareToAntisymmetric | boilerpipe-core/src/main/de/l3s/boilerpipe/document/Video.java:68-80 | swapping the two videos negates `compareTo`, and swapping keeps a comparison that throws |
| Videos.CompareToTransitive | boilerpipe-core/src/main/de/l3s/boilerpipe/document/Video.java:68-80 | of comparisons that do not throw, sorting before is transitive |
| Videos.LargerDecimalVideoFirst | boilerpipe-core/src/main/de/l3s/boilerpipe/document/Video.java:19-29 | of two videos with decimal sizes whose products fit, the one with the larger product sorts first |
| TextBlocks.Count | boilerpipe-core/src/main/de/l3s/boilerpipe/classifier/WebpageClassifier.java:153-176 | no class counts more blocks than there are |
| TextBlocks.IsEmptyBlock | boilerpipe-core/src/main/de/l3s/boilerpipe/classifier/WebpageClassifier.java:153-155 | reference definition: a block of 0 words is empty |
| TextBlocks.IsVerySmallBlock | boilerpipe-core/src/main/de/l3s/boilerpipe/classifier/WebpageClassifier.java:156-158 | reference definition: a block of 1 to 4 words is very small |
| TextBlocks.IsContentBlock | boilerpipe-core/src/main/de/l3s/boilerpipe/classifier/WebpageClassifier.java:161-163 | reference definition: a block the extractor marked as content |
| TextBlocks.IsLargeContent | boilerpipe-core/src/main/de/l3s/boilerpipe/classifier/WebpageClassifier.java:166-169 | reference definition: a content block of more than 60 words |
| TextBlocks.IsMediumContent | boilerpipe-core/src/main/de/l3s/boilerpipe/classifier/WebpageClassifier.java:170-172 | reference definition: a content block of 15 to 60 words |
| TextBlocks.IsSmallContent | boilerpipe-core/src/main/de/l3s/boilerpipe/classifier/WebpageClassifier.java:173-175 | reference definition: a content block of fewer than 15 words, a wordless one included |
| TextBlocks.BucketsPartitionContent | boilerpipe-core/src/main/de/l3s/boilerpipe/classifier/WebpageClassifier.java:161-176 | large + medium + small content blocks is the number of content blocks |
| TextBlocks.ZeroWordContentBlockIsSmall | boilerpipe-core/src/main/de/l3s/boilerpipe/classifier/WebpageClassifier.java:153-176 | a content block without words counts as empty and as small content, and in no other bucket |
| TextBlocks.EmptyAndVerySmallFit | boilerpipe-core/src/main/de/l3s/boilerpipe/classifier/WebpageClassifier.java:153-159 | empty blocks + very small blocks is at most the number of blocks |
| TextBlocks.ContentWordsAtMostTotal | boilerpipe-core/src/main/de/l3s/boilerpipe/classifier/WebpageClassifier.java:163 | the content words are at most the total words |
| TextBlocks.NoContentNoContentWords | boilerpipe-core/src/main/de/l3s/boilerpipe/classifier/WebpageClassifier.java:161-181 | without content blocks, the content words and the largest block are 0 |
| TextBlocks.LargestContentIsMaximum | boilerpipe-core/src/main/de/l3s/boilerpipe/classifier/WebpageClassifier.java:179-181 | the largest block bounds every content block and is 0 or the size of one of them |
| TextBlocks.ContentWordsAtMostLargestPerBlock | boilerpipe-core/src/main/de/l3s/boilerpipe/classifier/WebpageClassifier.java:163-181 | content words are at most content blocks times the largest block |
| TextBlocks.LongestRunIsLongestStretch | boilerpipe-core/src/main/de/l3s/boilerpipe/classifier/WebpageClassifier.java:143-191 | the consecutive-large count is attained by a stretch of adjacent large content blocks, and no such stretch is longer |
| TextBlocks.LongestRunIsUpperBound | boilerpipe-core/src/main/de/l3s/boilerpipe/classifier/WebpageClassifier.java:166-169 | no stretch of large content blocks is longer than the consecutive-large count |
| TextBlocks.LongestRunIsAttained | boilerpipe-core/src/main/de/l3s/boilerpipe/classifier/WebpageClassifier.java:166-169 | some stretch of large content blocks is exactly as long as the consecutive-large count |
| TextBlocks.RunEndIsStretch | boilerpipe-core/src/main/de/l3s/boilerpipe/classifier/WebpageClassifier.java:166-186 | the running count is the length of a trailing stretch of large content blocks |
| TextBlocks.StretchAtEndWithinRunEnd | boilerpipe-core/src/main/de/l3s/boilerpipe/classifier/WebpageClassifier.java:166-186 | a stretch ending at the last block is no longer than the running count |
| TextBlocks.RunEndAtMostLarge | boilerpipe-core/src/main/de/l3s/boilerpipe/classifier/WebpageClassifier.java:166-168 | the running count never exceeds the number of large content blocks |
| TextBlocks.LongestRunAtMostLarge | boilerpipe-core/src/main/de/l3s/boilerpipe/classifier/WebpageClassifier.java:166-191 | the consecutive-large count never exceeds the number of large content blocks |
| TextBlocks.LinkDensitySumBounds | boilerpipe-core/src/main/de/l3s/boilerpipe/classifier/WebpageClassifier.java:184 | with densities in [0, 1], their sum over the content blocks is between 0 and the content-block count |
| TextBlocks.SquaredDeviationsNonNegative | boilerpipe-core/src/main/de/l3s/boilerpipe/classifier/WebpageClassifier.java:202-204 | a sum of squared deviations is never negative |
| TextBlocks.SizeVarianceNonNegative | boilerpipe-core/src/main/de/l3s/boilerpipe/classifier/WebpageClassifier.java:200-205 | the block-size variance is never negative |
| TextBlocks.SquaredDeviationsOfConstant | boilerpipe-core/src/main/de/l3s/boilerpipe/classifier/WebpageClassifier.java:200-205 | blocks all of one size have total size count times size, and deviate 0 from it |
| TextBlocks.SizeVarianceOfUniformBlocks | boilerpipe-core/src/main/de/l3s/boilerpipe/classifier/WebpageClassifier.java:200-205 | blocks all of one size have variance 0 |
| MetricsModel.GuardedQuotient | boilerpipe-core/src/main/de/l3s/boilerpipe/classifier/Metrics.java:54-57 | 0 for a zero denominator, otherwise the value that times the denominator gives the numerator |
| MetricsModel.QuotientOfPartInUnitInterval | boilerpipe-core/src/main/de/l3s/boilerpipe/classifier/Metrics.java:54-56 | a part over its whole lies in [0, 1] |
| MetricsModel.QuotientMonotone | boilerpipe-core/src/main/de/l3s/boilerpipe/classifier/Metrics.java:55-57 | guarded division keeps the order of the numerators |
| MetricsModel.QuotientAtMost | boilerpipe-core/src/main/de/l3s/boilerpipe/classifier/WebpageClassifier.java:194-197 | a numerator of at most count times a bound gives a quotient of at most the bound |
| MetricsModel.Clamp01 | boilerpipe-core/src/main/de/l3s/boilerpipe/classifier/Metrics.java:81 | the result lies in [0, 1] and equals the argument when the argument already does |
| MetricsModel.QualityScore | boilerpipe-core/src/main/de/l3s/boilerpipe/classifier/Metrics.java:66-82 | the content-quality score lies in [0, 1] |
| MetricsModel.QualityScorePerfect | boilerpipe-core/src/main/de/l3s/boilerpipe/classifier/Metrics.java:69-81 | all five bonuses and no penalty give exactly 1.0 |
| MetricsModel.QualityScoreWithoutLargeBlocks | boilerpipe-core/src/main/de/l3s/boilerpipe/classifier/Metrics.java:70-74 | without large blocks the score is at most 0.6 |
| MetricsModel.QualityScoreOfLinkHeavyPage | boilerpipe-core/src/main/de/l3s/boilerpipe/classifier/Metrics.java:72-77 | an average link density above 0.7 keeps the score at most 0.5 |
| MetricsModel.Metrics.constructor | boilerpipe-core/src/main/de/l3s/boilerpipe/classifier/Metrics.java:10-48 | a new record has every counter and ratio 0, and no images or videos |
| MetricsModel.Metrics.Of | boilerpipe-core/src/main/de/l3s/boilerpipe/classifier/WebpageClassifier.java:138-231 | the record holds the given text and media features, with derived values up to date |
| MetricsModel.Metrics.CalculateDerivedMetrics | boilerpipe-core/src/main/de/l3s/boilerpipe/classifier/Metrics.java:53-61 | writes only the four ratios and the quality score and leaves them agreeing with the counters; a second call changes nothing |
| MetricsModel.Metrics.CalculateContentQualityScore | boilerpipe-core/src/main/de/l3s/boilerpipe/classifier/Metrics.java:66-82 | the accumulated, clamped score equals the reference quality score of the current fields |
| MetricsModel.RatiosZeroWithoutDenominator | boilerpipe-core/src/main/de/l3s/boilerpipe/classifier/Metrics.java:54-57 | each ratio is 0 when its denominator is 0 |
| MetricsModel.RatioBounds | boilerpipe-core/src/main/de/l3s/boilerpipe/classifier/Metrics.java:54-81 | content and large-block ratios lie in [0, 1] for parts of wholes; the media ratio is at least the image ratio; the quality score lies in [0, 1] |
| Features.LargeImageCount | boilerpipe-core/src/main/de/l3s/boilerpipe/classifier/WebpageClassifier.java:212-216 | the large images are at most all images |
| Features.IsLargeImage | boilerpipe-core/src/main/de/l3s/boilerpipe/classifier/WebpageClassifier.java:213 | reference definition: an image whose area exceeds 700 * 700 |
| Features.LargeImageCountExtremes | boilerpipe-core/src/main/de/l3s/boilerpipe/classifier/WebpageClassifier.java:212-218 | all images large gives the image count, none large gives 0 |
| Features.SizedVideos | boilerpipe-core/src/main/de/l3s/boilerpipe/classifier/WebpageClassifier.java:221-227 | fails with NumberFormatException exactly when some video's test throws; otherwise keeps exactly the videos with both dimensions positive (multiplicity and order in `SizedVideosKeepsEachVideo`) |
| Features.SizedVideosKeepsEachVideo | boilerpipe-core/src/main/de/l3s/boilerpipe/classifier/WebpageClassifier.java:221-227 | each sized video is kept as often as it occurs and in input order (a subsequence of the input), and no other video is kept, so `totalVideos` is the number of sized videos with repetitions |
| Features.IsSizedVideo | boilerpipe-core/src/main/de/l3s/boilerpipe/classifier/WebpageClassifier.java:223 | reference definition: both stored dimensions parse to positive numbers |
| Features.VideoTestTerminates | boilerpipe-core/src/main/de/l3s/boilerpipe/classifier/WebpageClassifier.java:223 | reference definition: the width parses, and the height parses when the width is positive, so `&&` throws nothing |
| Features.UnparsableWidthThrows | boilerpipe-core/src/main/de/l3s/boilerpipe/classifier/WebpageClassifier.java:223 | a null or non-numeric width makes the feature pass throw |
| Features.NonPositiveWidthSkipsVideo | boilerpipe-core/src/main/de/l3s/boilerpipe/classifier/WebpageClassifier.java:223 | a non-positive width skips the video whatever the height, even null |
| Features.AllSizedVideosKept | boilerpipe-core/src/main/de/l3s/boilerpipe/classifier/WebpageClassifier.java:221-227 | when every video has positive dimensions, all are kept in order |
| Features.PrefixFailureFixed | boilerpipe-core/src/main/de/l3s/boilerpipe/classifier/WebpageClassifier.java:222-226 | once a prefix of the videos throws, the whole list throws |
| Features.TextFeaturesConsistent | boilerpipe-core/src/main/de/l3s/boilerpipe/classifier/WebpageClassifier.java:139-205 | buckets partition the content blocks; consecutive-large is at most the large blocks; content words are at most total words; empty + very small is at most all blocks; variance is at least 0 |
| Features.AverageWordsAtMostLargest | boilerpipe-core/src/main/de/l3s/boilerpipe/classifier/WebpageClassifier.java:194-197 | the average words per content block is at most the largest block, and 0 without content blocks |
| Features.AverageLinkDensityBounded | boilerpipe-core/src/main/de/l3s/boilerpipe/classifier/WebpageClassifier.java:194-195 | the average link density is 0 without content blocks, and lies in [0, 1] for densities in [0, 1] |
| Features.CalculateMetrics | boilerpipe-core/src/main/de/l3s/boilerpipe/classifier/WebpageClassifier.java:137-234 | throws exactly when a video test throws; otherwise a fresh record with the reference text features, the images, the large-image count, the kept videos and up-to-date derived values |
| Features.BlockFeatures | boilerpipe-core/src/main/de/l3s/boilerpipe/classifier/WebpageClassifier.java:139-205 | the text features, averages and variance equal their reference definitions |
| Features.ScanBlocks | boilerpipe-core/src/main/de/l3s/boilerpipe/classifier/WebpageClassifier.java:142-191 | the counters after the block loop equal the reference definitions of the features |
| Features.VisitBlock | boilerpipe-core/src/main/de/l3s/boilerpipe/classifier/WebpageClassifier.java:148-188 | one loop body takes the counters of a prefix to those of the prefix extended by the block |
| Features.CountLargeImages | boilerpipe-core/src/main/de/l3s/boilerpipe/classifier/WebpageClassifier.java:212-216 | the loop counts exactly the large images |
| Features.KeepSizedVideos | boilerpipe-core/src/main/de/l3s/boilerpipe/classifier/WebpageClassifier.java:221-227 | the loop keeps the sized videos, or throws as `SizedVideos` says |
| Scoring.CapAtOne | boilerpipe-core/src/main/de/l3s/boilerpipe/classifier/WebpageClassifier.java:311 | `Math.min(1.0, x)` is at most 1 and at most x, and is one of them |
| Scoring.QuotientAtLeast | boilerpipe-core/src/main/de/l3s/boilerpipe/classifier/WebpageClassifier.java:333 | reference definition of `num / (double) den >= bound`: for a zero denominator a positive numerator passes (+Infinity) and 0 fails (NaN) |
| Scoring.HasComicSizedImage | boilerpipe-core/src/main/de/l3s/boilerpipe/classifier/WebpageClassifier.java:316-321 | reference definition: some image has an area of at least 500 * 500 |
| Scoring.GalleryScore | boilerpipe-core/src/main/de/l3s/boilerpipe/classifier/WebpageClassifier.java:289-312 | 0 without images; always in [0, 1] |
| Scoring.ComicScore | boilerpipe-core/src/main/de/l3s/boilerpipe/classifier/WebpageClassifier.java:314-336 | 0 without images; always in [0, 1] |
| Scoring.VideoPlayerScore | boilerpipe-core/src/main/de/l3s/boilerpipe/classifier/WebpageClassifier.java:338-355 | 0 without videos; at least 0.3 with one; always in [0, 1] |
| Scoring.ArticleScore | boilerpipe-core/src/main/de/l3s/boilerpipe/classifier/WebpageClassifier.java:357-373 | 0 below 100 total words; always in [0, 1] |
| Scoring.ForumStructure | boilerpipe-core/src/main/de/l3s/boilerpipe/classifier/WebpageClassifier.java:380-396 | the eight structural weights add up to between 0 and 0.9 |
| Scoring.ForumScore | boilerpipe-core/src/main/de/l3s/boilerpipe/classifier/WebpageClassifier.java:375-405 | 0 below 100 total words; in [-0.2, 1]; negative only past the gate with more than ten images |
| Scoring.HomepageScore | boilerpipe-core/src/main/de/l3s/boilerpipe/classifier/WebpageClassifier.java:407-427 | always in [0, 1] |
| Scoring.Score | boilerpipe-core/src/main/de/l3s/boilerpipe/classifier/WebpageClassifier.java:245-267 | every category's score is in [-0.2, 1], and only Forum's can be negative |
| Scoring.ScoreMap | boilerpipe-core/src/main/de/l3s/boilerpipe/classifier/WebpageClassifier.java:243-267 | the map holds every category with its score |
| Scoring.InsertionOrderIsScoreOrder | boilerpipe-core/src/main/de/l3s/boilerpipe/classifier/WebpageClassifier.java:246-267 | the order of insertion visits each of the six categories exactly once |
| Scoring.ClassifyBasedOnMetrics | boilerpipe-core/src/main/de/l3s/boilerpipe/classifier/WebpageClassifier.java:236-287 | UNKNOWN without content blocks; a category, only with a score above 0.6 that is the maximum and is strictly higher than every category scanned before it; UNKNOWN with content blocks only when no score is above 0.6; never the gallery or comic without images, the video player without videos, the article or forum below 100 words, or the forum with a negative score |
| Scoring.HighestScore | boilerpipe-core/src/main/de/l3s/boilerpipe/classifier/WebpageClassifier.java:269-282 | the best entry of the score map is the maximal score, the first maximal in scan order, and bounds all scores by the threshold when it is below it |
| Scoring.FindHighest | boilerpipe-core/src/main/de/l3s/boilerpipe/classifier/WebpageClassifier.java:269-277 | the loop finds an entry with the maximal score, and scores scanned before it are strictly lower |
| Scoring.ImageRichPageScoresAsGallery | boilerpipe-core/src/main/de/l3s/boilerpipe/classifier/WebpageClassifier.java:296-301 | twelve images or more, one large, and an image-to-text ratio in range give a gallery score of at least 0.9 |
| Scoring.FewImagesForumBonus | boilerpipe-core/src/main/de/l3s/boilerpipe/classifier/WebpageClassifier.java:399-403 | past the gate with at most ten images, the forum score is at least 0.2 |
| UrlHints.EndsWithAny | boilerpipe-core/src/main/de/l3s/boilerpipe/classifier/WebpageClassifier.java:449-453 | true exactly when the string ends with one of the extensions |
| UrlHints.HasCommonImageExtension | boilerpipe-core/src/main/de/l3s/boilerpipe/classifier/WebpageClassifier.java:435-456 | false for null or empty; otherwise true exactly when the text before the first `?`, lower-cased, ends with one of the six extensions |
| UrlHints.QueryIgnoredByExtensionTest | boilerpipe-core/src/main/de/l3s/boilerpipe/classifier/WebpageClassifier.java:441-445 | for every path without `?`, adding a query string does not change the extension test |
| UrlHints.UpperCaseExtensionAccepted | boilerpipe-core/src/main/de/l3s/boilerpipe/classifier/WebpageClassifier.java:450 | a path ending in `.JPG` is accepted |
| UrlHints.ExtractDimensionsFromUrl | boilerpipe-core/src/main/de/l3s/boilerpipe/classifier/WebpageClassifier.java:464-502 | the loop returns the last width hint and the last height hint, or null when either is missing |
| UrlHints.QueryParams | boilerpipe-core/src/main/de/l3s/boilerpipe/classifier/WebpageClassifier.java:469-470 | no query parameter contains `&` |
| UrlHints.ParamValue | boilerpipe-core/src/main/de/l3s/boilerpipe/classifier/WebpageClassifier.java:477-479 | the key, `=` and the value give the parameter back, as `split("=", 2)` cuts it at the first `=` |
| UrlHints.ParamKey | boilerpipe-core/src/main/de/l3s/boilerpipe/classifier/WebpageClassifier.java:477-478 | reference definition: the lower-cased text before the parameter's first `=` |
| UrlHints.DimensionsFromUrl | boilerpipe-core/src/main/de/l3s/boilerpipe/classifier/WebpageClassifier.java:464-502 | reference definition: null without a `?`, otherwise the last width hint and the last height hint when both exist |
| UrlHints.ReadParam | boilerpipe-core/src/main/de/l3s/boilerpipe/classifier/WebpageClassifier.java:476-494 | a parameter with a numeric width or height overwrites that dimension, and otherwise the values are kept |
| UrlHints.LastOfIsLast | boilerpipe-core/src/main/de/l3s/boilerpipe/classifier/WebpageClassifier.java:475-496 | the last value found exists exactly when some element has one, and no later element has one |
| UrlHints.LastHintIsLastOf | boilerpipe-core/src/main/de/l3s/boilerpipe/classifier/WebpageClassifier.java:475-496 | the hint of the parameters is the last value that a parameter gives |
| UrlHints.LastHintIsLastOccurrence | boilerpipe-core/src/main/de/l3s/boilerpipe/classifier/WebpageClassifier.java:475-496 | a hint exists exactly when some parameter gives one, and it comes from a parameter after which none gives another |
| UrlHints.DimensionsNeedBothHints | boilerpipe-core/src/main/de/l3s/boilerpipe/classifier/WebpageClassifier.java:465-501 | dimensions are found exactly when the URL has a query string with a width hint and a height hint |
| UrlHints.NonNumericHintIgnored | boilerpipe-core/src/main/de/l3s/boilerpipe/classifier/WebpageClassifier.java:481-494 | later parameters that give no value, such as `w=auto`, leave the earlier hint in place |
| ImageDownloads.PathPart | boilerpipe-core/src/main/de/l3s/boilerpipe/util/ImageDownloader.java:123-132 | a prefix of the URL with no `?` and no `#` |
| ImageDownloads.GetFileExtension | boilerpipe-core/src/main/de/l3s/boilerpipe/util/ImageDownloader.java:121-141 | starts with `.` and has at least two characters; when the path's last `.` comes before its last character, the extension is the lower-cased path from that dot; otherwise `.jpg` |
| ImageDownloads.ExtensionHasOneDot | boilerpipe-core/src/main/de/l3s/boilerpipe/util/ImageDownloader.java:123-138 | the extension has no `.` after the first, and no `?` or `#` |
| ImageDownloads.DefaultExtension | boilerpipe-core/src/main/de/l3s/boilerpipe/util/ImageDownloader.java:135-140 | a path with no dot, or ending in one, gives `.jpg` |
| ImageDownloads.ExtensionIgnoresQuery | boilerpipe-core/src/main/de/l3s/boilerpipe/util/ImageDownloader.java:123-126 | the query string plays no part in the extension |
| ImageDownloads.NormalizedBase | boilerpipe-core/src/main/de/l3s/boilerpipe/util/ImageDownloader.java:53-63 | starts with `http`; it is the base, with `https://` put in front when the base does not start with `http`, and with one trailing `/` removed exactly when that text ends in `/` |
| ImageDownloads.AbsoluteSource | boilerpipe-core/src/main/de/l3s/boilerpipe/util/ImageDownloader.java:51-70 | the resolved URL is the normalised base, then one `/` inserted exactly when the source does not start with `/`, then the source: it starts with the base, holds `/` right after it, ends with the source and is exactly as long as those parts |
| ImageDownloads.SingleSlashAtSeam | boilerpipe-core/src/main/de/l3s/boilerpipe/util/ImageDownloader.java:61-69 | when the base does not end in `/` and the source does not start with `//`, the seam holds exactly one `/` |
| ImageDownloads.AbsoluteSourceKept | boilerpipe-core/src/main/de/l3s/boilerpipe/util/ImageDownloader.java:71-74 | a source starting with `http` is not rewritten |
| ImageDownloads.SourceToFetch | boilerpipe-core/src/main/de/l3s/boilerpipe/util/ImageDownloader.java:48-74 | the URL fetched starts with `http` and ends with the image's source |
| ImageDownloads.FileName | boilerpipe-core/src/main/de/l3s/boilerpipe/util/ImageDownloader.java:79-81 | the file name starts with `image_` and ends with the extension of the original source |
| ImageDownloads.RewrittenSource | boilerpipe-core/src/main/de/l3s/boilerpipe/util/ImageDownloader.java:48-74 | reference definition: a blank source is kept, any other becomes the URL fetched |
| ImageDownloads.DropTrailingSlashes | boilerpipe-core/src/main/de/l3s/boilerpipe/util/ImageDownloader.java:81 | the path name `java.io.File` keeps: the longest prefix not ending in `/`, with only `/` after it |
| ImageDownloads.DropTrailingSlashesAppend | boilerpipe-core/src/main/de/l3s/boilerpipe/util/ImageDownloader.java:81 | dropping trailing slashes from `a + b` touches only `b` when `b` does not start with `/` |
| ImageDownloads.StoredFileName | boilerpipe-core/src/main/de/l3s/boilerpipe/util/ImageDownloader.java:80-81 | the name of the file `new File(targetDir, fileName)` denotes is `fileName` without trailing slashes; it starts with `image_` and holds `/` exactly when the extension does once its own trailing slashes are dropped |
| ImageDownloads.DownloadedFile | boilerpipe-core/src/main/de/l3s/boilerpipe/util/ImageDownloader.java:44-108 | reference definition of one entry: null for a blank source, a URL not served, or a stored name still holding `/`; otherwise the stored name; a file exists only when the rewritten source is the fetched URL and that URL was served, and then its name holds no `/` |
| ImageDownloads.DownloadImage | boilerpipe-core/src/main/de/l3s/boilerpipe/util/ImageDownloader.java:45-108 | one image: its file entry is the reference entry (none for a blank source, a failed transfer, or a stored name still holding `/`; a trailing `/` is dropped and the file saved), and its source becomes the rewritten source |
| ImageDownloads.DownloadImages | boilerpipe-core/src/main/de/l3s/boilerpipe/util/ImageDownloader.java:31-113 | IOException exactly when the directory cannot be created, with no image changed; otherwise one entry per image in order, each the reference entry `DownloadedFile`, and every image holds its rewritten source |
| ImageDownloads.DownloadRound | boilerpipe-core/src/main/de/l3s/boilerpipe/util/ImageDownloader.java:44-110 | one loop round extends the downloaded prefix by one image |
| ImageDownloads.BlankSourceHasNoFile | boilerpipe-core/src/main/de/l3s/boilerpipe/util/ImageDownloader.java:48-104 | a blank source gets a null entry |
| ImageDownloads.ServedImageFileName | boilerpipe-core/src/main/de/l3s/boilerpipe/util/ImageDownloader.java:79-94 | a served image whose extension holds no `/` once its trailing slashes are dropped gets the file `image_<index>` followed by that extension |
| ImageDownloads.DotInHostGivesNoFile | boilerpipe-core/src/main/de/l3s/boilerpipe/util/ImageDownloader.java:79-99 | `http://h.c/p` gets the extension `.c/p` from the dot in its host; the `/` is followed by more text, so the file cannot be opened and its entry is null whatever is served |
| ImageDownloads.ExtensionOfHostSlash | boilerpipe-core/src/main/de/l3s/boilerpipe/util/ImageDownloader.java:121-141 | `http://h.c/` gets the extension `.c/` from the dot in its host |
| ImageDownloads.TrailingSlashStillGetsFile | boilerpipe-core/src/main/de/l3s/boilerpipe/util/ImageDownloader.java:79-94 | when `http://h.c/` is served its file is saved as `image_0.c`, the trailing `/` dropped |
| ImageDownloads.StoredAfterDroppingSlashes | boilerpipe-core/src/main/de/l3s/boilerpipe/util/ImageDownloader.java:79-94 | a served image whose extension without its trailing slashes is a slash-free `stripped` is saved as `image_<index>` plus `stripped` |
| ImageDownloads.ServedFileKeepsItsName | boilerpipe-core/src/main/de/l3s/boilerpipe/util/ImageDownloader.java:80-81 | an extension not ending in `/` leaves the file name unchanged |
| ImageDownloads.RelativeTwinGetsFile | boilerpipe-core/src/main/de/l3s/boilerpipe/util/ImageDownloader.java:51-94 | the relative source `p` under the base `http://h.c` fetches the same URL yet gets `.jpg` and a file when that URL is served |
| ImagePreparation.Select | boilerpipe-core/src/main/de/l3s/boilerpipe/classifier/WebpageClassifier.java:68 | selecting never lengthens the list |
| ImagePreparation.CommonImages | boilerpipe-core/src/main/de/l3s/boilerpipe/classifier/WebpageClassifier.java:68 | reference definition: the images `removeIf` keeps, those whose source has a common image extension |
| ImagePreparation.Unhinted | boilerpipe-core/src/main/de/l3s/boilerpipe/classifier/WebpageClassifier.java:71-83 | reference definition: the images whose source gives no width-and-height hint, in order |
| ImagePreparation.NeedsDownload | boilerpipe-core/src/main/de/l3s/boilerpipe/classifier/WebpageClassifier.java:86 | reference definition: some image has a common extension and no hint |
| ImagePreparation.SelectedIffPassing | boilerpipe-core/src/main/de/l3s/boilerpipe/classifier/WebpageClassifier.java:68 | of distinct images, exactly those whose key passes are kept |
| ImagePreparation.SelectKeepsAllPassing | boilerpipe-core/src/main/de/l3s/boilerpipe/classifier/WebpageClassifier.java:68 | nothing is removed when every image passes |
| ImagePreparation.DownloadNeeded | boilerpipe-core/src/main/de/l3s/boilerpipe/classifier/WebpageClassifier.java:68-86 | some image is left to download exactly when one has a common extension and no hint |
| ImagePreparation.SelectTwiceNonEmpty | boilerpipe-core/src/main/de/l3s/boilerpipe/classifier/WebpageClassifier.java:68-83 | two selections leave an image exactly when some image passes both tests |
| ImagePreparation.PassingBothSelectedTwice | boilerpipe-core/src/main/de/l3s/boilerpipe/classifier/WebpageClassifier.java:68-83 | an image passing both tests survives both selections |
| ImagePreparation.SelectedTwicePassesBoth | boilerpipe-core/src/main/de/l3s/boilerpipe/classifier/WebpageClassifier.java:68-83 | an image surviving both selections passes both tests |
| ImagePreparation.SizedAreaAgreesWithAttributes | boilerpipe-core/src/main/de/l3s/boilerpipe/classifier/WebpageClassifier.java:76-78 | a sized image's area is the area the constructor would derive from its stored width and height |
| ImagePreparation.SetSize | boilerpipe-core/src/main/de/l3s/boilerpipe/classifier/WebpageClassifier.java:76-78 | the three setters leave the decimal width and height and their `int` product |
| ImagePreparation.ApplyUrlHint | boilerpipe-core/src/main/de/l3s/boilerpipe/classifier/WebpageClassifier.java:73-78 | the hint is the URL's dimensions, and the image is sized by it when there is one |
| ImagePreparation.Sizes | boilerpipe-core/src/main/de/l3s/boilerpipe/classifier/WebpageClassifier.java:72-83 | one stored size per image, in order |
| ImagePreparation.HintRound | boilerpipe-core/src/main/de/l3s/boilerpipe/classifier/WebpageClassifier.java:73-82 | one loop round: sizes the image or appends it to the download list |
| ImagePreparation.ApplyUrlHints | boilerpipe-core/src/main/de/l3s/boilerpipe/classifier/WebpageClassifier.java:71-83 | the download list is exactly the unhinted images in order; every image is sized by its hint or keeps its size |
| ImagePreparation.HintsAllApplied | boilerpipe-core/src/main/de/l3s/boilerpipe/classifier/WebpageClassifier.java:71-83 | after the last round the download list is the unhinted images |
| ImagePreparation.HintedOrDownloaded | boilerpipe-core/src/main/de/l3s/boilerpipe/classifier/WebpageClassifier.java:74-82 | an image is downloaded exactly when its URL gives no dimensions |
| ImagePreparation.DecodedSize | boilerpipe-core/src/main/de/l3s/boilerpipe/classifier/WebpageClassifier.java:515-526 | a size is read exactly when the image has a file and the picture fetched from its URL decodes, and it is that picture's size |
| ImagePreparation.UpdateImageDimensions | boilerpipe-core/src/main/de/l3s/boilerpipe/classifier/WebpageClassifier.java:511-539 | an image whose file exists and whose fetched picture decodes takes the decoded size; the others keep theirs |
| ImagePreparation.DownloadAndMeasure | boilerpipe-core/src/main/de/l3s/boilerpipe/classifier/WebpageClassifier.java:86-89 | fails exactly when the directory cannot be created; otherwise gives one file entry per image (the reference entry `DownloadedFile`), the rewritten sources and the sizes decoded from the fetched URLs |
| ImagePreparation.PrepareImages | boilerpipe-core/src/main/de/l3s/boilerpipe/classifier/WebpageClassifier.java:68-89 | keeps exactly the images with a common extension; downloads exactly the unhinted ones, only when there are any; fails exactly when there are some and the directory cannot be created; a downloaded image whose fetched URL decodes takes the size decoded from that URL |
| Classifier.ExtractorsDistinct | boilerpipe-core/src/main/de/l3s/boilerpipe/classifier/WebpageClassifier.java:34-41 | the six extractors are distinct, and none is the URL match |
| Classifier.LabelOfInjective | boilerpipe-core/src/main/de/l3s/boilerpipe/classifier/WebpageClassifier.java:116-135 | different patterns vote for different page types, never for UNKNOWN |
| Classifier.LabelOf | boilerpipe-core/src/main/de/l3s/boilerpipe/classifier/WebpageClassifier.java:116-135 | reference definition: the page type each of the six URL patterns votes for |
| Classifier.Record | boilerpipe-core/src/main/de/l3s/boilerpipe/classifier/WebpageClassifier.java:94-97 | appends to the list of one page type, creating the key, and leaves every other list unchanged |
| Classifier.SourcesFor | boilerpipe-core/src/main/de/l3s/boilerpipe/classifier/WebpageClassifier.java:94-97 | a source is listed for a page type exactly when that pair was recorded |
| Classifier.CollectGroupsByLabel | boilerpipe-core/src/main/de/l3s/boilerpipe/classifier/WebpageClassifier.java:94-97 | the map lists each type's sources in order, and holds the key exactly when a source was recorded |
| Classifier.SourcesForAppend | boilerpipe-core/src/main/de/l3s/boilerpipe/classifier/WebpageClassifier.java:94-97 | later evidence is appended after earlier evidence |
| Classifier.PatternsCover | boilerpipe-core/src/main/de/l3s/boilerpipe/classifier/WebpageClassifier.java:116-135 | every pattern is tested, and no two vote for the same page type |
| Classifier.HitsSources | boilerpipe-core/src/main/de/l3s/boilerpipe/classifier/WebpageClassifier.java:116-135 | with one pattern per type, the URL is a source for a type once when a pattern for it matches, else never |
| Classifier.UrlEvidence | boilerpipe-core/src/main/de/l3s/boilerpipe/classifier/WebpageClassifier.java:116-135 | `URL_MATCH` is listed once under a type exactly when a pattern for it matches, else not at all |
| Classifier.PassFailure | boilerpipe-core/src/main/de/l3s/boilerpipe/classifier/WebpageClassifier.java:56-101 | reference definition of what escapes a pass: nothing for a failed extractor, the IOException of a download into a directory that cannot be created, else the NumberFormatException of an unparsable video size |
| Classifier.ExtractorEvidence | boilerpipe-core/src/main/de/l3s/boilerpipe/classifier/WebpageClassifier.java:56-102 | an extractor is listed once under a type exactly when its pass was processed and classified as it, and the passes never add `URL_MATCH` |
| Classifier.WebpageClassifier.constructor | boilerpipe-core/src/main/de/l3s/boilerpipe/classifier/WebpageClassifier.java:31-32 | both maps start empty |
| Classifier.WebpageClassifier.Add | boilerpipe-core/src/main/de/l3s/boilerpipe/classifier/WebpageClassifier.java:94-97 | the results map records one more source, and the map stays the grouping of all evidence |
| Classifier.WebpageClassifier.TestPattern | boilerpipe-core/src/main/de/l3s/boilerpipe/classifier/WebpageClassifier.java:117-119 | one pattern test records a URL match exactly when it matches |
| Classifier.WebpageClassifier.MatchPattern | boilerpipe-core/src/main/de/l3s/boilerpipe/classifier/WebpageClassifier.java:116-135 | records the URL matches of the six patterns, in order |
| Classifier.WebpageClassifier.GetType | boilerpipe-core/src/main/de/l3s/boilerpipe/classifier/WebpageClassifier.java:110-114 | throws exactly when a video test throws, storing nothing; otherwise stores the record under the extractor, changes no other key, and returns the decision of the scorers on it |
| Classifier.WebpageClassifier.RunPass | boilerpipe-core/src/main/de/l3s/boilerpipe/classifier/WebpageClassifier.java:57-101 | one pass: a failed extractor records nothing; an exception escapes exactly when the reference says so, recording nothing and storing no metrics; otherwise its extractor is recorded under its page |
| Classifier.WebpageClassifier.RecordPass | boilerpipe-core/src/main/de/l3s/boilerpipe/classifier/WebpageClassifier.java:92-97 | classifies the pass, then records its extractor under the page; throws as `getType` does, recording nothing and storing no metrics |
| Classifier.WebpageClassifier.ClassifyRound | boilerpipe-core/src/main/de/l3s/boilerpipe/classifier/WebpageClassifier.java:56-102 | one loop round extends the recorded evidence by that pass's evidence, or throws with it unchanged |
| Classifier.WebpageClassifier.Classify | boilerpipe-core/src/main/de/l3s/boilerpipe/classifier/WebpageClassifier.java:48-105 | records the URL matches and then the passes' evidence in order; succeeds exactly when no pass throws; the first pass that throws ends the call, keeping what was recorded; otherwise the map is returned |
| Classifier.ResultsOfClassify | boilerpipe-core/src/main/de/l3s/boilerpipe/classifier/WebpageClassifier.java:48-135 | in the map built from the URL matches and then the passes, `URL_MATCH` is listed once under a type exactly when a pattern for it matches, else not at all; each extractor is listed once under the type its pass was classified as, if it was processed, else not at all |
| HtmlFetcher.AcceptedContentTypes | boilerpipe-core/src/main/de/l3s/boilerpipe/sax/HTMLFetcher.java:65-66 | accepted exactly when the type starts with `text/html` and is followed by nothing or by `;` |
| HtmlFetcher.RejectedContentTypes | boilerpipe-core/src/main/de/l3s/boilerpipe/sax/HTMLFetcher.java:65-66 | the test is case-sensitive, needs the `;`, and rejects null |
| HtmlFetcher.AcceptsContentType | boilerpipe-core/src/main/de/l3s/boilerpipe/sax/HTMLFetcher.java:65-66 | reference definition: a non-null type equal to `text/html` or starting with `text/html;` |
| HtmlFetcher.ResponseCheck | boilerpipe-core/src/main/de/l3s/boilerpipe/sax/HTMLFetcher.java:57-68 | IOException for 429 exactly when the connection is HTTP with code 429; otherwise IOException exactly when the content type is rejected |
| HtmlFetcher.JoinCookies | boilerpipe-core/src/main/de/l3s/boilerpipe/sax/HTMLFetcher.java:135-140 | reference definition: the `key=value` pairs joined with `; ` |
| HtmlFetcher.JoinCookiesEmpty | boilerpipe-core/src/main/de/l3s/boilerpipe/sax/HTMLFetcher.java:135-140 | the joined header is empty exactly when no cookie was added |
| HtmlFetcher.JoinCookiesStartsWithFirst | boilerpipe-core/src/main/de/l3s/boilerpipe/sax/HTMLFetcher.java:135-140 | the header begins with the first `key=value` pair |
| HtmlFetcher.CookieBuilder.constructor | boilerpipe-core/src/main/de/l3s/boilerpipe/sax/HTMLFetcher.java:113 | a new builder is empty |
| HtmlFetcher.CookieBuilder.AddCookie | boilerpipe-core/src/main/de/l3s/boilerpipe/sax/HTMLFetcher.java:135-140 | appends `key=value`, with `; ` before it exactly when the text was not empty, and stays the join of the pairs added |
| HtmlFetcher.BuildCookieBypassHeader | boilerpipe-core/src/main/de/l3s/boilerpipe/sax/HTMLFetcher.java:112-130 | always returns the ten consent cookies joined in their fixed order, whatever the host |
| HtmlFetcher.BypassHeaderStartsWithConsent | boilerpipe-core/src/main/de/l3s/boilerpipe/sax/HTMLFetcher.java:116-127 | the header starts with `cookieConsent=true` and holds ten pairs |

## Left out

- **Regular expressions.** The URL patterns are a parameter `matches: (UrlPattern, string) -> bool`. The model does not include Java's regex engine. `Regex.java` defines only `FORUM_PATTERN`, `ARTICLE_PATTERN` and `HOMEPAGE_PATTERN`; `VIDEO_PATTERN`, `PHOTO_GALLERY_PATTERN` and `COMIC_PATTERN` are used by `matchPattern` (WebpageClassifier.java:117-127) but not defined there.
- **The videos list** comes from `VideoParser` and is given.
- **HTML parsing and the Boilerpipe extractors.** Each pass is given as its labelled text blocks and the images `ImageExtractor` found, or as the `BoilerpipeProcessingException` it threw. A text block carries only the word count, link density and content flag that the classifier reads.
- **Network, filesystem and image decoding** are a `Network` value:
  - the set of URLs that download completely (a malformed URL or a failed transfer is left out of it);
  - whether the image directory can be created;
  - the URLs whose pictures `ImageIO` decodes, with their sizes.
  - A downloaded file holds the bytes of the URL it was fetched from, so its decoded size is looked up by that URL, not by the file's name. Deleting the old directory, the byte copy and the file's directory path are not modelled.
  - `java.io.File` drops a file name's trailing `/` characters, so an extension such as `.c/` still gives a file (`image_0.c`). A `/` followed by more text, as in `.c/p`, points into a sub-directory that does not exist, so that file cannot be opened. The model captures both. Other file-system limits, such as the length of a name, are not modelled.
- **`ImageDownloader` reads its base URL from the global `TEST_URL`.** Here the base URL is an explicit parameter.
- **`fetch` is modelled only by its response checks.** Opening the connection, the request headers, the charset regex, the gzip stream and the read loop are left out.
- **Logging** to `System.out` and `System.err` is left out, and so are the `toString` methods of `Metrics`, `Image` and `Video`. The getters of `Image` and `Video` are read as fields.
- **Files from earlier passes.** Every pass downloads into the same directory and starts by deleting it, so a file from an earlier pass never outlives it. A later pass may reuse a name such as `image_0.jpg` for a different picture; the model sizes each file from the URL its own pass fetched, so nothing carries over between passes.
- **`getMetrics`** is left out: it wraps the metrics map under the global `TEST_URL`.
- **Doubles are exact reals.** Rounding of the accumulated weights near 0.6 and of `Math.pow` is not reproduced.
- **`Metrics.images` starts as the empty list.** `Metrics.java` leaves the field null until `calculateMetrics` sets it. The model's constructor gives `[]`. Every record the classifier stores has passed through `calculateMetrics`, so no scorer sees the difference.
- **Counters are unbounded naturals.** Only the `width * height` products wrap at 32 bits, where the code stores them in an `int`.
- **Character handling is ASCII only.** `toLowerCase` lower-cases only the ASCII letters, and `Integer.parseInt` reads only the ASCII digits. Java also handles other Unicode letters and digits. `compareTo` is modelled on UTF-16 code units, as in Java.
- **`Video` identity is value equality.** The test `o == this` in `Video.compareTo` is taken as equality of the values. The two differ only for two distinct but equal videos.
- **Distinct and disjoint images.** The image objects of one pass are assumed distinct (`Distinct`), and those of different passes are assumed disjoint (`PassesDisjoint`). The extractor builds new objects for every pass. The code does not check this.
- Classifier.WebpageClassifier.Classify: the page type each pass was classified as comes back as a ghost list. How that type follows from the scores is stated by `GetType` and `ClassifyBasedOnMetrics`, not restated for the whole call.
- Classifier.WebpageClassifier.RunPass: of the record stored for a pass, only the text features and the UNKNOWN rule for an empty page are stated here. The rest is stated by `GetType`.
- ImagePreparation.PrepareImages: states the sizes only of downloaded images that decode. Sizes taken from URL hints are stated by `ApplyUrlHints` and not repeated.
