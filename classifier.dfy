/**
 * `WebpageClassifier` as an object: the map from page type to the sources of
 * evidence for it (the URL patterns and the extractors), the map from
 * extractor to the feature record of its pass, and `classify`, which fills
 * both. The HTML parsing and the Boilerpipe extractors are outside the
 * model: each extractor pass is given as the blocks and images it produced,
 * or as the BoilerpipeProcessingException it threw. The URL regexes are
 * a parameter `matches`, and the video list is given.
 */
module Classifier {
  import opened Wrappers
  import opened Constants
  import opened TextBlocks
  import opened Images
  import opened Videos
  import opened MetricsModel
  import opened Features
  import opened Scoring
  import opened ImagePreparation

  /** Where a piece of evidence came from: a URL pattern or one of the six extractors. */
  datatype ExtractorType = UrlMatch | ArticleExtractor | Default | Canola | ArticleSentences | LargestContent | KeepEverything

  /** The extractors `classify` runs, in order. */
  const EXTRACTORS: seq<ExtractorType> := [ArticleExtractor, Default, Canola, ArticleSentences, LargestContent, KeepEverything]

  /** The six extractors are distinct, and none of them is the URL match. */
  lemma ExtractorsDistinct()
    ensures forall i, j :: 0 <= i < j < |EXTRACTORS| ==> EXTRACTORS[i] != EXTRACTORS[j]
    ensures UrlMatch !in EXTRACTORS
  {
  }

  /** The URL patterns `matchPattern` tries. */
  datatype UrlPattern = VideoUrl | ForumUrl | PhotoGalleryUrl | ComicUrl | HomepageUrl | ArticleUrl

  /** The page type a URL pattern is evidence for. */
  function LabelOf(p: UrlPattern): PageType {
    match p
    case VideoUrl => VideoPlayer
    case ForumUrl => Forum
    case PhotoGalleryUrl => PhotoGallery
    case ComicUrl => Comic
    case HomepageUrl => Homepage
    case ArticleUrl => Article
  }

  /** Different patterns are evidence for different page types, and never for UNKNOWN. */
  lemma LabelOfInjective(p: UrlPattern, q: UrlPattern)
    ensures LabelOf(p) == LabelOf(q) ==> p == q
    ensures LabelOf(p).IsCategory()
  {
  }

  // ---------------------------------------------------------------------------
  // The results map

  type Results = map<PageType, seq<ExtractorType>>

  /** A piece of evidence: the page type and where the evidence for it came from. */
  type Evidence = (PageType, ExtractorType)

  /** The list stored under `page`; a missing key is an empty list. */
  function Entries(results: Results, page: PageType): seq<ExtractorType> {
    if page in results then results[page] else []
  }

  /**
   * Appending `id` to the list of `page`, creating the list when the key is
   * absent (`computeIfAbsent(...).add`, or `containsKey`/`put`/`get().add`).
   */
  function Record(results: Results, page: PageType, id: ExtractorType): (r: Results)
    ensures r.Keys == results.Keys + {page}
    ensures Entries(r, page) == Entries(results, page) + [id]
    ensures forall l :: l != page ==> Entries(r, l) == Entries(results, l)
  {
    results[page := Entries(results, page) + [id]]
  }

  /** The map built by recording every piece of evidence in turn, starting from an empty map. */
  function Collect(evidence: seq<Evidence>): Results {
    if evidence == [] then map[]
    else
      var last := evidence[|evidence| - 1];
      Record(Collect(evidence[..|evidence| - 1]), last.0, last.1)
  }

  /** The sources of evidence for `page`, in the order they were recorded. */
  function SourcesFor(evidence: seq<Evidence>, page: PageType): (ids: seq<ExtractorType>)
    ensures forall id :: id in ids <==> (page, id) in evidence
  {
    if evidence == [] then []
    else
      var init, last := evidence[..|evidence| - 1], evidence[|evidence| - 1];
      assert evidence == init + [last];
      SourcesFor(init, page) + (if last.0 == page then [last.1] else [])
  }

  /**
   * The map groups the evidence by page type: the list under `page` holds the
   * sources recorded for it, in order, and `page` is a key exactly when
   * something was recorded for it.
   */
  lemma {:induction false} CollectGroupsByLabel(evidence: seq<Evidence>, page: PageType)
    ensures Entries(Collect(evidence), page) == SourcesFor(evidence, page)
    ensures page in Collect(evidence) <==> SourcesFor(evidence, page) != []
  {
    if evidence != [] {
      var init := evidence[..|evidence| - 1];
      CollectGroupsByLabel(init, page);
    }
  }

  /** Evidence recorded after some other evidence is appended to the lists after it. */
  lemma {:induction false} SourcesForAppend(a: seq<Evidence>, b: seq<Evidence>, page: PageType)
    ensures SourcesFor(a + b, page) == SourcesFor(a, page) + SourcesFor(b, page)
  {
    if b == [] {
      assert a + b == a;
    } else {
      var shorter := b[..|b| - 1];
      assert (a + b)[..|a + b| - 1] == a + shorter;
      assert (a + b)[|a + b| - 1] == b[|b| - 1];
      SourcesForAppend(a, shorter, page);
    }
  }

  // ---------------------------------------------------------------------------
  // Evidence from the URL and from the extractor passes

  /** The patterns in the order `matchPattern` tests them. */
  const PATTERNS: seq<UrlPattern> := [VideoUrl, ForumUrl, PhotoGalleryUrl, ComicUrl, HomepageUrl, ArticleUrl]

  /** Every pattern is tested, and no two of them are evidence for the same page type. */
  lemma PatternsCover()
    ensures forall p :: p in PATTERNS
    ensures forall i, j :: 0 <= i < j < |PATTERNS| ==> LabelOf(PATTERNS[i]) != LabelOf(PATTERNS[j])
  {
    forall p
      ensures p in PATTERNS
    {
      match p
      case VideoUrl => assert PATTERNS[0] == p;
      case ForumUrl => assert PATTERNS[1] == p;
      case PhotoGalleryUrl => assert PATTERNS[2] == p;
      case ComicUrl => assert PATTERNS[3] == p;
      case HomepageUrl => assert PATTERNS[4] == p;
      case ArticleUrl => assert PATTERNS[5] == p;
    }
  }

  /** The evidence of one URL pattern: one URL match for its page type when the URL matches it. */
  function PatternHit(p: UrlPattern, url: string, matches: (UrlPattern, string) -> bool): seq<Evidence> {
    if matches(p, url) then [(LabelOf(p), UrlMatch)] else []
  }

  /** The evidence of the patterns `ps`, tested in order. */
  function Hits(ps: seq<UrlPattern>, url: string, matches: (UrlPattern, string) -> bool): seq<Evidence> {
    if ps == [] then [] else Hits(ps[..|ps| - 1], url, matches) + PatternHit(ps[|ps| - 1], url, matches)
  }

  /** The evidence `matchPattern` records. */
  function PatternEvidence(url: string, matches: (UrlPattern, string) -> bool): seq<Evidence> {
    Hits(PATTERNS, url, matches)
  }

  /** One more pattern tested: its hit follows those of the patterns before it. */
  lemma HitsExtend(start: seq<Evidence>, prev: seq<Evidence>, e: seq<Evidence>, j: nat,
                   url: string, matches: (UrlPattern, string) -> bool)
    requires j < |PATTERNS|
    requires prev == start + Hits(PATTERNS[..j], url, matches)
    requires e == prev + PatternHit(PATTERNS[j], url, matches)
    ensures e == start + Hits(PATTERNS[..j + 1], url, matches)
  {
    assert PATTERNS[..j + 1][..j] == PATTERNS[..j];
  }

  /** The evidence after testing the six patterns in turn, `e0` before the first and `e6` after the last. */
  lemma SixTests(e0: seq<Evidence>, e1: seq<Evidence>, e2: seq<Evidence>, e3: seq<Evidence>,
                 e4: seq<Evidence>, e5: seq<Evidence>, e6: seq<Evidence>, url: string, matches: (UrlPattern, string) -> bool)
    requires e1 == e0 + PatternHit(VideoUrl, url, matches)
    requires e2 == e1 + PatternHit(ForumUrl, url, matches)
    requires e3 == e2 + PatternHit(PhotoGalleryUrl, url, matches)
    requires e4 == e3 + PatternHit(ComicUrl, url, matches)
    requires e5 == e4 + PatternHit(HomepageUrl, url, matches)
    requires e6 == e5 + PatternHit(ArticleUrl, url, matches)
    ensures e6 == e0 + PatternEvidence(url, matches)
  {
    assert e0 == e0 + Hits(PATTERNS[..0], url, matches);
    HitsExtend(e0, e0, e1, 0, url, matches);
    HitsExtend(e0, e1, e2, 1, url, matches);
    HitsExtend(e0, e2, e3, 2, url, matches);
    HitsExtend(e0, e3, e4, 3, url, matches);
    HitsExtend(e0, e4, e5, 4, url, matches);
    HitsExtend(e0, e5, e6, 5, url, matches);
    assert PATTERNS[..6] == PATTERNS;
  }

  /** Some pattern of `ps` for `page` matches the URL. */
  predicate AnyHit(ps: seq<UrlPattern>, url: string, matches: (UrlPattern, string) -> bool, page: PageType) {
    ps != [] && (AnyHit(ps[..|ps| - 1], url, matches, page) || (LabelOf(ps[|ps| - 1]) == page && matches(ps[|ps| - 1], url)))
  }

  /** `AnyHit` is the existential it names. */
  lemma {:induction false} AnyHitIff(ps: seq<UrlPattern>, url: string, matches: (UrlPattern, string) -> bool, page: PageType)
    ensures AnyHit(ps, url, matches, page) <==> exists i :: 0 <= i < |ps| && LabelOf(ps[i]) == page && matches(ps[i], url)
  {
    if ps != [] {
      var n := |ps| - 1;
      AnyHitIff(ps[..n], url, matches, page);
      if i :| 0 <= i < |ps| && LabelOf(ps[i]) == page && matches(ps[i], url) {
        if i < n {
          assert ps[..n][i] == ps[i];
        }
      }
      if i :| 0 <= i < n && LabelOf(ps[..n][i]) == page && matches(ps[..n][i], url) {
        assert ps[..n][i] == ps[i];
      }
    }
  }

  /**
   * With one pattern per page type, the URL is a source for `page` once
   * when the pattern for `page` matches it, and otherwise not at all.
   */
  lemma {:induction false} HitsSources(ps: seq<UrlPattern>, url: string, matches: (UrlPattern, string) -> bool, page: PageType)
    requires forall i, j :: 0 <= i < j < |ps| ==> LabelOf(ps[i]) != LabelOf(ps[j])
    ensures SourcesFor(Hits(ps, url, matches), page) == if AnyHit(ps, url, matches, page) then [UrlMatch] else []
  {
    if ps != [] {
      var n := |ps| - 1;
      var init := ps[..n];
      assert forall i, j :: 0 <= i < j < n ==> LabelOf(init[i]) != LabelOf(init[j]) by {
        assert forall i :: 0 <= i < n ==> init[i] == ps[i];
      }
      HitsSources(init, url, matches, page);
      HitSourcesStep(ps, url, matches, page);
      if AnyHit(init, url, matches, page) {
        AnyHitIff(init, url, matches, page);
        var i :| 0 <= i < n && LabelOf(init[i]) == page && matches(init[i], url);
        assert init[i] == ps[i];
        assert LabelOf(ps[i]) != LabelOf(ps[n]);
      }
    }
  }

  /** The sources for `page` grow by a URL match when the last pattern is for `page` and matches. */
  lemma HitSourcesStep(ps: seq<UrlPattern>, url: string, matches: (UrlPattern, string) -> bool, page: PageType)
    requires ps != []
    ensures var n := |ps| - 1;
      SourcesFor(Hits(ps, url, matches), page)
      == SourcesFor(Hits(ps[..n], url, matches), page)
         + (if LabelOf(ps[n]) == page && matches(ps[n], url) then [UrlMatch] else [])
  {
    var n := |ps| - 1;
    var last := PatternHit(ps[n], url, matches);
    SourcesForAppend(Hits(ps[..n], url, matches), last, page);
    if last != [] {
      assert last[..0] == [];
    }
  }

  /** The URL is a source of evidence for `page` once when a pattern for `page` matches it, and otherwise not at all. */
  lemma UrlEvidence(url: string, matches: (UrlPattern, string) -> bool, page: PageType)
    ensures SourcesFor(PatternEvidence(url, matches), page) ==
              if exists p :: LabelOf(p) == page && matches(p, url) then [UrlMatch] else []
  {
    PatternsCover();
    HitsSources(PATTERNS, url, matches, page);
    AnyHitIff(PATTERNS, url, matches, page);
    if p :| LabelOf(p) == page && matches(p, url) {
      assert p in PATTERNS;
      var i :| 0 <= i < |PATTERNS| && PATTERNS[i] == p;
      assert LabelOf(PATTERNS[i]) == page && matches(PATTERNS[i], url);
    }
  }

  /** What the HTML parse and an extractor produce for one pass: its blocks and images, or a BoilerpipeProcessingException. */
  datatype PassInput = Processed(blocks: Blocks, images: seq<Image>) | ProcessingFailed {
    /** The images the pass found; none when it failed. */
    function Images(): seq<Image> {
      if Processed? then images else []
    }
  }

  /**
   * The exception that makes a pass, and with it `classify`, fail: the
   * IOException of `downloadImages` when some kept image needs downloading
   * and the directory cannot be created, else the NumberFormatException of
   * `calculateMetrics` for an unparsable video size. A pass whose extractor
   * failed throws nothing that escapes.
   */
  function PassFailure(pass: PassInput, videos: seq<Video>, net: Network): Option<Exception>
    reads pass.Images()
  {
    if pass.ProcessingFailed? then None
    else if NeedsDownload(pass.images) && !net.directoryCreated then Some(IOException(CannotCreateDirectory))
    else if SizedVideos(videos).Failure? then Some(NumberFormatException)
    else None
  }

  /**
   * The evidence the passes record: for every pass that was processed, its
   * page with its extractor, in the order of the extractors. `labels[k]` is
   * the page type pass `k` was classified as.
   */
  function PassEvidence(passes: seq<PassInput>, labels: seq<PageType>): seq<Evidence>
    requires |labels| == |passes| <= |EXTRACTORS|
  {
    if passes == [] then []
    else
      var n := |passes| - 1;
      PassEvidence(passes[..n], labels[..n]) + (if passes[n].Processed? then [(labels[n], EXTRACTORS[n])] else [])
  }

  /** The sources for `page` grow by the last pass's extractor when that pass was processed and classified as `page`. */
  lemma PassSourcesStep(passes: seq<PassInput>, labels: seq<PageType>, page: PageType)
    requires |labels| == |passes| <= |EXTRACTORS| && passes != []
    ensures var n := |passes| - 1;
      SourcesFor(PassEvidence(passes, labels), page)
      == SourcesFor(PassEvidence(passes[..n], labels[..n]), page)
         + (if passes[n].Processed? && labels[n] == page then [EXTRACTORS[n]] else [])
  {
    var n := |passes| - 1;
    var last := if passes[n].Processed? then [(labels[n], EXTRACTORS[n])] else [];
    SourcesForAppend(PassEvidence(passes[..n], labels[..n]), last, page);
    if last != [] {
      assert last[..0] == [];
    }
  }

  /**
   * An extractor is a source of evidence for `page` once when its pass was
   * processed and classified as `page`, and otherwise not at all; the passes
   * are never a source of URL matches.
   */
  lemma {:induction false} ExtractorEvidence(passes: seq<PassInput>, labels: seq<PageType>, k: nat, page: PageType)
    requires |labels| == |passes| <= |EXTRACTORS| && k < |EXTRACTORS|
    ensures multiset(SourcesFor(PassEvidence(passes, labels), page))[EXTRACTORS[k]] ==
              if k < |passes| && passes[k].Processed? && labels[k] == page then 1 else 0
    ensures UrlMatch !in SourcesFor(PassEvidence(passes, labels), page)
  {
    if passes != [] {
      var n := |passes| - 1;
      PassSourcesStep(passes, labels, page);
      ExtractorEvidence(passes[..n], labels[..n], k, page);
      var before := SourcesFor(PassEvidence(passes[..n], labels[..n]), page);
      var added := if passes[n].Processed? && labels[n] == page then [EXTRACTORS[n]] else [];
      assert multiset(before + added) == multiset(before) + multiset(added);
      ExtractorsDistinct();
      assert multiset(added)[EXTRACTORS[k]] == if k == n && passes[n].Processed? && labels[n] == page then 1 else 0;
      if k < n {
        assert passes[..n][k] == passes[k] && labels[..n][k] == labels[k];
      }
    }
  }

  /** Image `a` of pass `i` and image `b` of pass `j` are different objects. */
  predicate ImagesApart(passes: seq<PassInput>, i: nat, a: nat, j: nat, b: nat)
    requires i < |passes| && j < |passes| && a < |passes[i].Images()| && b < |passes[j].Images()|
  {
    passes[i].Images()[a] != passes[j].Images()[b]
  }

  /** No object appears twice in all the passes' images, within a pass or across passes. */
  predicate PassesDisjoint(passes: seq<PassInput>) {
    forall i, j, a, b {:trigger ImagesApart(passes, i, a, j, b)} ::
      0 <= i < |passes| && 0 <= j < |passes| && 0 <= a < |passes[i].Images()| && 0 <= b < |passes[j].Images()|
      && (i != j || a != b)
      ==> ImagesApart(passes, i, a, j, b)
  }

  /** All images of all passes. */
  function PassImages(passes: seq<PassInput>): set<Image> {
    set i, a | 0 <= i < |passes| && 0 <= a < |passes[i].Images()| :: passes[i].Images()[a]
  }

  /**
   * What the disjointness of the passes gives pass `i`: its images are
   * distinct, they are among all the passes' images, and no later pass has
   * any of them.
   */
  lemma PassApart(passes: seq<PassInput>, i: nat)
    requires PassesDisjoint(passes) && i < |passes|
    ensures Distinct(passes[i].Images())
    ensures forall a :: 0 <= a < |passes[i].Images()| ==> passes[i].Images()[a] in PassImages(passes)
    ensures forall k, b :: i < k < |passes| && 0 <= b < |passes[k].Images()| ==> passes[k].Images()[b] !in passes[i].Images()
  {
    var images := passes[i].Images();
    forall a, b | 0 <= a < b < |images|
      ensures images[a] != images[b]
    {
      assert ImagesApart(passes, i, a, i, b);
    }
    forall k, b | i < k < |passes| && 0 <= b < |passes[k].Images()|
      ensures passes[k].Images()[b] !in images
    {
      forall a | 0 <= a < |images|
        ensures images[a] != passes[k].Images()[b]
      {
        assert ImagesApart(passes, i, a, k, b);
      }
    }
  }

  /** One more pass: its extractor is recorded under its page when it was processed. */
  lemma PassEvidenceStep(matched: seq<Evidence>, before: seq<Evidence>, after: seq<Evidence>,
                         passes: seq<PassInput>, labels: seq<PageType>, i: nat, page: PageType)
    requires i < |passes| <= |EXTRACTORS| && |labels| == i
    requires before == matched + PassEvidence(passes[..i], labels)
    requires after == before + (if passes[i].Processed? then [(page, EXTRACTORS[i])] else [])
    ensures after == matched + PassEvidence(passes[..i + 1], labels + [page])
  {
    var ps, ls := passes[..i + 1], labels + [page];
    assert ps[..i] == passes[..i] && ls[..i] == labels;
    assert ps[i] == passes[i] && ls[i] == page;
    var last := if passes[i].Processed? then [(page, EXTRACTORS[i])] else [];
    assert PassEvidence(ps, ls) == PassEvidence(passes[..i], labels) + last;
    assert after == matched + (PassEvidence(passes[..i], labels) + last);
  }

  // ---------------------------------------------------------------------------
  // The classifier

  class WebpageClassifier {
    /** `results`: page type to the sources of evidence for it. */
    var results: Results
    /** `metricsMap`: extractor to the feature record of its last pass. */
    var metricsMap: map<ExtractorType, Metrics>
    /** Everything recorded in `results` so far, in order. */
    ghost var evidence: seq<Evidence>

    ghost predicate Valid()
      reads this
    {
      results == Collect(evidence)
    }

    /** A new classifier: both maps empty. */
    constructor ()
      ensures Valid() && evidence == [] && results == map[] && metricsMap == map[]
    {
      results, metricsMap, evidence := map[], map[], [];
    }

    /** Appends `id` to the list of `page`. */
    method Add(page: PageType, id: ExtractorType)
      requires Valid()
      modifies this`results, this`evidence
      ensures Valid() && evidence == old(evidence) + [(page, id)]
      ensures results == Record(old(results), page, id)
    {
      results := Record(results, page, id);
      evidence := evidence + [(page, id)];
      assert evidence[..|evidence| - 1] == old(evidence);
    }

    /** One test of `matchPattern`: a URL match for the page type of `p` when the URL matches it. */
    method TestPattern(p: UrlPattern, url: string, matches: (UrlPattern, string) -> bool)
      requires Valid()
      modifies this`results, this`evidence
      ensures Valid() && evidence == old(evidence) + PatternHit(p, url, matches)
    {
      if matches(p, url) {
        Add(LabelOf(p), UrlMatch);
      }
    }

    /** `matchPattern`: a URL match for each pattern the URL matches, in a fixed order. */
    method MatchPattern(url: string, matches: (UrlPattern, string) -> bool)
      requires Valid()
      modifies this`results, this`evidence
      ensures Valid() && evidence == old(evidence) + PatternEvidence(url, matches)
    {
      ghost var e0 := evidence;
      TestPattern(VideoUrl, url, matches);
      ghost var e1 := evidence;
      TestPattern(ForumUrl, url, matches);
      ghost var e2 := evidence;
      TestPattern(PhotoGalleryUrl, url, matches);
      ghost var e3 := evidence;
      TestPattern(ComicUrl, url, matches);
      ghost var e4 := evidence;
      TestPattern(HomepageUrl, url, matches);
      ghost var e5 := evidence;
      TestPattern(ArticleUrl, url, matches);
      SixTests(e0, e1, e2, e3, e4, e5, evidence, url, matches);
    }

    /**
     * `getType`: computes the feature record, stores it under `extractor`
     * and classifies it. Throws NumberFormatException, storing nothing, for
     * an unparsable video size.
     */
    method GetType(blocks: Blocks, images: seq<Image>, videos: seq<Video>, extractor: ExtractorType, order: seq<PageType>)
      returns (r: Result<PageType, Exception>)
      requires IsScoreOrder(order)
      modifies this`metricsMap
      ensures r.Success? <==> SizedVideos(videos).Success?
      ensures r.Failure? ==> r.error == NumberFormatException && metricsMap == old(metricsMap)
      ensures r.Success? ==> metricsMap.Keys == old(metricsMap.Keys) + {extractor}
      ensures r.Success? ==> forall e :: e in old(metricsMap) && e != extractor ==> metricsMap[e] == old(metricsMap[e])
      ensures r.Success? ==> var m := metricsMap[extractor];
                && fresh(m) && m.Text() == TextFeaturesOf(blocks) && m.DerivedUpToDate()
                && m.Media() == old(MediaFeaturesOf(images, SizedVideos(videos).value))
                && (m.contentBlocks == 0 ==> r.value == Unknown)
                && (r.value != Unknown ==> r.value in order && Score(m, r.value) > CONFIDENCE_THRESHOLD)
                && (r.value != Unknown ==> forall c :: c in order ==> Score(m, c) <= Score(m, r.value))
                && (r.value == Unknown && m.contentBlocks > 0 ==> forall c :: c in order ==> Score(m, c) <= CONFIDENCE_THRESHOLD)
    {
      var metrics := CalculateMetrics(blocks, images, videos);
      if metrics.Failure? {
        return Failure(metrics.error);
      }
      metricsMap := metricsMap[extractor := metrics.value];
      var page := ClassifyBasedOnMetrics(metrics.value, order);
      return Success(page);
    }

    /**
     * One round of the extractor loop of `classify`: a pass whose extractor
     * failed records nothing; otherwise the images are prepared, the pass is
     * classified and its extractor is recorded under the page. An exception
     * from the image download or from `getType` ends the pass with nothing
     * recorded.
     */
    method RunPass(index: nat, pass: PassInput, videos: seq<Video>, net: Network, order: seq<PageType>)
      returns (r: Result<Option<PageType>, Exception>)
      requires Valid() && IsScoreOrder(order) && index < |EXTRACTORS|
      requires Distinct(pass.Images())
      modifies this, pass.Images()
      ensures Valid()
      ensures r.Failure? <==> old(PassFailure(pass, videos, net)).Some?
      ensures r.Failure? ==> Some(r.error) == old(PassFailure(pass, videos, net)) && evidence == old(evidence)
      ensures r.Failure? ==> metricsMap == old(metricsMap)
      ensures r.Success? ==> (r.value.Some? <==> pass.Processed?)
      ensures r.Success? ==> evidence == old(evidence) + (if pass.Processed? then [(r.value.value, EXTRACTORS[index])] else [])
      ensures r.Success? && pass.Processed? ==>
                && EXTRACTORS[index] in metricsMap
                && metricsMap[EXTRACTORS[index]].Text() == TextFeaturesOf(pass.blocks)
                && (TextFeaturesOf(pass.blocks).contentBlocks == 0 ==> r.value.value == Unknown)
    {
      if pass.ProcessingFailed? {
        return Success(None);
      }
      var prepared;
      ghost var toDownload, files;
      prepared, toDownload, files := PrepareImages(pass.images, net);
      if prepared.Failure? {
        return Failure(prepared.error);
      }
      var page := RecordPass(index, pass.blocks, prepared.value, videos, order);
      if page.Failure? {
        return Failure(page.error);
      }
      return Success(Some(page.value));
    }

    /** `getType` on a pass whose images are prepared, then its extractor recorded under the page type returned. */
    method RecordPass(index: nat, blocks: Blocks, images: seq<Image>, videos: seq<Video>, order: seq<PageType>)
      returns (r: Result<PageType, Exception>)
      requires Valid() && IsScoreOrder(order) && index < |EXTRACTORS|
      modifies this`metricsMap, this`results, this`evidence
      ensures Valid()
      ensures r.Success? <==> SizedVideos(videos).Success?
      ensures r.Failure? ==> r.error == NumberFormatException && evidence == old(evidence) && metricsMap == old(metricsMap)
      ensures r.Success? ==> evidence == old(evidence) + [(r.value, EXTRACTORS[index])]
      ensures r.Success? ==>
                && EXTRACTORS[index] in metricsMap
                && metricsMap[EXTRACTORS[index]].Text() == TextFeaturesOf(blocks)
                && (TextFeaturesOf(blocks).contentBlocks == 0 ==> r.value == Unknown)
    {
      r := GetType(blocks, images, videos, EXTRACTORS[index], order);
      if r.Success? {
        Add(r.value, EXTRACTORS[index]);
      }
    }

    /** One round of the extractor loop, with what it records stated against all the passes run so far. */
    method ClassifyRound(i: nat, passes: seq<PassInput>, videos: seq<Video>, net: Network, order: seq<PageType>,
                         ghost matched: seq<Evidence>, ghost labels: seq<PageType>)
      returns (outcome: Result<Option<PageType>, Exception>, ghost page: PageType)
      requires Valid() && IsScoreOrder(order) && i < |passes| <= |EXTRACTORS| && |labels| == i
      requires PassesDisjoint(passes)
      requires evidence == matched + PassEvidence(passes[..i], labels)
      modifies this, passes[i].Images()
      ensures Valid()
      ensures forall k :: i < k < |passes| ==> PassFailure(passes[k], videos, net) == old(PassFailure(passes[k], videos, net))
      ensures outcome.Failure? <==> old(PassFailure(passes[i], videos, net)).Some?
      ensures outcome.Failure? ==> Some(outcome.error) == old(PassFailure(passes[i], videos, net)) && evidence == old(evidence)
      ensures outcome.Success? ==> evidence == matched + PassEvidence(passes[..i + 1], labels + [page])
    {
      PassApart(passes, i);
      ghost var before := evidence;
      outcome := RunPass(i, passes[i], videos, net, order);
      page := if outcome.Success? && outcome.value.Some? then outcome.value.value else Unknown;
      if outcome.Success? {
        PassEvidenceStep(matched, before, evidence, passes, labels, i, page);
      }
    }

    /**
     * `classify`: records the URL matches, then runs the six extractor passes
     * in order and records each processed pass's extractor under its page,
     * and returns the map. The first exception that escapes a pass ends the
     * call: `done` passes have completed by then, and what they recorded stays
     * in the map. `labels[k]` is the page type pass `k` was classified as.
     */
    method Classify(url: string, matches: (UrlPattern, string) -> bool, passes: seq<PassInput>,
                    videos: seq<Video>, net: Network, order: seq<PageType>)
      returns (r: Result<Results, Exception>, ghost done: nat, ghost labels: seq<PageType>)
      requires Valid() && IsScoreOrder(order) && |passes| == |EXTRACTORS|
      requires PassesDisjoint(passes)
      modifies this, PassImages(passes)
      ensures Valid()
      ensures done <= |passes| && |labels| == done
      ensures forall k :: 0 <= k < done ==> old(PassFailure(passes[k], videos, net)).None?
      ensures r.Success? <==> done == |passes|
      ensures r.Success? <==> forall k :: 0 <= k < |passes| ==> old(PassFailure(passes[k], videos, net)).None?
      ensures r.Failure? ==> Some(r.error) == old(PassFailure(passes[done], videos, net))
      ensures evidence == old(evidence) + PatternEvidence(url, matches) + PassEvidence(passes[..done], labels)
      ensures r.Success? ==> r.value == results
    {
      MatchPattern(url, matches);
      ghost var matched := evidence;
      labels := [];
      var i := 0;
      while i < |passes|
        invariant Valid() && i <= |passes| && |labels| == i
        invariant forall k :: 0 <= k < i ==> old(PassFailure(passes[k], videos, net)).None?
        invariant forall k :: i <= k < |passes| ==> PassFailure(passes[k], videos, net) == old(PassFailure(passes[k], videos, net))
        invariant evidence == matched + PassEvidence(passes[..i], labels)
        invariant matched == old(evidence) + PatternEvidence(url, matches)
      {
        PassApart(passes, i);
        var outcome;
        ghost var page;
        outcome, page := ClassifyRound(i, passes, videos, net, order, matched, labels);
        if outcome.Failure? {
          return Failure(outcome.error), i, labels;
        }
        labels := labels + [page];
        i := i + 1;
      }
      assert passes[..i] == passes;
      return Success(results), i, labels;
    }
  }

  /**
   * What one call of `classify` on a new classifier leaves in the map, and
   * returns when no exception escapes: the URL is a source for a page type
   * exactly when a pattern for it matches, once; an extractor is a source for
   * a page type exactly when its pass completed without a caught exception
   * and was classified as that type, once.
   */
  lemma ResultsOfClassify(url: string, matches: (UrlPattern, string) -> bool,
                          passes: seq<PassInput>, labels: seq<PageType>, page: PageType, k: nat)
    requires |labels| == |passes| <= |EXTRACTORS| && k < |EXTRACTORS|
    ensures var evidence := PatternEvidence(url, matches) + PassEvidence(passes, labels);
      var entries := Entries(Collect(evidence), page);
      && multiset(entries)[UrlMatch] == (if exists p :: LabelOf(p) == page && matches(p, url) then 1 else 0)
      && multiset(entries)[EXTRACTORS[k]] == (if k < |passes| && passes[k].Processed? && labels[k] == page then 1 else 0)
  {
    var urlPart, passPart := PatternEvidence(url, matches), PassEvidence(passes, labels);
    CollectGroupsByLabel(urlPart + passPart, page);
    SourcesForAppend(urlPart, passPart, page);
    UrlEvidence(url, matches, page);
    ExtractorEvidence(passes, labels, k, page);
    ExtractorsDistinct();
  }
}
