/**
 * `ImageDownloader`: how each image's URL is made absolute, which file name
 * it is saved under, and the list of results, one per image, that
 * `downloadImages` returns. The transfers themselves are outside the model:
 * the set `served` names the URLs that open and download completely (a URL
 * that is malformed or whose transfer fails is not in it), and
 * `directoryCreated` says whether the target directory could be created.
 */
module ImageDownloads {
  import opened Wrappers
  import opened JavaLang
  import opened Images

  // ---------------------------------------------------------------------------
  // getFileExtension

  /** The URL without its query string and then without its fragment. */
  function PathPart(url: string): (p: string)
    ensures '?' !in p && '#' !in p
    ensures |p| <= |url| && p == url[..|p|]
  {
    Before(Before(url, '?'), '#')
  }

  /**
   * `getFileExtension`: the lower-cased suffix of the path from its last `.`,
   * when that dot is not the last character; `.jpg` otherwise.
   */
  function GetFileExtension(url: string): (ext: string)
    ensures |ext| >= 2 && ext[0] == '.'
    ensures ext == ".jpg" || EndsWith(ToLower(PathPart(url)), ext)
    ensures var p := PathPart(url); var i := LastIndexOf(p, '.');
      i != -1 && i < |p| - 1 ==> ext == ToLower(p[i..])
  {
    var path := PathPart(url);
    var lastDot := LastIndexOf(path, '.');
    if lastDot != -1 && lastDot < |path| - 1 then
      LowerOfSuffix(path, lastDot);
      ToLower(path[lastDot..])
    else ".jpg"
  }

  /** Lower-casing a suffix gives the suffix of the lower-cased string. */
  lemma LowerOfSuffix(s: string, k: nat)
    requires k <= |s|
    ensures ToLower(s[k..]) == ToLower(s)[k..]
  {
  }

  /** Lower-casing creates no character other than a lower-case letter. */
  lemma AbsentAfterLower(t: string, c: char)
    requires c !in t && !('a' <= c <= 'z')
    ensures c !in ToLower(t)
  {
    assert forall i :: 0 <= i < |t| ==> ToLower(t)[i] == LowerChar(t[i]);
  }

  /** The extension is a single `.` followed by text with no `.`, `?` or `#`. */
  lemma ExtensionHasOneDot(url: string)
    ensures '.' !in GetFileExtension(url)[1..]
    ensures '?' !in GetFileExtension(url) && '#' !in GetFileExtension(url)
  {
    var path := PathPart(url);
    var lastDot := LastIndexOf(path, '.');
    if lastDot != -1 && lastDot < |path| - 1 {
      var tail := path[lastDot..];
      assert tail[1..] == path[lastDot + 1..];
      LowerOfSuffix(tail, 1);
      AbsentAfterLower(tail[1..], '.');
      assert '?' !in tail && '#' !in tail;
      AbsentAfterLower(tail, '?');
      AbsentAfterLower(tail, '#');
    }
  }

  /** A path without a dot, or ending in one, gets the default extension. */
  lemma DefaultExtension(url: string)
    requires var path := PathPart(url); '.' !in path || path[|path| - 1] == '.'
    ensures GetFileExtension(url) == ".jpg"
  {
  }

  /** The query string and the fragment play no part in the extension. */
  lemma ExtensionIgnoresQuery(path: string, query: string)
    requires '?' !in path && '#' !in path
    ensures GetFileExtension(path + "?" + query) == GetFileExtension(path)
  {
    var url := path + "?" + query;
    assert url[|path|] == '?' && url[..|path|] == path;
    assert Before(url, '?') == path;
    assert Before(path, '?') == path;
  }

  // ---------------------------------------------------------------------------
  // Relative sources

  /** The base URL with a protocol and without its trailing `/`. */
  function NormalizedBase(base: string): (b: string)
    ensures StartsWith(b, "http")
    ensures var p := if StartsWith(base, "http") then base else "https://" + base;
      && (b == p || b + "/" == p)
      && (b != p <==> EndsWith(p, "/"))
  {
    var withProtocol := if StartsWith(base, "http") then base else "https://" + base;
    assert withProtocol[..4] == "http";
    if EndsWith(withProtocol, "/") then
      assert withProtocol[3] == 'p' && |withProtocol| > 4;
      assert withProtocol[..|withProtocol| - 1][..4] == "http";
      withProtocol[..|withProtocol| - 1]
    else withProtocol
  }

  /** A relative `src` resolved against `base`: one `/` is put between them unless `src` begins with one. */
  function AbsoluteSource(base: string, src: string): (r: string)
    ensures StartsWith(r, "http") && EndsWith(r, src)
    ensures var b := NormalizedBase(base);
      && |r| == |b| + |src| + (if StartsWith(src, "/") then 0 else 1)
      && r[..|b|] == b && r[|b|] == '/'
  {
    var b := NormalizedBase(base);
    var r := if StartsWith(src, "/") then b + src else b + "/" + src;
    assert r[..4] == b[..4];
    assert r[|r| - |src|..] == src;
    r
  }

  /**
   * At the seam between base and source there is exactly one `/` when the
   * base does not end in `//` and the source does not begin with `//`.
   */
  lemma SingleSlashAtSeam(base: string, src: string)
    requires !EndsWith(NormalizedBase(base), "/")
    requires !StartsWith(src, "//")
    ensures var b, r := NormalizedBase(base), AbsoluteSource(base, src);
      && r[..|b|] == b && r[|b|] == '/'
      && (|r| > |b| + 1 ==> r[|b| + 1] != '/')
  {
    var b, r := NormalizedBase(base), AbsoluteSource(base, src);
    if StartsWith(src, "/") {
      assert r == b + src;
      if |src| > 1 {
        assert src[..2] != "//";
      }
    } else {
      assert r == b + "/" + src;
    }
  }

  /** The URL fetched for `src`: sources starting with `http` are used unchanged. */
  function SourceToFetch(base: string, src: string): (r: string)
    ensures StartsWith(r, "http") && EndsWith(r, src)
  {
    if StartsWith(src, "http") then src else AbsoluteSource(base, src)
  }

  /** The source an image holds after the pass: relative, non-blank sources are rewritten. */
  function RewrittenSource(base: string, src: string): string {
    if IsBlank(src) then src else SourceToFetch(base, src)
  }

  /** The name of the file for the image at `index`: `image_<index><ext>`, the extension taken from the original source. */
  function FileName(index: nat, src: string): (name: string)
    ensures StartsWith(name, "image_") && EndsWith(name, GetFileExtension(src))
  {
    var name := "image_" + IntToString(index) + GetFileExtension(src);
    assert name[..6] == "image_";
    assert name[|name| - |GetFileExtension(src)|..] == GetFileExtension(src);
    name
  }

  /** `s` without its trailing `/` characters, as `java.io.File` stores a path name. */
  function DropTrailingSlashes(s: string): (r: string)
    ensures |r| <= |s| && r == s[..|r|]
    ensures forall i :: |r| <= i < |s| ==> s[i] == '/'
    ensures r == [] || r[|r| - 1] != '/'
  {
    if |s| > 0 && s[|s| - 1] == '/' then DropTrailingSlashes(s[..|s| - 1]) else s
  }

  /** Trailing slashes of a suffix that does not start with `/` are the whole string's. */
  lemma {:induction false} DropTrailingSlashesAppend(a: string, b: string)
    requires b != [] && b[0] != '/'
    ensures DropTrailingSlashes(a + b) == a + DropTrailingSlashes(b)
    decreases |b|
  {
    var ab := a + b;
    if ab[|ab| - 1] == '/' {
      assert |b| >= 2;
      assert ab[..|ab| - 1] == a + b[..|b| - 1];
      DropTrailingSlashesAppend(a, b[..|b| - 1]);
    }
  }

  /**
   * The name of the file `new File(targetDir, fileName)` denotes: `FileName`
   * with its trailing `/` characters dropped. It holds a `/` exactly when the
   * extension still holds one once its own trailing slashes are dropped.
   */
  function StoredFileName(index: nat, src: string): (name: string)
    ensures name == DropTrailingSlashes(FileName(index, src))
    ensures StartsWith(name, "image_")
    ensures '/' in name <==> '/' in DropTrailingSlashes(GetFileExtension(src))
  {
    var prefix := "image_" + IntToString(index);
    var ext := GetFileExtension(src);
    DropTrailingSlashesAppend(prefix, ext);
    NoSlashInIndexPrefix(index);
    var name := prefix + DropTrailingSlashes(ext);
    assert name[..6] == prefix[..6];
    name
  }

  /** `image_<index>` holds no `/`. */
  lemma NoSlashInIndexPrefix(index: nat)
    ensures StartsWith("image_" + IntToString(index), "image_")
    ensures '/' !in "image_" + IntToString(index)
  {
    var digits := IntToString(index);
    assert digits == NatToString(index);
    assert '/' !in digits by {
      forall i | 0 <= i < |digits|
        ensures digits[i] != '/'
      {
        assert IsDigit(digits[i]);
      }
    }
    assert ("image_" + digits)[..6] == "image_";
  }

  /**
   * The entry of the result list for the image at `index`: its file, or null
   * when its source is blank, the transfer failed, or the file cannot be
   * opened. The file cannot be opened when its stored name still holds a `/`
   * (the dot was found before a `/` of the path that is followed by more
   * text): the name then points into a sub-directory that does not exist, and
   * the `FileNotFoundException` is caught like any other `IOException`.
   * Trailing slashes do no harm: `java.io.File` drops them.
   */
  function DownloadedFile(index: nat, src: string, base: string, served: set<string>): (file: Option<string>)
    ensures file.Some? ==> RewrittenSource(base, src) == SourceToFetch(base, src) && SourceToFetch(base, src) in served
    ensures file.Some? ==> file.value == StoredFileName(index, src) && '/' !in file.value
  {
    if IsBlank(src) then None
    else if SourceToFetch(base, src) in served && '/' !in StoredFileName(index, src) then Some(StoredFileName(index, src))
    else None
  }

  /** Sources that already are absolute are neither rewritten nor changed. */
  lemma AbsoluteSourceKept(base: string, src: string)
    requires StartsWith(src, "http")
    ensures RewrittenSource(base, src) == src
  {
  }

  // ---------------------------------------------------------------------------
  // downloadImages

  /** One image of the loop: rewrite a relative source, then fetch the resolved URL into its file. */
  method DownloadImage(image: Image, index: nat, base: string, served: set<string>)
    returns (file: Option<string>)
    modifies image`src
    ensures file == DownloadedFile(index, old(image.src), base, served)
    ensures image.src == RewrittenSource(base, old(image.src))
  {
    var src := image.src;
    TrimEmptyIffBlank(src);
    if Trim(src) == [] {
      return None;
    }
    var newSrc: string;
    if !StartsWith(src, "http") {
      newSrc := AbsoluteSource(base, src);
      image.SetSource(newSrc);
    } else {
      newSrc := src;
    }
    assert newSrc == SourceToFetch(base, src);
    var extension := GetFileExtension(src);
    var fileName := "image_" + IntToString(index) + extension;
    assert fileName == FileName(index, src);
    var targetFile := DropTrailingSlashes(fileName);
    assert targetFile == StoredFileName(index, src);
    if newSrc in served && '/' !in targetFile {
      file := Some(targetFile);
    } else {
      file := None;
    }
  }

  /**
   * `downloadImages`: fails with IOException when the directory cannot be
   * created, before any image is touched; otherwise returns one entry per
   * image, in order, and leaves every image holding its rewritten source.
   */
  method DownloadImages(images: seq<Image>, base: string, directoryCreated: bool, served: set<string>)
    returns (r: Result<seq<Option<string>>, Exception>)
    requires Distinct(images)
    modifies images`src
    ensures r.Failure? <==> !directoryCreated
    ensures r.Failure? ==> r.error == IOException(CannotCreateDirectory)
    ensures r.Failure? ==> forall i :: 0 <= i < |images| ==> images[i].src == old(images[i].src)
    ensures r.Success? ==> |r.value| == |images|
    ensures r.Success? ==> forall i :: 0 <= i < |images| ==>
              r.value[i] == DownloadedFile(i, old(images[i].src), base, served)
    ensures r.Success? ==> forall i :: 0 <= i < |images| ==>
              images[i].src == RewrittenSource(base, old(images[i].src))
  {
    if !directoryCreated {
      return Failure(IOException(CannotCreateDirectory));
    }
    ghost var before := Sources(images);
    var downloadedFiles: seq<Option<string>> := [];
    var counter := 0;
    while counter < |images|
      invariant before == old(Sources(images))
      invariant DownloadedUpTo(images, counter, before, downloadedFiles, base, served)
    {
      forall k | 0 <= k < |images| && k != counter
        ensures images[k] != images[counter]
      {
      }
      downloadedFiles := DownloadRound(images, counter, before, downloadedFiles, base, served);
      counter := counter + 1;
    }
    return Success(downloadedFiles);
  }

  /**
   * The state of `downloadImages` after `counter` images: each of them has
   * its entry in `files` and holds its rewritten source; the others still
   * hold their original source, `before[i]` for image `i`.
   */
  ghost predicate DownloadedUpTo(images: seq<Image>, counter: nat, before: seq<string>, files: seq<Option<string>>,
                                 base: string, served: set<string>)
    reads images`src
  {
    && counter <= |images| && |before| == |images| && |files| == counter
    && (forall i :: 0 <= i < counter ==>
          files[i] == DownloadedFile(i, before[i], base, served) && images[i].src == RewrittenSource(base, before[i]))
    && (forall i :: counter <= i < |images| ==> images[i].src == before[i])
  }

  /** One round of the loop of `downloadImages`: the image at `counter`, which no other position holds. */
  method DownloadRound(images: seq<Image>, counter: nat, ghost before: seq<string>, files: seq<Option<string>>,
                       base: string, served: set<string>)
    returns (files': seq<Option<string>>)
    requires counter < |images|
    requires forall k :: 0 <= k < |images| && k != counter ==> images[k] != images[counter]
    requires DownloadedUpTo(images, counter, before, files, base, served)
    modifies images`src
    ensures DownloadedUpTo(images, counter + 1, before, files', base, served)
  {
    var file := DownloadImage(images[counter], counter, base, served);
    files' := files + [file];
  }

  /** The result list is as long as the image list and names no file for a blank source. */
  lemma BlankSourceHasNoFile(index: nat, src: string, base: string, served: set<string>)
    requires Trim(src) == []
    ensures DownloadedFile(index, src, base, served).None?
  {
    TrimEmptyIffBlank(src);
  }

  /**
   * The file of a served image is named after its position and the extension
   * of its original source, without the extension's trailing slashes.
   */
  lemma ServedImageFileName(index: nat, src: string, base: string, served: set<string>)
    requires !IsBlank(src) && SourceToFetch(base, src) in served
    requires '/' !in DropTrailingSlashes(GetFileExtension(src))
    ensures var f := DownloadedFile(index, src, base, served);
      && f.Some? && f.value == "image_" + IntToString(index) + DropTrailingSlashes(GetFileExtension(src))
  {
    DropTrailingSlashesAppend("image_" + IntToString(index), GetFileExtension(src));
  }

  /**
   * A trailing `/` does not stop the download: `http://h.c/` gets the
   * extension `.c/` (`ExtensionOfHostSlash`), and its file is stored as
   * `image_0.c`.
   */
  lemma TrailingSlashStillGetsFile(served: set<string>)
    requires "http://h.c/" in served
    ensures DownloadedFile(0, "http://h.c/", "http://h.c", served) == Some("image_" + IntToString(0) + ".c")
  {
    ExtensionOfHostSlash();
    DropSlashOfHostExtension();
    UrlOfHostSlash();
    HostSlashStored("http://h.c/", served);
  }

  /** The step of `TrailingSlashStillGetsFile`, on the URL as a variable. */
  lemma HostSlashStored(u: string, served: set<string>)
    requires u == "http://h.c/" && u in served
    requires GetFileExtension(u) == ".c/" && DropTrailingSlashes(".c/") == ".c"
    requires !IsBlank(u) && SourceToFetch("http://h.c", u) == u
    ensures DownloadedFile(0, u, "http://h.c", served) == Some("image_" + IntToString(0) + ".c")
  {
    StoredAfterDroppingSlashes(0, u, "http://h.c", served, ".c");
  }

  /** A served image whose extension loses its slashes to `stripped` is stored under `image_<index>` plus `stripped`. */
  lemma StoredAfterDroppingSlashes(index: nat, src: string, base: string, served: set<string>, stripped: string)
    requires !IsBlank(src) && SourceToFetch(base, src) in served
    requires DropTrailingSlashes(GetFileExtension(src)) == stripped && '/' !in stripped
    ensures DownloadedFile(index, src, base, served) == Some("image_" + IntToString(index) + stripped)
  {
    ServedImageFileName(index, src, base, served);
  }

  /** `http://h.c/` gets the extension `.c/`. */
  lemma ExtensionOfHostSlash()
    ensures GetFileExtension("http://h.c/") == ".c/"
  {
    HostDotSlash();
    LowerOfHostSlashExtension();
  }

  /** `.c/` has no upper-case letter. */
  lemma LowerOfHostSlashExtension()
    ensures ToLower(".c/") == ".c/"
  {
    var r := ToLower(".c/");
    assert r[0] == '.' && r[1] == 'c' && r[2] == '/';
  }

  /** `.c/` is stored as `.c`. */
  lemma DropSlashOfHostExtension()
    ensures DropTrailingSlashes(".c/") == ".c"
  {
    assert ".c/"[..2] == ".c";
  }

  /** `http://h.c/` is not blank and is fetched as it is. */
  lemma UrlOfHostSlash()
    ensures !IsBlank("http://h.c/")
    ensures SourceToFetch("http://h.c", "http://h.c/") == "http://h.c/"
  {
    var u := "http://h.c/";
    assert u[0] == 'h';
    assert u[..4] == "http";
  }

  /** The path of `http://h.c/` is the whole URL, and its last dot is the one in the host. */
  lemma HostDotSlash()
    ensures var u := "http://h.c/";
      PathPart(u) == u && LastIndexOf(u, '.') == 8 && u[8..] == ".c/"
  {
    var u := "http://h.c/";
    assert '?' !in u && '#' !in u;
    var i := LastIndexOf(u, '.');
    assert u[9..] == "c/";
    assert '.' !in "c/";
    assert i == 8;
  }

  /**
   * A dot in the host name is taken as the extension of a path without one:
   * `http://h.c/p` gets the extension `.c/p`, so it never gets a file,
   * whichever URLs are served.
   */
  lemma DotInHostGivesNoFile(served: set<string>)
    ensures GetFileExtension("http://h.c/p") == ".c/p"
    ensures DownloadedFile(0, "http://h.c/p", "http://h.c", served) == None
  {
    ExtensionOfHostPath();
    SlashKeptInHostPathExtension();
    NoFileWhenNameKeepsSlash(0, "http://h.c/p", "http://h.c", served);
  }

  /** An image whose stored name would still hold a `/` never gets a file. */
  lemma NoFileWhenNameKeepsSlash(index: nat, src: string, base: string, served: set<string>)
    requires '/' in DropTrailingSlashes(GetFileExtension(src))
    ensures DownloadedFile(index, src, base, served) == None
  {
  }

  /** `http://h.c/p` gets the extension `.c/p`. */
  lemma ExtensionOfHostPath()
    ensures GetFileExtension("http://h.c/p") == ".c/p"
  {
    var u := "http://h.c/p";
    HostDotPath();
    LowerOfHostExtension();
    assert GetFileExtension(u) == ToLower(u[8..]);
  }

  /** `.c/p` keeps its `/`: it does not end in one. */
  lemma SlashKeptInHostPathExtension()
    ensures '/' in DropTrailingSlashes(".c/p")
  {
    assert DropTrailingSlashes(".c/p") == ".c/p";
    assert ".c/p"[2] == '/';
  }

  /** `.c/p` has no upper-case letter. */
  lemma LowerOfHostExtension()
    ensures ToLower(".c/p") == ".c/p"
  {
    var r := ToLower(".c/p");
    assert r[0] == '.' && r[1] == 'c' && r[2] == '/' && r[3] == 'p';
  }

  /** The path of `http://h.c/p` is the whole URL, and its last dot is the one in the host. */
  lemma HostDotPath()
    ensures var u := "http://h.c/p";
      PathPart(u) == u && LastIndexOf(u, '.') == 8 && u[8..] == ".c/p"
  {
    var u := "http://h.c/p";
    assert '?' !in u && '#' !in u;
    var i := LastIndexOf(u, '.');
    assert u[9..] == "c/p";
    assert '.' !in "c/p";
    assert i == 8;
  }

  /**
   * The relative source `p` under the base `http://h.c` fetches the same URL
   * as `http://h.c/p` above, yet it gets the default extension and so a file
   * whenever that URL is served.
   */
  lemma RelativeTwinGetsFile(served: set<string>)
    ensures SourceToFetch("http://h.c", "p") == "http://h.c/p"
    ensures GetFileExtension("p") == ".jpg"
    ensures "http://h.c/p" in served ==>
              DownloadedFile(1, "p", "http://h.c", served) == Some(FileName(1, "p"))
  {
    assert GetFileExtension("p") == ".jpg";
    assert DropTrailingSlashes(".jpg") == ".jpg";
    ServedFileKeepsItsName(1, "p");
  }

  /** A name whose extension does not end in `/` is stored unchanged. */
  lemma ServedFileKeepsItsName(index: nat, src: string)
    requires DropTrailingSlashes(GetFileExtension(src)) == GetFileExtension(src)
    ensures StoredFileName(index, src) == FileName(index, src)
  {
  }
}
