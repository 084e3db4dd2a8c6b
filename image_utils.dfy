/**
 * lib/image-utils.ts: storage paths for uploaded images, their parsing back
 * into type and slug, MIME-type and size validation, and display URLs.
 * Paths are plain strings; `path.extname` follows Node's POSIX rules.
 */
module ImageUtils {
  import opened Opt
  import opened Text

  /** The five image kinds, in the order the slug pattern lists them. */
  const Kinds: seq<string> := ["thumbnail", "gallery", "logo", "featured", "content"]

  /** An uploaded file as the handlers see it: name, MIME type and size in bytes. */
  datatype UploadedFile = UploadedFile(name: string, mimeType: string, size: int)

  datatype Validation = Valid | Invalid(error: string)

  /** What `getImageInfo` recovers from a path. */
  datatype ImageInfo = ImageInfo(contentType: string, imageType: string, slug: string, filename: string)

  const DefaultMaxSizeMB: int := 5
  const DefaultAllowedTypes: seq<string> := ["image/jpeg", "image/png", "image/webp", "image/svg+xml"]

  // ---------------------------------------------------------------- extname

  /** A string of the form `.xyz`: one leading dot, no further dot, no slash. */
  predicate IsExtension(e: string) {
    |e| >= 1 && e[0] == '.' && forall i :: 1 <= i < |e| ==> e[i] != '.' && e[i] != '/'
  }

  function TrimTrailingSlashes(p: string): (r: string)
    ensures |r| <= |p| && r == p[..|r|]
    ensures |r| > 0 ==> r[|r| - 1] != '/'
  {
    if |p| > 0 && p[|p| - 1] == '/' then TrimTrailingSlashes(p[..|p| - 1]) else p
  }

  /** The text after the last '/'. */
  function LastSegment(p: string): (seg: string)
    ensures '/' !in seg && |seg| <= |p|
    ensures |p| > 0 && p[|p| - 1] != '/' ==> |seg| > 0 && seg[|seg| - 1] == p[|p| - 1]
  {
    if |p| == 0 || p[|p| - 1] == '/' then "" else LastSegment(p[..|p| - 1]) + [p[|p| - 1]]
  }

  /** The index of the last '.', if any. */
  function LastDot(s: string): (r: Option<nat>)
    ensures r.None? <==> '.' !in s
    ensures r.Some? ==> r.value < |s| && s[r.value] == '.' && '.' !in s[r.value + 1..]
  {
    if |s| == 0 then None
    else if s[|s| - 1] == '.' then Some(|s| - 1)
    else
      var r := LastDot(s[..|s| - 1]);
      assert s == s[..|s| - 1] + [s[|s| - 1]];
      r
  }

  /**
   * `path.extname`: from the last '.' of the last segment (trailing slashes
   * ignored) to its end; empty when there is no dot, when the dot opens
   * the segment (`.bashrc`), or for the segment `..`.
   */
  function ExtName(p: string): (e: string)
    ensures e == "" || IsExtension(e)
  {
    var seg := LastSegment(TrimTrailingSlashes(p));
    match LastDot(seg)
    case None => ""
    case Some(d) => if d == 0 || seg == ".." then "" else seg[d..]
  }

  /**
   * What `path.extname` returns, stated on the last segment `seg`: empty
   * exactly when `seg` has no dot, is `..`, or has its only dot in front;
   * otherwise the tail of `seg` from its last dot, a proper suffix.
   */
  lemma ExtNameOfSegment(p: string, seg: string)
    requires seg == LastSegment(TrimTrailingSlashes(p))
    ensures ExtName(p) == "" <==> '.' !in seg || seg == ".." || (seg[0] == '.' && '.' !in seg[1..])
    ensures ExtName(p) != "" ==>
      |ExtName(p)| < |seg| && seg == seg[..|seg| - |ExtName(p)|] + ExtName(p) &&
      ExtName(p)[0] == '.' && '.' !in ExtName(p)[1..]
  {
    match LastDot(seg)
    case None =>
    case Some(d) =>
      if d == 0 {
        assert seg[1..] == seg[d + 1..];
      } else if seg != ".." {
        assert seg[d..][1..] == seg[d + 1..];
        assert seg == seg[..d] + seg[d..];
        assert seg[0] == '.' ==> '.' in seg[1..] by {
          if seg[0] == '.' { assert seg[1..][d - 1] == '.'; }
        }
      }
  }

  lemma {:induction false} LastSegmentAppend(x: string, e: string)
    requires '/' !in e
    ensures LastSegment(x + e) == LastSegment(x) + e
    decreases |e|
  {
    if |e| > 0 {
      var e' := e[..|e| - 1];
      assert (x + e)[..|x + e| - 1] == x + e';
      LastSegmentAppend(x, e');
      assert e' + [e[|e| - 1]] == e;
    } else {
      assert x + e == x;
    }
  }

  /** Appending an extension to a name that does not end in '/' or '.' makes that the extension. */
  lemma ExtNameOfAppended(x: string, e: string)
    requires IsExtension(e)
    requires |x| >= 1 && x[|x| - 1] != '/' && x[|x| - 1] != '.'
    ensures ExtName(x + e) == e
  {
    var p := x + e;
    assert p[|p| - 1] != '/';
    assert TrimTrailingSlashes(p) == p;
    assert '/' !in e;
    LastSegmentAppend(x, e);
    var seg := LastSegment(x);
    assert |seg| > 0 && seg[|seg| - 1] == x[|x| - 1];
    var s := seg + e;
    assert LastDot(s) == Some(|seg|) by {
      assert s[|seg|] == '.';
      assert '.' !in s[|seg| + 1..] by {
        assert s[|seg| + 1..] == e[1..];
      }
      LastDotIsUnique(s, |seg|);
    }
    assert s != ".." by {
      if |s| == 2 { assert s[0] == seg[|seg| - 1]; }
    }
    assert s[|seg|..] == e;
  }

  lemma LastDotIsUnique(s: string, d: nat)
    requires d < |s| && s[d] == '.' && '.' !in s[d + 1..]
    ensures LastDot(s) == Some(d)
  {
    assert '.' in s;
  }

  // ---------------------------------------------------------- generateImagePath

  /** The directory each known kind is stored under. */
  function Subdir(imageType: string): (d: Option<string>)
    ensures d.Some? <==> imageType in Kinds
  {
    if imageType == "thumbnail" then Some("thumbnails")
    else if imageType == "gallery" then Some("gallery")
    else if imageType == "logo" then Some("logos")
    else if imageType == "featured" then Some("featured")
    else if imageType == "content" then Some("content")
    else None
  }

  /** `-${index + 1}` when an index is given, for the numbered kinds. */
  function Suffix(index: Option<int>): (s: string)
    ensures index.None? ==> s == ""
    ensures index.Some? ==> s == "-" + IntToString(index.value + 1)
  {
    match index
    case None => ""
    case Some(i) => "-" + IntToString(i + 1)
  }

  predicate Numbered(imageType: string) { imageType == "gallery" || imageType == "content" }

  /** The file name a path ends with: `{slug}-{kind}{suffix}{ext}`. */
  function StoredName(imageType: string, slug: string, filename: string, index: Option<int>): string {
    slug + "-" + imageType + (if Numbered(imageType) then Suffix(index) else "") + ExtName(filename)
  }

  /**
   * `generateImagePath`: the `switch` over the kind is `Subdir` (which
   * directory) and `Numbered` (whether `index` adds a suffix); an unknown
   * kind falls to the `default` branch, straight under the base directory.
   */
  function GenerateImagePath(contentType: string, imageType: string, slug: string, filename: string, index: Option<int>): (path: string)
    ensures StartsWith(path, "/images/" + contentType + "s/")
    ensures |ExtName(filename)| <= |path| && path[|path| - |ExtName(filename)|..] == ExtName(filename)
  {
    var basePath := "/images/" + contentType + "s";
    var ext := ExtName(filename);
    var rest := match Subdir(imageType)
      case Some(subdir) => subdir + "/" + StoredName(imageType, slug, filename, index)
      case None => slug + "-" + imageType + ext;
    assert rest[|rest| - |ext|..] == ext;
    var path := basePath + "/" + rest;
    assert path == ("/images/" + contentType + "s/") + rest;
    path
  }

  /** Only the numbered kinds look at `index`. */
  lemma IndexOnlyNumbersGalleryAndContent(contentType: string, imageType: string, slug: string, filename: string, i1: Option<int>, i2: Option<int>)
    requires !Numbered(imageType)
    ensures GenerateImagePath(contentType, imageType, slug, filename, i1) == GenerateImagePath(contentType, imageType, slug, filename, i2)
  {
  }

  /** Only the extension of `filename` reaches the path. */
  lemma OnlyExtensionMatters(contentType: string, imageType: string, slug: string, f1: string, f2: string, index: Option<int>)
    requires ExtName(f1) == ExtName(f2)
    ensures GenerateImagePath(contentType, imageType, slug, f1, index) == GenerateImagePath(contentType, imageType, slug, f2, index)
  {
  }

  // ---------------------------------------------------------- validateImageFile

  /** `validateImageFile`: the MIME type first, then the size against `maxSizeMB` mebibytes. */
  function ValidateImageFile(file: UploadedFile, maxSizeMB: int, allowedTypes: seq<string>): (v: Validation)
    ensures file.mimeType !in allowedTypes ==> v == Invalid("Invalid file type. Allowed types: " + Join(allowedTypes, ", "))
    ensures file.mimeType in allowedTypes ==> (v.Valid? <==> file.size <= maxSizeMB * 1024 * 1024)
    ensures file.mimeType in allowedTypes && v.Invalid? ==> v.error == "File size too large. Maximum size: " + IntToString(maxSizeMB) + "MB"
  {
    if file.mimeType !in allowedTypes then
      Invalid("Invalid file type. Allowed types: " + Join(allowedTypes, ", "))
    else
      var maxSizeBytes := maxSizeMB * 1024 * 1024;
      if file.size > maxSizeBytes then Invalid("File size too large. Maximum size: " + IntToString(maxSizeMB) + "MB")
      else Valid
  }

  /** With the defaults, exactly 5 MiB passes and one byte more fails. */
  lemma SizeBoundary(name: string, mimeType: string)
    requires mimeType in DefaultAllowedTypes
    ensures ValidateImageFile(UploadedFile(name, mimeType, 5242880), DefaultMaxSizeMB, DefaultAllowedTypes).Valid?
    ensures ValidateImageFile(UploadedFile(name, mimeType, 5242881), DefaultMaxSizeMB, DefaultAllowedTypes)
         == Invalid("File size too large. Maximum size: 5MB")
  {
    assert IntToString(5) == "5";
  }

  /** A disallowed type is reported as such even when the file is also too large. */
  lemma TypeReportedBeforeSize(file: UploadedFile, maxSizeMB: int, allowedTypes: seq<string>)
    requires file.mimeType !in allowedTypes && file.size > maxSizeMB * 1024 * 1024
    ensures ValidateImageFile(file, maxSizeMB, allowedTypes).Invalid?
    ensures StartsWith(ValidateImageFile(file, maxSizeMB, allowedTypes).error, "Invalid file type.")
  {
  }

  // ---------------------------------------------------- generateUniqueFilename

  /** `generateUniqueFilename`; `timestamp` is `Date.now()`. */
  function GenerateUniqueFilename(originalName: string, slug: string, imageType: string, timestamp: nat): (name: string)
    ensures StartsWith(name, slug + "-" + imageType + "-")
    ensures |ExtName(originalName)| < |name| && name[|name| - |ExtName(originalName)|..] == ExtName(originalName)
  {
    slug + "-" + imageType + "-" + NatToString(timestamp) + ExtName(originalName)
  }

  /** The base name of the original is ignored: two names with one extension give one result. */
  lemma UniqueFilenameIgnoresBaseName(n1: string, n2: string, slug: string, imageType: string, timestamp: nat)
    requires ExtName(n1) == ExtName(n2)
    ensures GenerateUniqueFilename(n1, slug, imageType, timestamp) == GenerateUniqueFilename(n2, slug, imageType, timestamp)
  {
  }

  /** The generated name keeps the original's extension. */
  lemma UniqueFilenameKeepsExtension(originalName: string, slug: string, imageType: string, timestamp: nat)
    requires ExtName(originalName) != ""
    ensures ExtName(GenerateUniqueFilename(originalName, slug, imageType, timestamp)) == ExtName(originalName)
  {
    var x := slug + "-" + imageType + "-" + NatToString(timestamp);
    var digits := NatToString(timestamp);
    assert x[|x| - 1] == digits[|digits| - 1];
    assert IsDigit(x[|x| - 1]);
    ExtNameOfAppended(x, ExtName(originalName));
  }

  // ------------------------------------------------------------- getImageInfo

  /** `-{kind}` begins at offset `i` of `f`. */
  predicate MarkerAt(f: string, i: nat)
    requires i <= |f|
  {
    exists k :: 0 <= k < |Kinds| && StartsWith(f[i..], "-" + Kinds[k])
  }

  /** A character the regular-expression `.` does not match. */
  predicate IsLineTerminator(c: char) { c == '\n' || c == '\r' || c == '\U{2028}' || c == '\U{2029}' }

  /**
   * The lazy group of `/^(.+?)-(thumbnail|gallery|logo|featured|content)/`:
   * the first end `i >= 1` of a line-terminator-free prefix followed by a
   * marker.
   */
  function SlugEnd(f: string, i: nat): (r: Option<nat>)
    requires i >= 1
    ensures r.Some? ==> i <= r.value < |f| && MarkerAt(f, r.value)
    ensures r.Some? ==> forall j :: i <= j < r.value ==> !MarkerAt(f, j)
    decreases |f| - i
  {
    if i > |f| || IsLineTerminator(f[i - 1]) then None
    else if MarkerAt(f, i) then Some(i)
    else SlugEnd(f, i + 1)
  }

  /** The slug a stored file name starts with; `''` when the pattern does not match. */
  function SlugOf(filename: string): (slug: string)
    ensures slug != "" ==> StartsWith(filename, slug) && MarkerAt(filename, |slug|)
  {
    match SlugEnd(filename, 1)
    case None => ""
    case Some(e) => filename[..e]
  }

  /** `getImageInfo`. */
  function GetImageInfo(imagePath: string): (r: Option<ImageInfo>)
    ensures r.None? <==> |Split(imagePath, '/')| < 4
    ensures r.Some? ==> var parts := Split(imagePath, '/');
      (r.value.contentType == "project" <==> parts[2] == "projects") &&
      (r.value.contentType == "project" || r.value.contentType == "blog") &&
      r.value.imageType == parts[3] && r.value.filename == parts[|parts| - 1] &&
      r.value.slug == SlugOf(r.value.filename)
  {
    var pathParts := Split(imagePath, '/');
    if |pathParts| < 4 then None
    else
      var contentType := if pathParts[2] == "projects" then "project" else "blog";
      var filename := pathParts[|pathParts| - 1];
      Some(ImageInfo(contentType, pathParts[3], SlugOf(filename), filename))
  }

  /** No kind name contains '-'. */
  lemma KindsHaveNoDash(k: nat, t: nat)
    requires k < |Kinds| && t < |Kinds[k]|
    ensures Kinds[k][t] != '-'
  {
    if k == 0 { assert Kinds[0] == "thumbnail"; }
    else if k == 1 { assert Kinds[1] == "gallery"; }
    else if k == 2 { assert Kinds[2] == "logo"; }
    else if k == 3 { assert Kinds[3] == "featured"; }
    else { assert Kinds[4] == "content"; }
  }

  /** A marker cannot start inside the slug and run past it into `-{kind}…`. */
  lemma NoStraddle(slug: string, rest: string, i: nat)
    requires 1 <= i < |slug| && |rest| >= 1 && rest[0] == '-'
    requires !MarkerAt(slug, i)
    ensures !MarkerAt(slug + rest, i)
  {
    var f := slug + rest;
    if MarkerAt(f, i) {
      var k :| 0 <= k < |Kinds| && StartsWith(f[i..], "-" + Kinds[k]);
      var m := "-" + Kinds[k];
      if i + |m| <= |slug| {
        assert false;
      } else {
        var j := |slug| - i;
        assert f[i..][j] == rest[0] == '-';
        assert m[j] == Kinds[k][j - 1];
        KindsHaveNoDash(k, j - 1);
        assert false;
      }
    }
  }

  /** The slug a conforming file name is built from. */
  predicate ConformingSlug(slug: string) {
    |slug| >= 1 && '/' !in slug &&
    (forall j :: 0 <= j < |slug| ==> !IsLineTerminator(slug[j])) &&
    (forall i :: 1 <= i < |slug| ==> !MarkerAt(slug, i))
  }

  lemma {:induction false} SlugEndOfStored(slug: string, rest: string, k: nat, i: nat)
    requires ConformingSlug(slug)
    requires k < |Kinds| && StartsWith(rest, "-" + Kinds[k])
    requires 1 <= i <= |slug|
    ensures SlugEnd(slug + rest, i) == Some(|slug|)
    decreases |slug| - i
  {
    var f := slug + rest;
    assert f[i - 1] == slug[i - 1];
    assert !IsLineTerminator(slug[i - 1]);
    if i == |slug| {
      assert f[i..] == rest;
      assert MarkerAt(f, i);
    } else {
      assert rest[0] == '-' by {
        assert rest[..|"-" + Kinds[k]|][0] == '-';
      }
      assert !MarkerAt(slug, i);
      NoStraddle(slug, rest, i);
      SlugEndOfStored(slug, rest, k, i + 1);
    }
  }

  /** `SlugOf` recovers a conforming slug from `{slug}-{kind}…`. */
  lemma SlugOfStored(slug: string, imageType: string, tail: string)
    requires ConformingSlug(slug) && imageType in Kinds
    ensures SlugOf(slug + ("-" + imageType + tail)) == slug
  {
    var k := MarkerStart(imageType, tail);
    SlugEndOfStored(slug, "-" + imageType + tail, k, 1);
  }

  /** `-{kind}…` starts with the marker of that kind. */
  lemma MarkerStart(imageType: string, tail: string) returns (k: nat)
    requires imageType in Kinds
    ensures k < |Kinds| && Kinds[k] == imageType && StartsWith("-" + imageType + tail, "-" + Kinds[k])
  {
    k :| 0 <= k < |Kinds| && Kinds[k] == imageType;
    var rest := "-" + imageType + tail;
    assert rest[..|"-" + Kinds[k]|] == "-" + Kinds[k];
  }

  lemma StoredNameHasNoSlash(imageType: string, slug: string, filename: string, index: Option<int>)
    requires imageType in Kinds && '/' !in slug
    ensures '/' !in StoredName(imageType, slug, filename, index)
  {
    var suffix := if Numbered(imageType) then Suffix(index) else "";
    var ext := ExtName(filename);
    assert '/' !in imageType;
    assert '/' !in suffix by {
      if index.Some? && Numbered(imageType) {
        var n := IntToString(index.value + 1);
        if index.value + 1 < 0 {
          assert n == "-" + NatToString(-(index.value + 1));
        }
        assert '/' !in n;
      }
    }
    assert '/' !in ext;
    assert '/' !in slug + "-" + imageType + suffix + ext;
  }

  lemma SplitStoredPath(typeDir: string, dir: string, name: string)
    requires '/' !in typeDir && '/' !in dir && '/' !in name
    ensures Split("/images/" + typeDir + "/" + dir + "/" + name, '/') == ["", "images", typeDir, dir, name]
  {
    var p := "/images/" + typeDir + "/" + dir + "/" + name;
    assert p == "" + ['/'] + ("images" + ['/'] + (typeDir + ['/'] + (dir + ['/'] + name)));
    SplitNoSep(name, '/');
    SplitCons(dir, '/', name);
    SplitCons(typeDir, '/', dir + ['/'] + name);
    SplitCons("images", '/', typeDir + ['/'] + (dir + ['/'] + name));
    SplitCons("", '/', "images" + ['/'] + (typeDir + ['/'] + (dir + ['/'] + name)));
  }

  /** Parsing `/images/{typeDir}/{dir}/{name}` reads the three pieces back. */
  lemma GetImageInfoOfStoredPath(typeDir: string, dir: string, name: string)
    requires '/' !in typeDir && '/' !in dir && '/' !in name
    ensures GetImageInfo("/images/" + typeDir + "/" + dir + "/" + name)
         == Some(ImageInfo(if typeDir == "projects" then "project" else "blog", dir, SlugOf(name), name))
  {
    SplitStoredPath(typeDir, dir, name);
  }

  lemma DirectoriesHaveNoSlash(contentType: string, imageType: string)
    requires contentType == "project" || contentType == "blog"
    requires imageType in Kinds
    ensures '/' !in contentType + "s" && '/' !in Subdir(imageType).value
    ensures contentType + "s" == "projects" <==> contentType == "project"
  {
  }

  lemma SlugOfStoredName(imageType: string, slug: string, filename: string, index: Option<int>)
    requires imageType in Kinds && ConformingSlug(slug)
    ensures SlugOf(StoredName(imageType, slug, filename, index)) == slug
  {
    var tail := (if Numbered(imageType) then Suffix(index) else "") + ExtName(filename);
    StoredNameSplits(imageType, slug, filename, index);
    SlugOfStored(slug, imageType, tail);
  }

  /** A stored name is the slug followed by `-{kind}{suffix}{ext}`. */
  lemma StoredNameSplits(imageType: string, slug: string, filename: string, index: Option<int>)
    ensures StoredName(imageType, slug, filename, index)
         == slug + ("-" + imageType + ((if Numbered(imageType) then Suffix(index) else "") + ExtName(filename)))
  {
    Reassociate(slug, "-", imageType, if Numbered(imageType) then Suffix(index) else "", ExtName(filename));
  }

  lemma Reassociate(s: string, m: string, k: string, x: string, e: string)
    ensures s + m + k + x + e == s + (m + k + (x + e))
  {
  }

  lemma GeneratedPathPieces(contentType: string, imageType: string, slug: string, filename: string, index: Option<int>)
    requires imageType in Kinds
    ensures GenerateImagePath(contentType, imageType, slug, filename, index)
         == "/images/" + (contentType + "s") + "/" + Subdir(imageType).value + "/" + StoredName(imageType, slug, filename, index)
  {
    var b := "/images/" + contentType + "s";
    assert b == "/images/" + (contentType + "s");
    assert GenerateImagePath(contentType, imageType, slug, filename, index)
        == b + "/" + Subdir(imageType).value + "/" + StoredName(imageType, slug, filename, index);
  }

  /**
   * Round trip: parsing a generated path gives back the type and the slug.
   * The kind comes back as its directory name (`thumbnails`, `logos`, …).
   */
  lemma GetImageInfoInvertsGenerateImagePath(contentType: string, imageType: string, slug: string, filename: string, index: Option<int>)
    requires contentType == "project" || contentType == "blog"
    requires imageType in Kinds && ConformingSlug(slug)
    ensures GetImageInfo(GenerateImagePath(contentType, imageType, slug, filename, index))
         == Some(ImageInfo(contentType, Subdir(imageType).value, slug, StoredName(imageType, slug, filename, index)))
  {
    var dir := Subdir(imageType).value;
    var name := StoredName(imageType, slug, filename, index);
    var typeDir := contentType + "s";
    GeneratedPathPieces(contentType, imageType, slug, filename, index);
    StoredNameHasNoSlash(imageType, slug, filename, index);
    DirectoriesHaveNoSlash(contentType, imageType);
    GetImageInfoOfStoredPath(typeDir, dir, name);
    SlugOfStoredName(imageType, slug, filename, index);
  }

  // ------------------------------------------------------------ display URLs

  /** `getImageUrl`: strip one leading '/', then add one. */
  function GetImageUrl(imagePath: string): (url: string)
    ensures |url| >= 1 && url[0] == '/'
    ensures StartsWith(imagePath, "/") ==> url == imagePath
    ensures !StartsWith(imagePath, "/") ==> url == "/" + imagePath
  {
    var cleanPath := if StartsWith(imagePath, "/") then imagePath[1..] else imagePath;
    "/" + cleanPath
  }

  lemma GetImageUrlIdempotent(imagePath: string)
    ensures GetImageUrl(GetImageUrl(imagePath)) == GetImageUrl(imagePath)
  {
    assert StartsWith(GetImageUrl(imagePath), "/");
  }

  /** `getOptimizedImageUrl`: the size and quality hints are accepted and ignored. */
  function GetOptimizedImageUrl(imagePath: string, width: Option<int>, height: Option<int>, quality: int): string {
    GetImageUrl(imagePath)
  }

  lemma OptimizedUrlIgnoresHints(imagePath: string, w1: Option<int>, h1: Option<int>, q1: int, w2: Option<int>, h2: Option<int>, q2: int)
    ensures GetOptimizedImageUrl(imagePath, w1, h1, q1) == GetOptimizedImageUrl(imagePath, w2, h2, q2) == GetImageUrl(imagePath)
  {
  }
}

/**
 * The selection rule of `cleanupUnusedImages` (lib/image-utils.ts): a walk
 * over the project and blog image directories that deletes every file whose
 * parsed slug is not in use and reports the deleted paths. The public
 * folder is a map from directory path to its listing (`readdirSync` order);
 * a missing key is a directory that does not exist.
 */
module ImageCleanup {
  import opened Opt
  import opened ImageUtils

  const ProjectSubdirs: seq<string> := ["thumbnails", "gallery", "logos"]
  const BlogSubdirs: seq<string> := ["thumbnails", "featured", "content"]

  function DirOf(section: string, subdir: string): string {
    "/images/" + section + "/" + subdir
  }

  function PathOf(section: string, subdir: string, file: string): string {
    "/images/" + section + "/" + subdir + "/" + file
  }

  /** `fileInfo && !slugs.includes(fileInfo.slug)`. */
  predicate Unused(section: string, subdir: string, file: string, slugs: seq<string>) {
    var info := GetImageInfo(PathOf(section, subdir, file));
    info.Some? && info.value.slug !in slugs
  }

  /** The paths a sweep of one listing deletes, in listing order. */
  function Deleted(section: string, subdir: string, files: seq<string>, slugs: seq<string>): (r: seq<string>)
    ensures |r| <= |files|
    ensures forall f :: f in files && Unused(section, subdir, f, slugs) ==> PathOf(section, subdir, f) in r
  {
    if |files| == 0 then []
    else
      var last := files[|files| - 1];
      assert files == files[..|files| - 1] + [last];
      Deleted(section, subdir, files[..|files| - 1], slugs) + (if Unused(section, subdir, last, slugs) then [PathOf(section, subdir, last)] else [])
  }

  /** The names a sweep of one listing leaves in place, in listing order. */
  function Kept(section: string, subdir: string, files: seq<string>, slugs: seq<string>): (r: seq<string>)
    ensures |r| + |Deleted(section, subdir, files, slugs)| == |files|
    ensures forall f :: f in r ==> f in files
    ensures forall f :: f in files ==> (f in r <==> !Unused(section, subdir, f, slugs))
  {
    if |files| == 0 then []
    else
      var last := files[|files| - 1];
      assert files == files[..|files| - 1] + [last];
      Kept(section, subdir, files[..|files| - 1], slugs) + (if Unused(section, subdir, last, slugs) then [] else [last])
  }

  /** One directory: its new listing and the deleted paths. */
  function SweepDir(listings: map<string, seq<string>>, section: string, subdir: string, slugs: seq<string>): (map<string, seq<string>>, seq<string>) {
    var dir := DirOf(section, subdir);
    if dir in listings then
      (listings[dir := Kept(section, subdir, listings[dir], slugs)], Deleted(section, subdir, listings[dir], slugs))
    else (listings, [])
  }

  /** The sub-directories of one section, in order. */
  function SweepSection(listings: map<string, seq<string>>, section: string, subdirs: seq<string>, slugs: seq<string>): (map<string, seq<string>>, seq<string>) {
    if |subdirs| == 0 then (listings, [])
    else
      var (l1, c1) := SweepSection(listings, section, subdirs[..|subdirs| - 1], slugs);
      var (l2, c2) := SweepDir(l1, section, subdirs[|subdirs| - 1], slugs);
      (l2, c1 + c2)
  }

  /** The whole walk: project directories first, then blog directories. */
  function Cleanup(listings: map<string, seq<string>>, projectSlugs: seq<string>, blogSlugs: seq<string>): (map<string, seq<string>>, seq<string>) {
    var (l1, c1) := SweepSection(listings, "projects", ProjectSubdirs, projectSlugs);
    var (l2, c2) := SweepSection(l1, "blogs", BlogSubdirs, blogSlugs);
    (l2, c1 + c2)
  }

  ghost predicate AllUsed(section: string, subdir: string, files: seq<string>, slugs: seq<string>) {
    forall i :: 0 <= i < |files| ==> !Unused(section, subdir, files[i], slugs)
  }

  ghost predicate DirClean(listings: map<string, seq<string>>, section: string, subdir: string, slugs: seq<string>) {
    DirOf(section, subdir) in listings ==> AllUsed(section, subdir, listings[DirOf(section, subdir)], slugs)
  }

  /** Kept files are in use, and every deleted path is that of a listed file that is not. */
  lemma {:induction false} KeptAreUsed(section: string, subdir: string, files: seq<string>, slugs: seq<string>)
    ensures AllUsed(section, subdir, Kept(section, subdir, files, slugs), slugs)
    ensures forall p :: p in Deleted(section, subdir, files, slugs) ==>
      exists f :: f in files && p == PathOf(section, subdir, f) && Unused(section, subdir, f, slugs)
  {
    if |files| > 0 {
      var init := files[..|files| - 1];
      KeptAreUsed(section, subdir, init, slugs);
      forall p | p in Deleted(section, subdir, files, slugs)
        ensures exists f :: f in files && p == PathOf(section, subdir, f) && Unused(section, subdir, f, slugs)
      {
        if p in Deleted(section, subdir, init, slugs) {
          var f :| f in init && p == PathOf(section, subdir, f) && Unused(section, subdir, f, slugs);
          assert f in files;
        } else {
          assert files[|files| - 1] in files;
        }
      }
    }
  }

  /** Sweeping a listing that holds only used files deletes nothing and keeps it as it is. */
  lemma {:induction false} SweepOfUsedIsIdentity(section: string, subdir: string, files: seq<string>, slugs: seq<string>)
    requires AllUsed(section, subdir, files, slugs)
    ensures Deleted(section, subdir, files, slugs) == [] && Kept(section, subdir, files, slugs) == files
  {
    if |files| > 0 {
      SweepOfUsedIsIdentity(section, subdir, files[..|files| - 1], slugs);
      assert files[..|files| - 1] + [files[|files| - 1]] == files;
    }
  }

  lemma {:induction false} SweepSectionCleans(listings: map<string, seq<string>>, section: string, subdirs: seq<string>, slugs: seq<string>)
    ensures forall d :: d in subdirs ==> DirClean(SweepSection(listings, section, subdirs, slugs).0, section, d, slugs)
    ensures forall k :: k in listings <==> k in SweepSection(listings, section, subdirs, slugs).0
    decreases |subdirs|
  {
    if |subdirs| > 0 {
      var init := subdirs[..|subdirs| - 1];
      var last := subdirs[|subdirs| - 1];
      SweepSectionCleans(listings, section, init, slugs);
      var l1 := SweepSection(listings, section, init, slugs).0;
      var l2 := SweepDir(l1, section, last, slugs).0;
      if DirOf(section, last) in l1 {
        KeptAreUsed(section, last, l1[DirOf(section, last)], slugs);
      }
      forall d | d in subdirs ensures DirClean(l2, section, d, slugs) {
        if d != last {
          assert d in init;
          if DirOf(section, d) != DirOf(section, last) {
            assert DirClean(l1, section, d, slugs);
          }
        }
      }
    }
  }

  /** Sweeping directories that are already clean changes nothing and deletes nothing. */
  lemma {:induction false} SweepSectionOfClean(listings: map<string, seq<string>>, section: string, subdirs: seq<string>, slugs: seq<string>)
    requires forall d :: d in subdirs ==> DirClean(listings, section, d, slugs)
    ensures SweepSection(listings, section, subdirs, slugs) == (listings, [])
    decreases |subdirs|
  {
    if |subdirs| > 0 {
      var init := subdirs[..|subdirs| - 1];
      var last := subdirs[|subdirs| - 1];
      assert forall d :: d in init ==> d in subdirs;
      SweepSectionOfClean(listings, section, init, slugs);
      var dir := DirOf(section, last);
      assert last in subdirs;
      if dir in listings {
        SweepOfUsedIsIdentity(section, last, listings[dir], slugs);
        assert listings[dir := listings[dir]] == listings;
      }
      var empty: seq<string> := [];
      assert empty + empty == empty;
    }
  }

  /** A section sweep leaves every directory other than its own sub-directories as it was. */
  lemma {:induction false} SweepSectionFrame(listings: map<string, seq<string>>, section: string, subdirs: seq<string>, slugs: seq<string>, key: string)
    requires forall d :: d in subdirs ==> DirOf(section, d) != key
    ensures key in SweepSection(listings, section, subdirs, slugs).0 <==> key in listings
    ensures key in listings ==> SweepSection(listings, section, subdirs, slugs).0[key] == listings[key]
    decreases |subdirs|
  {
    if |subdirs| > 0 {
      var init := subdirs[..|subdirs| - 1];
      assert forall d :: d in init ==> d in subdirs;
      SweepSectionFrame(listings, section, init, slugs, key);
      assert subdirs[|subdirs| - 1] in subdirs;
    }
  }

  lemma ProjectAndBlogDirsDiffer(p: string, b: string)
    ensures DirOf("projects", p) != DirOf("blogs", b)
  {
    assert DirOf("projects", p)[8] == 'p';
    assert DirOf("blogs", b)[8] == 'b';
  }

  /** Running the cleanup a second time deletes nothing and leaves the folder as the first run did. */
  lemma CleanupIsIdempotent(listings: map<string, seq<string>>, projectSlugs: seq<string>, blogSlugs: seq<string>)
    ensures var (after, _) := Cleanup(listings, projectSlugs, blogSlugs);
      Cleanup(after, projectSlugs, blogSlugs) == (after, [])
  {
    var l1 := SweepSection(listings, "projects", ProjectSubdirs, projectSlugs).0;
    var l2 := SweepSection(l1, "blogs", BlogSubdirs, blogSlugs).0;
    SweepSectionCleans(listings, "projects", ProjectSubdirs, projectSlugs);
    SweepSectionCleans(l1, "blogs", BlogSubdirs, blogSlugs);
    forall d | d in ProjectSubdirs ensures DirClean(l2, "projects", d, projectSlugs) {
      forall b | b in BlogSubdirs ensures DirOf("blogs", b) != DirOf("projects", d) {
        ProjectAndBlogDirsDiffer(d, b);
      }
      SweepSectionFrame(l1, "blogs", BlogSubdirs, blogSlugs, DirOf("projects", d));
      assert DirClean(l1, "projects", d, projectSlugs);
    }
    SweepSectionOfClean(l2, "projects", ProjectSubdirs, projectSlugs);
    SweepSectionOfClean(l2, "blogs", BlogSubdirs, blogSlugs);
  }

  /** For a file name without '/', the rule reads: a listed file stays exactly when its `SlugOf` is in use. */
  lemma UnusedBySlug(section: string, subdir: string, file: string, files: seq<string>, slugs: seq<string>)
    requires '/' !in section && '/' !in subdir && '/' !in file
    ensures Unused(section, subdir, file, slugs) <==> SlugOf(file) !in slugs
    ensures file in files ==>
      (file in Kept(section, subdir, files, slugs) <==> SlugOf(file) in slugs) &&
      (SlugOf(file) !in slugs ==> PathOf(section, subdir, file) in Deleted(section, subdir, files, slugs))
  {
    GetImageInfoOfStoredPath(section, subdir, file);
  }

  /** A listed file not named `{slug}-{kind}…` parses to slug `''`, so it is deleted unless `''` is listed. */
  lemma NonconformingNamesAreDeleted(section: string, subdir: string, file: string, files: seq<string>, slugs: seq<string>)
    requires '/' !in section && '/' !in subdir && '/' !in file
    requires file in files && SlugEnd(file, 1).None? && "" !in slugs
    ensures file !in Kept(section, subdir, files, slugs)
    ensures PathOf(section, subdir, file) in Deleted(section, subdir, files, slugs)
  {
    UnusedBySlug(section, subdir, file, files, slugs);
  }

  /** Directory paths of one section differ when their sub-directories do. */
  lemma DirOfInjective(section: string, d: string, e: string)
    requires DirOf(section, d) == DirOf(section, e)
    ensures d == e
  {
    var n := |"/images/" + section + "/"|;
    assert DirOf(section, d)[n..] == d;
    assert DirOf(section, e)[n..] == e;
  }

  /** One directory sweep never removes a file that is in use in its own directory, nor a directory. */
  lemma SweepDirKeepsUsed(listings: map<string, seq<string>>, section: string, e: string, slugs: seq<string>, d: string, f: string)
    requires DirOf(section, d) in listings && f in listings[DirOf(section, d)] && !Unused(section, d, f, slugs)
    ensures DirOf(section, d) in SweepDir(listings, section, e, slugs).0
    ensures f in SweepDir(listings, section, e, slugs).0[DirOf(section, d)]
  {
    if DirOf(section, e) == DirOf(section, d) {
      DirOfInjective(section, d, e);
    }
  }

  /** The safety half of the rule: a file in use in a swept directory is still listed after the section sweep. */
  lemma {:induction false} SweepSectionKeepsUsed(listings: map<string, seq<string>>, section: string, subdirs: seq<string>,
                                                 slugs: seq<string>, d: string, f: string)
    requires DirOf(section, d) in listings && f in listings[DirOf(section, d)] && !Unused(section, d, f, slugs)
    ensures DirOf(section, d) in SweepSection(listings, section, subdirs, slugs).0
    ensures f in SweepSection(listings, section, subdirs, slugs).0[DirOf(section, d)]
    decreases |subdirs|
  {
    if |subdirs| > 0 {
      var init := subdirs[..|subdirs| - 1];
      SweepSectionKeepsUsed(listings, section, init, slugs, d, f);
      var l1 := SweepSection(listings, section, init, slugs).0;
      SweepDirKeepsUsed(l1, section, subdirs[|subdirs| - 1], slugs, d, f);
    }
  }

  /** The whole cleanup keeps every project and blog image whose slug is in use. */
  lemma CleanupKeepsUsed(listings: map<string, seq<string>>, projectSlugs: seq<string>, blogSlugs: seq<string>, d: string, f: string)
    ensures DirOf("projects", d) in listings && f in listings[DirOf("projects", d)] && !Unused("projects", d, f, projectSlugs) ==>
      var after := Cleanup(listings, projectSlugs, blogSlugs).0;
      DirOf("projects", d) in after && f in after[DirOf("projects", d)]
    ensures DirOf("blogs", d) in listings && f in listings[DirOf("blogs", d)] && !Unused("blogs", d, f, blogSlugs) ==>
      var after := Cleanup(listings, projectSlugs, blogSlugs).0;
      DirOf("blogs", d) in after && f in after[DirOf("blogs", d)]
  {
    var l1 := SweepSection(listings, "projects", ProjectSubdirs, projectSlugs).0;
    if DirOf("projects", d) in listings && f in listings[DirOf("projects", d)] && !Unused("projects", d, f, projectSlugs) {
      SweepSectionKeepsUsed(listings, "projects", ProjectSubdirs, projectSlugs, d, f);
      forall b | b in BlogSubdirs ensures DirOf("blogs", b) != DirOf("projects", d) {
        ProjectAndBlogDirsDiffer(d, b);
      }
      SweepSectionFrame(l1, "blogs", BlogSubdirs, blogSlugs, DirOf("projects", d));
    }
    if DirOf("blogs", d) in listings && f in listings[DirOf("blogs", d)] && !Unused("blogs", d, f, blogSlugs) {
      forall p | p in ProjectSubdirs ensures DirOf("projects", p) != DirOf("blogs", d) {
        ProjectAndBlogDirsDiffer(p, d);
      }
      SweepSectionFrame(listings, "projects", ProjectSubdirs, projectSlugs, DirOf("blogs", d));
      SweepSectionKeepsUsed(l1, "blogs", BlogSubdirs, blogSlugs, d, f);
    }
  }

  /** The public image folder, whose listings the cleanup changes in place. */
  class PublicImages {
    var listings: map<string, seq<string>>

    constructor (listings: map<string, seq<string>>)
      ensures this.listings == listings
    {
      this.listings := listings;
    }

    /** One sub-directory: unlink each unused file and record its path. */
    method CleanSubdir(section: string, subdir: string, slugs: seq<string>) returns (cleaned: seq<string>)
      modifies this
      ensures (listings, cleaned) == SweepDir(old(listings), section, subdir, slugs)
    {
      cleaned := [];
      var dir := DirOf(section, subdir);
      if dir in listings {
        var files := listings[dir];
        var kept: seq<string> := [];
        for i := 0 to |files|
          invariant cleaned == Deleted(section, subdir, files[..i], slugs)
          invariant kept == Kept(section, subdir, files[..i], slugs)
        {
          var file := files[i];
          assert files[..i + 1][..i] == files[..i];
          var fileInfo := GetImageInfo("/images/" + section + "/" + subdir + "/" + file);
          if fileInfo.Some? && fileInfo.value.slug !in slugs {
            cleaned := cleaned + ["/images/" + section + "/" + subdir + "/" + file];
          } else {
            kept := kept + [file];
          }
        }
        assert files[..|files|] == files;
        listings := listings[dir := kept];
      }
    }

    /** One section: its sub-directories in order. */
    method CleanSection(section: string, subdirs: seq<string>, slugs: seq<string>) returns (cleaned: seq<string>)
      modifies this
      ensures (listings, cleaned) == SweepSection(old(listings), section, subdirs, slugs)
    {
      cleaned := [];
      for k := 0 to |subdirs|
        invariant (listings, cleaned) == SweepSection(old(listings), section, subdirs[..k], slugs)
      {
        assert subdirs[..k + 1][..k] == subdirs[..k];
        var more := CleanSubdir(section, subdirs[k], slugs);
        cleaned := cleaned + more;
      }
      assert subdirs[..|subdirs|] == subdirs;
    }

    /** `cleanupUnusedImages`: the deleted paths, projects first, then blogs. */
    method CleanupUnusedImages(projectSlugs: seq<string>, blogSlugs: seq<string>) returns (cleanedFiles: seq<string>)
      modifies this
      ensures (listings, cleanedFiles) == Cleanup(old(listings), projectSlugs, blogSlugs)
    {
      var fromProjects := CleanSection("projects", ProjectSubdirs, projectSlugs);
      var fromBlogs := CleanSection("blogs", BlogSubdirs, blogSlugs);
      cleanedFiles := fromProjects + fromBlogs;
    }
  }
}
