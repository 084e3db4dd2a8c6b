/**
 * app/api/upload/route.ts: `POST` stores an image under a generated path,
 * `DELETE` removes one. The public folder is a map from URL path to file
 * size; a failing filesystem call (the `catch` branches) is an explicit
 * flag. Neither handler looks at the session.
 */
module UploadRoute {
  import opened Opt
  import opened Text
  import opened Http
  import opened ImageUtils
  import AccessGate
  import Session

  /** The multipart form: every field may be missing; `index` is already parsed. */
  datatype UploadForm = UploadForm(
    file: Option<UploadedFile>,
    contentType: Option<string>,
    imageType: Option<string>,
    slug: Option<string>,
    index: Option<int>)

  datatype UploadReply =
    | Failure(error: string)
    | Uploaded(url: string, filename: string, size: int, imageType: string)
    | Removed(message: string)

  predicate MissingFields(form: UploadForm) {
    form.file.None? || Falsy(form.contentType) || Falsy(form.imageType) || Falsy(form.slug)
  }

  /** Where an accepted upload is written, and the URL it is served from. */
  function TargetPath(form: UploadForm, timestamp: nat): (path: string)
    requires !MissingFields(form)
    ensures StartsWith(path, "/images/" + form.contentType.value + "s/")
    ensures ExtName(form.file.value.name) != "" ==>
      |ExtName(form.file.value.name)| <= |path| &&
      path[|path| - |ExtName(form.file.value.name)|..] == ExtName(form.file.value.name)
  {
    var name, slug, kind := form.file.value.name, form.slug.value, form.imageType.value;
    var filename := GenerateUniqueFilename(name, slug, kind, timestamp);
    var path := GenerateImagePath(form.contentType.value, kind, slug, filename, form.index);
    if ExtName(name) != "" then
      UniqueFilenameKeepsExtension(name, slug, kind, timestamp);
      assert ExtName(filename) == ExtName(name);
      path
    else path
  }

  /** A path segment that `path.normalize` keeps as it is. */
  predicate PlainSegment(seg: string) { seg != "" && seg != "." && seg != ".." }

  predicate PlainSegments(segs: seq<string>) { forall k :: 0 <= k < |segs| ==> PlainSegment(segs[k]) }

  /**
   * The normalisation inside `path.join`: empty and `.` segments vanish and
   * `..` drops the segment before it, never climbing above the root.
   */
  function Normalize(base: seq<string>, segs: seq<string>): (r: seq<string>)
    ensures PlainSegments(base) ==> PlainSegments(r)
    ensures |r| <= |base| + |segs|
    decreases |segs|
  {
    if |segs| == 0 then base
    else if segs[0] == "" || segs[0] == "." then Normalize(base, segs[1..])
    else if segs[0] == ".." then Normalize(if |base| > 0 then base[..|base| - 1] else [], segs[1..])
    else Normalize(base + [segs[0]], segs[1..])
  }

  /** Normalising in two steps is normalising once. */
  lemma {:induction false} NormalizeAppend(base: seq<string>, a: seq<string>, b: seq<string>)
    ensures Normalize(base, a + b) == Normalize(Normalize(base, a), b)
    decreases |a|
  {
    if |a| > 0 {
      assert (a + b)[0] == a[0] && (a + b)[1..] == a[1..] + b;
      var next := if a[0] == "" || a[0] == "." then base
                  else if a[0] == ".." then (if |base| > 0 then base[..|base| - 1] else [])
                  else base + [a[0]];
      NormalizeAppend(next, a[1..], b);
    } else {
      assert a + b == b;
    }
  }

  /** `path.join(process.cwd(), 'public', imagePath)`, as the segments of an absolute path. */
  function FullPath(cwd: seq<string>, imagePath: string): seq<string> {
    Normalize(cwd + ["public"], Split(imagePath, '/'))
  }

  /**
   * `path.join` keeps a trailing separator, and `fs.existsSync` is false for
   * a regular file named with one (`…/a.png/`): such a path finds no file.
   */
  predicate TrailingSlash(imagePath: string) {
    |imagePath| > 0 && imagePath[|imagePath| - 1] == '/'
  }

  /** The disk below the working directory: absolute path (as segments) to file size. */
  class PublicFolder {
    const cwd: seq<string>
    var files: map<seq<string>, int>

    constructor (cwd: seq<string>, files: map<seq<string>, int>)
      ensures this.cwd == cwd && this.files == files
    {
      this.cwd := cwd;
      this.files := files;
    }

    /**
     * `POST /api/upload`; `timestamp` is `Date.now()` and `ioFails` says
     * whether `mkdir`/`writeFile`/`stat` threw.
     */
    method Post(form: UploadForm, timestamp: nat, ioFails: bool) returns (r: Reply<UploadReply>)
      modifies this
      ensures MissingFields(form) ==>
        r == Json(400, Failure("Missing required fields: file, type, imageType, slug")) && files == old(files)
      ensures !MissingFields(form) && ValidateImageFile(form.file.value, DefaultMaxSizeMB, DefaultAllowedTypes).Invalid? ==>
        r == Json(400, Failure(ValidateImageFile(form.file.value, DefaultMaxSizeMB, DefaultAllowedTypes).error)) && files == old(files)
      ensures !MissingFields(form) && ValidateImageFile(form.file.value, DefaultMaxSizeMB, DefaultAllowedTypes).Valid? ==>
        if ioFails then r == Json(500, Failure("Failed to upload file")) && files == old(files)
        else
          var path := TargetPath(form, timestamp);
          files == old(files)[FullPath(cwd, path) := form.file.value.size] &&
          r == Json(200, Uploaded(path,
                                  GenerateUniqueFilename(form.file.value.name, form.slug.value, form.imageType.value, timestamp),
                                  form.file.value.size, form.imageType.value))
    {
      if form.file.None? || Falsy(form.contentType) || Falsy(form.imageType) || Falsy(form.slug) {
        return Json(400, Failure("Missing required fields: file, type, imageType, slug"));
      }
      var file := form.file.value;
      var validation := ValidateImageFile(file, DefaultMaxSizeMB, DefaultAllowedTypes);
      if validation.Invalid? {
        return Json(400, Failure(validation.error));
      }
      var filename := GenerateUniqueFilename(file.name, form.slug.value, form.imageType.value, timestamp);
      var imagePath := GenerateImagePath(form.contentType.value, form.imageType.value, form.slug.value, filename, form.index);
      if ioFails {
        return Json(500, Failure("Failed to upload file"));
      }
      var fullPath := Normalize(cwd + ["public"], Split(imagePath, '/'));
      files := files[fullPath := file.size];
      r := Json(200, Uploaded(imagePath, filename, file.size, form.imageType.value));
    }

    /** `DELETE /api/upload?path=…`; `ioFails` says whether `unlink` threw. */
    method Delete(imagePath: Option<string>, ioFails: bool) returns (r: Reply<UploadReply>)
      modifies this
      ensures Falsy(imagePath) ==> r == Json(400, Failure("Missing image path")) && files == old(files)
      ensures !Falsy(imagePath) && (FullPath(cwd, imagePath.value) !in old(files) || TrailingSlash(imagePath.value)) ==>
        r == Json(404, Failure("File not found")) && files == old(files)
      ensures !Falsy(imagePath) && FullPath(cwd, imagePath.value) in old(files) && !TrailingSlash(imagePath.value) ==>
        if ioFails then r == Json(500, Failure("Failed to delete file")) && files == old(files)
        else r == Json(200, Removed("File deleted successfully")) && files == old(files) - {FullPath(cwd, imagePath.value)}
    {
      if Falsy(imagePath) {
        return Json(400, Failure("Missing image path"));
      }
      var fullPath := Normalize(cwd + ["public"], Split(imagePath.value, '/'));
      if fullPath !in files || TrailingSlash(imagePath.value) {
        return Json(404, Failure("File not found"));
      }
      if ioFails {
        return Json(500, Failure("Failed to delete file"));
      }
      files := files - {fullPath};
      r := Json(200, Removed("File deleted successfully"));
    }
  }

  /** A leading `/` changes nothing: `path.join` treats `/images/…` and `images/…` alike. */
  lemma LeadingSlashIgnored(cwd: seq<string>, imagePath: string)
    ensures FullPath(cwd, "/" + imagePath) == FullPath(cwd, imagePath)
  {
    SplitCons("", '/', imagePath);
    assert "" + ['/'] + imagePath == "/" + imagePath;
  }

  /**
   * A trailing `/` leaves the normalised segments as they are, so `a.png/`
   * and `a.png` name one location; only the kept separator makes the first
   * find no file.
   */
  lemma TrailingSlashSameLocation(cwd: seq<string>, imagePath: string)
    ensures FullPath(cwd, imagePath + "/") == FullPath(cwd, imagePath)
    ensures TrailingSlash(imagePath + "/")
  {
    SplitTrailingSep(imagePath, '/');
    NormalizeAppend(cwd + ["public"], Split(imagePath, '/'), [""]);
    assert [""][1..] == [];
  }

  /** A segment followed by `..` cancels out. */
  lemma DotDotCancels(base: seq<string>, seg: string, rest: seq<string>)
    requires PlainSegment(seg)
    ensures Normalize(base, [seg, ".."] + rest) == Normalize(base, rest)
  {
    assert ([seg, ".."] + rest)[1..] == [".."] + rest;
    assert ([".."] + rest)[1..] == rest;
    assert (base + [seg])[..|base|] == base;
  }

  /**
   * The path is not confined to `public`: `/../{name}` names a file directly in
   * the working directory, so an unauthenticated DELETE can remove it.
   */
  lemma ParentEscapesPublic(cwd: seq<string>, name: string)
    requires PlainSegment(name) && '/' !in name
    ensures FullPath(cwd, "/../" + name) == cwd + [name]
  {
    SplitNoSep(name, '/');
    SplitCons("..", '/', name);
    SplitCons("", '/', ".." + ['/'] + name);
    assert "" + ['/'] + (".." + ['/'] + name) == "/../" + name;
    var segs := ["", "..", name];
    assert Split("/../" + name, '/') == segs;
    var pub := cwd + ["public"];
    assert pub[..|pub| - 1] == cwd;
    assert Normalize(pub, segs) == Normalize(pub, ["..", name]) by { assert segs[1..] == ["..", name]; }
    assert Normalize(pub, ["..", name]) == Normalize(cwd, [name]) by { assert ["..", name][1..] == [name]; }
    assert Normalize(cwd, [name]) == Normalize(cwd + [name], []) by { assert [name][1..] == []; }
  }

  /**
   * `validateImageFile(file)` is called without the client's settings: a
   * file the five-megabyte default refuses is refused whatever limit the
   * uploading component was configured with.
   */
  lemma ServerLimitIsFiveMegabytes(form: UploadForm, clientMaxSizeMB: int)
    requires !MissingFields(form) && form.file.value.mimeType in DefaultAllowedTypes
    requires form.file.value.size > 5 * 1024 * 1024 && clientMaxSizeMB * 1024 * 1024 >= form.file.value.size
    ensures ValidateImageFile(form.file.value, clientMaxSizeMB, DefaultAllowedTypes).Valid?
    ensures ValidateImageFile(form.file.value, DefaultMaxSizeMB, DefaultAllowedTypes).Invalid?
  {
  }

  /** The URL an accepted upload is stored under parses back into the fields it was built from. */
  lemma UploadedUrlParsesBack(form: UploadForm, timestamp: nat)
    requires !MissingFields(form) && form.imageType.value in Kinds
    requires form.contentType.value == "project" || form.contentType.value == "blog"
    requires ConformingSlug(form.slug.value)
    ensures var filename := GenerateUniqueFilename(form.file.value.name, form.slug.value, form.imageType.value, timestamp);
      GetImageInfo(TargetPath(form, timestamp))
        == Some(ImageInfo(form.contentType.value, Subdir(form.imageType.value).value, form.slug.value,
                          StoredName(form.imageType.value, form.slug.value, filename, form.index)))
  {
    var filename := GenerateUniqueFilename(form.file.value.name, form.slug.value, form.imageType.value, timestamp);
    GetImageInfoInvertsGenerateImagePath(form.contentType.value, form.imageType.value, form.slug.value, filename, form.index);
  }

  /** `/api/upload` is outside the page gate: with no cookies at all the request reaches the handler. */
  lemma UploadIsUnauthenticated(codec: Session.Codec, env: Option<string>, nowMs: int)
    ensures AccessGate.Gate(codec, env, "/api/upload", map[], nowMs) == AccessGate.Next
  {
    AccessGate.ApiRoutesBypassGate(codec, env, "/upload", map[], nowMs);
    assert "/api" + "/upload" == "/api/upload";
  }
}
