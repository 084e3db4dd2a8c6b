/**
 * The `uploadingFiles` list shared by the two upload components: one entry
 * per file being sent, with a simulated progress and a status. Files are
 * compared by identity (`f.file === file`), modelled as an `id`.
 */
module UploadEntries {
  import opened Opt
  import opened ImageUtils

  /** A browser `File` object: its identity and what the server sees of it. */
  datatype DroppedFile = DroppedFile(id: nat, info: UploadedFile)

  datatype Status = Uploading | Succeeded | Errored

  datatype Entry = Entry(file: DroppedFile, progress: int, status: Status, error: Option<string>)

  /** The body of a 2xx reply as the components read it: `result.url` and `result.data`. */
  datatype ResultBody = ResultBody(url: Option<string>, data: Option<UploadData>)

  datatype UploadData = UploadData(url: string, filename: string, size: int, imageType: string)

  /** What the `fetch('/api/upload')` of one file came to. */
  datatype Response =
    | Accepted(body: ResultBody)           // `response.ok`
    | Refused(error: Option<string>)       // not ok; the body's `error` field
    | NetworkError(message: string)        // `fetch` itself threw

  /** One file's upload: how often the progress interval fired before the reply, and the reply. */
  datatype Outcome = Outcome(ticks: nat, response: Response)

  /** The message a failed upload is reported with: `error.error || 'Upload failed'`, or the thrown message. */
  function FailureMessage(response: Response): (m: string)
    requires !response.Accepted?
    ensures response.Refused? && (response.error.None? || response.error.value == "") ==> m == "Upload failed"
    ensures response.Refused? && response.error.Some? && response.error.value != "" ==> m == response.error.value
    ensures response.NetworkError? ==> m == response.message
  {
    match response
    case Refused(error) => if error.None? || error.value == "" then "Upload failed" else error.value
    case NetworkError(message) => message
  }

  /** `Math.min(progress + 10, 90)`. */
  function Bumped(progress: int): (p: int)
    ensures p == if progress + 10 < 90 then progress + 10 else 90
    ensures progress <= 80 ==> p == progress + 10
    ensures p <= 90
  {
    if progress + 10 < 90 then progress + 10 else 90
  }

  /** Entries start at progress 0, uploading, without an error. */
  function Fresh(files: seq<DroppedFile>): (es: seq<Entry>)
    ensures |es| == |files|
    ensures forall k :: 0 <= k < |files| ==> es[k] == Entry(files[k], 0, Uploading, None)
  {
    seq(|files|, k requires 0 <= k < |files| => Entry(files[k], 0, Uploading, None))
  }

  /** One firing of the progress interval for `f`. */
  function TickFile(es: seq<Entry>, f: DroppedFile): (r: seq<Entry>)
    ensures |r| == |es|
    ensures forall k :: 0 <= k < |es| && (es[k].file != f || es[k].status != Uploading) ==> r[k] == es[k]
    ensures forall k :: 0 <= k < |es| && es[k].file == f && es[k].status == Uploading ==>
      r[k] == es[k].(progress := Bumped(es[k].progress))
  {
    seq(|es|, k requires 0 <= k < |es| =>
      if es[k].file == f && es[k].status == Uploading then es[k].(progress := Bumped(es[k].progress)) else es[k])
  }

  /** `n` firings of the interval. */
  function Ticks(es: seq<Entry>, f: DroppedFile, n: nat): (r: seq<Entry>)
    ensures |r| == |es|
    decreases n
  {
    if n == 0 then es else TickFile(Ticks(es, f, n - 1), f)
  }

  /** The success update: every entry of `f` at 100, succeeded. */
  function SucceedFile(es: seq<Entry>, f: DroppedFile): (r: seq<Entry>)
    ensures |r| == |es|
    ensures forall k :: 0 <= k < |es| && es[k].file != f ==> r[k] == es[k]
    ensures forall k :: 0 <= k < |es| && es[k].file == f ==> r[k] == es[k].(progress := 100, status := Succeeded)
  {
    seq(|es|, k requires 0 <= k < |es| =>
      if es[k].file == f then es[k].(progress := 100, status := Succeeded) else es[k])
  }

  /** The failure update: every entry of `f` errored with `message`, its progress kept. */
  function FailFile(es: seq<Entry>, f: DroppedFile, message: string): (r: seq<Entry>)
    ensures |r| == |es|
    ensures forall k :: 0 <= k < |es| && es[k].file != f ==> r[k] == es[k]
    ensures forall k :: 0 <= k < |es| && es[k].file == f ==> r[k] == es[k].(status := Errored, error := Some(message))
  {
    seq(|es|, k requires 0 <= k < |es| =>
      if es[k].file == f then es[k].(status := Errored, error := Some(message)) else es[k])
  }

  /** `prev.filter((f) => f.file !== file)`. */
  function RemoveFile(es: seq<Entry>, f: DroppedFile): (r: seq<Entry>)
    ensures |r| <= |es|
    ensures forall k :: 0 <= k < |r| ==> r[k].file != f
    ensures forall k :: 0 <= k < |es| && es[k].file != f ==> es[k] in r
    ensures forall e :: e in r ==> e in es
  {
    if |es| == 0 then []
    else (if es[0].file == f then [] else [es[0]]) + RemoveFile(es[1..], f)
  }

  /** The entries after one file's upload: the interval fires, then success or failure. */
  function Step(es: seq<Entry>, f: DroppedFile, outcome: Outcome): (r: seq<Entry>)
    ensures |r| == |es|
  {
    var ticked := Ticks(es, f, outcome.ticks);
    if outcome.response.Accepted? then SucceedFile(ticked, f) else FailFile(ticked, f, FailureMessage(outcome.response))
  }

  /**
   * The progress bar's invariant: an uploading entry is between 0 and 90,
   * a succeeded one at 100.
   */
  ghost predicate WellFormed(es: seq<Entry>) {
    forall k :: 0 <= k < |es| ==>
      (es[k].status == Uploading ==> 0 <= es[k].progress <= 90) &&
      (es[k].status == Succeeded ==> es[k].progress == 100)
  }

  lemma FreshIsWellFormed(files: seq<DroppedFile>)
    ensures WellFormed(Fresh(files))
  {
  }

  /** Every update keeps the invariant: progress stays at most 90 until success sets 100. */
  lemma {:induction false} UpdatesKeepWellFormed(es: seq<Entry>, f: DroppedFile, n: nat, message: string)
    requires WellFormed(es)
    ensures WellFormed(TickFile(es, f))
    ensures WellFormed(Ticks(es, f, n))
    ensures WellFormed(SucceedFile(es, f))
    ensures WellFormed(FailFile(es, f, message))
    ensures WellFormed(RemoveFile(es, f))
    decreases n
  {
    if n > 0 {
      UpdatesKeepWellFormed(es, f, n - 1, message);
      UpdatesKeepWellFormed(Ticks(es, f, n - 1), f, 0, message);
    }
    RemoveKeepsWellFormed(es, f);
  }

  lemma {:induction false} RemoveKeepsWellFormed(es: seq<Entry>, f: DroppedFile)
    requires WellFormed(es)
    ensures WellFormed(RemoveFile(es, f))
    decreases |es|
  {
    if |es| > 0 {
      RemoveKeepsWellFormed(es[1..], f);
    }
  }

  /** A fresh entry reads `min(10 n, 90)` after `n` firings of the interval. */
  lemma {:induction false} ProgressCurve(file: DroppedFile, n: nat)
    ensures Ticks([Entry(file, 0, Uploading, None)], file, n)
         == [Entry(file, if 10 * n < 90 then 10 * n else 90, Uploading, None)]
    decreases n
  {
    if n > 0 {
      ProgressCurve(file, n - 1);
    }
  }

  /** Removal keeps the rest in order: it distributes over concatenation. */
  lemma {:induction false} RemoveFileAppend(a: seq<Entry>, b: seq<Entry>, f: DroppedFile)
    ensures RemoveFile(a + b, f) == RemoveFile(a, f) + RemoveFile(b, f)
    decreases |a|
  {
    if |a| == 0 {
      assert a + b == b;
    } else {
      assert (a + b)[1..] == a[1..] + b;
      RemoveFileAppend(a[1..], b, f);
    }
  }

  /** A list without entries for `f` is left as it is; so removing twice is removing once. */
  lemma {:induction false} RemoveFileOfAbsent(es: seq<Entry>, f: DroppedFile)
    requires forall k :: 0 <= k < |es| ==> es[k].file != f
    ensures RemoveFile(es, f) == es
    decreases |es|
  {
    if |es| > 0 {
      RemoveFileOfAbsent(es[1..], f);
    }
  }

  lemma RemoveFileIdempotent(es: seq<Entry>, f: DroppedFile)
    ensures RemoveFile(RemoveFile(es, f), f) == RemoveFile(es, f)
  {
    RemoveFileOfAbsent(RemoveFile(es, f), f);
  }
}

/**
 * components/ui/image-upload.tsx: `onDrop` filters the dropped files,
 * appends an entry for each valid one and uploads them one after another;
 * `removeFile` drops a file's entries. The `onUploadError` and
 * `onUploadComplete` callbacks are recorded as a list of notices, and the
 * forms posted to `/api/upload` as a list of forms.
 */
module MultiUpload {
  import opened Opt
  import opened Text
  import opened ImageUtils
  import opened UploadEntries
  import UploadRoute

  /** A file the dropzone refused, with its error messages. */
  datatype Rejection = Rejection(fileName: string, messages: seq<string>)

  /** A callback invocation: `onUploadComplete(data)` or `onUploadError(message)`. */
  datatype Notice = Completed(data: Option<UploadData>) | Failed(message: string)

  /** `errors.join('; ')` over `name: message, message, …`. */
  function RejectionText(rejected: seq<Rejection>): string {
    Join(seq(|rejected|, k requires 0 <= k < |rejected| =>
      rejected[k].fileName + ": " + Join(rejected[k].messages, ", ")), "; ")
  }

  /** The files `validateImageFile(file, maxSizeMB, acceptedTypes)` accepts, in order. */
  function ValidFiles(files: seq<DroppedFile>, maxSizeMB: int, types: seq<string>): (v: seq<DroppedFile>)
    ensures |v| <= |files|
    ensures forall k :: 0 <= k < |v| ==> v[k] in files && ValidateImageFile(v[k].info, maxSizeMB, types).Valid?
    ensures forall k :: 0 <= k < |files| && ValidateImageFile(files[k].info, maxSizeMB, types).Valid? ==> files[k] in v
  {
    if |files| == 0 then []
    else
      var last := files[|files| - 1];
      ValidFiles(files[..|files| - 1], maxSizeMB, types)
        + (if ValidateImageFile(last.info, maxSizeMB, types).Valid? then [last] else [])
  }

  /** One `onUploadError` per refused file, `name: error`, in order. */
  function InvalidNotices(files: seq<DroppedFile>, maxSizeMB: int, types: seq<string>): (ns: seq<Notice>)
    ensures |ns| + |ValidFiles(files, maxSizeMB, types)| == |files|
    ensures forall k :: 0 <= k < |ns| ==> ns[k].Failed?
  {
    if |files| == 0 then []
    else
      var last := files[|files| - 1];
      var v := ValidateImageFile(last.info, maxSizeMB, types);
      InvalidNotices(files[..|files| - 1], maxSizeMB, types)
        + (if v.Invalid? then [Failed(last.info.name + ": " + v.error)] else [])
  }

  /** The form for the `k`-th valid file; its `index` is its position. */
  function FormFor(file: DroppedFile, contentType: string, imageType: string, slug: string, k: nat): (form: UploadRoute.UploadForm)
    ensures form.index == Some(k) && form.file == Some(file.info)
    ensures contentType != "" && imageType != "" && slug != "" ==> !UploadRoute.MissingFields(form)
  {
    UploadRoute.UploadForm(Some(file.info), Some(contentType), Some(imageType), Some(slug), Some(k))
  }

  /** The forms posted for `files`, in order. */
  function Forms(files: seq<DroppedFile>, contentType: string, imageType: string, slug: string): (fs: seq<UploadRoute.UploadForm>)
    ensures |fs| == |files|
    ensures forall k :: 0 <= k < |files| ==> fs[k].index == Some(k) && fs[k].file == Some(files[k].info)
  {
    if |files| == 0 then []
    else
      Forms(files[..|files| - 1], contentType, imageType, slug)
        + [FormFor(files[|files| - 1], contentType, imageType, slug, |files| - 1)]
  }

  function StepNotice(outcome: Outcome): (n: Notice)
    ensures n.Completed? <==> outcome.response.Accepted?
  {
    if outcome.response.Accepted? then Completed(outcome.response.body.data) else Failed(FailureMessage(outcome.response))
  }

  /** The uploads of `files`, one after another; `respond(k)` is how the `k`-th went. */
  function Settle(es: seq<Entry>, files: seq<DroppedFile>, respond: nat -> Outcome): (r: seq<Entry>)
    ensures |r| == |es|
  {
    if |files| == 0 then es
    else Step(Settle(es, files[..|files| - 1], respond), files[|files| - 1], respond(|files| - 1))
  }

  function UploadNotices(files: seq<DroppedFile>, respond: nat -> Outcome): (ns: seq<Notice>)
    ensures |ns| == |files|
    ensures forall k :: 0 <= k < |files| ==> ns[k] == StepNotice(respond(k))
  {
    if |files| == 0 then [] else UploadNotices(files[..|files| - 1], respond) + [StepNotice(respond(|files| - 1))]
  }

  /** The uploads keep the progress invariant. */
  lemma {:induction false} SettleKeepsWellFormed(es: seq<Entry>, files: seq<DroppedFile>, respond: nat -> Outcome)
    requires WellFormed(es)
    ensures WellFormed(Settle(es, files, respond))
    decreases |files|
  {
    if |files| > 0 {
      var before := Settle(es, files[..|files| - 1], respond);
      var f := files[|files| - 1];
      var outcome := respond(|files| - 1);
      SettleKeepsWellFormed(es, files[..|files| - 1], respond);
      UpdatesKeepWellFormed(before, f, outcome.ticks, "");
      UpdatesKeepWellFormed(Ticks(before, f, outcome.ticks), f, 0, if outcome.response.Accepted? then "" else FailureMessage(outcome.response));
    }
  }

  /** Uploading other files leaves the entries of a file not among them untouched. */
  lemma {:induction false} SettleFrame(es: seq<Entry>, files: seq<DroppedFile>, respond: nat -> Outcome, k: nat)
    requires k < |es| && es[k].file !in files
    ensures Settle(es, files, respond)[k] == es[k]
    decreases |files|
  {
    if |files| > 0 {
      var f := files[|files| - 1];
      SettleFrame(es, files[..|files| - 1], respond, k);
      TicksFrame(Settle(es, files[..|files| - 1], respond), f, respond(|files| - 1).ticks, k);
    }
  }

  lemma {:induction false} TicksFrame(es: seq<Entry>, f: DroppedFile, n: nat, k: nat)
    requires k < |es| && es[k].file != f
    ensures Ticks(es, f, n)[k] == es[k]
    decreases n
  {
    if n > 0 {
      TicksFrame(es, f, n - 1, k);
    }
  }

  class MultiUploader {
    const contentType: string
    const imageType: string
    const slug: string
    const maxSizeMB: int
    const acceptedTypes: seq<string>
    var uploadingFiles: seq<Entry>
    /** The callbacks called so far. */
    var notices: seq<Notice>
    /** The forms posted to `/api/upload` so far. */
    var posted: seq<UploadRoute.UploadForm>

    /** The component's defaults are five megabytes and the four image types. */
    constructor (contentType: string, imageType: string, slug: string, maxSizeMB: Option<int>, acceptedTypes: Option<seq<string>>)
      ensures this.contentType == contentType && this.imageType == imageType && this.slug == slug
      ensures this.maxSizeMB == maxSizeMB.GetOr(DefaultMaxSizeMB)
      ensures this.acceptedTypes == acceptedTypes.GetOr(DefaultAllowedTypes)
      ensures uploadingFiles == [] && notices == [] && posted == []
    {
      this.contentType, this.imageType, this.slug := contentType, imageType, slug;
      this.maxSizeMB := maxSizeMB.GetOr(DefaultMaxSizeMB);
      this.acceptedTypes := acceptedTypes.GetOr(DefaultAllowedTypes);
      uploadingFiles, notices, posted := [], [], [];
    }

    /** `onDrop`: `respond(k)` is what the upload of the `k`-th valid file came to. */
    method OnDrop(accepted: seq<DroppedFile>, rejected: seq<Rejection>, respond: nat -> Outcome)
      modifies this
      ensures |rejected| > 0 ==>
        uploadingFiles == old(uploadingFiles) && posted == old(posted) &&
        notices == old(notices) + [Failed(RejectionText(rejected))]
      ensures |rejected| == 0 ==>
        var valid := ValidFiles(accepted, maxSizeMB, acceptedTypes);
        uploadingFiles == Settle(old(uploadingFiles) + Fresh(valid), valid, respond) &&
        notices == old(notices) + InvalidNotices(accepted, maxSizeMB, acceptedTypes) + UploadNotices(valid, respond) &&
        posted == old(posted) + Forms(valid, contentType, imageType, slug)
      ensures WellFormed(old(uploadingFiles)) ==> WellFormed(uploadingFiles)
    {
      if |rejected| > 0 {
        notices := notices + [Failed(RejectionText(rejected))];
        return;
      }
      var valid := FilterValid(accepted);
      if |valid| == 0 {
        assert old(uploadingFiles) + Fresh(valid) == old(uploadingFiles);
        assert Forms(valid, contentType, imageType, slug) == [];
        return;
      }
      uploadingFiles := uploadingFiles + Fresh(valid);
      if WellFormed(old(uploadingFiles)) {
        FreshIsWellFormed(valid);
        WellFormedAppend(old(uploadingFiles), Fresh(valid));
        SettleKeepsWellFormed(uploadingFiles, valid, respond);
      }
      UploadEach(valid, respond);
    }

    /** The `filter` of `onDrop`, reporting each refused file as it goes. */
    method FilterValid(accepted: seq<DroppedFile>) returns (valid: seq<DroppedFile>)
      modifies this
      ensures valid == ValidFiles(accepted, maxSizeMB, acceptedTypes)
      ensures notices == old(notices) + InvalidNotices(accepted, maxSizeMB, acceptedTypes)
      ensures uploadingFiles == old(uploadingFiles) && posted == old(posted)
    {
      valid := [];
      for i := 0 to |accepted|
        invariant valid == ValidFiles(accepted[..i], maxSizeMB, acceptedTypes)
        invariant notices == old(notices) + InvalidNotices(accepted[..i], maxSizeMB, acceptedTypes)
        invariant uploadingFiles == old(uploadingFiles) && posted == old(posted)
      {
        assert accepted[..i + 1][..i] == accepted[..i];
        var validation := ValidateImageFile(accepted[i].info, maxSizeMB, acceptedTypes);
        if validation.Invalid? {
          notices := notices + [Failed(accepted[i].info.name + ": " + validation.error)];
        } else {
          valid := valid + [accepted[i]];
        }
      }
      assert accepted[..|accepted|] == accepted;
    }

    /** The `for` loop of `onDrop`: the files are uploaded one after another, each with its position as `index`. */
    method UploadEach(valid: seq<DroppedFile>, respond: nat -> Outcome)
      modifies this
      ensures uploadingFiles == Settle(old(uploadingFiles), valid, respond)
      ensures notices == old(notices) + UploadNotices(valid, respond)
      ensures posted == old(posted) + Forms(valid, contentType, imageType, slug)
    {
      for i := 0 to |valid|
        invariant uploadingFiles == Settle(old(uploadingFiles), valid[..i], respond)
        invariant notices == old(notices) + UploadNotices(valid[..i], respond)
        invariant posted == old(posted) + Forms(valid[..i], contentType, imageType, slug)
      {
        var file := valid[i];
        ghost var done := valid[..i + 1];
        assert done[..i] == valid[..i] && done[i] == file;
        UploadOne(file, i, respond(i));
      }
      assert valid[..|valid|] == valid;
    }

    /** One pass of the upload loop: post the form, let the progress timer tick, then record the reply. */
    method UploadOne(file: DroppedFile, i: nat, outcome: Outcome)
      modifies this
      ensures uploadingFiles == Step(old(uploadingFiles), file, outcome)
      ensures notices == old(notices) + [StepNotice(outcome)]
      ensures posted == old(posted) + [FormFor(file, contentType, imageType, slug, i)]
    {
      posted := posted + [FormFor(file, contentType, imageType, slug, i)];
      uploadingFiles := Ticks(uploadingFiles, file, outcome.ticks);
      if outcome.response.Accepted? {
        uploadingFiles := SucceedFile(uploadingFiles, file);
        notices := notices + [Completed(outcome.response.body.data)];
      } else {
        var message := FailureMessage(outcome.response);
        uploadingFiles := FailFile(uploadingFiles, file, message);
        notices := notices + [Failed(message)];
      }
    }

    /** `removeFile(file)`, and the two-second timer after a success, which does the same. */
    method RemoveFile(file: DroppedFile)
      modifies this
      ensures uploadingFiles == UploadEntries.RemoveFile(old(uploadingFiles), file)
      ensures notices == old(notices) && posted == old(posted)
      ensures WellFormed(old(uploadingFiles)) ==> WellFormed(uploadingFiles)
    {
      uploadingFiles := UploadEntries.RemoveFile(uploadingFiles, file);
      if WellFormed(old(uploadingFiles)) {
        RemoveKeepsWellFormed(old(uploadingFiles), file);
      }
    }
  }

  lemma WellFormedAppend(a: seq<Entry>, b: seq<Entry>)
    requires WellFormed(a) && WellFormed(b)
    ensures WellFormed(a + b)
  {
    assert forall k :: 0 <= k < |a + b| ==> (a + b)[k] == if k < |a| then a[k] else b[k - |a|];
  }

  /** A single refused file is reported as its name, a colon and its messages joined by commas. */
  lemma SingleRejectionText(r: Rejection)
    ensures RejectionText([r]) == r.fileName + ": " + Join(r.messages, ", ")
  {
  }

  /** When every dropped file passes the component's own check, all are uploaded and none is reported. */
  lemma {:induction false} AllValidAllUploaded(files: seq<DroppedFile>, maxSizeMB: int, types: seq<string>)
    requires forall k :: 0 <= k < |files| ==> ValidateImageFile(files[k].info, maxSizeMB, types).Valid?
    ensures ValidFiles(files, maxSizeMB, types) == files
    ensures InvalidNotices(files, maxSizeMB, types) == []
    decreases |files|
  {
    if |files| > 0 {
      var init := files[..|files| - 1];
      assert forall k :: 0 <= k < |init| ==> init[k] == files[k];
      AllValidAllUploaded(init, maxSizeMB, types);
      assert init + [files[|files| - 1]] == files;
    }
  }
}
