/**
 * components/ui/simple-image-upload.tsx: a single-file uploader. Its form
 * carries only the file, and a success hands the stored URL to `onChange`;
 * the calls of `onChange` are recorded as a list.
 */
module SingleUpload {
  import opened Opt
  import opened ImageUtils
  import opened UploadEntries
  import UploadRoute

  /** `result.url || result.data?.url || ''`. */
  function ResultUrl(body: ResultBody): (url: string)
    ensures body.url.Some? && body.url.value != "" ==> url == body.url.value
    ensures (body.url.None? || body.url.value == "") && body.data.Some? ==> url == body.data.value.url
    ensures (body.url.None? || body.url.value == "") && body.data.None? ==> url == ""
  {
    if body.url.Some? && body.url.value != "" then body.url.value
    else if body.data.Some? && body.data.value.url != "" then body.data.value.url
    else ""
  }

  /**
   * The form this component posts: the file and nothing else. The upload
   * route demands `type`, `imageType` and `slug` as well, so it answers every
   * such form with 400 and writes nothing.
   */
  function FormOf(file: DroppedFile): (form: UploadRoute.UploadForm)
    ensures form.file == Some(file.info)
    ensures UploadRoute.MissingFields(form)
  {
    UploadRoute.UploadForm(Some(file.info), None, None, None, None)
  }

  /** The route's body on success, as this component reads it: `url` sits under `data`. */
  function BodyOf(reply: UploadRoute.UploadReply): ResultBody
    requires reply.Uploaded?
  {
    ResultBody(None, Some(UploadData(reply.url, reply.filename, reply.size, reply.imageType)))
  }

  /** Against the real upload route the stored URL is the one `onChange` receives. */
  lemma RouteUrlReachesOnChange(reply: UploadRoute.UploadReply)
    requires reply.Uploaded?
    ensures ResultUrl(BodyOf(reply)) == reply.url
  {
  }

  class SingleUploader {
    var uploadingFiles: seq<Entry>
    /** The values `onChange` has been called with. */
    var changes: seq<string>
    /** The forms posted to `/api/upload`. */
    var posted: seq<UploadRoute.UploadForm>

    constructor ()
      ensures uploadingFiles == [] && changes == [] && posted == []
    {
      uploadingFiles, changes, posted := [], [], [];
    }

    /** `onDrop`: `outcome` is how the upload of the first accepted file went. */
    method OnDrop(accepted: seq<DroppedFile>, rejectedCount: nat, outcome: Outcome)
      modifies this
      ensures rejectedCount > 0 || |accepted| == 0 ==>
        uploadingFiles == old(uploadingFiles) && changes == old(changes) && posted == old(posted)
      ensures rejectedCount == 0 && |accepted| > 0 ==>
        var file := accepted[0];
        posted == old(posted) + [FormOf(file)] &&
        uploadingFiles == Step([Entry(file, 0, Uploading, None)], file, outcome) &&
        changes == old(changes) + (if outcome.response.Accepted? then [ResultUrl(outcome.response.body)] else [])
      ensures |old(uploadingFiles)| <= 1 ==> |uploadingFiles| <= 1
    {
      if rejectedCount > 0 || |accepted| == 0 {
        return;
      }
      var file := accepted[0];
      uploadingFiles := [Entry(file, 0, Uploading, None)];
      posted := posted + [FormOf(file)];
      uploadingFiles := Ticks(uploadingFiles, file, outcome.ticks);
      if outcome.response.Accepted? {
        uploadingFiles := SucceedFile(uploadingFiles, file);
        changes := changes + [ResultUrl(outcome.response.body)];
      } else {
        uploadingFiles := FailFile(uploadingFiles, file, FailureMessage(outcome.response));
      }
    }

    /** `removeFile`, and the two-second timer after a success: the list is emptied. */
    method RemoveFile()
      modifies this
      ensures uploadingFiles == [] && changes == old(changes) && posted == old(posted)
    {
      uploadingFiles := [];
    }

    /** `clearImage`: `onChange('')`, the list untouched. */
    method ClearImage()
      modifies this
      ensures changes == old(changes) + [""]
      ensures uploadingFiles == old(uploadingFiles) && posted == old(posted)
    {
      changes := changes + [""];
    }
  }

  /** After a drop the single entry reads at most 90 while uploading and exactly 100 on success; a failure keeps the bar where it stopped. */
  lemma {:induction false} SingleEntryOutcome(file: DroppedFile, outcome: Outcome)
    ensures var r := Step([Entry(file, 0, Uploading, None)], file, outcome);
      var p := if 10 * outcome.ticks < 90 then 10 * outcome.ticks else 90;
      |r| == 1 &&
      (outcome.response.Accepted? ==> r[0] == Entry(file, 100, Succeeded, None)) &&
      (!outcome.response.Accepted? ==> r[0] == Entry(file, p, Errored, Some(FailureMessage(outcome.response))))
  {
    ProgressCurve(file, outcome.ticks);
  }
}
