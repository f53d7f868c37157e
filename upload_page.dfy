/** The dataset-upload page (`UploadDatasetPage.handleUpload`,
    frontend/src/App.jsx:510-538): a NIM and a set of image files posted to
    `/upload-dataset` in one request. */
module UploadPage {
  import opened Json
  import opened Wrappers
  import opened Http

  /** The body posted to `/upload-dataset`. */
  datatype UploadRequest = UploadRequest(nim: string, images: seq<string>)

  /** The alerts the page shows. */
  datatype Notice = Incomplete | Uploaded | ServerError(message: Prop) | ConnectionError

  class UploadDatasetPage {
    var nim: string
    /** The chosen files, each as the data URL its reader produces. */
    var files: seq<string>
    var uploading: bool

    constructor ()
      ensures nim == "" && files == [] && !uploading
    {
      nim, files, uploading := "", [], false;
    }

    /** The NIM input; it stays enabled while an upload is in flight. */
    method EditNim(s: string)
      modifies this`nim
      ensures nim == s
    {
      nim := s;
    }

    /** The file input (`multiple`): a new choice replaces the previous one,
        and it too stays enabled while an upload is in flight. */
    method SelectFiles(chosen: seq<string>)
      modifies this`files
      ensures files == chosen
    {
      files := chosen;
    }

    /** The part of `handleUpload` before the request is awaited. The upload
        button is disabled while uploading. Without files or without a NIM it
        only alerts and sends nothing. */
    method StartUpload() returns (request: Option<UploadRequest>, notice: Option<Notice>)
      requires !uploading
      modifies this`uploading
      ensures request.None? <==> files == [] || nim == ""
      ensures request.None? ==> notice == Some(Incomplete) && !uploading
      ensures request.Some? ==>
        request.value == UploadRequest(nim, files) && notice.None? && uploading
    {
      if |files| == 0 || nim == "" {
        return None, Some(Incomplete);
      }
      uploading := true;
      request, notice := Some(UploadRequest(nim, files)), None;
    }

    /** The part of `handleUpload` after the request settles: success clears
        the form; a failure keeps it; the busy flag is cleared on every path. */
    method FinishUpload(reply: Transport) returns (notice: Notice)
      requires uploading
      modifies this
      ensures !uploading
      ensures Read(reply).Succeeded? ==> nim == "" && files == [] && notice == Uploaded
      ensures !Read(reply).Succeeded? ==> nim == old(nim) && files == old(files)
      ensures Read(reply).Refused? ==> notice == ServerError(MessageOf(Read(reply).body))
      ensures Read(reply).Broken? ==> notice == ConnectionError
    {
      match Read(reply) {
        case Succeeded(_) =>
          notice := Uploaded;
          files := [];
          nim := "";
        case Refused(body) =>
          notice := ServerError(MessageOf(body));
        case Broken =>
          notice := ConnectionError;
      }
      uploading := false;
    }
  }
}
