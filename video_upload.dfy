/** The upload form (frontend/src/components/VideoUpload/VideoUpload.jsx): the file
    validator and the five state fields that selection, upload, its outcome and reset
    drive. The request itself is the client's; its outcome arrives as a settled result. */
module VideoUpload {
  import opened Wrappers
  import opened Text
  import ClientService

  // ---------------------------------------------------------------------------
  // Validation

  /** What the browser reports about a chosen file. */
  datatype FileInfo = FileInfo(name: string, mimeType: string, size: nat)

  const AcceptedVideoTypes: seq<string> :=
    ["video/mp4", "video/webm", "video/ogg", "video/quicktime", "video/x-msvideo"]

  /** The file-name extensions listed in the type error. */
  const AcceptedExtensions: seq<string> := ["mp4", "webm", "ogg", "mov", "avi"]

  const Gibibyte: nat := 1024 * 1024 * 1024

  /** 2 GiB in bytes. */
  const MaxFileSize: nat := 2 * Gibibyte

  const InvalidTypeMessage: string := "Invalid file type. Accepted formats: " + Join(AcceptedExtensions, ", ")
  const TooLargeMessage: string := "File size exceeds maximum limit of " + NatToString(MaxFileSize / Gibibyte) + "GB"
  const EmptyFileMessage: string := "File is empty"

  /** The message shown when a failed upload carries none. */
  const UploadFailedMessage: string := "Upload failed. Please try again."

  /** A file the form accepts: a listed type and a size in (0, 2 GiB]. */
  predicate Acceptable(f: FileInfo) {
    f.mimeType in AcceptedVideoTypes && 0 < f.size <= MaxFileSize
  }

  /** `validateFile`: the type is checked first, then the upper size limit, then
      emptiness; the first failing check decides the message. */
  function ValidateFile(f: FileInfo): (r: Result<(), string>)
    ensures r.Ok? <==> Acceptable(f)
    ensures r.Err? ==> r.error in {InvalidTypeMessage, TooLargeMessage, EmptyFileMessage}
  {
    if f.mimeType !in AcceptedVideoTypes then Err(InvalidTypeMessage)
    else if f.size > MaxFileSize then Err(TooLargeMessage)
    else if f.size == 0 then Err(EmptyFileMessage)
    else Ok(())
  }

  /** Which check wins: a file of the wrong type always gets the type message,
      whatever its size; an empty file is always rejected. */
  lemma ValidationMessages(f: FileInfo)
    ensures f.mimeType !in AcceptedVideoTypes ==> ValidateFile(f) == Err(InvalidTypeMessage)
    ensures f.mimeType in AcceptedVideoTypes && f.size > MaxFileSize ==> ValidateFile(f) == Err(TooLargeMessage)
    ensures f.mimeType in AcceptedVideoTypes && f.size == 0 ==> ValidateFile(f) == Err(EmptyFileMessage)
    ensures f.size == 0 ==> ValidateFile(f).Err?
  {
  }

  /** The type message, in full. */
  lemma InvalidTypeText()
    ensures InvalidTypeMessage == "Invalid file type. Accepted formats: mp4, webm, ogg, mov, avi"
  {
    ExtensionList();
    TypeMessageText("Invalid file type. Accepted formats: ", "mp4, webm, ogg, mov, avi");
  }

  lemma TypeMessageText(prefix: string, list: string)
    requires prefix == "Invalid file type. Accepted formats: " && list == "mp4, webm, ogg, mov, avi"
    ensures prefix + list == "Invalid file type. Accepted formats: mp4, webm, ogg, mov, avi"
  {
    assert |prefix + list| == 61;
    forall i | 0 <= i < 61
      ensures (prefix + list)[i] == "Invalid file type. Accepted formats: mp4, webm, ogg, mov, avi"[i]
    {
    }
  }

  /** The size message, in full. */
  lemma TooLargeText()
    ensures TooLargeMessage == "File size exceeds maximum limit of 2GB"
  {
    assert MaxFileSize / Gibibyte == 2;
    assert NatToString(2) == "2";
  }

  /** The extensions as the type error lists them. */
  lemma ExtensionList()
    ensures Join(AcceptedExtensions, ", ") == "mp4, webm, ogg, mov, avi"
  {
    JoinFive("mp4", "webm", "ogg", "mov", "avi", ", ");
  }

  lemma JoinFive(a: string, b: string, c: string, d: string, e: string, sep: string)
    ensures Join([a, b, c, d, e], sep) == a + sep + b + sep + c + sep + d + sep + e
  {
    JoinCons(d, [e], sep);
    assert [d, e] == [d] + [e];
    JoinCons(c, [d, e], sep);
    assert [c, d, e] == [c] + [d, e];
    JoinCons(b, [c, d, e], sep);
    assert [b, c, d, e] == [b] + [c, d, e];
    JoinCons(a, [b, c, d, e], sep);
    assert [a, b, c, d, e] == [a] + [b, c, d, e];
  }

  /** The size limit is inclusive: exactly 2 GiB passes, one byte more fails. */
  lemma SizeBoundary(mimeType: string, name: string)
    requires mimeType in AcceptedVideoTypes
    ensures ValidateFile(FileInfo(name, mimeType, 2147483648)).Ok?
    ensures ValidateFile(FileInfo(name, mimeType, 2147483649)) == Err(TooLargeMessage)
  {
  }

  // ---------------------------------------------------------------------------
  // The form's state

  /** `uploadStatus`: `null`, `"success"` or `"error"`. */
  datatype Status = NoStatus | Succeeded | Failed

  /** A call of a callback the page passed in. */
  datatype Notice = ErrorNotice(message: string) | SuccessNotice(reply: ClientService.UploadReply)

  /** The form's five state fields, plus which callbacks were passed and the log of
      their calls. */
  class UploadSession {
    var selectedFile: Option<FileInfo>
    var uploadProgress: real
    var isUploading: bool
    var uploadStatus: Status
    var errorMessage: string
    const hasOnUploadSuccess: bool
    const hasOnUploadError: bool
    var notices: seq<Notice>

    /** What every transition keeps: success shows a full bar and a selected file; an
        error message is shown exactly with the error status; a selected file passed
        validation; an upload in flight has a file and no status. */
    ghost predicate Valid()
      reads this
    {
      && (uploadStatus == Succeeded ==> uploadProgress == 100.0 && !isUploading && selectedFile.Some?)
      && (errorMessage != "" <==> uploadStatus == Failed)
      && (uploadStatus == Failed ==> !isUploading)
      && (selectedFile.Some? ==> Acceptable(selectedFile.value))
      && (isUploading ==> selectedFile.Some? && uploadStatus == NoStatus)
    }

    /** The `useState` initial values. */
    ghost predicate Initial()
      reads this
    {
      selectedFile == None && uploadProgress == 0.0 && !isUploading
      && uploadStatus == NoStatus && errorMessage == ""
    }

    constructor (hasOnUploadSuccess: bool, hasOnUploadError: bool)
      ensures Initial() && Valid() && notices == []
      ensures this.hasOnUploadSuccess == hasOnUploadSuccess && this.hasOnUploadError == hasOnUploadError
    {
      selectedFile, uploadProgress, isUploading := None, 0.0, false;
      uploadStatus, errorMessage := NoStatus, "";
      this.hasOnUploadSuccess, this.hasOnUploadError := hasOnUploadSuccess, hasOnUploadError;
      notices := [];
    }

    /** `handleFileSelect`: an accepted file is selected and the status, message and
        progress are cleared; a rejected one clears the selection, shows the validator's
        message and reports it. */
    method SelectFile(f: FileInfo)
      requires Valid() && !isUploading
      modifies this
      ensures Valid() && !isUploading
      ensures ValidateFile(f).Ok? ==>
                selectedFile == Some(f) && uploadStatus == NoStatus && errorMessage == ""
                && uploadProgress == 0.0 && notices == old(notices)
      ensures ValidateFile(f).Err? ==>
                selectedFile == None && uploadStatus == Failed && errorMessage == ValidateFile(f).error
                && uploadProgress == old(uploadProgress)
                && notices == old(notices) + (if hasOnUploadError then [ErrorNotice(errorMessage)] else [])
    {
      var check := ValidateFile(f);
      if check.Ok? {
        selectedFile := Some(f);
        uploadStatus := NoStatus;
        errorMessage := "";
        uploadProgress := 0.0;
      } else {
        errorMessage := check.error;
        uploadStatus := Failed;
        selectedFile := None;
        if hasOnUploadError {
          notices := notices + [ErrorNotice(check.error)];
        }
      }
    }

    /** `handleUpload` up to the request: nothing happens without a selected file;
        otherwise the form enters the uploading state with a cleared status, message and
        progress. */
    method StartUpload() returns (started: bool)
      requires Valid() && !isUploading
      modifies this
      ensures Valid() && started == old(selectedFile).Some? && notices == old(notices)
      ensures !started ==> selectedFile == old(selectedFile) && uploadProgress == old(uploadProgress)
                           && !isUploading && uploadStatus == old(uploadStatus) && errorMessage == old(errorMessage)
      ensures started ==> selectedFile == old(selectedFile) && isUploading && uploadStatus == NoStatus
                          && errorMessage == "" && uploadProgress == 0.0
    {
      if selectedFile.None? {
        return false;
      }
      isUploading := true;
      uploadStatus := NoStatus;
      errorMessage := "";
      uploadProgress := 0.0;
      started := true;
    }

    /** The progress callback: the bar shows whatever percentage is reported. */
    method ReportProgress(percent: real)
      requires Valid() && isUploading
      modifies this`uploadProgress
      ensures Valid() && uploadProgress == percent
    {
      uploadProgress := percent;
    }

    /** The request resolved: success with a full bar, then the success callback. */
    method UploadSucceeded(reply: ClientService.UploadReply)
      requires Valid() && isUploading
      modifies this
      ensures Valid()
      ensures uploadStatus == Succeeded && uploadProgress == 100.0 && !isUploading
      ensures selectedFile == old(selectedFile) && errorMessage == ""
      ensures notices == old(notices) + (if hasOnUploadSuccess then [SuccessNotice(reply)] else [])
    {
      uploadStatus := Succeeded;
      uploadProgress := 100.0;
      if hasOnUploadSuccess {
        notices := notices + [SuccessNotice(reply)];
      }
      isUploading := false;
    }

    /** The request rejected with `message` (`""` for none): the error state with an
        empty bar, then the error callback. */
    method UploadFailed(message: string)
      requires Valid() && isUploading
      modifies this
      ensures Valid()
      ensures uploadStatus == Failed && uploadProgress == 0.0 && !isUploading
      ensures errorMessage == (if message != "" then message else UploadFailedMessage)
      ensures selectedFile == old(selectedFile)
      ensures notices == old(notices) + (if hasOnUploadError then [ErrorNotice(errorMessage)] else [])
    {
      var shown := if message != "" then message else UploadFailedMessage;
      errorMessage := shown;
      uploadStatus := Failed;
      uploadProgress := 0.0;
      if hasOnUploadError {
        notices := notices + [ErrorNotice(shown)];
      }
      isUploading := false;
    }

    /** The request settled as the client decides it: a reply means success, any
        rejection shows the client's message. */
    method UploadSettled(outcome: ClientService.RequestOutcome)
      requires Valid() && isUploading
      modifies this
      ensures Valid() && !isUploading && selectedFile == old(selectedFile)
      ensures match ClientService.SettleUpload(outcome)
              case Ok(reply) => uploadStatus == Succeeded && uploadProgress == 100.0
                                && notices == old(notices) + (if hasOnUploadSuccess then [SuccessNotice(reply)] else [])
              case Err(message) => uploadStatus == Failed && uploadProgress == 0.0 && errorMessage == message
                                   && notices == old(notices) + (if hasOnUploadError then [ErrorNotice(message)] else [])
    {
      match ClientService.SettleUpload(outcome)
      case Ok(reply) => UploadSucceeded(reply);
      case Err(message) => UploadFailed(message);
    }

    /** `handleReset`: all five fields back to their initial values. */
    method Reset()
      modifies this
      ensures Initial() && Valid() && notices == old(notices)
    {
      selectedFile := None;
      uploadProgress := 0.0;
      uploadStatus := NoStatus;
      errorMessage := "";
      isUploading := false;
    }
  }

  /** Choosing an acceptable file and uploading it successfully ends in the success state
      with a full bar and one success notice. */
  method SelectAndUpload(s: UploadSession, f: FileInfo, reply: ClientService.UploadReply)
    requires s.Initial() && s.Valid() && Acceptable(f) && s.hasOnUploadSuccess
    modifies s
    ensures s.uploadStatus == Succeeded && s.uploadProgress == 100.0 && s.selectedFile == Some(f)
    ensures s.notices == old(s.notices) + [SuccessNotice(reply)]
  {
    s.SelectFile(f);
    var started := s.StartUpload();
    s.ReportProgress(42.0);
    s.UploadSucceeded(reply);
  }
}
