/**
 * The resume drop zone (frontend/src/components/UploadBox.jsx). Which dropped files the
 * dropzone library rejects (wrong type, over the size limit) is its own business and
 * arrives here as input; this module decides what the component does with that
 * verdict: which file it hands to the page, and which toast it shows.
 */
module UploadBox {
  import opened Wrappers

  /** `MAX_FILE_SIZE`: five mebibytes. */
  const MaxFileSize: nat := 5 * 1024 * 1024

  const InvalidTypeMessage := "Please upload a PDF file only"
  const TooLargeMessage := "File size must be less than 5MB"
  const UploadedMessage := "File uploaded successfully"
  const RemovedMessage := "File removed"

  /** A dropped file: its name and its size in bytes. */
  datatype FileInfo = FileInfo(name: string, size: nat)

  /** An error of a rejection, carrying react-dropzone's `code` string; only two codes
      are looked at. */
  datatype ErrorCode = ErrorCode(code: string)

  const InvalidTypeCode := "file-invalid-type"
  const TooLargeCode := "file-too-large"
  const FileInvalidType := ErrorCode(InvalidTypeCode)
  const FileTooLarge := ErrorCode(TooLargeCode)

  datatype Rejection = Rejection(errors: seq<ErrorCode>)

  datatype Toast = ErrorToast(message: string) | SuccessToast(message: string)

  /** What the component asks of the page's `setFile`: nothing, a new file, or none. */
  datatype FileUpdate = Keep | Store(file: FileInfo) | Clear

  datatype Outcome = Outcome(update: FileUpdate, toast: Option<Toast>)

  /** The page's file after an update. */
  function Apply(current: Option<FileInfo>, update: FileUpdate): (next: Option<FileInfo>)
    ensures update.Keep? ==> next == current
    ensures update.Store? ==> next == Some(update.file)
    ensures update.Clear? ==> next == None
  {
    match update
    case Keep => current
    case Store(f) => Some(f)
    case Clear => None
  }

  /** `onDrop(acceptedFiles, rejectedFiles)`. */
  function OnDrop(accepted: seq<FileInfo>, rejected: seq<Rejection>): (o: Outcome)
    // any rejection: nothing is stored; the first rejection decides the toast, the
    // wrong-type message winning over the size message, and no toast for other codes
    ensures rejected != [] ==> o.update == Keep
    ensures rejected != [] && FileInvalidType in rejected[0].errors ==>
      o.toast == Some(ErrorToast(InvalidTypeMessage))
    ensures rejected != [] && FileInvalidType !in rejected[0].errors && FileTooLarge in rejected[0].errors ==>
      o.toast == Some(ErrorToast(TooLargeMessage))
    ensures rejected != [] && FileInvalidType !in rejected[0].errors && FileTooLarge !in rejected[0].errors ==>
      o.toast == None
    // no rejection: the first accepted file is stored exactly when it fits the limit
    ensures rejected == [] && accepted == [] ==> o == Outcome(Keep, None)
    ensures rejected == [] && accepted != [] && accepted[0].size > MaxFileSize ==>
      o == Outcome(Keep, Some(ErrorToast(TooLargeMessage)))
    ensures rejected == [] && accepted != [] && accepted[0].size <= MaxFileSize ==>
      o == Outcome(Store(accepted[0]), Some(SuccessToast(UploadedMessage)))
  {
    if |rejected| > 0 then
      var rejection := rejected[0];
      if FileInvalidType in rejection.errors then Outcome(Keep, Some(ErrorToast(InvalidTypeMessage)))
      else if FileTooLarge in rejection.errors then Outcome(Keep, Some(ErrorToast(TooLargeMessage)))
      else Outcome(Keep, None)
    else if |accepted| > 0 then
      var selected := accepted[0];
      if selected.size > MaxFileSize then Outcome(Keep, Some(ErrorToast(TooLargeMessage)))
      else Outcome(Store(selected), Some(SuccessToast(UploadedMessage)))
    else
      Outcome(Keep, None)
  }

  /** `handleRemoveFile`: the page's file is cleared. */
  function OnRemove(): (o: Outcome)
    ensures o.update == Clear && o.toast == Some(SuccessToast(RemovedMessage))
  {
    Outcome(Clear, Some(SuccessToast(RemovedMessage)))
  }

  /** A drop never clears the file, and only ever stores a file that was accepted,
      comes first, and is within the limit; the success toast comes with it and only
      with it. */
  lemma DropStoresOnlyFittingFiles(accepted: seq<FileInfo>, rejected: seq<Rejection>)
    ensures !OnDrop(accepted, rejected).update.Clear?
    ensures OnDrop(accepted, rejected).update.Store? <==>
      rejected == [] && accepted != [] && accepted[0].size <= MaxFileSize
    ensures OnDrop(accepted, rejected).update.Store? ==>
      OnDrop(accepted, rejected).update.file == accepted[0] && accepted[0].size <= 5242880
    ensures OnDrop(accepted, rejected).toast == Some(SuccessToast(UploadedMessage)) <==>
      OnDrop(accepted, rejected).update.Store?
  {
  }

  /** The limit is inclusive: a file of exactly five mebibytes is taken, one byte more
      is refused with the size message. */
  lemma LimitIsInclusive(name: string)
    ensures OnDrop([FileInfo(name, 5242880)], []).update == Store(FileInfo(name, 5242880))
    ensures OnDrop([FileInfo(name, 5242881)], []).toast == Some(ErrorToast(TooLargeMessage))
  {
  }

  /** Only the first dropped file matters. */
  lemma OnlyFirstFileMatters(first: FileInfo, rest: seq<FileInfo>, rest': seq<FileInfo>)
    ensures OnDrop([first] + rest, []) == OnDrop([first] + rest', [])
  {
  }
}
