/** The `ImageUpload` component of components/image-upload.tsx: the checks a
    chosen file must pass before it is sent, the `error` and `uploading` state
    those checks and the upload drive, the remove button, and which file of a
    drop or a file-input change is taken. The upload request itself is a
    parameter: its outcome is whatever the network answered. */
module ImageUpload {
  import opened Wrappers
  import Text

  /** 5 MiB, the largest accepted file size in bytes. */
  const MaxImageBytes: nat := 5 * 1024 * 1024

  const NotAnImageMessage := "Please select an image file"
  const TooLargeMessage := "Image must be less than 5MB"
  const UploadFailedMessage := "Failed to upload image. Please try again."

  /** What the component reads of a `File`: its MIME type and its size in bytes. */
  datatype FileInfo = FileInfo(mimeType: string, size: nat)

  datatype Verdict = Accepted | Rejected(message: string)

  /** What the upload request ended with: the stored image's URL, or any failure
      (a non-ok response, a network error, an unreadable body). */
  datatype UploadOutcome = Uploaded(url: string) | UploadFailed

  /** The two checks at the start of `handleUpload`: the type is checked first,
      so a large file that is not an image gets the type message; a file of
      exactly 5 MiB passes. */
  function Validate(file: FileInfo): (v: Verdict)
    ensures v.Accepted? <==> Text.StartsWith(file.mimeType, "image/") && file.size <= MaxImageBytes
    ensures !Text.StartsWith(file.mimeType, "image/") ==> v == Rejected(NotAnImageMessage)
    ensures Text.StartsWith(file.mimeType, "image/") && file.size > MaxImageBytes ==> v == Rejected(TooLargeMessage)
  {
    if !Text.StartsWith(file.mimeType, "image/") then Rejected(NotAnImageMessage)
    else if file.size > MaxImageBytes then Rejected(TooLargeMessage)
    else Accepted
  }

  /** `files[0]` of a drop or of the file input: the first file, if any. */
  function FirstFile(files: seq<FileInfo>): (r: Option<FileInfo>)
    ensures r.None? <==> files == []
    ensures r.Some? ==> r.value == files[0]
  {
    if files == [] then None else Some(files[0])
  }

  /** The component's state together with the `value` prop its parent keeps
      in step through `onChange`. */
  class Widget {
    var value: Option<string>
    var error: Option<string>
    var uploading: bool

    constructor (value: Option<string>)
      ensures this.value == value && error == None && !uploading
    {
      this.value := value;
      error := None;
      uploading := false;
    }

    /** The synchronous part of `handleUpload`: a rejected file only sets the
        error; an accepted one clears it and marks the upload as running.
        Returns whether the request is sent. */
    method StartUpload(file: FileInfo) returns (started: bool)
      modifies this
      ensures started <==> Validate(file).Accepted?
      ensures !started ==> error == Some(Validate(file).message) && uploading == old(uploading)
      ensures started ==> error == None && uploading
      ensures value == old(value)
    {
      var verdict := Validate(file);
      if verdict.Rejected? {
        error := Some(verdict.message);
        return false;
      }
      error := None;
      uploading := true;
      return true;
    }

    /** The end of `handleUpload`: a successful request hands the URL to the
        parent, a failed one sets the error, and `finally` clears `uploading`
        either way. */
    method FinishUpload(outcome: UploadOutcome)
      modifies this
      ensures !uploading
      ensures outcome.Uploaded? ==> value == Some(outcome.url) && error == old(error)
      ensures outcome.UploadFailed? ==> value == old(value) && error == Some(UploadFailedMessage)
    {
      if outcome.Uploaded? {
        value := Some(outcome.url);
      } else {
        error := Some(UploadFailedMessage);
      }
      uploading := false;
    }

    /** `handleUpload(file)`, with `outcome` the answer of the request it sends
        when the file passes both checks. A rejected file never reaches
        `onChange`. */
    method HandleUpload(file: FileInfo, outcome: UploadOutcome)
      modifies this
      ensures Validate(file).Rejected? ==>
        value == old(value) && error == Some(Validate(file).message) && uploading == old(uploading)
      ensures Validate(file).Accepted? ==> !uploading
      ensures Validate(file).Accepted? && outcome.Uploaded? ==> value == Some(outcome.url) && error == None
      ensures Validate(file).Accepted? && outcome.UploadFailed? ==>
        value == old(value) && error == Some(UploadFailedMessage)
    {
      var started := StartUpload(file);
      if started {
        FinishUpload(outcome);
      }
    }

    /** `handleDrop` and the file input's `onChange`: only the first file is
        uploaded, and an empty selection does nothing. */
    method HandleFiles(files: seq<FileInfo>, outcome: UploadOutcome)
      modifies this
      ensures files == [] ==> value == old(value) && error == old(error) && uploading == old(uploading)
      ensures files != [] && Validate(files[0]).Rejected? ==>
        value == old(value) && error == Some(Validate(files[0]).message) && uploading == old(uploading)
      ensures files != [] && Validate(files[0]).Accepted? && outcome.Uploaded? ==>
        value == Some(outcome.url) && error == None && !uploading
      ensures files != [] && Validate(files[0]).Accepted? && outcome.UploadFailed? ==>
        value == old(value) && error == Some(UploadFailedMessage) && !uploading
    {
      var first := FirstFile(files);
      if first.Some? {
        HandleUpload(first.value, outcome);
      }
    }

    /** The remove button: `onChange(null)`. */
    method Remove()
      modifies this
      ensures value == None && error == old(error) && uploading == old(uploading)
    {
      value := None;
    }
  }
}
